/**
 The prefix-completion hash table of the MariaDB client: every prefix of every word has a bucket listing
 the words that start with it, newest first.  A bucket chain is a sequence.  The hash function is a
 parameter: nothing depends on which one it is.
 */
module CompletionTable {
  import opened Optional

  datatype Bucket = Bucket(h: nat, key: string, data: seq<string>, count: nat)

  /** One successful call of completion_hash_update. */
  datatype Entry = Entry(key: string, word: string)

  // ---------- the plain word list ----------

  /** The words entered under a key, newest first. */
  function Matches(log: seq<Entry>, key: string): seq<string> {
    if log == [] then []
    else
      var n := |log| - 1;
      (if log[n].key == key then [log[n].word] else []) + Matches(log[..n], key)
  }

  /** The words with a prefix, newest first, as often as they were added. */
  function WithPrefix(words: seq<string>, key: string): (r: seq<string>)
    ensures forall w :: w in r ==> w in words && key <= w
  {
    if words == [] then []
    else
      var n := |words| - 1;
      (if key <= words[n] then [words[n]] else []) + WithPrefix(words[..n], key)
  }

  /** What adding a word enters: the word under each of its non-empty prefixes. */
  function WordEntries(word: string, n: nat): (r: seq<Entry>)
    requires n <= |word|
  {
    if n == 0 then [] else WordEntries(word, n - 1) + [Entry(word[..n], word)]
  }

  function LogOf(words: seq<string>): seq<Entry> {
    if words == [] then []
    else LogOf(words[..|words| - 1]) + WordEntries(words[|words| - 1], |words[|words| - 1]|)
  }

  lemma {:induction false} MatchesOfWord(word: string, n: nat, key: string)
    requires n <= |word|
    ensures Matches(WordEntries(word, n), key) == if 0 < |key| <= n && key <= word then [word] else []
  {
    if n > 0 {
      var log := WordEntries(word, n);
      assert log[..|log| - 1] == WordEntries(word, n - 1);
      MatchesOfWord(word, n - 1, key);
      assert key == word[..n] <==> |key| == n && key <= word;
    }
  }

  lemma MatchesOfSnoc(log: seq<Entry>, e: Entry, key: string)
    ensures Matches(log + [e], key) == (if e.key == key then [e.word] else []) + Matches(log, key)
  {
    assert (log + [e])[..|log|] == log;
  }

  lemma MatchesOfConcatSnoc(a: seq<Entry>, b: seq<Entry>, e: Entry, key: string)
    requires Matches(a + b, key) == Matches(b, key) + Matches(a, key)
    ensures Matches(a + (b + [e]), key) == Matches(b + [e], key) + Matches(a, key)
  {
    hide Matches;
    MatchesOfSnoc(a + b, e, key);
    MatchesOfSnoc(b, e, key);
    assert a + (b + [e]) == a + b + [e];
  }

  lemma {:induction false} MatchesOfConcat(a: seq<Entry>, b: seq<Entry>, key: string)
    ensures Matches(a + b, key) == Matches(b, key) + Matches(a, key)
  {
    if b == [] {
      assert a + b == a;
    } else {
      hide Matches;
      var n := |b| - 1;
      MatchesOfConcat(a, b[..n], key);
      MatchesOfConcatSnoc(a, b[..n], b[n], key);
      assert b[..n] + [b[n]] == b;
    }
  }

  /** After any sequence of add_word the words under a non-empty key are exactly the added words with that
      prefix, with multiplicity. */
  lemma {:induction false} MatchesAreWords(words: seq<string>, key: string)
    requires key != []
    ensures Matches(LogOf(words), key) == WithPrefix(words, key)
  {
    if words != [] {
      var n := |words| - 1;
      MatchesAreWords(words[..n], key);
      MatchesOfWord(words[n], |words[n]|, key);
      MatchesOfConcat(LogOf(words[..n]), WordEntries(words[n], |words[n]|), key);
    }
  }

  lemma LogOfSnoc(words: seq<string>, word: string)
    ensures LogOf(words + [word]) == LogOf(words) + WordEntries(word, |word|)
  {
    assert (words + [word])[..|words|] == words;
  }

  // ---------- the table ----------

  ghost predicate BucketAt(chains: seq<seq<Bucket>>, hash: string -> nat, log: seq<Entry>, i: nat, j: nat) {
    i < |chains| && j < |chains[i]| ==>
      var b := chains[i][j];
      && b.key != [] && b.h == hash(b.key) && b.h % |chains| == i
      && b.data == Matches(log, b.key) != [] && b.count == |b.data|
  }

  ghost predicate ApartAt(chains: seq<seq<Bucket>>, i: nat, j: nat, k: nat) {
    i < |chains| && j < k < |chains[i]| ==> chains[i][j].key != chains[i][k].key
  }

  ghost predicate PresentAt(chains: seq<seq<Bucket>>, hash: string -> nat, log: seq<Entry>, key: string)
    requires chains != []
  {
    Matches(log, key) != [] ==>
      exists j :: 0 <= j < |chains[hash(key) % |chains|]| && chains[hash(key) % |chains|][j].key == key
  }

  ghost predicate Represents(chains: seq<seq<Bucket>>, hash: string -> nat, log: seq<Entry>) {
    && chains != []
    && (forall i: nat, j: nat :: BucketAt(chains, hash, log, i, j))
    && (forall i: nat, j: nat, k: nat :: ApartAt(chains, i, j, k))
    && (forall key :: PresentAt(chains, hash, log, key))
  }

  lemma AddToBucket(chains: seq<seq<Bucket>>, chains': seq<seq<Bucket>>, hash: string -> nat, log: seq<Entry>,
                    e: Entry, j: nat)
    requires Represents(chains, hash, log) && hash(e.key) % |chains| < |chains|
    requires var i := hash(e.key) % |chains|;
      && j < |chains[i]| && chains[i][j].key == e.key
      && var b := chains[i][j];
         chains' == chains[i := chains[i][j := b.(data := [e.word] + b.data, count := b.count + 1)]]
    ensures Represents(chains', hash, log + [e])
  {
    var x := hash(e.key) % |chains|;
    forall i: nat, k: nat ensures BucketAt(chains', hash, log + [e], i, k) {
      assert BucketAt(chains, hash, log, i, k) && ApartAt(chains, x, j, k) && ApartAt(chains, x, k, j);
      if i < |chains| && k < |chains[i]| { MatchesOfSnoc(log, e, chains[i][k].key); }
    }
    forall i: nat, k: nat, l: nat ensures ApartAt(chains', i, k, l) { assert ApartAt(chains, i, k, l); }
    forall key ensures PresentAt(chains', hash, log + [e], key) {
      MatchesOfSnoc(log, e, key);
      assert PresentAt(chains, hash, log, key);
      if key == e.key {
        assert chains'[x][j].key == key;
      } else if Matches(log, key) != [] {
        var k :| 0 <= k < |chains[hash(key) % |chains|]| && chains[hash(key) % |chains|][k].key == key;
        assert chains'[hash(key) % |chains|][k].key == key;
      }
    }
  }

  lemma AddNewBucket(chains: seq<seq<Bucket>>, chains': seq<seq<Bucket>>, hash: string -> nat, log: seq<Entry>,
                     e: Entry)
    requires Represents(chains, hash, log) && e.key != [] && hash(e.key) % |chains| < |chains|
    requires var i := hash(e.key) % |chains|;
      && (forall j :: 0 <= j < |chains[i]| ==> chains[i][j].key != e.key)
      && chains' == chains[i := [Bucket(hash(e.key), e.key, [e.word], 1)] + chains[i]]
    ensures Represents(chains', hash, log + [e])
  {
    var x := hash(e.key) % |chains|;
    assert PresentAt(chains, hash, log, e.key);
    MatchesOfSnoc(log, e, e.key);
    forall i: nat, k: nat ensures BucketAt(chains', hash, log + [e], i, k) {
      var k0: nat := if i == x && k > 0 then k - 1 else k;
      assert BucketAt(chains, hash, log, i, k0);
      if i < |chains| && k0 < |chains[i]| { MatchesOfSnoc(log, e, chains[i][k0].key); }
      if i < |chains| && i != x { DifferentChain(chains, hash, log, e.key, i, k0); }
    }
    forall i: nat, k: nat, l: nat ensures ApartAt(chains', i, k, l) {
      assert ApartAt(chains, i, k, l);
      if i == x && 0 < k < l { assert ApartAt(chains, i, k - 1, l - 1); }
    }
    forall key ensures PresentAt(chains', hash, log + [e], key) {
      MatchesOfSnoc(log, e, key);
      assert PresentAt(chains, hash, log, key);
      var y := hash(key) % |chains|;
      if key == e.key {
        assert chains'[x][0].key == key;
      } else if Matches(log, key) != [] {
        var k :| 0 <= k < |chains[y]| && chains[y][k].key == key;
        assert chains'[y][if y == x then k + 1 else k].key == key;
      }
    }
  }

  lemma DifferentChain(chains: seq<seq<Bucket>>, hash: string -> nat, log: seq<Entry>, key: string, i: nat, k: nat)
    requires chains != [] && BucketAt(chains, hash, log, i, k) && i < |chains| && i != hash(key) % |chains|
    ensures k < |chains[i]| ==> chains[i][k].key != key
  {
  }

  /** n is the length of the longest common prefix of the words. */
  ghost predicate LongestCommonPrefix(words: seq<string>, n: nat) {
    && words != []
    && (forall w :: w in words ==> n <= |w| && n <= |words[0]| && w[..n] == words[0][..n])
    && (exists w :: w in words && (|w| == n || |words[0]| == n || w[n] != words[0][n]))
  }

  /** Either every word with a prefix has the longer prefix too, or some have not and are left out. */
  lemma {:induction false} LongerPrefix(words: seq<string>, key: string, longer: string)
    requires key <= longer
    ensures var a, b := WithPrefix(words, key), WithPrefix(words, longer);
      && |b| <= |a|
      && (|b| == |a| ==> b == a)
      && (|b| < |a| ==> exists w :: w in a && !(longer <= w))
  {
    if words != [] {
      var n := |words| - 1;
      var a0, b0 := WithPrefix(words[..n], key), WithPrefix(words[..n], longer);
      LongerPrefix(words[..n], key, longer);
      if w :| w in a0 && !(longer <= w) {
        assert w in WithPrefix(words, key);
      }
      assert longer <= words[n] ==> key <= words[n];
      if key <= words[n] && !(longer <= words[n]) {
        assert words[n] in WithPrefix(words, key);
      }
    }
  }

  class Table {
    const hash: string -> nat
    var buckets: array<seq<Bucket>>
    ghost var log: seq<Entry>

    ghost predicate Valid()
      reads this, buckets
    {
      Represents(buckets[..], hash, log)
    }

    /** completion_hash_init */
    constructor (hash: string -> nat, size: nat)
      requires size > 0
      ensures Valid() && log == [] && fresh(buckets) && this.hash == hash
    {
      this.hash := hash;
      buckets := new seq<Bucket>[size](_ => []);
      log := [];
    }

    /** The position of a key in its chain, or the length of the chain. */
    method FindInChain(key: string) returns (h: nat, i: nat, j: nat)
      requires Valid()
      ensures h == hash(key) && i == h % buckets.Length < buckets.Length && j <= |buckets[i]|
      ensures j < |buckets[i]| ==> buckets[i][j].key == key
      ensures j == |buckets[i]| ==> forall k :: 0 <= k < |buckets[i]| ==> buckets[i][k].key != key
    {
      h := hash(key);
      i := h % buckets.Length;
      j := 0;
      while j < |buckets[i]|
        invariant j <= |buckets[i]|
        invariant forall k :: 0 <= k < j ==> buckets[i][k].key != key
      {
        var b := buckets[i][j];
        assert BucketAt(buckets[..], hash, log, i, j);
        if b.h == h && |b.key| == |key| && b.key == key {
          return;
        }
        j := j + 1;
      }
    }

    /** completion_hash_update; false stands for FAILURE. */
    method Update(key: string, word: string) returns (ok: bool)
      requires Valid()
      modifies this`log, buckets
      ensures Valid() && ok == (key != [])
      ensures log == if ok then old(log) + [Entry(key, word)] else old(log)
    {
      if key == [] {
        return false;
      }
      ghost var chains := buckets[..];
      var h, i, j := FindInChain(key);
      if j < |buckets[i]| {
        var b := buckets[i][j];
        buckets[i] := buckets[i][j := b.(data := [word] + b.data, count := b.count + 1)];
        AddToBucket(chains, buckets[..], hash, log, Entry(key, word), j);
      } else {
        buckets[i] := [Bucket(h, key, [word], 1)] + buckets[i];
        AddNewBucket(chains, buckets[..], hash, log, Entry(key, word));
      }
      log := log + [Entry(key, word)];
      ok := true;
    }

    /** add_word */
    method AddWord(word: string)
      requires Valid()
      modifies this`log, buckets
      ensures Valid() && log == old(log) + WordEntries(word, |word|)
    {
      var i := 0;
      while i < |word|
        invariant i <= |word| && Valid() && buckets == old(buckets)
        invariant log == old(log) + WordEntries(word, i)
      {
        i := i + 1;
        var ok := Update(word[..i], word);
      }
    }

    /** completion_hash_find: the bucket of a key lists exactly the words entered under it. */
    method Find(key: string) returns (b: Option<Bucket>)
      requires Valid()
      ensures b.None? <==> key == [] || Matches(log, key) == []
      ensures b.Some? ==>
        b.value.key == key && b.value.data == Matches(log, key) && b.value.count == |Matches(log, key)|
    {
      var h, i, j := FindInChain(key);
      assert BucketAt(buckets[..], hash, log, i, j) && PresentAt(buckets[..], hash, log, key);
      if j < |buckets[i]| {
        b := Some(buckets[i][j]);
      } else {
        b := None;
      }
    }

    /** find_longest_match, on a table that holds the words added: the words with the prefix, and how far they all
        agree. */
    method FindLongestMatch(key: string, ghost words: seq<string>) returns (b: Option<Bucket>, length: nat)
      requires Valid() && log == LogOf(words)
      ensures b.None? <==> key == [] || WithPrefix(words, key) == []
      ensures b.None? ==> length == 0
      ensures b.Some? ==> b.value.data == WithPrefix(words, key) && LongestCommonPrefix(WithPrefix(words, key), length)
      ensures b.Some? ==> |b.value.key| == length && key <= b.value.key
    {
      b := Find(key);
      if b.None? {
        if key != [] { MatchesAreWords(words, key); }
        return b, 0;
      }
      MatchesAreWords(words, key);
      ghost var all := WithPrefix(words, key);
      var count, s := b.value.count, b.value.data[0];
      assert s in all;
      length := |key|;
      while length < |s|
        invariant |key| <= length <= |s| && b.Some?
        invariant b.value.key == s[..length] && b.value.data == all && WithPrefix(words, s[..length]) == all
      {
        var longer := s[..length + 1];
        MatchesAreWords(words, longer);
        LongerPrefix(words, s[..length], longer);
        StaysListed(words, s, s[..length], longer);
        var b' := Find(longer);
        if b'.None? {
          break;
        }
        if b'.value.count < count {
          AgreeUpTo(words, s, length);
          ghost var w :| w in all && !(longer <= w);
          Disagree(w, s, length);
          return b, length;
        }
        b := b';
        length := length + 1;
      }
      AgreeUpTo(words, s, length);
    }
  }

  /** A table filled by add_word alone. */
  method TableOf(hash: string -> nat, size: nat, words: seq<string>) returns (table: Table)
    requires size > 0
    ensures fresh(table) && fresh(table.buckets) && table.Valid() && table.log == LogOf(words)
  {
    table := new Table(hash, size);
    var i := 0;
    while i < |words|
      invariant i <= |words| && fresh(table) && fresh(table.buckets) && table.Valid() && table.log == LogOf(words[..i])
    {
      table.AddWord(words[i]);
      assert words[..i + 1] == words[..i] + [words[i]];
      LogOfSnoc(words[..i], words[i]);
      i := i + 1;
    }
    assert words[..i] == words;
  }

  /** After any sequence of add_word the bucket of a non-empty key lists exactly the added words with that prefix, as
      often as they were added. */
  method FindAfterAdding(hash: string -> nat, size: nat, words: seq<string>, key: string) returns (b: Option<Bucket>)
    requires size > 0
    ensures b.None? <==> key == [] || WithPrefix(words, key) == []
    ensures b.Some? ==> b.value.key == key && b.value.data == WithPrefix(words, key) && b.value.count == |b.value.data|
  {
    var table := TableOf(hash, size, words);
    if key != [] {
      MatchesAreWords(words, key);
    }
    b := table.Find(key);
  }

  /** The same for the completion: all words with the prefix, and how far they agree. */
  method CompleteAfterAdding(hash: string -> nat, size: nat, words: seq<string>, key: string)
    returns (b: Option<Bucket>, length: nat)
    requires size > 0
    ensures b.None? <==> key == [] || WithPrefix(words, key) == []
    ensures b.None? ==> length == 0
    ensures b.Some? ==> b.value.data == WithPrefix(words, key) && LongestCommonPrefix(WithPrefix(words, key), length)
  {
    var table := TableOf(hash, size, words);
    b, length := table.FindLongestMatch(key, words);
  }

  lemma {:induction false} StaysListed(words: seq<string>, s: string, key: string, longer: string)
    requires s in WithPrefix(words, key) && longer <= s
    ensures s in WithPrefix(words, longer)
  {
    var n := |words| - 1;
    if s in WithPrefix(words[..n], key) {
      StaysListed(words[..n], s, key, longer);
    }
  }

  lemma AgreeUpTo(words: seq<string>, s: string, n: nat)
    requires n <= |s|
    ensures forall w :: w in WithPrefix(words, s[..n]) ==> n <= |w| && w[..n] == s[..n]
  {
  }

  lemma Disagree(w: string, s: string, n: nat)
    requires n < |s| && !(s[..n + 1] <= w) && s[..n] <= w
    ensures |w| == n || w[n] != s[n]
  {
  }
}
