/**
 InnoDB's parser for the list of data files, `path:size[K|M|G][newraw|raw];...:autoextend[:max:size]`.
 It goes over the string twice: a first pass checks the syntax and counts the files, a second one stores
 them and ends each path in place with a null character.  A C string of length n is an array with '\0' at n.
 */
module DataFilePaths {
  import opened Optional

  const ULONG_MAX: nat := 0xffff_ffff_ffff_ffff

  // ---------- strings ----------

  lemma Associative(a: string, b: string, c: string)
    ensures a + b + c == a + (b + c)
  {
  }

  lemma Split(a: string, s: string)
    requires a <= s
    ensures s == a + s[|a|..]
  {
  }

  lemma DropFirst(a: string, b: string)
    ensures (a + b)[|a|..] == b
  {
  }

  lemma PrefixOfRest(s: string, p: nat, k: nat)
    requires p <= k <= |s|
    ensures s[..k][p..] == s[p..][..k - p]
  {
  }

  // ---------- numbers ----------

  predicate IsDigit(c: char) { '0' <= c <= '9' }

  predicate IsSpace(c: char) { c == ' ' || '\t' <= c <= '\r' }

  function SpacesLength(s: string): (n: nat)
    ensures n <= |s|
  {
    if s == [] || !IsSpace(s[0]) then 0 else 1 + SpacesLength(s[1..])
  }

  function DigitsLength(s: string): (n: nat)
    ensures n <= |s| && forall i :: 0 <= i < n ==> IsDigit(s[i])
    ensures n < |s| ==> !IsDigit(s[n])
  {
    if s == [] || !IsDigit(s[0]) then 0 else 1 + DigitsLength(s[1..])
  }

  function Value(digits: string): nat
    requires forall i :: 0 <= i < |digits| ==> IsDigit(digits[i])
  {
    if digits == [] then 0
    else
      var c := digits[|digits| - 1];
      assert IsDigit(c);
      10 * Value(digits[..|digits| - 1]) + (c as int - '0' as int)
  }

  /** What follows the sign, if there is one. */
  function Unsigned(t: string): (u: string)
    ensures |t| - 1 <= |u| <= |t|
  {
    if t != [] && (t[0] == '+' || t[0] == '-') then t[1..] else t
  }

  /** The value that strtoul gives to a number: it saturates, and a minus negates it in unsigned arithmetic. */
  function Saturated(v: nat, negative: bool): (r: nat)
    ensures r <= ULONG_MAX
  {
    if v > ULONG_MAX then ULONG_MAX else if negative && v > 0 then ULONG_MAX + 1 - v else v
  }

  /** A number with a sign: its value and the number of characters read. */
  function SignedNumber(t: string): (r: (nat, nat))
    ensures r.0 <= ULONG_MAX && r.1 <= |t|
  {
    var u := Unsigned(t);
    var n := DigitsLength(u);
    if n == 0 then (0, 0) else (Saturated(Value(u[..n]), t[0] == '-'), |t| - |u| + n)
  }

  /** strtoul in base 10: the value and the number of characters read. */
  function StrToUl(s: string): (r: (nat, nat))
    ensures r.0 <= ULONG_MAX && r.1 <= |s|
  {
    var p := SpacesLength(s);
    var (value, n) := SignedNumber(s[p..]);
    if n == 0 then (0, 0) else (value, p + n)
  }

  /** srv_parse_megabytes */
  function Megabytes(s: string): (r: (nat, nat))
    ensures r.1 <= |s|
  {
    var (size, n) := StrToUl(s);
    if n == |s| then (size / 1048576, n)
    else
      match s[n]
      case 'G' => (size * 1024 % (ULONG_MAX + 1), n + 1)
      case 'g' => (size * 1024 % (ULONG_MAX + 1), n + 1)
      case 'M' => (size, n + 1)
      case 'm' => (size, n + 1)
      case 'K' => (size / 1024, n + 1)
      case 'k' => (size / 1024, n + 1)
      case _ => (size / 1048576, n)
  }

  // ---------- the meaning of a string ----------

  /** A colon that belongs to a Windows path. */
  predicate StepsOver(s: string, i: nat)
    requires i < |s|
  {
    s[i] != ':' || (i + 1 < |s| && (s[i + 1] == '\\' || s[i + 1] == '/' || s[i + 1] == ':'))
  }

  /** The position of the colon that ends the path, or the length of the string. */
  function PathLength(s: string): (n: nat)
    ensures n <= |s| && forall i :: 0 <= i < n ==> StepsOver(s, i)
    ensures n < |s| ==> !StepsOver(s, n)
  {
    if s == [] || !StepsOver(s, 0) then 0
    else
      var n := 1 + PathLength(s[1..]);
      assert forall i :: 0 < i < |s| ==> StepsOver(s, i) == StepsOver(s[1..], i - 1);
      n
  }

  /** One file of the list; `length` is what it takes of the string. */
  datatype Item = Item(path: string, size: nat, autoextend: bool, max: Option<nat>, raw: bool, length: nat)

  const AUTOEXTEND := ":autoextend"
  const MAX := ":max:"

  /** What may follow a size; `rest` is the length of what the next file leaves of the string. */
  datatype Options = Options(autoextend: bool, max: Option<nat>, raw: bool, rest: nat)

  function ParseExtend(u: string, size: nat): Option<Options> {
    if MAX <= u then
      var (max, m) := Megabytes(u[|MAX|..]);
      if m < |u| - |MAX| || max == 0 then None else Some(Options(true, Some(max), false, 0))
    else if u != [] || size == 0 then None
    else Some(Options(true, None, false, 0))
  }

  predicate NewMark(t: string) {
    |t| >= 6 && "new" <= t
  }

  /** The length of the marks of a raw partition. */
  function RawLength(t: string): (n: nat)
    ensures n <= |t|
  {
    var n := if NewMark(t) then 3 else 0;
    if "raw" <= t[n..] then n + 3 else n
  }

  function ParseOptions(t: string, size: nat): (r: Option<Options>)
    ensures r.Some? ==> r.value.rest <= |t|
  {
    if AUTOEXTEND <= t then ParseExtend(t[|AUTOEXTEND|..], size)
    else
      var v := t[RawLength(t)..];
      if size == 0 || (v != [] && v[0] != ';') then None
      else Some(Options(false, None, |v| < |t|, if v == [] then 0 else |v| - 1))
  }

  function ParseItem(s: string): (r: Option<Item>)
    ensures r.Some? ==> |r.value.path| < r.value.length <= |s| && r.value.path <= s
  {
    var p := PathLength(s);
    if p == |s| then None
    else
      var (size, n) := Megabytes(s[p + 1..]);
      match ParseOptions(s[p + 1 + n..], size)
      case None => None
      case Some(o) => Some(Item(s[..p], size, o.autoextend, o.max, o.raw, |s| - o.rest))
  }

  function Parse(s: string): Option<seq<Item>> {
    if s == [] then Some([])
    else
      match ParseItem(s)
      case None => None
      case Some(item) =>
        match Parse(s[item.length..])
        case None => None
        case Some(items) => Some([item] + items)
  }

  lemma OptionsChecked(t: string, size: nat)
    requires ParseOptions(t, size).Some?
    ensures var o := ParseOptions(t, size).value;
      && (o.autoextend ==> o.rest == 0 && !o.raw)
      && (if o.max.Some? then o.autoextend && o.max.value > 0 else size > 0)
  {
  }

  lemma ItemChecked(s: string)
    requires ParseItem(s).Some?
    ensures var item := ParseItem(s).value;
      && (item.autoextend ==> item.length == |s| && !item.raw)
      && (if item.max.Some? then item.autoextend && item.max.value > 0 else item.size > 0)
  {
    hide Megabytes, ParseOptions, PathLength;
    var p := PathLength(s);
    var (size, n) := Megabytes(s[p + 1..]);
    OptionsChecked(s[p + 1 + n..], size);
  }

  lemma ParseCons(s: string)
    requires s != [] && ParseItem(s).Some?
    ensures var item := ParseItem(s).value;
      && (Parse(s).Some? <==> Parse(s[item.length..]).Some?)
      && (Parse(s).Some? ==> Parse(s).value == [item] + Parse(s[item.length..]).value)
  {
    hide ParseItem;
  }

  lemma ParseFirst(s: string)
    requires Parse(s).Some? && Parse(s).value != []
    ensures s != [] && ParseItem(s).Some?
  {
    hide ParseItem;
  }

  lemma ParseEmpty(s: string)
    requires s == []
    ensures Parse(s) == Some([])
  {
  }

  /** Only the last file can extend itself, and what the syntax check found positive is the size, or the
      maximum where one is given. */
  lemma {:induction false} ItemsChecked(s: string, k: nat)
    requires Parse(s).Some? && k < |Parse(s).value|
    ensures var item := Parse(s).value[k];
      && (item.autoextend ==> k == |Parse(s).value| - 1 && !item.raw)
      && (if item.max.Some? then item.autoextend && item.max.value > 0 else item.size > 0)
    decreases |s|
  {
    hide ParseItem, Parse;
    ParseFirst(s);
    ParseCons(s);
    ItemChecked(s);
    var rest := s[ParseItem(s).value.length..];
    if rest == [] {
      ParseEmpty(rest);
    }
    if k > 0 {
      ItemsChecked(rest, k - 1);
    }
  }

  // ---------- round trip ----------

  function Digits(n: nat): (s: string)
    ensures s != [] && forall i :: 0 <= i < |s| ==> IsDigit(s[i])
  {
    var c := ('0' as int + n % 10) as char;
    if n < 10 then [c] else Digits(n / 10) + [c]
  }

  lemma {:induction false} ValueOfDigits(n: nat)
    ensures Value(Digits(n)) == n
  {
    var s := Digits(n);
    if n >= 10 {
      assert s[..|s| - 1] == Digits(n / 10);
      ValueOfDigits(n / 10);
    } else {
      assert s[..|s| - 1] == [];
    }
  }

  lemma DigitsLengthIs(digits: string, rest: string)
    requires (forall i :: 0 <= i < |digits| ==> IsDigit(digits[i])) && (rest != [] ==> !IsDigit(rest[0]))
    ensures DigitsLength(digits + rest) == |digits|
  {
    var s := digits + rest;
    assert forall i :: 0 <= i < |digits| ==> s[i] == digits[i];
    assert rest != [] ==> s[|digits|] == rest[0];
  }

  lemma {:induction false} SpacesLengthIs(spaces: string, rest: string)
    requires (forall i :: 0 <= i < |spaces| ==> IsSpace(spaces[i])) && (rest != [] ==> !IsSpace(rest[0]))
    ensures SpacesLength(spaces + rest) == |spaces|
  {
    var s := spaces + rest;
    if spaces == [] {
      assert s == rest;
    } else {
      assert s[0] == spaces[0] && s[1..] == spaces[1..] + rest;
      SpacesLengthIs(spaces[1..], rest);
    }
  }

  /** White space and at most one sign. */
  ghost predicate IsLead(spaces: string, sign: string) {
    && (forall i :: 0 <= i < |spaces| ==> spaces[i] in " \t\n\U{0B}\U{0C}\r")
    && (sign == "" || sign == "+" || sign == "-")
  }

  lemma SpacesSkipped(spaces: string, sign: string, rest: string)
    requires IsLead(spaces, sign) && (sign == "" && rest != [] ==> !IsSpace(rest[0]))
    ensures SpacesLength(spaces + sign + rest) == |spaces|
    ensures (spaces + sign + rest)[|spaces|..] == sign + rest
  {
    forall i | 0 <= i < |spaces| ensures IsSpace(spaces[i]) { SpaceChars(spaces[i]); }
    hide IsLead, SpacesLength;
    var u := sign + rest;
    assert sign == "" ==> u == rest;
    assert sign != "" ==> u[0] == sign[0];
    SpacesLengthIs(spaces, u);
    Associative(spaces, sign, rest);
    DropFirst(spaces, u);
  }

  lemma SpaceChars(c: char)
    requires c in " \t\n\U{0B}\U{0C}\r"
    ensures IsSpace(c)
  {
  }

  /** strtoul reads white space, a sign and all digits.  It stops at ULONG_MAX; below that a minus negates modulo
      two to the 64th. */
  lemma StrToUlReads(spaces: string, sign: string, digits: string, rest: string)
    requires IsLead(spaces, sign) && digits != [] && (forall i :: 0 <= i < |digits| ==> IsDigit(digits[i]))
    requires rest != [] ==> !IsDigit(rest[0])
    ensures var (value, n) := StrToUl(spaces + sign + digits + rest); var v := Value(digits);
      && n == |spaces| + |sign| + |digits|
      && (v > ULONG_MAX ==> value == ULONG_MAX)
      && (v <= ULONG_MAX && sign != "-" ==> value == v)
      && (v <= ULONG_MAX && sign == "-" ==> value + v == 0 || value + v == 0x1_0000_0000_0000_0000)
  {
    hide Value, SpacesLength, SignedNumber;
    var u := digits + rest;
    Associative(spaces + sign, digits, rest);
    assert u[0] == digits[0];
    SpacesSkipped(spaces, sign, u);
    hide IsLead;
    NumberOf(sign, digits, rest);
  }

  lemma NumberOf(sign: string, digits: string, rest: string)
    requires sign == "" || sign == "+" || sign == "-"
    requires digits != [] && (forall i :: 0 <= i < |digits| ==> IsDigit(digits[i]))
    requires rest != [] ==> !IsDigit(rest[0])
    ensures SignedNumber(sign + (digits + rest)) == (Saturated(Value(digits), sign == "-"), |sign| + |digits|)
  {
    hide SignedNumber, Value, DigitsLength, Saturated, Unsigned;
    var u := digits + rest;
    assert u[0] == digits[0];
    UnsignedIs(sign, u);
    DigitsLengthIs(digits, rest);
    UnsignedNumber(sign + u, digits, rest);
    assert (sign + u)[0] == '-' <==> sign == "-";
  }

  lemma UnsignedNumber(t: string, digits: string, rest: string)
    requires Unsigned(t) == digits + rest && digits != [] && DigitsLength(digits + rest) == |digits|
    requires forall i :: 0 <= i < |digits| ==> IsDigit(digits[i])
    ensures t != [] && SignedNumber(t) == (Saturated(Value(digits), t[0] == '-'), |t| - |rest|)
  {
    hide Value, DigitsLength, Saturated, Unsigned;
    assert (digits + rest)[..|digits|] == digits;
  }

  lemma UnsignedIs(sign: string, u: string)
    requires sign == "" || sign == "+" || sign == "-"
    requires sign == "" && u != [] ==> u[0] != '+' && u[0] != '-'
    ensures Unsigned(sign + u) == u && (sign + u != [] ==> (sign + u)[0] == if sign == "" then u[0] else sign[0])
  {
    assert sign != "" ==> (sign + u)[1..] == u;
    assert sign == "" ==> sign + u == u;
  }

  lemma UnsignedPrefix(t: string, k: nat)
    requires |t| - |Unsigned(t)| <= k <= |t|
    ensures Unsigned(t[..k]) == Unsigned(t)[..k - (|t| - |Unsigned(t)|)]
  {
    var u := Unsigned(t);
    if |u| < |t| {
      UnsignedIs(t[..1], u[..k - 1]);
      assert t[..k] == t[..1] + u[..k - 1];
    }
  }

  /** Where no digit follows, strtoul reads nothing at all. */
  lemma StrToUlReadsNothing(spaces: string, sign: string, rest: string)
    requires IsLead(spaces, sign) && (rest != [] ==> !IsDigit(rest[0]))
    requires sign == "" && rest != [] ==> !IsSpace(rest[0]) && rest[0] != '+' && rest[0] != '-'
    ensures StrToUl(spaces + sign + rest) == (0, 0)
  {
    hide SpacesLength, DigitsLength;
    SpacesSkipped(spaces, sign, rest);
    UnsignedIs(sign, rest);
    DigitsLengthIs([], rest);
    assert [] + rest == rest;
  }

  lemma StrToUlOfDigits(n: nat, rest: string)
    requires n <= ULONG_MAX && (rest != [] ==> !IsDigit(rest[0]))
    ensures StrToUl(Digits(n) + rest) == (n, |Digits(n)|)
  {
    ValueOfDigits(n);
    hide Digits, Value, StrToUl;
    assert "" + "" + Digits(n) + rest == Digits(n) + rest;
    StrToUlReads("", "", Digits(n), rest);
  }

  /** A number with each of the units, in both cases, and a number of bytes without one. */
  lemma MegabytesOfDigits(n: nat, rest: string)
    requires n <= ULONG_MAX
    ensures Megabytes(Digits(n) + "G" + rest) == (n * 1024 % 0x1_0000_0000_0000_0000, |Digits(n)| + 1)
    ensures Megabytes(Digits(n) + "g" + rest) == (n * 1024 % 0x1_0000_0000_0000_0000, |Digits(n)| + 1)
    ensures Megabytes(Digits(n) + "M" + rest) == (n, |Digits(n)| + 1)
    ensures Megabytes(Digits(n) + "m" + rest) == (n, |Digits(n)| + 1)
    ensures Megabytes(Digits(n) + "K" + rest) == (n / 1024, |Digits(n)| + 1)
    ensures Megabytes(Digits(n) + "k" + rest) == (n / 1024, |Digits(n)| + 1)
    ensures (rest != [] ==> rest[0] !in "0123456789GgMmKk") ==>
      Megabytes(Digits(n) + rest) == (n / 1048576, |Digits(n)|)
  {
    hide StrToUl, Digits;
    forall c | c in "GgMmKk" ensures StrToUl(Digits(n) + [c] + rest) == (n, |Digits(n)|) {
      assert Digits(n) + [c] + rest == Digits(n) + ([c] + rest);
      StrToUlOfDigits(n, [c] + rest);
    }
    assert forall c :: c in "GgMmKk" ==> (Digits(n) + [c] + rest)[|Digits(n)|] == c;
    assert 'G' in "GgMmKk" && 'g' in "GgMmKk" && 'M' in "GgMmKk" && 'm' in "GgMmKk";
    assert 'K' in "GgMmKk" && 'k' in "GgMmKk";
    if rest != [] ==> rest[0] !in "0123456789GgMmKk" {
      BytesOfDigits(n, rest);
    }
  }

  lemma BytesOfDigits(n: nat, rest: string)
    requires n <= ULONG_MAX && (rest != [] ==> rest[0] !in "0123456789GgMmKk")
    ensures Megabytes(Digits(n) + rest) == (n / 1048576, |Digits(n)|)
  {
    hide StrToUl, Digits;
    StrToUlOfDigits(n, rest);
    if rest != [] {
      assert (Digits(n) + rest)[|Digits(n)|] == rest[0];
      var units := "0123456789GgMmKk"[10..];
      assert forall c :: c in units ==> c in "0123456789GgMmKk";
      assert units[0] == 'G' && units[1] == 'g' && units[2] == 'M' && units[3] == 'm' && units[4] == 'K'
        && units[5] == 'k';
    }
  }

  /** No colon in the path, or in the separator put behind it, is taken for the end of the path. */
  ghost predicate GoodPath(path: string) {
    forall i :: 0 <= i < |path| && path[i] == ':' ==> (path + ":")[i + 1] in "\\/:"
  }

  lemma InPath(c: char)
    ensures c in "\\/:" <==> c == '\\' || c == '/' || c == ':'
  {
    assert "\\/:"[0] == '\\' && "\\/:"[1] == '/' && "\\/:"[2] == ':';
  }

  lemma PathLengthIs(path: string, rest: string)
    requires GoodPath(path) && rest != [] && IsDigit(rest[0])
    ensures PathLength(path + ":" + rest) == |path|
  {
    var s := path + ":" + rest;
    forall i | 0 <= i < |path| ensures StepsOver(s, i) {
      assert s[i] == path[i] && s[i + 1] == (path + ":")[i + 1];
      InPath(s[i + 1]);
    }
    assert !StepsOver(s, |path|) by { assert s[|path| + 1] == rest[0]; }
    PathLengthUnique(s, |path|);
  }

  datatype Unit = Giga | Mega | Kilo | Bytes

  /** A size as it is written: a number and a unit, in upper or lower case. */
  datatype Size = Size(number: nat, unit: Unit, lower: bool)

  datatype Mark = NoMark | RawMark | NewRawMark

  datatype FileSpec = FileSpec(path: string, size: Size, mark: Mark)

  datatype Ending = Plain | Autoextend | AutoextendMax(max: Size)

  function UnitText(unit: Unit, lower: bool): string {
    match unit
    case Giga => if lower then "g" else "G"
    case Mega => if lower then "m" else "M"
    case Kilo => if lower then "k" else "K"
    case Bytes => ""
  }

  function RenderSize(size: Size): string {
    Digits(size.number) + UnitText(size.unit, size.lower)
  }

  /** How many whole megabytes a size is, in the arithmetic of a 64-bit word. */
  function InMegabytes(size: Size): nat {
    match size.unit
    case Giga => size.number * 1024 % 0x1_0000_0000_0000_0000
    case Mega => size.number
    case Kilo => size.number / 1024
    case Bytes => size.number / 1048576
  }

  function RenderMark(mark: Mark): string {
    match mark
    case NoMark => ""
    case RawMark => "raw"
    case NewRawMark => "newraw"
  }

  function RenderEnding(e: Ending): string {
    match e
    case Plain => ""
    case Autoextend => ":autoextend"
    case AutoextendMax(max) => ":autoextend" + (":max:" + (RenderSize(max) + ""))
  }

  function RenderFile(f: FileSpec, tail: string): string {
    f.path + ":" + (RenderSize(f.size) + (RenderMark(f.mark) + tail))
  }

  function Render(files: seq<FileSpec>, e: Ending): string
    requires files != []
  {
    RenderFile(files[0], if |files| == 1 then RenderEnding(e) else ";" + Render(files[1..], e))
  }

  ghost predicate GoodSize(size: Size) {
    size.number <= ULONG_MAX && InMegabytes(size) > 0
  }

  ghost predicate GoodFile(f: FileSpec) {
    GoodPath(f.path) && GoodSize(f.size)
  }

  /** The last file needs a size of its own unless a maximum is given, and one that grows has no mark. */
  ghost predicate GoodEnding(last: FileSpec, e: Ending) {
    match e
    case Plain => GoodFile(last)
    case Autoextend => GoodFile(last) && last.mark.NoMark?
    case AutoextendMax(max) =>
      GoodPath(last.path) && last.size.number <= ULONG_MAX && GoodSize(max) && last.mark.NoMark?
  }

  ghost predicate GoodFiles(files: seq<FileSpec>, e: Ending) {
    && files != [] && GoodEnding(files[|files| - 1], e)
    && forall k :: 0 <= k < |files| - 1 ==> GoodFile(files[k])
  }

  function MaxOf(e: Ending): Option<nat> {
    if e.AutoextendMax? then Some(InMegabytes(e.max)) else None
  }

  /** The item says what the file says; only the last one carries the ending. */
  ghost predicate Says(item: Item, f: FileSpec, e: Ending) {
    && item.path == f.path && item.size == InMegabytes(f.size) && item.raw == !f.mark.NoMark?
    && item.autoextend == !e.Plain? && item.max == MaxOf(e)
  }

  /** A size reads back, whatever follows that cannot be taken for a part of it. */
  lemma SizeReadsBack(size: Size, rest: string)
    requires size.number <= ULONG_MAX && (rest != [] ==> rest[0] !in "0123456789GgMmKk")
    ensures Megabytes(RenderSize(size) + rest) == (InMegabytes(size), |RenderSize(size)|)
  {
    hide Megabytes, Digits;
    MegabytesOfDigits(size.number, rest);
    if size.unit.Bytes? {
      assert RenderSize(size) + rest == Digits(size.number) + rest;
    }
  }

  /** What the marks of a raw partition read as: both forms mark one. */
  lemma MarkOptions(mark: Mark, tail: string, size: nat)
    requires size > 0 && (tail == [] || tail[0] == ';')
    ensures ParseOptions(RenderMark(mark) + tail, size) ==
      Some(Options(false, None, !mark.NoMark?, if tail == [] then 0 else |tail| - 1))
  {
    var t := RenderMark(mark) + tail;
    MarkLength(mark, tail);
    DropFirst(RenderMark(mark), tail);
    assert mark.NoMark? ==> t == tail;
    assert t != [] ==> t[0] == 'n' || t[0] == 'r' || t[0] == ';';
    PlainOptions(t, size);
  }

  lemma MarkLength(mark: Mark, tail: string)
    requires tail == [] || tail[0] == ';'
    ensures RawLength(RenderMark(mark) + tail) == |RenderMark(mark)|
  {
    var t := RenderMark(mark) + tail;
    match mark
    case NoMark => assert t == tail && t[0..] == t;
    case RawMark => assert t[0] == 'r' && t[0..] == t;
    case NewRawMark => assert t[0] == 'n' && t[3..] == "raw" + tail;
  }

  /** `new` without `raw` marks a raw partition too, but only where at least three characters follow it. */
  lemma NewAlone(tail: string, size: nat)
    requires size > 0 && (tail == [] || tail[0] == ';')
    ensures ParseOptions("new" + tail, size) ==
      if |tail| >= 3 then Some(Options(false, None, true, |tail| - 1)) else None
  {
    var t := "new" + tail;
    assert t[0] == 'n' && t[3..] == tail && t[0..] == t;
  }

  lemma EndingOptions(e: Ending, size: nat)
    requires match e case Plain => false case Autoextend => size > 0 case AutoextendMax(max) => GoodSize(max)
    ensures ParseOptions(RenderEnding(e), size) == Some(Options(true, MaxOf(e), false, 0))
  {
    hide Megabytes, RenderSize, InMegabytes;
    var t := RenderEnding(e);
    match e
    case Autoextend => assert t[|AUTOEXTEND|..] == [];
    case AutoextendMax(max) =>
      var u := ":max:" + (RenderSize(max) + "");
      assert t[|AUTOEXTEND|..] == u;
      assert u[|MAX|..] == RenderSize(max) + "";
      SizeReadsBack(max, "");
  }

  lemma TailIsNoSize(mark: Mark, tail: string)
    requires tail != [] ==> tail[0] == ';' || tail[0] == ':'
    ensures var rest := RenderMark(mark) + tail; rest != [] ==> rest[0] !in "0123456789GgMmKk"
  {
    var rest := RenderMark(mark) + tail;
    assert mark.NoMark? ==> rest == tail;
    if rest != [] {
      assert rest[0] == 'n' || rest[0] == 'r' || rest[0] == ';' || rest[0] == ':';
    }
  }

  /** A rendered file reads back, given what its options read as. */
  lemma FileReadsBack(f: FileSpec, tail: string, o: Options)
    requires GoodPath(f.path) && f.size.number <= ULONG_MAX && (tail != [] ==> tail[0] == ';' || tail[0] == ':')
    requires ParseOptions(RenderMark(f.mark) + tail, InMegabytes(f.size)) == Some(o)
    ensures ParseItem(RenderFile(f, tail)) ==
      Some(Item(f.path, InMegabytes(f.size), o.autoextend, o.max, o.raw, |RenderFile(f, tail)| - o.rest))
  {
    hide Megabytes, ParseOptions, RenderMark, InMegabytes;
    var t := RenderMark(f.mark) + tail;
    var number := RenderSize(f.size) + t;
    var s := f.path + ":" + number;
    assert number[0] == Digits(f.size.number)[0];
    hide RenderSize, GoodPath;
    PathLengthIs(f.path, number);
    hide PathLength;
    assert s[|f.path| + 1..] == number && s[..|f.path|] == f.path;
    TailIsNoSize(f.mark, tail);
    SizeReadsBack(f.size, t);
    assert s[|f.path| + 1 + |RenderSize(f.size)|..] == t;
  }

  lemma PlainReadsBack(f: FileSpec, tail: string)
    requires GoodFile(f) && (tail == [] || tail[0] == ';')
    ensures ParseItem(RenderFile(f, tail)) ==
      Some(Item(f.path, InMegabytes(f.size), false, None, !f.mark.NoMark?,
                |RenderFile(f, tail)| - (if tail == [] then 0 else |tail| - 1)))
  {
    hide ParseOptions, ParseItem, RenderFile, InMegabytes;
    var rest := if tail == [] then 0 else |tail| - 1;
    MarkOptions(f.mark, tail, InMegabytes(f.size));
    FileReadsBack(f, tail, Options(false, None, !f.mark.NoMark?, rest));
  }

  lemma LastReadsBack(f: FileSpec, e: Ending)
    requires GoodEnding(f, e)
    ensures var s := RenderFile(f, RenderEnding(e));
      ParseItem(s) == Some(Item(f.path, InMegabytes(f.size), !e.Plain?, MaxOf(e), !f.mark.NoMark?, |s|))
  {
    hide ParseOptions, ParseItem, RenderFile, InMegabytes;
    if e.Plain? {
      PlainReadsBack(f, "");
    } else {
      EndingOptions(e, InMegabytes(f.size));
      var tail := RenderEnding(e);
      assert RenderMark(f.mark) + tail == tail;
      FileReadsBack(f, tail, Options(true, MaxOf(e), false, 0));
    }
  }

  /** Every list of files written in the documented form reads back: paths with drive letters included, sizes in every
      unit, the raw marks, and an ending that lets the last file grow. */
  lemma {:induction false} RoundTrip(files: seq<FileSpec>, e: Ending)
    requires GoodFiles(files, e)
    ensures Parse(Render(files, e)).Some? && |Parse(Render(files, e)).value| == |files|
    ensures forall k :: 0 <= k < |files| ==>
      Says(Parse(Render(files, e)).value[k], files[k], if k == |files| - 1 then e else Plain)
  {
    hide ParseItem, RenderFile, RenderEnding, InMegabytes;
    var f, s := files[0], Render(files, e);
    if |files| == 1 {
      LastReadsBack(f, e);
      assert s[|s|..] == [];
    } else {
      var rest := Render(files[1..], e);
      RoundTrip(files[1..], e);
      PlainReadsBack(f, ";" + rest);
      RenderedRest(f, rest);
      assert Says(ParseItem(s).value, f, Plain);
      ParseCons(s);
      hide Says, Parse, Render;
    }
  }

  lemma RenderedRest(f: FileSpec, rest: string)
    ensures var s := RenderFile(f, ";" + rest); |rest| < |s| && s[|s| - |rest|..] == rest
  {
    hide RenderSize, RenderMark;
    var head := f.path + ":" + (RenderSize(f.size) + (RenderMark(f.mark) + ";"));
    assert RenderFile(f, ";" + rest) == head + rest;
  }

  /** A size of zero gets through where a maximum is given. */
  lemma ZeroSizeAccepted(path: string, max: Size)
    requires GoodPath(path) && GoodSize(max)
    ensures var r := Parse(Render([FileSpec(path, Size(0, Mega, false), NoMark)], AutoextendMax(max)));
      r.Some? && |r.value| == 1 && r.value[0].size == 0
  {
    RoundTrip([FileSpec(path, Size(0, Mega, false), NoMark)], AutoextendMax(max));
  }

  // ---------- only the documented form is accepted ----------

  lemma {:induction false} SpacesOfPrefix(s: string, k: nat)
    requires k <= |s|
    ensures SpacesLength(s[..k]) == if SpacesLength(s) < k then SpacesLength(s) else k
  {
    if k > 0 && IsSpace(s[0]) {
      SpacesOfPrefix(s[1..], k - 1);
      assert s[..k][1..] == s[1..][..k - 1];
    }
  }

  lemma {:induction false} DigitsOfPrefix(s: string, k: nat)
    requires k <= |s|
    ensures DigitsLength(s[..k]) == if DigitsLength(s) < k then DigitsLength(s) else k
  {
    if k > 0 && IsDigit(s[0]) {
      DigitsOfPrefix(s[1..], k - 1);
      assert s[..k][1..] == s[1..][..k - 1];
    }
  }

  /** What is not read does not matter. */
  lemma NumberOfPrefix(t: string, k: nat)
    requires SignedNumber(t).1 <= k <= |t|
    ensures SignedNumber(t[..k]) == SignedNumber(t)
  {
    var u := Unsigned(t);
    var n, m := DigitsLength(u), |t| - |u|;
    if k < m {
      assert t[..k] == [];
    } else {
      UnsignedPrefix(t, k);
      DigitsOfPrefix(u, k - m);
      hide DigitsLength, Unsigned, Value;
      if n > 0 {
        assert u[..k - m][..n] == u[..n];
        assert t[..k][0] == t[0];
      }
    }
  }

  lemma StrToUlOfPrefix(s: string, k: nat)
    requires StrToUl(s).1 <= k <= |s|
    ensures StrToUl(s[..k]) == StrToUl(s)
  {
    hide SpacesLength, SignedNumber;
    SpacesOfPrefix(s, k);
    var p := SpacesLength(s);
    if p <= k {
      PrefixOfRest(s, p, k);
      NumberOfPrefix(s[p..], k - p);
    } else {
      assert s[..k][k..] == [];
      NoNumber();
    }
  }

  lemma NoNumber()
    ensures SignedNumber([]) == (0, 0)
  {
  }

  lemma MegabytesOfPrefix(s: string)
    ensures Megabytes(s[..Megabytes(s).1]) == Megabytes(s)
  {
    hide StrToUl;
    StrToUlOfPrefix(s, StrToUl(s).1);
    StrToUlOfPrefix(s, Megabytes(s).1);
  }

  /** What stands between the size of a file and the next file. */
  datatype Written = Grows(max: Option<string>) | Stays(mark: string, separator: string)

  function Text(w: Written): string {
    match w
    case Grows(None) => ":autoextend"
    case Grows(Some(max)) => ":autoextend:max:" + max
    case Stays(mark, separator) => mark + separator
  }

  predicate IsMark(mark: string) {
    mark == "" || mark == "new" || mark == "raw" || mark == "newraw"
  }

  /** The options are of the documented form and say what `o` does; `rest` is what follows them. */
  ghost predicate WellWritten(w: Written, o: Options, rest: string) {
    match w
    case Grows(None) => o == Options(true, None, false, 0) && rest == ""
    case Grows(Some(max)) =>
      && rest == "" && o.max.Some? && o.max.value > 0 && o == Options(true, o.max, false, 0)
      && Megabytes(max) == (o.max.value, |max|)
    case Stays(mark, separator) =>
      && IsMark(mark)
      && (separator == ";" || (separator == "" && rest == ""))
      && o == Options(false, None, |mark| > 0, |rest|)
  }

  lemma ExtendForm(u: string, size: nat) returns (w: Written)
    requires ParseExtend(u, size).Some?
    ensures WellWritten(w, ParseExtend(u, size).value, "") && ":autoextend" + u == Text(w)
  {
    hide Megabytes;
    if MAX <= u {
      var max := u[|MAX|..];
      MegabytesOfPrefix(max);
      assert max[..|max|] == max;
      w := Grows(Some(max));
      assert u == ":max:" + max;
      assert ":autoextend" + (":max:" + max) == ":autoextend:max:" + max;
    } else {
      w := Grows(None);
    }
  }

  lemma MarksForm(t: string) returns (mark: string)
    ensures IsMark(mark) && |mark| == RawLength(t) && mark <= t
  {
    if NewMark(t) {
      assert t == "new" + t[3..];
      if "raw" <= t[3..] {
        mark := "newraw";
        assert t[3..] == "raw" + t[3..][3..];
        assert t == "new" + ("raw" + t[3..][3..]) == "newraw" + t[3..][3..];
      } else {
        mark := "new";
      }
    } else {
      assert t[0..] == t;
      mark := if "raw" <= t then "raw" else "";
    }
  }

  lemma OptionsForm(t: string, size: nat) returns (w: Written, rest: string)
    requires ParseOptions(t, size).Some?
    ensures WellWritten(w, ParseOptions(t, size).value, rest) && t == Text(w) + rest
    ensures |rest| == ParseOptions(t, size).value.rest
  {
    if AUTOEXTEND <= t {
      hide ParseExtend, WellWritten, Text;
      rest := "";
      w := ExtendForm(t[|AUTOEXTEND|..], size);
      assert t == ":autoextend" + t[|AUTOEXTEND|..];
    } else {
      w, rest := PlainForm(t, size);
    }
  }

  lemma PlainForm(t: string, size: nat) returns (w: Written, rest: string)
    requires ParseOptions(t, size).Some? && !(AUTOEXTEND <= t)
    ensures WellWritten(w, ParseOptions(t, size).value, rest) && t == Text(w) + rest
    ensures |rest| == ParseOptions(t, size).value.rest
  {
    PlainOptions(t, size);
    hide RawLength, ParseOptions, IsMark;
    var mark := MarksForm(t);
    var v := t[|mark|..];
    Split(mark, t);
    if v == [] {
      w, rest := Stays(mark, ""), "";
    } else {
      w, rest := Stays(mark, ";"), v[1..];
      Split(";", v);
      Associative(mark, ";", rest);
    }
  }

  /** Whatever is accepted is in the documented form: a path whose colons are all followed by a slash, a backslash or
      another colon, one that is not, a size that is read to its end, and the options of a file that grows, which are
      the end of the string, or the marks and the separator of one that does not. */
  lemma ItemForm(s: string) returns (number: string, w: Written, rest: string)
    requires ParseItem(s).Some?
    ensures var item := ParseItem(s).value;
      && s == item.path + ":" + number + Text(w) + rest
      && |rest| == |s| - item.length
      && Megabytes(number) == (item.size, |number|)
      && WellWritten(w, Options(item.autoextend, item.max, item.raw, |rest|), rest)
      && (forall i :: 0 <= i < |item.path| && s[i] == ':' ==> s[i + 1] in "\\/:")
      && (|item.path| + 1 < |s| ==> s[|item.path| + 1] !in "\\/:")
  {
    hide Megabytes, ParseOptions, WellWritten, Text;
    var p := PathLength(s);
    forall i | 0 <= i < p && s[i] == ':' ensures s[i + 1] in "\\/:" {
      assert StepsOver(s, i);
      InPath(s[i + 1]);
    }
    if p + 1 < |s| {
      InPath(s[p + 1]);
    }
    hide PathLength;
    var (size, n) := Megabytes(s[p + 1..]);
    MegabytesOfPrefix(s[p + 1..]);
    number := s[p + 1..][..n];
    var t := s[p + 1 + n..];
    w, rest := OptionsForm(t, size);
    assert s == s[..p] + ":" + number + t;
    assert s[..p] + ":" + number + t == s[..p] + ":" + number + Text(w) + rest;
  }

  // ---------- the first pass ----------

  /** A C string of length n. */
  ghost predicate IsCString(chars: seq<char>, n: nat) {
    n < |chars| && chars[n] == '\0' && forall k :: 0 <= k < n ==> chars[k] != '\0'
  }

  lemma PathLengthUnique(s: string, m: nat)
    requires m <= |s| && (forall i :: 0 <= i < m ==> StepsOver(s, i)) && (m < |s| ==> !StepsOver(s, m))
    ensures PathLength(s) == m
  {
  }

  method FindPathEnd(a: array<char>, n: nat, i: nat) returns (j: nat)
    requires i <= n < a.Length && a[n] == '\0' && forall k :: i <= k < n ==> a[k] != '\0'
    ensures i <= j <= n && j == i + PathLength(a[i..n])
  {
    j := i;
    ghost var s := a[i..n];
    while (a[j] != ':' && a[j] != '\0') || (a[j] == ':' && (a[j + 1] == '\\' || a[j + 1] == '/' || a[j + 1] == ':'))
      invariant i <= j <= n
      invariant forall k :: 0 <= k < j - i ==> StepsOver(s, k)
      decreases n - j
    {
      j := j + 1;
    }
    PathLengthUnique(s, j - i);
  }

  /** Step over `new` and `raw`. */
  method SkipRaw(a: array<char>, n: nat, i: nat) returns (next: nat, newMark: bool, rawMark: bool)
    requires i <= n < a.Length && a[n] == '\0' && forall k :: i <= k < n ==> a[k] != '\0'
    ensures next == i + RawLength(a[i..n]) <= n
    ensures newMark || rawMark <==> RawLength(a[i..n]) > 0
  {
    next, newMark, rawMark := i, false, false;
    ghost var t := a[i..n];
    NewPrefix(t);
    if n - next >= 6 && a[next] == 'n' && a[next + 1] == 'e' && a[next + 2] == 'w' {
      next, newMark := next + 3, true;
    }
    assert newMark == NewMark(t);
    assert t[next - i..] == a[next..n];
    RawPrefix(a[next..n]);
    if a[next] == 'r' && a[next + 1] == 'a' && a[next + 2] == 'w' {
      next, rawMark := next + 3, true;
    }
  }

  lemma NewPrefix(t: string)
    ensures "new" <= t <==> |t| >= 3 && t[0] == 'n' && t[1] == 'e' && t[2] == 'w'
  {
  }

  lemma RawPrefix(t: string)
    ensures "raw" <= t <==> |t| >= 3 && t[0] == 'r' && t[1] == 'a' && t[2] == 'w'
  {
  }

  /** Step over `:max:` and its size. */
  method SkipMax(a: array<char>, n: nat, i: nat) returns (next: nat, max: Option<nat>)
    requires i <= n < a.Length
    ensures i <= next <= n && (max.Some? <==> MAX <= a[i..n])
    ensures max.Some? ==> (max.value, next - i - |MAX|) == Megabytes(a[i..n][|MAX|..])
    ensures max.None? ==> next == i
  {
    hide Megabytes;
    next, max := i, None;
    if MAX <= a[i..n] {
      next := next + |MAX|;
      assert a[next..n] == a[i..n][|MAX|..];
      var (size, m) := Megabytes(a[next..n]);
      next, max := next + m, Some(size);
    }
  }

  /** What lies behind `:autoextend`, as SkipExtend reports it: the maximum and whether the string ends there. */
  ghost predicate ExtendRead(t: string, max: Option<nat>, atEnd: bool) {
    && AUTOEXTEND <= t
    && var u := t[|AUTOEXTEND|..];
    if MAX <= u then
      var (megs, m) := Megabytes(u[|MAX|..]);
      max == Some(megs) && atEnd == (m == |u| - |MAX|)
    else max.None? && atEnd == (u == [])
  }

  lemma ExtendedOptions(t: string, size: nat, max: Option<nat>, atEnd: bool)
    requires ExtendRead(t, max, atEnd)
    ensures ParseOptions(t, size) ==
      if atEnd && (if max.Some? then max.value else size) > 0 then Some(Options(true, max, false, 0)) else None
  {
    hide Megabytes;
  }

  lemma PlainOptions(t: string, size: nat)
    requires !(AUTOEXTEND <= t)
    ensures var v := t[RawLength(t)..];
      ParseOptions(t, size) ==
      if size == 0 || (v != [] && v[0] != ';') then None
      else Some(Options(false, None, RawLength(t) > 0, if v == [] then 0 else |v| - 1))
  {
    hide RawLength;
  }

  /** Step over `:autoextend` and what belongs to it. */
  method SkipExtend(a: array<char>, n: nat, i: nat) returns (next: nat, extended: bool, max: Option<nat>)
    requires i <= n < a.Length && a[n] == '\0' && forall k :: i <= k < n ==> a[k] != '\0'
    ensures i <= next <= n && extended == (AUTOEXTEND <= a[i..n])
    ensures if extended then ExtendRead(a[i..n], max, next == n) else next == i && max.None?
  {
    hide Megabytes;
    next, extended, max := i, false, None;
    if AUTOEXTEND <= a[i..n] {
      extended := true;
      next := next + |AUTOEXTEND|;
      assert a[next..n] == a[i..n][|AUTOEXTEND|..];
      next, max := SkipMax(a, n, next);
    }
  }

  /** What the first pass does behind the size of a file. */
  method CheckOptions(a: array<char>, n: nat, i: nat, ownSize: nat) returns (ok: bool, next: nat)
    requires i <= n < a.Length && a[n] == '\0' && forall k :: i <= k < n ==> a[k] != '\0'
    ensures ok <==> ParseOptions(a[i..n], ownSize).Some?
    ensures ok ==> next == n - ParseOptions(a[i..n], ownSize).value.rest
  {
    hide ParseOptions, RawLength, ExtendRead;
    ghost var t := a[i..n];
    var size := ownSize;
    var extended, max;
    next, extended, max := SkipExtend(a, n, i);
    if extended {
      ExtendedOptions(t, ownSize, max, next == n);
      size := if max.Some? then max.value else size;
      if a[next] != '\0' {
        return false, 0;
      }
    } else {
      PlainOptions(t, ownSize);
    }
    NoMarks(a[next..n]);
    var newMark, rawMark;
    next, newMark, rawMark := SkipRaw(a, n, next);
    assert !extended ==> a[next..n] == t[RawLength(t)..];
    if size == 0 {
      return false, 0;
    }
    if a[next] == ';' {
      next := next + 1;
    } else if a[next] != '\0' {
      return false, 0;
    }
    ok := true;
  }

  lemma NoMarks(t: string)
    ensures t == [] ==> RawLength(t) == 0
  {
  }

  /** The body of the counting loop: accepts one file and steps behind it. */
  method CheckFile(a: array<char>, n: nat, i: nat) returns (ok: bool, next: nat)
    requires i < n < a.Length && a[n] == '\0' && forall k :: i <= k < n ==> a[k] != '\0'
    ensures ok <==> ParseItem(a[i..n]).Some?
    ensures ok ==> next == i + ParseItem(a[i..n]).value.length
  {
    hide Megabytes, PathLength, ParseOptions;
    ghost var s := a[i..n];
    var str := FindPathEnd(a, n, i);
    if a[str] == '\0' {
      return false, 0;
    }
    str := str + 1;
    assert s[str - i..] == a[str..n];
    var (size, m) := Megabytes(a[str..n]);
    str := str + m;
    assert s[str - i..] == a[str..n];
    ok, next := CheckOptions(a, n, str, size);
  }

  /** The first pass: accepts exactly the strings that have a meaning and name a file, and counts the files. */
  method CountFiles(a: array<char>, n: nat) returns (ok: bool, count: nat)
    requires IsCString(a[..], n)
    ensures ok <==> n > 0 && Parse(a[..n]).Some?
    ensures ok ==> count == |Parse(a[..n]).value|
  {
    hide ParseItem, Parse;
    count := 0;
    var i: nat := 0;
    assert a[..n] == a[0..n];
    while a[i] != '\0'
      invariant i <= n && (count == 0 <==> i == 0)
      invariant Parse(a[..n]).Some? <==> Parse(a[i..n]).Some?
      invariant Parse(a[..n]).Some? ==> |Parse(a[..n]).value| == count + |Parse(a[i..n]).value|
      decreases n - i
    {
      var fine, next := CheckFile(a, n, i);
      if !fine {
        ParseFails(a[i..n]);
        return false, 0;
      }
      ParseCons(a[i..n]);
      assert a[i..n][next - i..] == a[next..n];
      i, count := next, count + 1;
    }
    ParseEmpty(a[i..n]);
    ok := count > 0;
  }

  lemma ParseFails(s: string)
    requires s != [] && ParseItem(s).None?
    ensures Parse(s).None?
  {
    hide ParseItem;
  }

  // ---------- the second pass ----------

  datatype RawKind = NotRaw | NewRaw | OldRaw

  /** A raw partition is a new one, to be initialised, only during bootstrap. */
  predicate IsKind(kind: RawKind, raw: bool, bootstrap: bool) {
    (kind.NotRaw? <==> !raw) && (kind.NewRaw? <==> raw && bootstrap)
  }

  /** What the second pass does behind the size of a file; it has no reason to fail where the first pass did not. */
  method StoreOptions(a: array<char>, n: nat, i: nat, bootstrap: bool, ghost size: nat)
    returns (ok: bool, next: nat, autoextend: bool, max: Option<nat>, kind: RawKind)
    requires i <= n < a.Length && a[n] == '\0' && forall k :: i <= k < n ==> a[k] != '\0'
    requires ParseOptions(a[i..n], size).Some?
    ensures var o := ParseOptions(a[i..n], size).value;
      ok && next == n - o.rest && autoextend == o.autoextend && max == o.max && IsKind(kind, o.raw, bootstrap)
  {
    hide ParseOptions, RawLength, ExtendRead;
    ok, kind := false, NotRaw;
    ghost var t := a[i..n];
    next, autoextend, max := SkipExtend(a, n, i);
    if autoextend {
      ExtendedOptions(t, size, max, next == n);
      if a[next] != '\0' {
        return;
      }
    } else {
      PlainOptions(t, size);
    }
    NoMarks(a[next..n]);
    var newMark, rawMark;
    next, newMark, rawMark := SkipRaw(a, n, next);
    assert !autoextend ==> a[next..n] == t[RawLength(t)..];
    if newMark {
      kind := if bootstrap then NewRaw else OldRaw;
    }
    if rawMark && kind == NotRaw {
      kind := if bootstrap then NewRaw else OldRaw;
    }
    if a[next] == ';' {
      next := next + 1;
    }
    ok := true;
  }

  /** The body of the storing loop: ends the path of one file in place and reads the rest of it. */
  method StoreFile(a: array<char>, n: nat, i: nat, bootstrap: bool)
    returns (ok: bool, next: nat, size: nat, autoextend: bool, max: Option<nat>, kind: RawKind)
    requires i < n < a.Length && a[n] == '\0' && (forall k :: i <= k < n ==> a[k] != '\0')
    requires ParseItem(a[i..n]).Some?
    modifies a
    ensures var item := old(ParseItem(a[i..n])).value;
      && ok && i < next == i + item.length && size == item.size && autoextend == item.autoextend && max == item.max
      && IsKind(kind, item.raw, bootstrap)
      && i + |item.path| < next
      && a[..] == old(a[..])[i + |item.path| := '\0']
  {
    hide Megabytes, PathLength, ParseOptions;
    ghost var s := a[i..n];
    var str := FindPathEnd(a, n, i);
    assert a[str] == ':';
    if a[str] == ':' {
      a[str] := '\0';
      str := str + 1;
    }
    assert s[str - i..] == a[str..n];
    var (megs, m) := Megabytes(a[str..n]);
    size := megs;
    str := str + m;
    assert s[str - i..] == a[str..n];
    ok, next, autoextend, max, kind := StoreOptions(a, n, str, bootstrap, size);
  }

  /** Where the k-th file starts. */
  function Offset(items: seq<Item>, k: nat): nat
    requires k <= |items|
  {
    if k == 0 then 0 else Offset(items, k - 1) + items[k - 1].length
  }

  /** A file has been stored: its name is the position of its path, which a null character ends. */
  ghost predicate StoredAt(chars: seq<char>, names: seq<nat>, sizes: seq<nat>, kinds: seq<RawKind>, items: seq<Item>,
                           bootstrap: bool, k: nat, limit: nat)
    requires |names| == |sizes| == |kinds| == |items|
  {
    k < |items| ==>
      && names[k] == Offset(items, k) && sizes[k] == items[k].size && IsKind(kinds[k], items[k].raw, bootstrap)
      && names[k] + |items[k].path| < limit <= |chars|
      && chars[names[k]..names[k] + |items[k].path|] == items[k].path && chars[names[k] + |items[k].path|] == '\0'
  }

  /** Later writes lie behind what is stored. */
  lemma StoredStays(chars: seq<char>, names: seq<nat>, sizes: seq<nat>, kinds: seq<RawKind>, items: seq<Item>,
                    bootstrap: bool, k: nat, limit: nat, p: nat, next: nat, name: nat, size: nat, kind: RawKind, m: nat)
    requires |names| == |sizes| == |kinds| == |items| && k < |items| && m < k
    requires limit <= p < next <= |chars| && StoredAt(chars, names, sizes, kinds, items, bootstrap, m, limit)
    ensures StoredAt(chars[p := '\0'], names[k := name], sizes[k := size], kinds[k := kind], items, bootstrap, m, next)
  {
    var to := names[m] + |items[m].path|;
    assert chars[p := '\0'][names[m]..to] == chars[names[m]..to];
  }

  lemma NowStored(chars: seq<char>, names: seq<nat>, sizes: seq<nat>, kinds: seq<RawKind>, items: seq<Item>,
                  bootstrap: bool, k: nat, i: nat, next: nat, kind: RawKind)
    requires |names| == |sizes| == |kinds| == |items| && k < |items| && i == Offset(items, k) && next <= |chars|
    requires IsKind(kind, items[k].raw, bootstrap)
    requires i + |items[k].path| < next && items[k].path <= chars[i..]
    ensures StoredAt(chars[i + |items[k].path| := '\0'], names[k := i], sizes[k := items[k].size],
                     kinds[k := kind], items, bootstrap, k, next)
  {
    var to := i + |items[k].path|;
    assert chars[to := '\0'][i..to] == chars[i..][..|items[k].path|];
  }

  /** How far the second pass has come: k files stored, the string unchanged from position i on. */
  ghost predicate Progress(before: seq<char>, chars: seq<char>, names: seq<nat>, sizes: seq<nat>, kinds: seq<RawKind>,
                           items: seq<Item>, bootstrap: bool, n: nat, i: nat, k: nat, autoextend: bool, lastMax: nat)
  {
    && |names| == |sizes| == |kinds| == |items| && k <= |items|
    && i == Offset(items, k) <= n < |chars| == |before| && chars[i..] == before[i..]
    && Parse(before[i..n]) == Some(items[k..])
    && (forall m: nat :: m < k ==> StoredAt(chars, names, sizes, kinds, items, bootstrap, m, i))
    && autoextend == (k > 0 && items[k - 1].autoextend)
    && lastMax == (if k > 0 && items[k - 1].max.Some? then items[k - 1].max.value else 0)
  }

  /** The item at the cursor is the next one to be stored. */
  lemma NextItem(before: seq<char>, items: seq<Item>, n: nat, i: nat, k: nat)
    requires k <= |items| && i < n < |before| && Parse(before[i..n]) == Some(items[k..])
    ensures k < |items| && ParseItem(before[i..n]) == Some(items[k])
    ensures i + items[k].length <= n && Parse(before[i + items[k].length..n]) == Some(items[k + 1..])
  {
    hide ParseItem;
    var s := before[i..n];
    var item := ParseItem(s).value;
    assert items[k..][0] == item;
    assert items[k..][1..] == items[k + 1..];
    assert s[item.length..] == before[i + item.length..n];
  }

  /** Only the last file says how the last file grows. */
  lemma OnlyLastExtends(s: string, items: seq<Item>, k: nat)
    requires Parse(s) == Some(items) && 0 < k < |items|
    ensures !items[k - 1].autoextend && items[k - 1].max.None?
  {
    hide Parse;
    ItemsChecked(s, k - 1);
  }

  lemma StoresOne(before: seq<char>, chars: seq<char>, names: seq<nat>, sizes: seq<nat>, kinds: seq<RawKind>,
                  items: seq<Item>, bootstrap: bool, n: nat, i: nat, k: nat, autoextend: bool, lastMax: nat,
                  autoextend': bool, lastMax': nat, kind: RawKind)
    requires Progress(before, chars, names, sizes, kinds, items, bootstrap, n, i, k, autoextend, lastMax) && i < n
      && k < |items|
    requires ParseItem(before[i..n]) == Some(items[k]) && !autoextend && lastMax == 0
      && IsKind(kind, items[k].raw, bootstrap)
    requires i + items[k].length <= n && Parse(before[i + items[k].length..n]) == Some(items[k + 1..])
    requires autoextend' == items[k].autoextend && lastMax' == (if items[k].max.Some? then items[k].max.value else 0)
    ensures Progress(before, chars[i + |items[k].path| := '\0'], names[k := i], sizes[k := items[k].size],
                     kinds[k := kind], items, bootstrap, n, i + items[k].length, k + 1, autoextend', lastMax')
  {
    hide ParseItem, Parse;
    var item := items[k];
    var p, next := i + |item.path|, i + item.length;
    var chars', names', sizes' := chars[p := '\0'], names[k := i], sizes[k := item.size];
    var kinds' := kinds[k := kind];
    assert before[i..n] == chars[i..][..n - i];
    assert item.path <= chars[i..];
    NowStored(chars, names, sizes, kinds, items, bootstrap, k, i, next, kind);
    forall m: nat | m <= k ensures StoredAt(chars', names', sizes', kinds', items, bootstrap, m, next) {
      if m < k {
        assert StoredAt(chars, names, sizes, kinds, items, bootstrap, m, i);
        StoredStays(chars, names, sizes, kinds, items, bootstrap, k, i, p, next, i, item.size, kind, m);
      }
    }
    assert chars'[next..] == chars[i..][next - i..];
    assert before[next..] == before[i..][next - i..];
  }

  lemma StartsEmpty(before: seq<char>, names: seq<nat>, sizes: seq<nat>, kinds: seq<RawKind>, items: seq<Item>,
                    bootstrap: bool, n: nat)
    requires IsCString(before, n) && Parse(before[..n]) == Some(items) && |names| == |sizes| == |kinds| == |items|
    ensures Progress(before, before, names, sizes, kinds, items, bootstrap, n, 0, 0, false, 0)
  {
    hide Parse;
    assert before[..n] == before[0..n] && items[0..] == items;
  }

  /** Between two files there is one to store, and it reads in the changed string as it did in the original. */
  lemma UpToHere(before: seq<char>, chars: seq<char>, names: seq<nat>, sizes: seq<nat>, kinds: seq<RawKind>,
                 items: seq<Item>, bootstrap: bool, n: nat, i: nat, k: nat, autoextend: bool, lastMax: nat)
    requires Progress(before, chars, names, sizes, kinds, items, bootstrap, n, i, k, autoextend, lastMax)
    requires IsCString(before, n) && Parse(before[..n]) == Some(items) && chars[i] != '\0'
    ensures |chars| == |before| && i < n && chars[i..n] == before[i..n] && chars[n] == '\0'
    ensures forall j :: i <= j < n ==> chars[j] != '\0'
    ensures k < |items| == |names| == |sizes| == |kinds| && ParseItem(chars[i..n]) == Some(items[k])
    ensures i + items[k].length <= n && Parse(before[i + items[k].length..n]) == Some(items[k + 1..])
    ensures !autoextend && lastMax == 0 && (items[k].max.Some? ==> items[k].autoextend)
  {
    hide Parse, ParseItem;
    forall j | i <= j < |chars| ensures chars[j] == before[j] { assert chars[i..][j - i] == before[i..][j - i]; }
    assert chars[i..n] == before[i..n];
    NextItem(before, items, n, i, k);
    ItemsChecked(before[..n], k);
    if k > 0 {
      OnlyLastExtends(before[..n], items, k);
    }
  }

  lemma AtTheEnd(before: seq<char>, chars: seq<char>, names: seq<nat>, sizes: seq<nat>, kinds: seq<RawKind>,
                 items: seq<Item>, bootstrap: bool, n: nat, i: nat, k: nat, autoextend: bool, lastMax: nat)
    requires Progress(before, chars, names, sizes, kinds, items, bootstrap, n, i, k, autoextend, lastMax)
    requires IsCString(before, n) && chars[i] == '\0'
    ensures i == n && k == |items|
  {
    hide Parse;
    assert chars[i..][0] == before[i..][0];
    ParseEmpty(before[n..n]);
    assert items[k..] == [];
  }

  /** The second pass. */
  method StoreFiles(a: array<char>, n: nat, bootstrap: bool, names: array<nat>, sizes: array<nat>,
                    kinds: array<RawKind>, ghost items: seq<Item>)
    returns (ok: bool, autoextend: bool, lastMax: nat)
    requires IsCString(a[..], n) && Parse(a[..n]) == Some(items)
    requires names.Length == sizes.Length == kinds.Length == |items| && names != sizes
    modifies a, names, sizes, kinds
    ensures ok && Progress(old(a[..]), a[..], names[..], sizes[..], kinds[..], items, bootstrap, n, n, |items|,
      autoextend, lastMax)
  {
    hide ParseItem, Parse, Progress;
    ghost var before := a[..];
    autoextend, lastMax := false, 0;
    StartsEmpty(before, names[..], sizes[..], kinds[..], items, bootstrap, n);
    var i, k: nat := 0, 0;
    while a[i] != '\0'
      invariant i <= n && Progress(before, a[..], names[..], sizes[..], kinds[..], items, bootstrap, n, i, k,
        autoextend, lastMax)
      decreases n - i
    {
      UpToHere(before, a[..], names[..], sizes[..], kinds[..], items, bootstrap, n, i, k, autoextend, lastMax);
      ghost var chars, was := a[..], (names[..], sizes[..], kinds[..]);
      var fine, next, size, grows, max, kind := StoreFile(a, n, i, bootstrap);
      names[k], sizes[k], kinds[k] := i, size, kind;
      ghost var extended, limit := autoextend, lastMax;
      if grows {
        autoextend := true;
        if max.Some? {
          lastMax := max.value;
        }
      }
      StoresOne(before, chars, was.0, was.1, was.2, items, bootstrap, n, i, k, extended, limit, autoextend, lastMax,
        kind);
      i, k := next, k + 1;
    }
    AtTheEnd(before, a[..], names[..], sizes[..], kinds[..], items, bootstrap, n, i, k, autoextend, lastMax);
    ok := true;
  }

  /** Both passes: whatever the first one accepts the second one stores, file by file and without failing, into arrays
      of exactly the counted length; a string that is refused is left as it was. */
  method ParseDataFiles(a: array<char>, n: nat, bootstrap: bool)
    returns (ok: bool, names: array<nat>, sizes: array<nat>, kinds: array<RawKind>, autoextend: bool, lastMax: nat)
    requires IsCString(a[..], n)
    modifies a
    ensures ok <==> n > 0 && old(Parse(a[..n])).Some?
    ensures !ok ==> a[..] == old(a[..])
    ensures ok ==>
      var items := old(Parse(a[..n])).value;
      && items != [] && names.Length == sizes.Length == kinds.Length == |items|
      && (forall k: nat :: StoredAt(a[..], names[..], sizes[..], kinds[..], items, bootstrap, k, n))
      && autoextend == items[|items| - 1].autoextend
      && lastMax == (if items[|items| - 1].max.Some? then items[|items| - 1].max.value else 0)
  {
    hide ParseItem, Parse;
    var count;
    ok, count := CountFiles(a, n);
    names, sizes, kinds := new nat[count], new nat[count], new RawKind[count];
    autoextend, lastMax := false, 0;
    if ok {
      ghost var items := Parse(a[..n]).value;
      ok, autoextend, lastMax := StoreFiles(a, n, bootstrap, names, sizes, kinds, items);
      SomeFile(n, items);
    }
  }

  lemma SomeFile(n: nat, items: seq<Item>)
    requires n > 0 && Offset(items, |items|) == n
    ensures items != []
  {
  }

  /** A list of files in the documented form, read in place by both passes: every path, size and mark is stored as it
      was written, a raw partition as a new one exactly during bootstrap, and the ending for the last file. */
  method ReadWritten(a: array<char>, n: nat, bootstrap: bool, ghost files: seq<FileSpec>, ghost e: Ending)
    returns (ok: bool, names: array<nat>, sizes: array<nat>, kinds: array<RawKind>, autoextend: bool, lastMax: nat)
    requires GoodFiles(files, e) && IsCString(a[..], n) && a[..n] == Render(files, e)
    modifies a
    ensures ok && names.Length == sizes.Length == kinds.Length == |files|
    ensures forall k :: 0 <= k < |files| ==>
      && names[k] + |files[k].path| < n < a.Length
      && a[names[k]..names[k] + |files[k].path|] == files[k].path && a[names[k] + |files[k].path|] == '\0'
      && sizes[k] == InMegabytes(files[k].size)
      && kinds[k] == if files[k].mark.NoMark? then NotRaw else if bootstrap then NewRaw else OldRaw
    ensures autoextend == !e.Plain?
    ensures lastMax == if e.AutoextendMax? then InMegabytes(e.max) else 0
  {
    hide Parse, GoodFiles, Render, InMegabytes;
    RenderedSome(files, e);
    RoundTrip(files, e);
    ghost var items := Parse(Render(files, e)).value;
    ok, names, sizes, kinds, autoextend, lastMax := ParseDataFiles(a, n, bootstrap);
    ghost var stored := a[..];
    assert Says(items[|files| - 1], files[|files| - 1], e);
    forall k | 0 <= k < |files|
      ensures names[k] + |files[k].path| < n < a.Length
      ensures a[names[k]..names[k] + |files[k].path|] == files[k].path && a[names[k] + |files[k].path|] == '\0'
      ensures sizes[k] == InMegabytes(files[k].size)
      ensures kinds[k] == if files[k].mark.NoMark? then NotRaw else if bootstrap then NewRaw else OldRaw
    {
      assert Says(items[k], files[k], if k == |files| - 1 then e else Plain);
      assert StoredAt(stored, names[..], sizes[..], kinds[..], items, bootstrap, k, n);
      assert a[names[k]..names[k] + |files[k].path|] == stored[names[k]..names[k] + |files[k].path|];
    }
  }

  lemma RenderedSome(files: seq<FileSpec>, e: Ending)
    requires GoodFiles(files, e)
    ensures files != [] && Render(files, e) != []
  {
  }
}
