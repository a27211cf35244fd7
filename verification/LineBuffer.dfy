/**
 The line reader of the MariaDB client: a buffer that is refilled in whatever pieces the file delivers,
 shifted down and doubled when a line does not fit.  Pointers into the buffer are indices.  `file` is
 what has not been read yet.  Read errors are not modelled.
 */
module LineBuffer {
  import opened Optional

  const IO_SIZE: nat := 4096

  // ---------- splitting at newlines ----------

  /** The index of the first newline, or the length. */
  function LineEnd(s: string): (k: nat)
    ensures k <= |s| && '\n' !in s[..k] && (k < |s| ==> s[k] == '\n')
  {
    if s == [] || s[0] == '\n' then 0
    else
      var k := 1 + LineEnd(s[1..]);
      assert s[..k] == [s[0]] + s[1..][..k - 1];
      k
  }

  function Lines(s: string): seq<string> {
    if s == [] then []
    else
      var k := LineEnd(s);
      [s[..k]] + (if k < |s| then Lines(s[k + 1..]) else [])
  }

  function Unlines(lines: seq<string>): string {
    if lines == [] then [] else lines[0] + "\n" + Unlines(lines[1..])
  }

  lemma UnlinesCons(line: string, rest: seq<string>)
    ensures Unlines([line] + rest) == line + "\n" + Unlines(rest)
  {
    assert ([line] + rest)[1..] == rest;
  }

  /** What follows the first line of a stream. */
  function AfterLine(stream: string): string {
    if LineEnd(stream) < |stream| then stream[LineEnd(stream) + 1..] else []
  }

  lemma LinesCons(s: string)
    requires s != []
    ensures Lines(s) == [s[..LineEnd(s)]] + Lines(AfterLine(s)) && |AfterLine(s)| < |s|
  {
    hide LineEnd;
    NoLines();
  }

  lemma NoLines()
    ensures Lines([]) == []
  {
  }

  /** The stream with a newline at its end. */
  function Completed(s: string): string {
    if s == [] || s[|s| - 1] == '\n' then s else s + "\n"
  }

  lemma CompletedCons(line: string, rest: string)
    ensures Completed(line + "\n" + rest) == line + "\n" + Completed(rest)
  {
    var s := line + "\n" + rest;
    assert s[|s| - 1] == if rest == [] then '\n' else rest[|rest| - 1];
    assert s + "\n" == line + "\n" + (rest + "\n");
  }

  lemma CompletedNone(s: string)
    requires s == []
    ensures Completed(s) == []
  {
  }

  lemma CompletedLast(s: string)
    requires s != [] && LineEnd(s) == |s|
    ensures Completed(s) == s + "\n" && s[..LineEnd(s)] == s
  {
    NewlineOnlyAtEnd(s, |s|);
  }

  /** Splitting loses nothing but a newline missing at the end, and no line holds a newline. */
  lemma {:induction false} UnlinesOfLines(s: string)
    ensures Unlines(Lines(s)) == Completed(s)
    ensures forall line :: line in Lines(s) ==> '\n' !in line
    decreases |s|
  {
    if s == [] {
      NoLines();
    } else {
      hide Lines, Unlines, LineEnd, Completed;
      var k, rest := LineEnd(s), AfterLine(s);
      LinesCons(s);
      UnlinesOfLines(rest);
      UnlinesCons(s[..k], Lines(rest));
      CompletedSplit(s);
    }
  }

  lemma CompletedSplit(s: string)
    requires s != []
    ensures Completed(s) == s[..LineEnd(s)] + "\n" + Completed(AfterLine(s))
  {
    hide LineEnd, Completed;
    var k, rest := LineEnd(s), AfterLine(s);
    if k < |s| {
      assert s == s[..k] + "\n" + rest;
      CompletedCons(s[..k], rest);
    } else {
      CompletedLast(s);
      CompletedNone(rest);
    }
  }

  lemma LineEndIs(s: string, k: nat)
    requires k <= |s| && '\n' !in s[..k] && (k < |s| ==> s[k] == '\n')
    ensures LineEnd(s) == k
  {
    hide LineEnd;
    var e := LineEnd(s);
    forall i | 0 <= i < k ensures s[i] != '\n' { assert s[i] in s[..k]; }
    forall i | 0 <= i < e ensures s[i] != '\n' { assert s[i] in s[..e]; }
  }

  lemma NewlineOnlyAtEnd(s: string, n: nat)
    requires n <= |s|
    ensures 0 < n <= LineEnd(s) ==> s[n - 1] != '\n'
  {
    hide LineEnd;
    if 0 < n <= LineEnd(s) {
      assert s[n - 1] in s[..LineEnd(s)];
    }
  }

  lemma NoEarlierEnd(s: string, n: nat)
    requires n <= |s| && '\n' !in s[..n]
    ensures n <= LineEnd(s)
  {
    hide LineEnd;
    forall i | 0 <= i < n ensures s[i] != '\n' { assert s[i] in s[..n]; }
  }

  lemma LineInBuffer(held: string, file: string, stream: string, k: nat)
    requires stream == held + file && k < |held| && '\n' !in held[..k] && held[k] == '\n'
    ensures LineEnd(stream) == k
    ensures stream[..k + 1] == held[..k + 1] && stream[k + 1..] == held[k + 1..] + file
  {
    hide LineEnd;
    assert stream[..k] == held[..k];
    LineEndIs(stream, k);
  }

  /** The largest size that doubling from `size` reaches within the limit. */
  function Capacity(maxSize: nat, size: nat): nat
    requires size > 0
    decreases maxSize - size
  {
    if 2 * size > maxSize then size else Capacity(maxSize, 2 * size)
  }

  /** What ends a call of intern_read_line. */
  datatype Outcome = EndOfInput | Line | LastLine | Truncated

  class Buffer {
    var file: string
    var buffer: array<char>
    var end: nat
    var startOfLine: nat
    var endOfLine: nat
    var bufread: nat
    var maxSize: nat
    var eof: bool
    var truncated: bool
    var readLength: nat

    ghost predicate Valid()
      reads this, buffer
    {
      && buffer.Length == bufread + 1 && IO_SIZE <= bufread
      && startOfLine <= endOfLine <= end <= bufread
      && (eof ==> file == [] && endOfLine == end)
    }

    /** Everything that has not been returned yet. */
    ghost function Stream(): string
      reads this, buffer
      requires Valid()
    {
      buffer[endOfLine..end] + file
    }

    /** init_line_buffer */
    constructor (file: string, maxSize: nat)
      ensures Valid() && Stream() == file && fresh(buffer) && this.maxSize == maxSize && !eof
      ensures bufread == IO_SIZE
    {
      this.file := file;
      bufread := IO_SIZE;
      this.maxSize := maxSize;
      buffer := new char[IO_SIZE + 1](_ => '\0');
      end, startOfLine, endOfLine, readLength := 0, 0, 0, 0;
      eof, truncated := false, false;
    }

    /** my_read: any number of bytes up to the number asked for; none only at the end of the file. */
    method Read(count: nat) returns (n: nat)
      requires 0 < count && end + count <= buffer.Length
      modifies this`file, buffer
      ensures n <= count && n <= |old(file)| && (n == 0 <==> old(file) == [])
      ensures file == old(file)[n..]
      ensures buffer[..end] == old(buffer[..end]) && buffer[end..end + n] == old(file)[..n]
    {
      if file == [] {
        return 0;
      }
      n :| 1 <= n <= count && n <= |file|;
      forall i | 0 <= i < n {
        buffer[end + i] := file[i];
      }
      file := file[n..];
    }

    /** Make room for at least one block after the bytes held; false when the size limit forbids it. */
    method Grow(held: nat) returns (count: nat)
      requires buffer.Length == bufread + 1 && IO_SIZE <= bufread
      requires startOfLine <= end <= bufread && held == end - startOfLine
      modifies this`buffer, this`bufread, this`end
      ensures buffer.Length == bufread + 1 && startOfLine + held <= bufread
      ensures buffer == old(buffer) || fresh(buffer)
      ensures buffer[startOfLine..startOfLine + held] == old(buffer[startOfLine..end])
      ensures count == 0 ==> unchanged(this) && old(bufread) * 2 > maxSize && old(bufread) < held + IO_SIZE
      ensures count > 0 ==> held + count <= bufread && old(bufread) <= bufread
      ensures bufread == old(bufread) || (bufread == 2 * old(bufread) <= maxSize)
      ensures end == (if bufread == old(bufread) then old(end) else held)
    {
      count := (bufread - held) / IO_SIZE * IO_SIZE;
      while count == 0
        invariant count == (bufread - held) / IO_SIZE * IO_SIZE
        invariant buffer.Length == bufread + 1 && startOfLine + held <= bufread
          && (buffer == old(buffer) || fresh(buffer))
        invariant buffer[startOfLine..startOfLine + held] == old(buffer[startOfLine..end])
        invariant bufread == old(bufread) ==> unchanged(this)
        invariant bufread != old(bufread) ==> count > 0 && bufread == 2 * old(bufread) <= maxSize && end == held
        decreases count == 0
      {
        if bufread * 2 > maxSize {
          return;
        }
        var bigger := new char[2 * bufread + 1](_ => '\0');
        forall i | 0 <= i < buffer.Length {
          bigger[i] := buffer[i];
        }
        bufread := 2 * bufread;
        buffer := bigger;
        end := held;
        count := (bufread - held) / IO_SIZE * IO_SIZE;
      }
    }

    /** Read behind the bytes held; at the end of the file complete what is held with a newline. */
    method ReadMore(held: nat, count: nat) returns (n: nat)
      requires buffer.Length == bufread + 1 && end == held && held + count <= bufread && count > 0
      requires !eof && '\n' !in buffer[..held]
      modifies this`file, this`eof, this`startOfLine, this`endOfLine, this`end, buffer
      ensures startOfLine == 0 && endOfLine == held && end == held + n <= bufread
      ensures buffer[..held] == old(buffer[..held]) && eof == (old(file) == [])
      ensures !eof ==> n > 0 && buffer[held..end] + file == old(file)
      ensures eof ==> file == [] && n == (if held > 0 then 1 else 0)
      ensures eof && n == 1 ==> buffer[held] == '\n'
    {
      n := Read(count);
      ghost var kept, got := buffer[..held], buffer[held..held + n];
      if held > 0 {
        assert kept[held - 1] in kept;
        assert buffer[held - 1] == kept[held - 1];
      }
      if n == 0 {
        eof := true;
        if held > 0 && buffer[end - 1] != '\n' {
          n := 1;
          buffer[end] := '\n';
        }
      }
      startOfLine, endOfLine := 0, held;
      end := end + n;
      buffer[end] := '\0';
      assert buffer[..held] == kept;
      assert !eof ==> buffer[held..end] == got;
    }

    /** fill_buffer */
    method FillBuffer() returns (count: nat)
      requires Valid0() && '\n' !in buffer[startOfLine..end]
      modifies this, buffer
      ensures Valid0() && maxSize == old(maxSize) && (buffer == old(buffer) || fresh(buffer))
      ensures bufread == old(bufread) || (bufread == 2 * old(bufread) <= maxSize)
      ensures old(eof) ==> count == 0 && unchanged(this) && unchanged(buffer)
      ensures !old(eof) && count == 0 && !eof ==>
        unchanged(this) && unchanged(buffer) && old(bufread) * 2 > maxSize
          && old(bufread) < old(end - startOfLine) + IO_SIZE
      ensures !old(eof) && (count > 0 || eof) ==>
        && startOfLine == 0 && endOfLine == old(end - startOfLine) && end == endOfLine + count
        && buffer[..endOfLine] == old(buffer[startOfLine..end]) && eof == (old(file) == [])
      ensures !old(eof) && count > 0 && !eof ==> buffer[endOfLine..end] + file == old(file)
      ensures !old(eof) && eof ==> file == [] && count == (if endOfLine > 0 then 1 else 0)
      ensures !old(eof) && eof && count == 1 ==> buffer[endOfLine] == '\n'
    {
      if eof {
        return 0;
      }
      var held := end - startOfLine;
      ghost var kept := buffer[startOfLine..end];
      count := Grow(held);
      if count == 0 {
        return;
      }
      ShiftDown(held);
      assert buffer[..held] == kept;
      count := ReadMore(held, count);
    }

    /** The part of Valid that holds while a line is being completed. */
    ghost predicate Valid0()
      reads this, buffer
    {
      && buffer.Length == bufread + 1 && IO_SIZE <= bufread
      && startOfLine <= endOfLine <= end <= bufread
    }

    method ShiftDown(held: nat)
      requires startOfLine + held < buffer.Length
      requires startOfLine == 0 ==> end == held
      modifies this`end, buffer
      ensures end == held && buffer[..held] == old(buffer[startOfLine..startOfLine + held])
    {
      if startOfLine != 0 {
        forall i | 0 <= i < held {
          buffer[i] := buffer[startOfLine + i];
        }
        end := held;
      }
    }

    /** Where the search for the end of a line stands. */
    ghost predicate Scanning(stream: string)
      reads this, buffer
    {
      && Valid0()
      && (!eof ==> buffer[startOfLine..end] + file == stream && '\n' !in buffer[startOfLine..endOfLine])
      && (eof && stream == [] ==> startOfLine == end && file == [])
      && (eof && stream != [] ==>
           '\n' !in stream && buffer[startOfLine..endOfLine] == stream && end == endOfLine + 1
             && buffer[endOfLine] == '\n' && file == [])
    }

    /** The first newline from endOfLine on, or end. */
    method FindNewline() returns (pos: nat)
      requires Valid0()
      ensures endOfLine <= pos <= end && '\n' !in buffer[endOfLine..pos] && (pos < end ==> buffer[pos] == '\n')
      ensures '\n' !in buffer[startOfLine..endOfLine] ==> '\n' !in buffer[startOfLine..pos]
    {
      pos := endOfLine;
      while buffer[pos] != '\n' && pos != end
        invariant endOfLine <= pos <= end && '\n' !in buffer[endOfLine..pos]
        decreases end - pos
      {
        pos := pos + 1;
      }
      assert buffer[startOfLine..pos] == buffer[startOfLine..endOfLine] + buffer[endOfLine..pos];
    }

    /** What a call that returns a line has done to the stream it was given. */
    ghost predicate Returned(stream: string, outcome: Outcome, outLength: nat)
      reads this, buffer
      requires Valid()
    {
      && startOfLine + outLength <= end && outLength <= |stream|
      && (!outcome.EndOfInput? ==> endOfLine == startOfLine + outLength + (if outcome.LastLine? then 1 else 0))
      && buffer[startOfLine..startOfLine + outLength] == stream[..outLength]
      && match outcome
         case EndOfInput => stream == [] && eof && Stream() == []
         case Line =>
           !eof && !truncated && outLength == LineEnd(stream) + 1 && Stream() == stream[outLength..]
         case LastLine => eof && !truncated && stream != [] && outLength == LineEnd(stream) == |stream|
           && Stream() == []
         case Truncated =>
           && !eof && truncated && 0 < outLength <= LineEnd(stream) && endOfLine == end
             && Stream() == stream[outLength..]
           && bufread * 2 > maxSize && bufread < outLength + IO_SIZE
    }

    /** One refill in the search for the end of a line. */
    method Refill(ghost stream: string) returns (length: nat)
      requires Scanning(stream) && '\n' !in buffer[startOfLine..end] && (eof ==> stream == [])
      modifies this, buffer
      ensures Scanning(stream) && maxSize == old(maxSize) && (buffer == old(buffer) || fresh(buffer))
      ensures Capacity(maxSize, bufread) == old(Capacity(maxSize, bufread))
      ensures length == 0 && eof ==> stream == []
      ensures length == 0 && !eof ==>
        startOfLine < end && '\n' !in buffer[startOfLine..end] && end == old(end) && bufread * 2 > maxSize
          && bufread < end - startOfLine + IO_SIZE
      ensures length > 0 ==> |file| < |old(file)| || (file == old(file) && eof && !old(eof))
    {
      ghost var held, rest := buffer[startOfLine..end], file;
      assert !eof ==> stream == held + rest;
      length := FillBuffer();
      if !eof && length > 0 {
        assert buffer[..end] == buffer[..endOfLine] + buffer[endOfLine..end];
        assert buffer[startOfLine..end] + file == held + rest;
      }
    }

    /** The end of a line has been found. */
    method DeliverLine(pos: nat, ghost stream: string) returns (outLength: nat)
      requires Scanning(stream) && !eof
      requires endOfLine <= pos < end && '\n' !in buffer[startOfLine..pos] && buffer[pos] == '\n'
      modifies this`truncated, this`endOfLine
      ensures Valid() && Returned(stream, Line, outLength)
    {
      hide LineEnd;
      ghost var held, line := buffer[startOfLine..end], pos - startOfLine;
      assert held[..line] == buffer[startOfLine..pos];
      LineInBuffer(held, file, stream, line);
      truncated := false;
      endOfLine := pos + 1;
      outLength := pos + 1 - startOfLine;
      assert buffer[startOfLine..startOfLine + outLength] == held[..line + 1];
      assert buffer[endOfLine..end] == held[line + 1..];
    }

    /** The newline that completes the last line has been found; it is not counted. */
    method DeliverLast(pos: nat, ghost stream: string) returns (outLength: nat)
      requires Scanning(stream) && eof && stream != [] && endOfLine <= pos < end && '\n' !in buffer[endOfLine..pos]
      modifies this`truncated, this`endOfLine
      ensures Valid() && Returned(stream, LastLine, outLength)
    {
      hide LineEnd;
      assert stream[..|stream|] == stream;
      LineEndIs(stream, |stream|);
      assert pos == endOfLine;
      truncated := false;
      endOfLine := pos + 1;
      outLength := pos + 1 - 1 - startOfLine;
    }

    /** Break the line where the buffer ends. */
    method DeliverTruncated(ghost stream: string) returns (outLength: nat)
      requires Scanning(stream) && !eof && startOfLine < end && '\n' !in buffer[startOfLine..end]
      requires bufread * 2 > maxSize && bufread < end - startOfLine + IO_SIZE
      modifies this`truncated, this`endOfLine
      ensures Valid() && Returned(stream, Truncated, outLength)
    {
      hide LineEnd;
      var pos := end - 1;
      truncated := true;
      endOfLine := pos + 1;
      outLength := pos + 1 - startOfLine;
      assert stream[..outLength] == buffer[startOfLine..end];
      NoEarlierEnd(stream, outLength);
    }

    lemma EndReached(stream: string)
      requires Scanning(stream) && eof && stream == []
      ensures Valid() && Returned(stream, EndOfInput, 0)
    {
    }

    /** intern_read_line */
    method InternReadLine() returns (outcome: Outcome, outLength: nat)
      requires Valid()
      modifies this, buffer
      ensures Valid() && maxSize == old(maxSize) && (buffer == old(buffer) || fresh(buffer))
      ensures Capacity(maxSize, bufread) == old(Capacity(maxSize, bufread))
      ensures Returned(old(Stream()), outcome, outLength)
    {
      hide LineEnd, Capacity, Returned;
      ghost var stream := Stream();
      startOfLine := endOfLine;
      var pos := FindNewline();
      while pos == end
        invariant Scanning(stream) && maxSize == old(maxSize) && (buffer == old(buffer) || fresh(buffer))
        invariant Capacity(maxSize, bufread) == old(Capacity(maxSize, bufread))
        invariant endOfLine <= pos <= end && '\n' !in buffer[endOfLine..pos] && (pos < end ==> buffer[pos] == '\n')
        invariant '\n' !in buffer[startOfLine..endOfLine] ==> '\n' !in buffer[startOfLine..pos]
        decreases |file|, !eof
      {
        var length := Refill(stream);
        if length == 0 {
          if eof {
            EndReached(stream);
            return EndOfInput, 0;
          }
          outLength := DeliverTruncated(stream);
          return Truncated, outLength;
        }
        pos := FindNewline();
      }
      if eof {
        outLength := DeliverLast(pos, stream);
        outcome := LastLine;
      } else {
        outLength := DeliverLine(pos, stream);
        outcome := Line;
      }
    }

    /** The length of a returned line without what ends it. */
    method LineLength(ghost stream: string, outcome: Outcome, outLength: nat, binaryMode: bool) returns (length: nat)
      requires Valid() && !outcome.EndOfInput? && Returned(stream, outcome, outLength)
      ensures length <= outLength && startOfLine + length < buffer.Length
      ensures length == if outcome.Truncated? then outLength else ShownLength(stream, binaryMode)
      ensures outcome.Truncated? || startOfLine + length < endOfLine
      ensures buffer[startOfLine..startOfLine + length] == stream[..length]
    {
      hide LineEnd;
      length := outLength;
      forall k | 0 <= k < outLength ensures buffer[startOfLine + k] == stream[k] {
        assert buffer[startOfLine..startOfLine + outLength][k] == stream[..outLength][k];
      }
      NewlineOnlyAtEnd(stream, outLength);
      assert outLength <= |stream| && startOfLine + outLength <= endOfLine <= end;
      assert outcome.Truncated? ==> outLength <= LineEnd(stream);
      assert outcome.Line? ==> outLength == LineEnd(stream) + 1;
      assert outcome.LastLine? ==> startOfLine + outLength < endOfLine && outLength == LineEnd(stream) == |stream|;
      hide Returned, Stream;
      if length > 0 && buffer[startOfLine + length - 1] == '\n' {
        length := length - 1;
        if length > 0 && !binaryMode && buffer[startOfLine + length - 1] == '\r' {
          length := length - 1;
        }
      }
      assert buffer[startOfLine..startOfLine + length] == buffer[startOfLine..startOfLine + outLength][..length];
    }

    /** End the text of a line with a null character; the stream behind it stays. */
    method TakeLine(length: nat, ghost stream: string) returns (text: string)
      requires Valid() && startOfLine + length < buffer.Length && length <= |stream|
      requires startOfLine + length < endOfLine || endOfLine == end
      requires buffer[startOfLine..startOfLine + length] == stream[..length]
      modifies buffer
      ensures Valid() && Stream() == old(Stream()) && text == stream[..length]
    {
      buffer[startOfLine + length] := '\0';
      text := buffer[startOfLine..startOfLine + length];
      assert buffer[endOfLine..end] == old(buffer[endOfLine..end]);
    }

    /** batch_readline.  A truncated line is returned in pieces; in text mode a carriage return before the
        newline goes too, but not one at the end of an unterminated last line. */
    method BatchReadLine(binaryMode: bool) returns (line: Option<string>, ghost ending: string)
      requires Valid()
      modifies this, buffer
      ensures Valid() && maxSize == old(maxSize) && (buffer == old(buffer) || fresh(buffer))
      ensures Capacity(maxSize, bufread) == old(Capacity(maxSize, bufread))
      ensures line.None? <==> old(Stream()) == []
      ensures line.None? ==> Stream() == []
      ensures line.Some? && !truncated ==>
        Stream() == AfterLine(old(Stream())) && line.value == Shown(old(Stream()), binaryMode)
          && readLength == |line.value|
      ensures line.Some? && !truncated ==> Splits(old(Stream()), line.value, ending, Stream(), binaryMode)
      ensures line.Some? && truncated ==>
        && 0 < |line.value| <= LineEnd(old(Stream())) && line.value + Stream() == old(Stream())
        && Capacity(maxSize, bufread) < |line.value| + IO_SIZE
    {
      hide LineEnd, Returned, Capacity, AfterLine, Shown, ShownLength, Splits;
      ghost var stream := Stream();
      ending := "";
      var outcome, outLength := InternReadLine();
      if outcome.EndOfInput? {
        NothingReturned(stream, outLength);
        return None, "";
      }
      var length := LineLength(stream, outcome, outLength, binaryMode);
      WhatReturned(stream, outcome, outLength, length, binaryMode);
      if !truncated {
        ending := EndingOf(stream, binaryMode);
      }
      ghost var rest := Stream();
      readLength := length;
      assert Valid() && Stream() == rest;
      hide Valid, Stream;
      var text := TakeLine(length, stream);
      line := Some(text);
    }

    lemma NothingReturned(stream: string, outLength: nat)
      requires Valid() && Returned(stream, EndOfInput, outLength)
      ensures stream == [] && Stream() == []
    {
    }

    /** The two ways in which a line comes back. */
    lemma WhatReturned(stream: string, outcome: Outcome, outLength: nat, length: nat, binaryMode: bool)
      requires Valid() && !outcome.EndOfInput? && Returned(stream, outcome, outLength)
      requires length == if outcome.Truncated? then outLength else ShownLength(stream, binaryMode)
      ensures stream != [] && length <= |stream| && truncated == outcome.Truncated? && (truncated ==> endOfLine == end)
      ensures !truncated ==> Stream() == AfterLine(stream) && stream[..length] == Shown(stream, binaryMode)
      ensures truncated ==>
        && 0 < length <= LineEnd(stream) && stream[..length] + Stream() == stream
        && Capacity(maxSize, bufread) < length + IO_SIZE
    {
      hide LineEnd, Stream;
    }
  }

  /** The length of the first line as it is shown. */
  function ShownLength(stream: string, binaryMode: bool): (n: nat)
    ensures n <= LineEnd(stream)
  {
    var k := LineEnd(stream);
    if k < |stream| && k > 0 && !binaryMode && stream[k - 1] == '\r' then k - 1 else k
  }

  /** The first line as it is shown. */
  function Shown(stream: string, binaryMode: bool): string {
    stream[..ShownLength(stream, binaryMode)]
  }

  /** A stream is a line, what ends it and the rest.  A line ends with a newline, unless the input ends with the line.
      In text mode, and only there, a carriage return before the newline belongs to the ending. */
  ghost predicate Splits(stream: string, line: string, ending: string, rest: string, binaryMode: bool) {
    && stream == line + ending + rest
    && '\n' !in line
    && (ending == "" || ending == "\n" || ending == "\r\n")
    && (ending == "" ==> rest == "")
    && (binaryMode ==> ending != "\r\n")
    && (!binaryMode && ending == "\n" && line != [] ==> line[|line| - 1] != '\r')
  }

  lemma EndingOf(stream: string, binaryMode: bool) returns (ending: string)
    requires stream != []
    ensures Splits(stream, Shown(stream, binaryMode), ending, AfterLine(stream), binaryMode)
  {
    hide LineEnd;
    var k, n := LineEnd(stream), ShownLength(stream, binaryMode);
    assert stream[..n] == stream[..k][..n];
    if k == |stream| {
      ending := "";
    } else {
      ending := if n < k then "\r\n" else "\n";
      assert stream[n..k + 1] == ending;
      assert stream == stream[..n] + stream[n..k + 1] + stream[k + 1..];
    }
  }

  /** The lines as they are shown. */
  function ShownLines(stream: string, binaryMode: bool): seq<string>
    decreases |stream|
  {
    if stream == [] then []
    else
      LinesCons(stream);
      [Shown(stream, binaryMode)] + ShownLines(AfterLine(stream), binaryMode)
  }

  /** The k-th line of the stream ends in a newline. */
  ghost predicate Terminated(stream: string, k: nat) {
    k + 1 < |Lines(stream)| || (stream != [] && stream[|stream| - 1] == '\n')
  }

  /** `shown` is what is left of the k-th line of the stream: all of it, but for a carriage return before the newline
      in text mode. */
  ghost predicate ShownAt(shown: string, stream: string, k: nat, binaryMode: bool) {
    && k < |Lines(stream)|
    && var line := Lines(stream)[k];
    line == shown +
      if !binaryMode && Terminated(stream, k) && line != [] && line[|line| - 1] == '\r' then "\r" else ""
  }

  lemma LastStays(stream: string)
    requires stream != [] && AfterLine(stream) != []
    ensures var rest := AfterLine(stream); rest[|rest| - 1] == stream[|stream| - 1]
  {
    hide LineEnd;
  }

  lemma FirstShown(stream: string, binaryMode: bool)
    requires stream != []
    ensures ShownAt(Shown(stream, binaryMode), stream, 0, binaryMode)
  {
    LinesCons(stream);
    FirstTerminated(stream);
    hide LineEnd, Lines, Terminated, AfterLine;
    var k, n := LineEnd(stream), ShownLength(stream, binaryMode);
    var line := stream[..k];
    assert Lines(stream)[0] == line && (k > 0 ==> line[k - 1] == stream[k - 1]);
    if n < k {
      WithReturn(line);
      assert line[..n] == stream[..n];
    } else {
      assert line + "" == line;
    }
  }

  lemma WithReturn(line: string)
    requires line != [] && line[|line| - 1] == '\r'
    ensures line == line[..|line| - 1] + "\r"
  {
  }

  lemma FirstTerminated(stream: string)
    requires stream != []
    ensures Terminated(stream, 0) <==> LineEnd(stream) < |stream|
  {
    hide LineEnd, Lines, AfterLine;
    LinesCons(stream);
    NothingAfter(stream);
    SomeLines(AfterLine(stream));
    NewlineOnlyAtEnd(stream, |stream|);
  }

  lemma NothingAfter(stream: string)
    ensures AfterLine(stream) == [] <==> LineEnd(stream) + 1 >= |stream|
  {
    hide LineEnd;
  }

  lemma SomeLines(stream: string)
    ensures Lines(stream) == [] <==> stream == []
  {
  }

  lemma TerminatedLater(stream: string, k: nat)
    requires stream != [] && 0 < k < |Lines(stream)|
    ensures Terminated(stream, k) <==> Terminated(AfterLine(stream), k - 1)
  {
    LinesCons(stream);
    SomeLines(AfterLine(stream));
    hide Lines, LineEnd, AfterLine;
    assert |Lines(stream)| == 1 + |Lines(AfterLine(stream))|;
    LastStays(stream);
  }

  lemma LaterShown(shown: string, stream: string, k: nat, binaryMode: bool)
    requires stream != [] && k > 0 && ShownAt(shown, AfterLine(stream), k - 1, binaryMode)
    ensures ShownAt(shown, stream, k, binaryMode)
  {
    LinesCons(stream);
    hide Lines, LineEnd, AfterLine, Terminated;
    assert Lines(stream)[k] == Lines(AfterLine(stream))[k - 1];
    TerminatedLater(stream, k);
  }

  lemma {:induction false} ShownLinesAre(stream: string, binaryMode: bool, k: nat)
    ensures |ShownLines(stream, binaryMode)| == |Lines(stream)|
    ensures k < |Lines(stream)| ==> ShownAt(ShownLines(stream, binaryMode)[k], stream, k, binaryMode)
    decreases |stream|
  {
    if stream == [] {
      NoLines();
    } else {
      LinesCons(stream);
      ShownCons(stream, binaryMode);
      hide Lines, LineEnd, ShownLines, Shown, AfterLine, ShownAt;
      var rest := AfterLine(stream);
      var shown := ShownLines(rest, binaryMode);
      ShownLinesAre(rest, binaryMode, if k == 0 then 0 else k - 1);
      if k == 0 {
        FirstShown(stream, binaryMode);
        assert ShownLines(stream, binaryMode)[0] == Shown(stream, binaryMode);
      } else if k < |Lines(stream)| {
        assert ShownLines(stream, binaryMode)[k] == shown[k - 1];
        LaterShown(shown[k - 1], stream, k, binaryMode);
      }
    }
  }

  /** Reading a whole file line by line, in whatever pieces it is delivered, gives exactly its lines, in text mode
      without the carriage returns that stand before a newline; and no line is truncated when all of them leave room
      for one more block at the largest buffer size allowed. */
  method ReadAll(file: string, maxSize: nat, binaryMode: bool) returns (lines: seq<string>, complete: bool)
    ensures complete ==> |lines| == |Lines(file)|
    ensures complete ==> forall k :: 0 <= k < |lines| ==> ShownAt(lines[k], file, k, binaryMode)
    ensures complete && binaryMode ==> lines == Lines(file)
    ensures FitAll(Lines(file), Capacity(maxSize, IO_SIZE)) ==> complete
  {
    hide Lines, Capacity, FitAll, Shown, ShownLines, AfterLine, Splits;
    var b := new Buffer(file, maxSize);
    lines, complete := [], true;
    var more := true;
    ghost var passed: seq<string> := [];
    while more
      invariant b.Valid() && fresh(b) && fresh(b.buffer) && b.maxSize == maxSize
      invariant Capacity(maxSize, b.bufread) == Capacity(maxSize, IO_SIZE)
      invariant complete ==> lines + ShownLines(b.Stream(), binaryMode) == ShownLines(file, binaryMode)
      invariant complete ==> passed + Lines(b.Stream()) == Lines(file)
      invariant FitAll(Lines(file), Capacity(maxSize, IO_SIZE)) ==> complete
      invariant !more ==> b.Stream() == []
      decreases |b.Stream()|, more
    {
      ghost var stream := b.Stream();
      var line, ending := b.BatchReadLine(binaryMode);
      if line.None? {
        more := false;
      } else {
        OneMoreLine(file, lines, passed, stream, binaryMode);
        if complete && b.truncated {
          TooLong(file, passed, stream, |line.value|, Capacity(maxSize, IO_SIZE));
        }
        lines := lines + [line.value];
        passed := passed + [stream[..LineEnd(stream)]];
        complete := complete && !b.truncated;
      }
    }
    AllShown(file, lines, complete, binaryMode);
  }

  lemma AllShown(file: string, lines: seq<string>, complete: bool, binaryMode: bool)
    requires complete ==> lines + ShownLines([], binaryMode) == ShownLines(file, binaryMode)
    ensures complete ==> |lines| == |Lines(file)|
    ensures complete ==> forall k :: 0 <= k < |lines| ==> ShownAt(lines[k], file, k, binaryMode)
    ensures complete && binaryMode ==> lines == Lines(file)
  {
    if complete {
      assert lines == ShownLines(file, binaryMode);
      ShownLinesAre(file, binaryMode, 0);
      forall k | 0 <= k < |lines| ensures ShownAt(lines[k], file, k, binaryMode) {
        ShownLinesAre(file, binaryMode, k);
      }
      if binaryMode {
        assert forall k :: 0 <= k < |lines| ==> ShownAt(lines[k], file, k, true);
        assert forall k :: 0 <= k < |lines| ==> lines[k] + "" == lines[k] == Lines(file)[k];
      }
    }
  }

  /** All lines leave room for one more block. */
  ghost predicate FitAll(lines: seq<string>, capacity: nat) {
    forall k :: 0 <= k < |lines| ==> |lines[k]| + IO_SIZE <= capacity
  }

  lemma OneMoreLine(file: string, lines: seq<string>, passed: seq<string>, stream: string, binaryMode: bool)
    requires stream != []
    ensures |AfterLine(stream)| < |stream|
    ensures lines + ShownLines(stream, binaryMode) == ShownLines(file, binaryMode) ==>
      lines + [Shown(stream, binaryMode)] + ShownLines(AfterLine(stream), binaryMode) == ShownLines(file, binaryMode)
    ensures passed + Lines(stream) == Lines(file) ==>
      passed + [stream[..LineEnd(stream)]] + Lines(AfterLine(stream)) == Lines(file)
  {
    LinesCons(stream);
    ShownCons(stream, binaryMode);
    hide Lines, LineEnd, ShownLines, Shown, AfterLine;
    Joined(lines, Shown(stream, binaryMode), ShownLines(AfterLine(stream), binaryMode));
    Joined(passed, stream[..LineEnd(stream)], Lines(AfterLine(stream)));
  }

  lemma Joined(before: seq<string>, line: string, after: seq<string>)
    ensures before + [line] + after == before + ([line] + after)
  {
  }

  lemma ShownCons(stream: string, binaryMode: bool)
    requires stream != []
    ensures ShownLines(stream, binaryMode) == [Shown(stream, binaryMode)] + ShownLines(AfterLine(stream), binaryMode)
  {
  }

  lemma TooLong(file: string, lines: seq<string>, stream: string, n: nat, capacity: nat)
    requires stream != [] && lines + Lines(stream) == Lines(file) && n <= LineEnd(stream) && capacity < n + IO_SIZE
    ensures !FitAll(Lines(file), capacity)
  {
    LinesCons(stream);
    hide Lines, LineEnd;
    assert Lines(file)[|lines|] == stream[..LineEnd(stream)];
  }
}
