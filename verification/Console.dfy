/** Server console output as lines: a splitter that keeps two flags between calls, driven by
    a scanner over a bounded buffer, against a definition on the whole input. */
module Console {
  import opened Wrappers

  type Char = b: int | 0 <= b < 256
  type Text = seq<Char>

  const LF: Char := 10
  const CR: Char := 13

  // --- the definition ---

  predicate Ends(c: Char) { c == LF || c == CR }

  predicate NoEnd(s: Text) { forall i | 0 <= i < |s| :: !Ends(s[i]) }

  /** Where the first line break begins; |s| when there is none. */
  function FirstEnd(s: Text): (i: nat)
    ensures i <= |s| && NoEnd(s[..i]) && (i < |s| ==> Ends(s[i]))
  {
    if s == [] || Ends(s[0]) then 0
    else
      var i := 1 + FirstEnd(s[1..]);
      assert forall j | 0 < j < i :: s[j] == s[1..][j - 1];
      i
  }

  /** A line break is LF, CR LF, or CR alone. */
  function EndLength(s: Text, i: nat): (n: nat)
    requires i < |s|
    ensures 1 <= n && i + n <= |s|
  {
    if s[i] == CR && i + 1 < |s| && s[i + 1] == LF then 2 else 1
  }

  function Cut(s: Text, maxLine: nat): Text { if |s| <= maxLine then s else s[..maxLine] }

  /** What follows the first line break; nothing when there is none. */
  function AfterEnd(s: Text): (rest: Text)
    ensures FirstEnd(s) < |s| ==> |rest| < |s|
    ensures FirstEnd(s) == |s| ==> rest == []
  {
    AfterAt(s, FirstEnd(s))
  }

  function AfterAt(s: Text, i: nat): Text
    requires i <= |s|
  {
    if i == |s| then [] else s[i + EndLength(s, i)..]
  }

  /** The lines of a whole input: split at every line break, each cut at maxLine. Input after
      the last break is a line of its own unless it is empty. */
  function Lines(s: Text, maxLine: nat): seq<Text>
    decreases |s|
  {
    if s == [] then []
    else [Cut(s[..FirstEnd(s)], maxLine)] + (if FirstEnd(s) == |s| then [] else Lines(AfterEnd(s), maxLine))
  }

  lemma {:induction false} FirstEndAt(s: Text, i: nat)
    requires i <= |s| && NoEnd(s[..i]) && (i < |s| ==> Ends(s[i]))
    ensures FirstEnd(s) == i
  {
    if i > 0 {
      assert s[..i][0] == s[0] && s[1..][..i - 1] == s[..i][1..];
      FirstEndAt(s[1..], i - 1);
    }
  }

  // --- the splitter ---

  /** What the splitter remembers between calls: that it is discarding the excess of an
      overlong line, and that a CR ended the previous data. */
  datatype Flags = Flags(dropping: bool, skipNextLF: bool)

  /** What one call does: how far it moves, the line it delivers, the flags it leaves. */
  datatype Call = Call(advance: nat, token: Option<Text>, flags: Flags)

  /** The call when no LF is to be swallowed. */
  function Scan(dropping: bool, data: Text, atEOF: bool, maxLine: nat): Call {
    var i := FirstEnd(data);
    if i < |data| then
      Call(i + EndLength(data, i), if dropping then None else Some(data[..i]),
           Flags(false, data[i] == CR && i + 1 == |data|))
    else if |data| >= maxLine then
      Call(maxLine, if dropping then None else Some(data[..maxLine]), Flags(true, false))
    else if atEOF then
      Call(|data|, if dropping then None else Some(data), Flags(dropping, false))
    else
      Call(0, None, Flags(dropping, false))
  }

  function Step(f: Flags, data: Text, atEOF: bool, maxLine: nat): Call {
    if data == [] then Call(0, None, f)
    else if f.skipNextLF && data[0] == LF then Call(1, None, f.(skipNextLF := false))
    else Scan(f.dropping, data, atEOF, maxLine)
  }

  class Splitter {
    const maxLine: nat
    var dropping: bool
    var skipNextLF: bool

    constructor (maxLine: nat)
      ensures this.maxLine == maxLine && Now() == Flags(false, false)
    {
      this.maxLine := maxLine;
      dropping, skipNextLF := false, false;
    }

    ghost function Now(): Flags reads this { Flags(dropping, skipNextLF) }

    /** newConsoleSplitFunc's closure. */
    method Split(data: Text, atEOF: bool) returns (advance: nat, token: Option<Text>)
      modifies this
      ensures Call(advance, token, Now()) == Step(old(Now()), data, atEOF, maxLine)
    {
      if |data| == 0 { return 0, None; }
      if skipNextLF {
        skipNextLF := false;
        if data[0] == LF { return 1, None; }
      }
      var i := 0;
      while i < |data| && !Ends(data[i])
        invariant 0 <= i <= |data| && NoEnd(data[..i])
      {
        i := i + 1;
      }
      FirstEndAt(data, i);
      if i < |data| {
        advance := i + 1;
        if data[i] == CR {
          if i + 1 < |data| {
            if data[i + 1] == LF { advance := i + 2; }
          } else {
            skipNextLF := true;
          }
        }
        if dropping {
          dropping := false;
          return advance, None;
        }
        return advance, Some(data[..i]);
      }
      if |data| >= maxLine {
        if dropping { return maxLine, None; }
        dropping := true;
        return maxLine, Some(data[..maxLine]);
      }
      if atEOF {
        if dropping { return |data|, None; }
        return |data|, Some(data);
      }
      return 0, None;
    }
  }

  // --- what a call accounts for ---

  /** What is left of input r, as the flags leave it, and the lines still to come of it. */
  function Left(f: Flags, r: Text): Text {
    if f.skipNextLF then (if r != [] && r[0] == LF then r[1..] else r)
    else if f.dropping then AfterEnd(r)
    else r
  }

  function ToCome(f: Flags, r: Text, maxLine: nat): seq<Text> {
    Lines(Left(f, r), maxLine)
  }

  predicate Exclusive(f: Flags) { !(f.dropping && f.skipNextLF) }

  /** Nothing is buffered that a call at the end of the input would drop. */
  predicate Settled(f: Flags, buffered: Text) {
    Exclusive(f) && (f.skipNextLF ==> buffered == []) && (f.dropping ==> NoEnd(buffered))
  }

  function Delivered(c: Call): seq<Text> { if c.token.Some? then [c.token.value] else [] }

  /** Whatever input is still unread, the line a call delivers and the flags it leaves account
      for exactly what it consumes: nothing, the rest of a dropped line, or the next line. */
  ghost predicate Accounts(c: Call, f: Flags, data: Text, maxLine: nat, rest: Text) {
    && c.advance <= |data|
    && match c.token
       case None => Left(f, data + rest) == Left(c.flags, data[c.advance..] + rest)
       case Some(line) => IsNextLine(line, f, data + rest, Left(c.flags, data[c.advance..] + rest), maxLine)
  }

  ghost predicate IsNextLine(line: Text, f: Flags, r: Text, after: Text, maxLine: nat) {
    r != [] && Left(f, r) == r && line == Cut(r[..FirstEnd(r)], maxLine) && after == AfterEnd(r)
  }

  lemma ScanAccounts(dropping: bool, data: Text, atEOF: bool, maxLine: nat, rest: Text)
    requires 0 < |data| <= maxLine && (atEOF ==> rest == [])
    ensures Accounts(Scan(dropping, data, atEOF, maxLine), Flags(dropping, false), data, maxLine, rest)
  {
    var i := FirstEnd(data);
    if i < |data| {
      FoundEnd(data, rest, i);
      StillToCome(data, rest, i);
      assert Cut(data[..i], maxLine) == data[..i];
    } else {
      assert data[..i] == data;
      if |data| >= maxLine {
        AfterEndBeyond(data, rest);
        FirstLine(data, rest);
        NothingLeft(data, rest);
      } else if atEOF {
        WholeData(data, rest, maxLine);
      } else {
        assert data[0..] == data;
      }
    }
  }

  lemma WholeData(data: Text, rest: Text, maxLine: nat)
    requires 0 < |data| <= maxLine && NoEnd(data) && rest == []
    ensures data + rest == data && data[|data|..] + rest == []
    ensures FirstEnd(data) == |data| && Cut(data[..|data|], maxLine) == data && AfterEnd(data) == [] &&
              AfterEnd([]) == []
  {
    FirstEndAt(data, |data|);
    assert data[..|data|] == data;
  }

  lemma StillToCome(data: Text, rest: Text, i: nat)
    requires i < |data| && Ends(data[i])
    ensures Left(Flags(false, data[i] == CR && i + 1 == |data|),
                 data[i + EndLength(data, i)..] + rest) == Following(data, rest, i)
  {
    if i + 1 == |data| {
      NothingLeft(data, rest);
    }
  }

  lemma NothingLeft(data: Text, rest: Text)
    ensures data[|data|..] + rest == rest
  {
    assert data[|data|..] == [];
  }

  lemma StepAccounts(f: Flags, data: Text, atEOF: bool, maxLine: nat, rest: Text)
    requires 0 < maxLine && |data| <= maxLine && Exclusive(f) && (atEOF ==> rest == [])
    ensures Accounts(Step(f, data, atEOF, maxLine), f, data, maxLine, rest) &&
              Exclusive(Step(f, data, atEOF, maxLine).flags)
  {
    if data == [] {
      NothingAccounts(f, data, maxLine, rest);
    } else if f.skipNextLF && data[0] == LF {
      SkipAccounts(f, data, maxLine, rest);
    } else {
      ScanAccounts(f.dropping, data, atEOF, maxLine, rest);
      NothingToSkip(f, data, rest);
    }
  }

  lemma NothingAccounts(f: Flags, data: Text, maxLine: nat, rest: Text)
    ensures Accounts(Call(0, None, f), f, data, maxLine, rest)
  {
    assert data[0..] == data;
  }

  lemma SkipAccounts(f: Flags, data: Text, maxLine: nat, rest: Text)
    requires Exclusive(f) && f.skipNextLF && data != [] && data[0] == LF
    ensures Accounts(Call(1, None, f.(skipNextLF := false)), f, data, maxLine, rest)
  {
    assert (data + rest)[0] == data[0] && (data + rest)[1..] == data[1..] + rest;
  }

  lemma NothingToSkip(f: Flags, data: Text, rest: Text)
    requires data != [] && Exclusive(f) && !(f.skipNextLF && data[0] == LF)
    ensures Left(f, data + rest) == Left(Flags(f.dropping, false), data + rest)
  {
    assert (data + rest)[0] == data[0];
  }

  /** A full buffer always advances, so does every call that delivers; and a call at the end
      of the input on settled data delivers or leaves nothing behind. */
  lemma StepAdvances(f: Flags, data: Text, atEOF: bool, maxLine: nat)
    requires 0 < maxLine && |data| <= maxLine && Exclusive(f) && (atEOF ==> Settled(f, data))
    ensures var c := Step(f, data, atEOF, maxLine);
            && c.advance <= |data|
            && (|data| == maxLine || c.token.Some? ==> c.advance > 0)
            && (c.token.None? || atEOF ==> Settled(c.flags, data[c.advance..]))
            && (c.token.None? && atEOF ==> c.advance == |data|)
  {
    var i := FirstEnd(data);
    if i == |data| { assert data[..i] == data && data[0..] == data; }
  }

  /** The data of a last call that is more than the call can deliver of: after the LF of a CR LF
      cut in two, or after the end of a dropped line. */
  predicate Loses(f: Flags, data: Text) {
    (f.skipNextLF && |data| > 1 && data[0] == LF) || (f.dropping && AfterEnd(data) != [])
  }

  lemma LinesOfNothing(s: Text, maxLine: nat)
    ensures Lines(s, maxLine) == [] <==> s == []
  {}

  /** A call at the end of the input delivers nothing and leaves lines behind exactly when it is
      given such data. */
  lemma EndLosesIff(f: Flags, data: Text, maxLine: nat)
    requires 0 < maxLine && |data| <= maxLine && Exclusive(f)
    ensures var c := Step(f, data, true, maxLine);
            && c.advance <= |data|
            && (c.token.None? && ToCome(c.flags, data[c.advance..], maxLine) != [] <==> Loses(f, data))
  {
    var c := Step(f, data, true, maxLine);
    LinesOfNothing(Left(c.flags, data[c.advance..]), maxLine);
    if data != [] && !(f.skipNextLF && data[0] == LF) && f.dropping {
      DroppedEnd(data, maxLine);
    }
  }

  lemma DroppedEnd(data: Text, maxLine: nat)
    requires 0 < |data| <= maxLine
    ensures var c := Scan(true, data, true, maxLine);
            c.advance <= |data| && c.token.None? && Left(c.flags, data[c.advance..]) == AfterEnd(data)
  {
    var i := FirstEnd(data);
    if i == |data| { assert data[|data|..] == []; }
  }

  /** A scanner whose last read brought data together with the end of the input stops at the
      first call that delivers nothing. What it delivered is all of the input exactly when that
      call was not given such data. */
  lemma EndDeliversAllIff(lines: seq<Text>, f: Flags, data: Text, input: Text, maxLine: nat)
    requires 0 < maxLine && |data| <= maxLine && Accounted(lines, f, data, [], input, maxLine)
    requires Step(f, data, true, maxLine).token.None?
    ensures lines == Lines(input, maxLine) <==> !Loses(f, data)
  {
    var c := Step(f, data, true, maxLine);
    EndLosesIff(f, data, maxLine);
    CallAccountedAtEnd(lines, f, data, input, maxLine);
    var later := ToCome(c.flags, data[c.advance..] + [], maxLine);
    assert data[c.advance..] + [] == data[c.advance..];
    assert lines + [] == lines;
    assert |lines + later| == |lines| + |later|;
  }

  lemma CallAccountedAtEnd(lines: seq<Text>, f: Flags, data: Text, input: Text, maxLine: nat)
    requires 0 < maxLine && |data| <= maxLine && Accounted(lines, f, data, [], input, maxLine)
    ensures var c := Step(f, data, true, maxLine);
            c.advance <= |data| && Accounted(lines + Delivered(c), c.flags, data[c.advance..], [], input, maxLine)
  {
    StepAccounts(f, data, true, maxLine, []);
    StillAccounted(Step(f, data, true, maxLine), lines, f, data, [], input, maxLine);
  }

  /** Both kinds of such a last read: each loses a line. */
  lemma EndWithDataLosesALine(line: Text, x: Char, maxLine: nat)
    requires line != [] && NoEnd(line) && |line| + 2 < maxLine && !Ends(x)
    ensures var f := Flags(false, true); var data := [LF] + line;
            && Step(f, data, true, maxLine) == Call(1, None, Flags(false, false))
            && ToCome(f, data, maxLine) == [line]
    ensures var f := Flags(true, false); var data := [x, LF] + line;
            && Step(f, data, true, maxLine) == Call(2, None, Flags(false, false))
            && ToCome(f, data, maxLine) == [line]
  {
    assert ([LF] + line)[1..] == line && line[..|line|] == line;
    FirstEndAt(line, |line|);
    var data := [x, LF] + line;
    assert data[..1] == [x] && data[1] == LF && data[2..] == line;
    FirstEndAt(data, 1);
  }

  /** What follows a break found at i of the buffered data; only the second half of a break can
      lie beyond the data. */
  function Following(data: Text, rest: Text, i: nat): Text
    requires i < |data|
  {
    if data[i] == CR && i + 1 == |data| then (if rest != [] && rest[0] == LF then rest[1..] else rest)
    else if data[i] == CR && data[i + 1] == LF then data[i + 2..] + rest
    else data[i + 1..] + rest
  }

  /** A break found in the buffered data is the first of the whole input. */
  lemma FoundEnd(data: Text, rest: Text, i: nat)
    requires i < |data| && NoEnd(data[..i]) && Ends(data[i])
    ensures FirstEnd(data + rest) == i && (data + rest)[..i] == data[..i]
    ensures AfterEnd(data + rest) == Following(data, rest, i)
  {
    var r := data + rest;
    assert r[..i] == data[..i] && r[i] == data[i];
    FirstEndAt(r, i);
    if i + 1 == |data| {
      AfterLastByte(data, rest, i);
    } else {
      AfterInner(data, rest, i);
    }
  }

  lemma AfterInner(data: Text, rest: Text, i: nat)
    requires i + 1 < |data|
    ensures AfterAt(data + rest, i) == Following(data, rest, i)
  {
    var r := data + rest;
    assert r[i] == data[i] && r[i + 1] == data[i + 1];
    assert r[i + 1..] == data[i + 1..] + rest && r[i + 2..] == data[i + 2..] + rest;
  }

  lemma AfterLastByte(data: Text, rest: Text, i: nat)
    requires i + 1 == |data|
    ensures AfterAt(data + rest, i) == Following(data, rest, i)
  {
    EndOfData(data, rest);
    NothingLeft(data, rest);
    assert (data + rest)[i] == data[i];
  }

  lemma EndOfData(data: Text, rest: Text)
    ensures (data + rest)[|data|..] == rest
    ensures rest != [] ==> (data + rest)[|data|] == rest[0]
    ensures rest != [] ==> (data + rest)[|data| + 1..] == rest[1..]
  {
    var r := data + rest;
    assert rest != [] ==> r[|data| + 1..] == r[|data|..][1..];
  }

  /** Without a break in the buffered data the first one is the first of the rest. */
  lemma EndBeyond(data: Text, rest: Text)
    requires NoEnd(data)
    ensures FirstEnd(data + rest) == |data| + FirstEnd(rest)
  {
    var r, j := data + rest, FirstEnd(rest);
    assert r[..|data| + j] == data + rest[..j];
    assert j < |rest| ==> r[|data| + j] == rest[j];
    FirstEndAt(r, |data| + j);
  }

  lemma AfterEndBeyond(data: Text, rest: Text)
    requires NoEnd(data)
    ensures AfterEnd(data + rest) == AfterEnd(rest)
  {
    EndBeyond(data, rest);
    AfterAtBeyond(data, rest, FirstEnd(rest));
  }

  lemma AfterAtBeyond(data: Text, rest: Text, j: nat)
    requires j <= |rest|
    ensures AfterAt(data + rest, |data| + j) == AfterAt(rest, j)
  {
    var r := data + rest;
    if j < |rest| {
      var n := EndLength(rest, j);
      assert r[|data| + j] == rest[j] && (j + 1 < |rest| ==> r[|data| + j + 1] == rest[j + 1]);
      assert EndLength(r, |data| + j) == n;
      assert r[|data| + j + n..] == rest[j + n..];
    }
  }

  lemma CutAt(data: Text, more: Text)
    ensures Cut(data + more, |data|) == data
  {}

  lemma LinesStep(s: Text, maxLine: nat)
    requires s != []
    ensures Lines(s, maxLine) == [Cut(s[..FirstEnd(s)], maxLine)] + Lines(AfterEnd(s), maxLine)
  {}

  /** A full buffer without a break is the line, cut there. */
  lemma FirstLine(data: Text, rest: Text)
    requires data != [] && NoEnd(data)
    ensures Cut((data + rest)[..FirstEnd(data + rest)], |data|) == data
  {
    EndBeyond(data, rest);
    var r, j := data + rest, FirstEnd(rest);
    assert r[..|data| + j] == data + rest[..j];
    CutAt(data, rest[..j]);
  }

  // --- the scanner ---

  /** One call of the splitter, its line delivered. */
  method CallOnce(split: Splitter, lines0: seq<Text>, buffer0: Text, eof: bool, ghost unread: Text, ghost input: Text)
    returns (lines: seq<Text>, buffer: Text, delivered: bool)
    requires 0 < split.maxLine && |buffer0| <= split.maxLine
    requires Accounted(lines0, split.Now(), buffer0, unread, input, split.maxLine)
    requires eof ==> unread == [] && Settled(split.Now(), buffer0)
    modifies split
    ensures |buffer| <= |buffer0| && Accounted(lines, split.Now(), buffer, unread, input, split.maxLine)
    ensures delivered || |buffer0| == split.maxLine ==> |buffer| < |buffer0|
    ensures eof ==> Settled(split.Now(), buffer) && (!delivered ==> buffer == [])
    ensures !delivered ==> Settled(split.Now(), buffer)
  {
    CallAccounted(lines0, split.Now(), buffer0, eof, unread, input, split.maxLine);
    StepAdvances(split.Now(), buffer0, eof, split.maxLine);
    var advance, token := split.Split(buffer0, eof);
    lines, buffer, delivered := lines0 + (if token.Some? then [token.value] else []), buffer0[advance..], token.Some?;
  }

  /** The scanner's loop over a buffer of maxLine bytes: each read takes any number of bytes
      that fits, and the end of the input is a read of its own. Whatever the reads, the lines
      delivered are those of the whole input, and the buffer is never too small. */
  method ScanLines(input: Text, maxLine: nat) returns (lines: seq<Text>, tooLong: bool)
    requires maxLine > 0
    ensures lines == Lines(input, maxLine)
    ensures !tooLong
  {
    var split := new Splitter(maxLine);
    var buffer: Text, unread: Text, eof := [], input, false;
    lines, tooLong := [], false;
    assert buffer + unread == input;
    while true
      invariant split.maxLine == maxLine && |buffer| <= maxLine && fresh(split)
      invariant Accounted(lines, split.Now(), buffer, unread, input, maxLine)
      invariant eof ==> unread == [] && Settled(split.Now(), buffer)
      decreases if eof then 0 else 1, |unread|, |buffer|
    {
      if buffer != [] || eof {
        var delivered;
        lines, buffer, delivered := CallOnce(split, lines, buffer, eof, unread, input);
        if delivered { continue; }
      }
      if eof {
        AllDelivered(lines, split.Now(), buffer, input, maxLine);
        return;
      }
      if |buffer| == maxLine { return lines, true; }
      if |unread| == 0 {
        eof := true;
      } else {
        buffer, unread := Read(buffer, unread, maxLine);
      }
    }
  }

  /** One read into the free part of the buffer: at least a byte, at most what fits. */
  method Read(buffer: Text, unread: Text, maxLine: nat) returns (buffer': Text, unread': Text)
    requires |buffer| < maxLine && |unread| > 0
    ensures buffer' + unread' == buffer + unread && |buffer'| <= maxLine && |unread'| < |unread|
  {
    var k: nat := *;
    var n := if 1 <= k <= |unread| && k <= maxLine - |buffer| then k else 1;
    buffer', unread' := buffer + unread[..n], unread[n..];
  }

  /** What was delivered and what is to come are the lines of the whole input. */
  predicate Accounted(lines: seq<Text>, f: Flags, buffer: Text, unread: Text, input: Text, maxLine: nat) {
    Exclusive(f) && lines + ToCome(f, buffer + unread, maxLine) == Lines(input, maxLine)
  }

  lemma CallAccounted(lines: seq<Text>, f: Flags, buffer: Text, eof: bool, unread: Text, input: Text, maxLine: nat)
    requires 0 < maxLine && |buffer| <= maxLine && Accounted(lines, f, buffer, unread, input, maxLine)
    requires eof ==> unread == [] && Settled(f, buffer)
    ensures var c := Step(f, buffer, eof, maxLine);
            c.advance <= |buffer| &&
              Accounted(lines + Delivered(c), c.flags, buffer[c.advance..], unread, input, maxLine)
  {
    StepAccounts(f, buffer, eof, maxLine, unread);
    StillAccounted(Step(f, buffer, eof, maxLine), lines, f, buffer, unread, input, maxLine);
  }

  lemma StillAccounted(c: Call, lines: seq<Text>, f: Flags, buffer: Text, unread: Text, input: Text, maxLine: nat)
    requires Accounted(lines, f, buffer, unread, input, maxLine) && Accounts(c, f, buffer, maxLine, unread) &&
              Exclusive(c.flags)
    ensures Accounted(lines + Delivered(c), c.flags, buffer[c.advance..], unread, input, maxLine)
  {
    if c.token.Some? {
      LinesStep(buffer + unread, maxLine);
      var later := ToCome(c.flags, buffer[c.advance..] + unread, maxLine);
      assert lines + ([c.token.value] + later) == lines + [c.token.value] + later;
    } else {
      assert lines + [] == lines;
    }
  }

  lemma AllDelivered(lines: seq<Text>, f: Flags, buffer: Text, input: Text, maxLine: nat)
    requires Accounted(lines, f, buffer, [], input, maxLine) && buffer == []
    ensures lines == Lines(input, maxLine)
  {
    assert buffer + [] == [];
  }

  /** Delivered lines never hold a break and are at most maxLine long. */
  lemma {:induction false} LinesAreCut(s: Text, maxLine: nat, k: nat)
    requires k < |Lines(s, maxLine)|
    ensures NoEnd(Lines(s, maxLine)[k]) && |Lines(s, maxLine)[k]| <= maxLine
    decreases |s|
  {
    if k > 0 { LinesAreCut(AfterEnd(s), maxLine, k - 1); }
  }

  // --- the lines, told without the scan ---

  /** Each line with the break after it. */
  function Written(lines: seq<Text>, breaks: seq<Text>): Text
    requires |lines| == |breaks|
  {
    if lines == [] then [] else lines[0] + breaks[0] + Written(lines[1..], breaks[1..])
  }

  /** The lines, with these breaks after them, are the text. A break is LF, CR LF or CR, and a CR
      that an LF follows is no break of its own. Only a last line that is not empty can be without
      one. No line holds either byte. */
  ghost predicate IsCutInto(s: Text, lines: seq<Text>, breaks: seq<Text>) {
    && |lines| == |breaks| && Written(lines, breaks) == s
    && (forall i | 0 <= i < |lines| :: 10 !in lines[i] && 13 !in lines[i])
    && (forall i | 0 <= i < |lines| ::
          breaks[i] == [10] || breaks[i] == [13, 10] || breaks[i] == [13] ||
          (breaks[i] == [] && i == |lines| - 1 && lines[i] != []))
    && (forall i | 0 <= i < |lines| - 1 :: breaks[i] == [13] && lines[i + 1] == [] ==> breaks[i + 1] != [10])
  }

  /** Which bytes end a line: the lines of any input are the one way to cut it so, each kept up to
      maxLine. */
  lemma LinesIff(s: Text, maxLine: nat, lines: seq<Text>)
    ensures (exists breaks :: IsCutInto(s, lines, breaks)) <==> lines == Lines(s, |s|)
    ensures |Lines(s, maxLine)| == |Lines(s, |s|)|
    ensures forall i | 0 <= i < |Lines(s, |s|)| ::
              var line := Lines(s, |s|)[i]; Lines(s, maxLine)[i] == if |line| <= maxLine then line else line[..maxLine]
  {
    if breaks :| IsCutInto(s, lines, breaks) {
      OneWayToCut(s, |s|, lines, breaks);
    }
    var breaks := CutIntoLines(s, |s|);
    CutLater(s, |s|, maxLine);
  }

  lemma {:induction false} CutLater(s: Text, uncut: nat, maxLine: nat)
    requires |s| <= uncut
    ensures |Lines(s, maxLine)| == |Lines(s, uncut)|
    ensures forall i | 0 <= i < |Lines(s, uncut)| :: Lines(s, maxLine)[i] == Cut(Lines(s, uncut)[i], maxLine)
    decreases |s|
  {
    if s != [] && FirstEnd(s) < |s| {
      CutLater(AfterEnd(s), uncut, maxLine);
    }
  }

  lemma {:induction false} CutIntoLines(s: Text, uncut: nat) returns (breaks: seq<Text>)
    requires |s| <= uncut
    ensures IsCutInto(s, Lines(s, uncut), breaks)
    decreases |s|
  {
    breaks := [];
    if s != [] {
      var i := FirstEnd(s);
      var line := s[..i];
      assert NoEnd(line) && 10 !in line && 13 !in line;
      LinesStep(s, uncut);
      if i == |s| {
        breaks := [[]];
        assert line == s && Cut(s, uncut) == s;
        assert AfterEnd(s) == [] && Lines([], uncut) == [];
        assert Lines(s, uncut) == [s];
        assert Written([], []) == [] && s + [] + [] == s;
      } else {
        var n := i + EndLength(s, i);
        var rest := CutIntoLines(s[n..], uncut);
        breaks := [s[i..n]] + rest;
        OneMoreLine(s, i, n, Lines(s[n..], uncut), rest);
      }
    }
  }

  lemma OneMoreLine(s: Text, i: nat, n: nat, lines: seq<Text>, breaks: seq<Text>)
    requires i < |s| && NoEnd(s[..i]) && Ends(s[i]) && n == i + EndLength(s, i) && IsCutInto(s[n..], lines, breaks)
    ensures IsCutInto(s, [s[..i]] + lines, [s[i..n]] + breaks)
  {
    var lines', breaks' := [s[..i]] + lines, [s[i..n]] + breaks;
    assert lines'[1..] == lines && breaks'[1..] == breaks;
    assert s == s[..i] + s[i..n] + s[n..];
    assert s[i..n] == if n == i + 2 then [s[i], s[i + 1]] else [s[i]];
  }

  lemma {:induction false} OneWayToCut(s: Text, uncut: nat, lines: seq<Text>, breaks: seq<Text>)
    requires |s| <= uncut && IsCutInto(s, lines, breaks)
    ensures lines == Lines(s, uncut)
    decreases |s|
  {
    if lines != [] {
      var i, rest := |lines[0]|, Written(lines[1..], breaks[1..]);
      FirstTaken(s, lines, breaks);
      if breaks[0] == [] {
        LinesStep(s, uncut);
        assert Lines([], uncut) == [];
      } else {
        BreakTaken(s, i, lines, breaks);
        OneWayToCut(rest, uncut, lines[1..], breaks[1..]);
        LinesStep(s, uncut);
      }
    }
  }

  lemma FirstTaken(s: Text, lines: seq<Text>, breaks: seq<Text>)
    requires IsCutInto(s, lines, breaks) && lines != []
    ensures s != [] && FirstEnd(s) == |lines[0]| && s[..FirstEnd(s)] == lines[0]
    ensures breaks[0] == [] ==> lines == [lines[0]] && AfterEnd(s) == []
  {
    var i, rest := |lines[0]|, Written(lines[1..], breaks[1..]);
    assert s == lines[0] + breaks[0] + rest;
    assert s[..i] == lines[0] && s[i..] == breaks[0] + rest;
    if breaks[0] == [] {
      assert lines == [lines[0]] && s == lines[0];
    } else {
      assert s[i] == breaks[0][0];
    }
    FirstEndAt(s, i);
  }

  lemma BreakTaken(s: Text, i: nat, lines: seq<Text>, breaks: seq<Text>)
    requires IsCutInto(s, lines, breaks) && lines != [] && breaks[0] != [] && i == |lines[0]| && i < |s|
    ensures s[i..] == breaks[0] + Written(lines[1..], breaks[1..])
    ensures AfterAt(s, i) == Written(lines[1..], breaks[1..])
    ensures IsCutInto(Written(lines[1..], breaks[1..]), lines[1..], breaks[1..])
  {
    var rest := Written(lines[1..], breaks[1..]);
    assert s[i..] == breaks[0] + rest;
    assert s[i..][|breaks[0]|..] == rest;
    assert s[i + |breaks[0]|..] == rest;
    assert s[i] == breaks[0][0] && (|breaks[0]| == 2 ==> s[i + 1] == breaks[0][1]);
    if breaks[0] == [13] && rest != [] {
      assert s[i + 1] == rest[0];
      NextIsNoLF(lines, breaks);
    }
  }

  lemma NextIsNoLF(lines: seq<Text>, breaks: seq<Text>)
    requires |lines| == |breaks| && IsCutInto(Written(lines, breaks), lines, breaks)
    requires lines != [] && breaks[0] == [13] && Written(lines[1..], breaks[1..]) != []
    ensures Written(lines[1..], breaks[1..])[0] != 10
  {
    var next := lines[1] + breaks[1];
    assert Written(lines[1..], breaks[1..]) == next + Written(lines[2..], breaks[2..]) by {
      assert lines[1..][1..] == lines[2..] && breaks[1..][1..] == breaks[2..];
    }
    assert lines[1] != [] ==> next[0] == lines[1][0] && lines[1][0] in lines[1];
    assert lines[1] == [] ==> next == breaks[1];
  }

  /** No byte is invented, none but breaks and the excess of a line is lost: put back with LF
      after each, the lines of input that holds only LF breaks and short lines are the input. */
  lemma {:induction false} LinesRoundTrip(lines: seq<Text>, maxLine: nat)
    requires forall i | 0 <= i < |lines| :: NoEnd(lines[i]) && |lines[i]| <= maxLine
    ensures Lines(Joined(lines), maxLine) == lines
  {
    if lines != [] {
      FirstJoined(lines[0], Joined(lines[1..]));
      LinesStep(Joined(lines), maxLine);
      LinesRoundTrip(lines[1..], maxLine);
    }
  }

  lemma FirstJoined(line: Text, rest: Text)
    requires NoEnd(line)
    ensures var s := line + [LF] + rest;
            FirstEnd(s) == |line| && s[..|line|] == line && AfterEnd(s) == rest
  {
    var s := line + [LF] + rest;
    assert s[..|line|] == line && s[|line|] == LF;
    FirstEndAt(s, |line|);
    assert s[|line| + 1..] == rest;
  }

  function Joined(lines: seq<Text>): Text {
    if lines == [] then [] else lines[0] + [LF] + Joined(lines[1..])
  }
}
