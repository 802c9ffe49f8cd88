/** What a parsed head is made of: words without white space, fields that fit a line. */
module Http1Clean {
  import opened Prelude
  import opened Text
  import opened Buffers
  import opened Lines
  import opened Utf8Slices
  import opened Http1

  /** Nowhere a CRLF. */
  predicate OneLine(s: Str) {
    forall i: nat | i < |s| :: !CrlfAt(s, i)
  }

  lemma {:induction false} NoCrlfIsOneLine(s: Str, i: nat)
    requires FindCrlf(s, i) == None
    ensures forall k: nat | i <= k < |s| :: !CrlfAt(s, k)
    decreases |s| - i
  {
    if i + 1 < |s| {
      NoCrlfIsOneLine(s, i + 1);
    }
  }

  lemma {:induction false} OneLineHasNoCrlf(s: Str, i: nat)
    requires OneLine(s)
    ensures FindCrlf(s, i) == None
    decreases |s| - i
  {
    if i + 1 < |s| {
      assert !CrlfAt(s, i);
      OneLineHasNoCrlf(s, i + 1);
    }
  }

  lemma OneLineSlice(s: Str, i: nat, j: nat)
    requires OneLine(s) && i <= j <= |s|
    ensures OneLine(s[i..j])
  {
    forall k: nat | k < j - i ensures !CrlfAt(s[i..j], k) {
      assert !CrlfAt(s, i + k);
    }
  }

  /** A word of a request line. */
  predicate CleanWord(s: Str) {
    s != [] && Utf8(s) && SpaceFree(s)
  }

  predicate CleanName(s: Str) {
    Utf8(s) && Trimmed(s) && OneLine(s) && COLON !in s
  }

  predicate CleanValue(s: Str) {
    Utf8(s) && Trimmed(s) && OneLine(s)
  }

  predicate CleanHeader(header: Header) {
    CleanName(header.name) && CleanValue(header.value)
  }

  predicate CleanHeaders(headers: seq<Header>) {
    forall i | 0 <= i < |headers| :: CleanHeader(headers[i])
  }

  predicate CleanHead(head: Head) {
    CleanWord(head.verb) && CleanWord(head.target) && CleanWord(head.version) && CleanHeaders(head.headers)
  }

  predicate CleanLine(s: Str) {
    Utf8(s) && OneLine(s)
  }

  predicate CleanLines(lines: seq<Str>) {
    forall i | 0 <= i < |lines| :: CleanLine(lines[i])
  }

  // ----- Lines

  lemma LineOfText(text: Str, position: nat, end: nat)
    requires Utf8(text) && position <= end <= |text| && Boundary(text, position)
    requires FindCrlf(text, position) == Some(end) || (FindCrlf(text, position) == None && end == |text|)
    ensures Boundary(text, end) && CleanLine(Octets(text, position, end - position))
    ensures end < |text| ==> Boundary(text, end + 2)
  {
    if end < |text| {
      CrlfIsHeld(text, end, position);
      CharStarts(text, 0, end);
      assert Utf8(text, end + 1);
      NextChar(text, end + 1);
    }
    Cut(text, position, end);
    OctetsSlice(text, position, end - position);
    BeforeFirst(text, position, end);
  }

  lemma {:induction false} BeforeFirst(text: Str, position: nat, end: nat)
    requires position <= end <= |text|
    requires FindCrlf(text, position) == Some(end) || (FindCrlf(text, position) == None && end == |text|)
    ensures OneLine(text[position..end])
    decreases end - position
  {
    if position < end {
      if position + 1 < |text| {
        BeforeFirst(text, position + 1, end);
      }
      forall k: nat | k < end - position ensures !CrlfAt(text[position..end], k) {
        if k > 0 {
          assert !CrlfAt(text[position + 1..end], k - 1);
        }
      }
    }
  }

  lemma {:induction false} LinesAreClean(text: Str, position: nat)
    requires Utf8(text) && position <= |text| && Boundary(text, position)
    ensures CleanLines(LinesFrom(text, position))
    decreases |text| - position
  {
    match FindCrlf(text, position)
    case None =>
      LineOfText(text, position, |text|);
    case Some(end) =>
      LineOfText(text, position, end);
      LinesAreClean(text, end + 2);
  }

  // ----- Words

  lemma {:induction false} SkipKeepsBoundary(s: Str, i: nat)
    requires Utf8(s) && i <= |s| && Boundary(s, i)
    ensures Boundary(s, SkipSpaces(s, i))
    decreases |s| - i
  {
    if SpaceAt(s, i) > 0 {
      SpaceIsChar(s, i);
      CharStarts(s, 0, i);
      NextChar(s, i);
      SkipKeepsBoundary(s, i + SpaceAt(s, i));
    }
  }

  /** Behind a character is a boundary. */
  lemma NextChar(s: Str, i: nat)
    requires i < |s| && Utf8(s, i)
    ensures Boundary(s, i + CharLength(s, i))
  {
    var next := i + CharLength(s, i);
    if next < |s| {
      assert Utf8(s, next) && CharLength(s, next) > 0;
    }
  }

  lemma {:induction false} WordEndsAtSpace(s: Str, i: nat)
    requires i <= |s|
    ensures WordEnd(s, i) == |s| || SpaceAt(s, WordEnd(s, i)) > 0
    ensures forall k: nat | i <= k < WordEnd(s, i) :: SpaceAt(s, k) == 0
    decreases |s| - i
  {
    if i < |s| && SpaceAt(s, i) == 0 {
      WordEndsAtSpace(s, i + 1);
    }
  }

  lemma WordIsClean(s: Str, i: nat)
    requires Utf8(s) && i <= |s| && Boundary(s, i) && Word(s, i).Some?
    ensures CleanWord(Word(s, i).value.value) && Boundary(s, Word(s, i).value.next)
  {
    var start := SkipSpaces(s, i);
    var end := WordEnd(s, start);
    SkipKeepsBoundary(s, i);
    WordEndsAtSpace(s, start);
    if end < |s| {
      SpaceIsChar(s, end);
    }
    Cut(s, start, end);
    SpaceFreeSlice(s, start, end);
  }

  lemma StartIsClean(line: Str)
    requires Utf8(line) && StartLine(line).Ok?
    ensures var head := StartLine(line).value;
            && CleanWord(head.verb) && CleanWord(head.target) && CleanWord(head.version) && head.headers == []
  {
    if line != [] {
      assert CharLength(line, 0) > 0;
    }
    var verb := Word(line, 0).value;
    WordIsClean(line, 0);
    var target := Word(line, verb.next).value;
    WordIsClean(line, verb.next);
    WordIsClean(line, target.next);
  }

  // ----- Header fields

  lemma TrimIsClean(s: Str)
    requires Utf8(s) && OneLine(s)
    ensures CleanValue(Trim(s)) && forall b: byte :: b !in s ==> b !in Trim(s)
  {
    var i, j := TrimCuts(s);
    OneLineSlice(s, i, j);
  }

  lemma HeaderIsClean(line: Str)
    requires CleanLine(line) && HeaderOf(line).Some?
    ensures CleanHeader(HeaderOf(line).value)
  {
    var i := FindByte(line, COLON, 0).value;
    assert line[..i] == line[0..i] && line[i + 1..] == line[i + 1..|line|];
    CharStarts(line, 0, i);
    NextChar(line, i);
    assert i == 0 ==> Boundary(line, 0);
    Before(line, 0, i);
    Cut(line, i + 1, |line|);
    OneLineSlice(line, 0, i);
    OneLineSlice(line, i + 1, |line|);
    TrimIsClean(line[..i]);
    TrimIsClean(line[i + 1..]);
  }

  lemma {:induction false} HeadersAreClean(lines: seq<Str>)
    requires CleanLines(lines)
    ensures CleanHeaders(HeadersOf(lines))
  {
    if lines != [] {
      HeadersAreClean(lines[..|lines| - 1]);
      if HeaderOf(lines[|lines| - 1]).Some? {
        HeaderIsClean(lines[|lines| - 1]);
      }
    }
  }

  /** Whatever the octets, the head read from them is clean. */
  lemma ParsedHeadIsClean(bytes: seq<byte>)
    requires ParseHead(bytes).Ok?
    ensures CleanHead(ParseHead(bytes).value)
  {
    var text := Lossy(bytes);
    LossyIsUtf8(bytes);
    if text != [] {
      assert CharLength(text, 0) > 0;
    }
    LinesAreClean(text, 0);
    var lines := LinesFrom(text, 0);
    StartIsClean(lines[0]);
    HeadersAreClean(lines[1..]);
  }
}
