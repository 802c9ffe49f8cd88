/** What the proxy sends on, read again: the same body behind a head that says its length. */
module Http1Reread {
  import opened Prelude
  import opened Text
  import opened Buffers
  import opened Lines
  import opened Utf8Slices
  import opened Http1
  import opened Http1Clean
  import opened Http1Proxy
  import opened Config
  import Hosts
  import Storage
  import opened Sequences

  // ----- Lines joined and read again

  function Joined(lines: seq<Str>): Str
    requires lines != []
  {
    if |lines| == 1 then lines[0] else lines[0] + CRLF + Joined(lines[1..])
  }

  predicate FullLine(line: Str) {
    line != [] && OneLine(line)
  }

  predicate FullLines(lines: seq<Str>) {
    lines == [] || (FullLine(lines[0]) && FullLines(lines[1..]))
  }

  lemma {:induction false} NothingBehind(text: Str, position: nat, line: Str, i: nat)
    requires Holds(text, position, line) && position + |line| == |text| && OneLine(line) && i <= |line|
    ensures FindCrlf(text, position + i) == None
    decreases |line| - i
  {
    if i + 1 < |line| {
      HeldAt(text, position, line, i);
      HeldAt(text, position, line, i + 1);
      assert !CrlfAt(line, i);
      NothingBehind(text, position, line, i + 1);
    }
  }

  predicate CutInto(text: Str, position: nat, lines: seq<Str>) {
    position <= |text| && LinesFrom(text, position) == lines
  }

  lemma {:induction false} FirstLineCut(text: Str, position: nat, line: Str, rest: seq<Str>)
    requires Holds(text, position, line + CRLF) && OneLine(line) && CutInto(text, position + |line| + 2, rest)
    ensures CutInto(text, position, [line] + rest)
  {
    OneLineHasNoCrlf(line, 0);
    LineReads(text, position, line);
  }

  /** Joined lines are cut where they were joined. */
  lemma {:induction false} LinesReadBack(text: Str, position: nat, lines: seq<Str>)
    requires lines != [] && FullLines(lines)
    requires Holds(text, position, Joined(lines)) && position + |Joined(lines)| == |text|
    ensures CutInto(text, position, lines)
    decreases |lines|
  {
    if |lines| == 1 {
      NothingBehind(text, position, lines[0], 0);
      OctetsAre(text, position, lines[0]);
    } else {
      HoldsConcat(text, position, lines[0] + CRLF, Joined(lines[1..]));
      LinesReadBack(text, position + |lines[0]| + 2, lines[1..]);
      FirstLineCut(text, position, lines[0], lines[1..]);
      HeadAndTail(lines);
    }
  }

  lemma {:induction false} NoEndBefore(input: seq<byte>, position: nat, end: nat)
    requires FindCrlf(input, position) == Some(end) && end + 4 <= |input|
    ensures HeaderEnd(input, position) == HeaderEnd(input, end)
    decreases end - position
  {
    if position < end {
      NoEndBefore(input, position + 1, end);
    }
  }

  lemma NoEndAt(input: seq<byte>, end: nat)
    requires CrlfAt(input, end) && !CrlfAt(input, end + 2) && end + 6 <= |input|
    ensures HeaderEnd(input, end) == HeaderEnd(input, end + 2)
  {
    assert HeaderEnd(input, end) == HeaderEnd(input, end + 1);
  }

  /** The empty line is found behind the last of the joined lines, and not before. */
  lemma {:induction false} EndIsFound(input: seq<byte>, position: nat, lines: seq<Str>)
    requires lines != [] && FullLines(lines) && Holds(input, position, Joined(lines) + CRLF + CRLF)
    ensures HeaderEnd(input, position) == Some(position + |Joined(lines)|)
    decreases |lines|
  {
    var first := lines[0];
    var end := position + |first|;
    OneLineHasNoCrlf(first, 0);
    HoldsConcat(input, position, Joined(lines) + CRLF, CRLF);
    if |lines| == 1 {
      FindBehind(input, position, first, 0);
      HoldsConcat(input, position, first, CRLF);
      NoEndBefore(input, position, end);
      HeldAt(input, end, CRLF, 0);
      HeldAt(input, end, CRLF, 1);
      HeldAt(input, end + 2, CRLF, 0);
      HeldAt(input, end + 2, CRLF, 1);
    } else {
      var rest := Joined(lines[1..]);
      assert first + CRLF + rest + CRLF + CRLF == first + CRLF + (rest + CRLF + CRLF);
      HoldsConcat(input, position, first + CRLF, rest + CRLF + CRLF);
      FindBehind(input, position, first, 0);
      HoldsConcat(input, position, first, CRLF);
      NoEndBefore(input, position, end);
      HeldAt(input, end, CRLF, 0);
      HeldAt(input, end, CRLF, 1);
      NotAtStart(input, end + 2, lines[1..]);
      NoEndAt(input, end);
      EndIsFound(input, end + 2, lines[1..]);
    }
  }

  /** A full line does not begin with CRLF, whatever follows it. */
  lemma NotAtStart(input: seq<byte>, position: nat, lines: seq<Str>)
    requires lines != [] && FullLines(lines) && Holds(input, position, Joined(lines) + CRLF + CRLF)
    ensures !CrlfAt(input, position)
  {
    var text := Joined(lines) + CRLF + CRLF;
    HeldAt(input, position, text, 0);
    HeldAt(input, position, text, 1);
    assert text[0] == lines[0][0];
    assert !CrlfAt(lines[0], 0);
    if |lines[0]| > 1 {
      assert text[1] == lines[0][1];
    } else {
      assert text[1] == CR;
    }
  }

  // ----- The lines of a head

  function FieldLines(headers: seq<Header>): seq<Str> {
    if headers == [] then [] else [FieldLine(headers[0])] + FieldLines(headers[1..])
  }

  lemma {:induction false} FieldsAreLines(first: Str, headers: seq<Header>)
    ensures first + CRLF + FieldsBytes(headers) == Joined([first] + FieldLines(headers)) + CRLF
    decreases |headers|
  {
    if headers == [] {
      assert [first] + FieldLines(headers) == [first];
    } else {
      var line, rest := FieldLine(headers[0]), headers[1..];
      assert headers == [headers[0]] + rest;
      FieldsConcat([headers[0]], rest);
      assert [headers[0]][..0] == [];
      assert FieldsBytes([headers[0]]) == [] + (line + CRLF) == line + CRLF;
      FieldsAreLines(line, rest);
      var all := [first] + FieldLines(headers);
      assert all[1..] == [line] + FieldLines(rest);
      assert first + CRLF + (line + CRLF + FieldsBytes(rest)) ==
             first + CRLF + Joined(all[1..]) + CRLF;
    }
  }

  lemma FieldLineIsClean(header: Header)
    requires CleanHeader(header)
    ensures FullLine(FieldLine(header)) && Utf8(FieldLine(header))
  {
    var line := FieldLine(header);
    forall i: nat | i < |line| ensures !CrlfAt(line, i) {
      var k := i - (|header.name| + 2);
      if k >= 0 {
        assert !CrlfAt(header.value, k);
      } else if i < |header.name| {
        assert !CrlfAt(header.name, i);
      }
    }
    assert Utf8([58, 32]) by { AsciiIsUtf8([58, 32]); }
    Concat(header.name, [58, 32]);
    Concat(header.name + [58, 32], header.value);
  }

  lemma {:induction false} FieldLinesAreClean(headers: seq<Header>)
    requires CleanHeaders(headers)
    ensures FullLines(FieldLines(headers))
    decreases |headers|
  {
    if headers != [] {
      FieldLineIsClean(headers[0]);
      FieldLinesAreClean(headers[1..]);
    }
  }

  lemma ColonIsFound(name: Str, rest: Str)
    requires COLON !in name
    ensures FindByte(name + [COLON] + rest, COLON, 0) == Some(|name|)
  {
    var line := name + [COLON] + rest;
    assert line[|name|] == COLON && forall k | 0 <= k < |name| :: line[k] == name[k];
  }

  lemma TrimmedBehindSpace(value: Str)
    requires Trimmed(value)
    ensures Trim(value) == value && Trim([32] + value) == value
  {
    assert ([32] + value)[1..] == value;
    assert TrimStart(value) == value;
    assert SpaceAt([32] + value, 0) == 1;
  }

  /** A field line is read as its field. */
  lemma FieldLineReads(header: Header)
    requires CleanHeader(header)
    ensures HeaderOf(FieldLine(header)) == Some(header)
  {
    var line, n := FieldLine(header), |header.name|;
    assert line == header.name + [COLON] + ([32] + header.value);
    ColonIsFound(header.name, [32] + header.value);
    assert line[..n] == header.name && line[n + 1..] == [32] + header.value;
    TrimmedBehindSpace(header.name);
    TrimmedBehindSpace(header.value);
  }

  lemma {:induction false} LinesFront(line: Str, lines: seq<Str>)
    ensures HeadersOf([line] + lines) ==
            (match HeaderOf(line) case None => [] case Some(header) => [header]) + HeadersOf(lines)
  {
    var all := [line] + lines;
    if lines == [] {
      assert all[..0] == [];
    } else {
      assert all[..|all| - 1] == [line] + lines[..|lines| - 1];
      LinesFront(line, lines[..|lines| - 1]);
    }
  }

  lemma {:induction false} FieldLinesRead(headers: seq<Header>)
    requires CleanHeaders(headers)
    ensures HeadersOf(FieldLines(headers)) == headers
    decreases |headers|
  {
    if headers != [] {
      FieldLineReads(headers[0]);
      LinesFront(FieldLine(headers[0]), FieldLines(headers[1..]));
      FieldLinesRead(headers[1..]);
    }
  }

  // ----- The request line

  lemma {:induction false} WordRuns(line: Str, i: nat, end: nat)
    requires i <= end <= |line| && (end == |line| || SpaceAt(line, end) > 0)
    requires forall k: nat | i <= k < end :: SpaceAt(line, k) == 0
    ensures WordEnd(line, i) == end
    decreases end - i
  {
    if i < end {
      WordRuns(line, i + 1, end);
    }
  }

  /** A word between single spaces. */
  lemma WordReads(before: Str, word: Str, after: Str, i: nat)
    requires CleanWord(word) && (after == [] || after[0] == 32)
    requires i == |before| || (i + 1 == |before| && before[i] == 32)
    ensures Word(before + word + after, i) == Some(Read(word, |before| + |word|))
  {
    var line := before + word + after;
    var start, end := |before|, |before| + |word|;
    forall k: nat | start <= k < end ensures SpaceAt(line, k) == 0 {
      SpacesOfConcat(word, after, k - start);
      assert SpaceAt(line, k) == SpaceAt(word + after, k - start);
    }
    if end < |line| {
      assert line[end] == 32;
    }
    WordRuns(line, start, end);
    assert SkipSpaces(line, start) == start;
    assert line[start..end] == word;
  }

  lemma Pieces<T>(a: seq<T>, space: seq<T>, b: seq<T>, c: seq<T>)
    ensures a + space + b + space + c == [] + a + (space + b + space + c)
    ensures a + space + b + space + c == (a + space) + b + (space + c)
    ensures a + space + b + space + c == (a + space + b + space) + c + []
  {}

  lemma {:induction false} ThreeWords(line: Str, verb: Read<Str>, target: Read<Str>, version: Read<Str>)
    requires Word(line, 0) == Some(verb) && Word(line, verb.next) == Some(target)
    requires Word(line, target.next) == Some(version)
    ensures StartLine(line) == Ok(Head(verb.value, target.value, version.value, []))
  {}

  lemma RequestLineReads(head: Head)
    requires CleanWord(head.verb) && CleanWord(head.target) && CleanWord(head.version)
    ensures StartLine(RequestLine(head)) == Ok(head.(headers := []))
  {
    var verb, target, version, space := head.verb, head.target, head.version, [32];
    Pieces(verb, space, target, version);
    WordReads([], verb, space + target + space + version, 0);
    WordReads(verb + space, target, space + version, |verb|);
    WordReads(verb + space + target + space, version, [], |verb + space + target|);
    ThreeWords(RequestLine(head), Read(verb, |verb|), Read(target, |verb + space + target|),
               Read(version, |RequestLine(head)|));
  }

  lemma RequestLineIsClean(head: Head)
    requires CleanWord(head.verb) && CleanWord(head.target) && CleanWord(head.version)
    ensures FullLine(RequestLine(head)) && Utf8(RequestLine(head))
  {
    var line := RequestLine(head);
    AsciiIsUtf8([32]);
    Concat(head.verb, [32]);
    Concat(head.verb + [32], head.target);
    Concat(head.verb + [32] + head.target, [32]);
    Concat(head.verb + [32] + head.target + [32], head.version);
    WordHasNoCr(head.verb);
    WordHasNoCr(head.target);
    WordHasNoCr(head.version);
  }

  lemma WordHasNoCr(word: Str)
    requires SpaceFree(word)
    ensures forall i | 0 <= i < |word| :: word[i] != CR
  {
    forall i | 0 <= i < |word| ensures word[i] != CR {
      assert SpaceAt(word, i) == 0;
    }
  }

  // ----- A whole head

  predicate AllUtf8(lines: seq<Str>) {
    lines == [] || (Utf8(lines[0]) && AllUtf8(lines[1..]))
  }

  lemma {:induction false} JoinedIsUtf8(lines: seq<Str>)
    requires lines != [] && AllUtf8(lines)
    ensures Utf8(Joined(lines))
    decreases |lines|
  {
    if |lines| > 1 {
      AsciiIsUtf8(CRLF);
      JoinedIsUtf8(lines[1..]);
      Concat(lines[0], CRLF);
      Concat(lines[0] + CRLF, Joined(lines[1..]));
    }
  }

  lemma {:induction false} FieldLinesAreUtf8(headers: seq<Header>)
    requires CleanHeaders(headers)
    ensures AllUtf8(FieldLines(headers))
    decreases |headers|
  {
    if headers != [] {
      FieldLineIsClean(headers[0]);
      FieldLinesAreUtf8(headers[1..]);
    }
  }

  lemma LinesOfHead(head: Head) returns (lines: seq<Str>)
    requires CleanHead(head)
    ensures lines != [] && FullLines(lines) && AllUtf8(lines) && HeadOf(lines) == Ok(head)
    ensures HeadBytes(head) == Joined(lines) + CRLF + CRLF
  {
    var fields := FieldLines(head.headers);
    lines := [RequestLine(head)] + fields;
    assert lines[1..] == fields;
    RequestLineReads(head);
    RequestLineIsClean(head);
    FieldLinesRead(head.headers);
    FieldLinesAreClean(head.headers);
    FieldLinesAreUtf8(head.headers);
    FieldsAreLines(RequestLine(head), head.headers);
  }

  lemma TextReadsBack(head: Head, lines: seq<Str>)
    requires lines != [] && FullLines(lines) && AllUtf8(lines) && HeadOf(lines) == Ok(head)
    ensures ParseHead(Joined(lines)) == Ok(head)
  {
    JoinedIsUtf8(lines);
    HoldsWhole(Joined(lines));
    LinesReadBack(Joined(lines), 0, lines);
  }

  lemma TextIsFound(input: seq<byte>, text: Str)
    requires Holds(input, 0, text + CRLF + CRLF)
    ensures Octets(input, 0, |text|) == text
  {
    assert text + CRLF + CRLF == text + (CRLF + CRLF);
    HoldsConcat(input, 0, text, CRLF + CRLF);
    OctetsAre(input, 0, text);
  }

  lemma {:induction false} LinesAreRead(input: seq<byte>, head: Head, lines: seq<Str>)
    requires lines != [] && FullLines(lines) && AllUtf8(lines) && HeadOf(lines) == Ok(head)
    requires Holds(input, 0, Joined(lines) + CRLF + CRLF)
    ensures HeaderEnd(input, 0) == Some(|Joined(lines)|)
    ensures ParseHead(Octets(input, 0, |Joined(lines)|)) == Ok(head)
  {
    EndIsFound(input, 0, lines);
    TextIsFound(input, Joined(lines));
    TextReadsBack(head, lines);
  }

  /** A clean head written out is read back, and ends where it ends. */
  lemma {:induction false} HeadReadsBack(input: seq<byte>, head: Head, bytes: seq<byte>)
    requires CleanHead(head) && bytes == HeadBytes(head) && Holds(input, 0, bytes)
    ensures |bytes| >= 4 && HeaderEnd(input, 0) == Some(|bytes| - 4)
    ensures ParseHead(Octets(input, 0, |bytes| - 4)) == Ok(head)
  {
    var lines := LinesOfHead(head);
    LinesAreRead(input, head, lines);
  }

  // ----- The rebuilt head is clean

  /** What the configuration gives: one-line values, and a rewritten prefix that is a word. */
  predicate CleanVia(via: Via) {
    && CleanValue(via.host) && CleanValue(via.remoteIp) && via.remoteIp != []
    && (via.rewrite.Some? ==> Utf8(via.rewrite.value.from) && CleanWord(via.rewrite.value.to))
  }

  lemma PathIsClean(path: Str, rewrite: Option<ProxyRewrite>)
    requires Utf8(path) && SpaceFree(path)
    requires rewrite.Some? ==> Utf8(rewrite.value.from) && CleanWord(rewrite.value.to)
    ensures Utf8(RewritePath(path, rewrite)) && SpaceFree(RewritePath(path, rewrite))
    ensures path != [] ==> RewritePath(path, rewrite) != []
  {
    if RewritePath(path, rewrite) != path {
      var n := |rewrite.value.from|;
      BehindPrefix(path, rewrite.value.from, 0);
      if n < |path| {
        assert CharLength(path, n) > 0;
      }
      assert path[n..] == path[n..|path|];
      Cut(path, n, |path|);
      SpaceFreeSlice(path, n, |path|);
      Concat(rewrite.value.to, path[n..]);
      SpaceFreeConcat(rewrite.value.to, path[n..]);
    }
  }

  lemma TargetIsClean(target: Str, rewrite: Option<ProxyRewrite>)
    requires CleanWord(target)
    requires rewrite.Some? ==> Utf8(rewrite.value.from) && CleanWord(rewrite.value.to)
    ensures CleanWord(ProxyTarget(target, rewrite))
  {
    match FindByte(target, 63, 0)
    case None => PathIsClean(target, rewrite);
    case Some(i) =>
      assert target[..i] == target[0..i] && target[i..] == target[i..|target|];
      Before(target, 0, i);
      Cut(target, i, |target|);
      SpaceFreeSlice(target, 0, i);
      SpaceFreeSlice(target, i, |target|);
      PathIsClean(target[..i], rewrite);
      Concat(RewritePath(target[..i], rewrite), target[i..]);
      SpaceFreeConcat(RewritePath(target[..i], rewrite), target[i..]);
  }

  predicate PlainText(text: string) {
    text != "" && forall i | 0 <= i < |text| :: ' ' < text[i] < ':'  || ':' < text[i] < 128 as char
  }

  /** A name of visible ASCII characters. */
  lemma PlainTextIsClean(text: string)
    requires PlainText(text)
    ensures CleanName(Ascii(text)) && CleanValue(Ascii(text)) && CleanWord(Ascii(text))
  {
    var s := Ascii(text);
    AsciiIsUtf8(s);
    forall i: nat | i < |s| ensures SpaceAt(s, i) == 0 && !CrlfAt(s, i) {
      assert s[i] == text[i] as int;
    }
    TrimEndOf(s);
  }

  lemma VersionIsClean(version: Str)
    requires CleanWord(version)
    ensures CleanWord(ProxyVersion(version))
  {
    PlainTextIsClean("HTTP/1.1");
  }

  lemma ChainIsClean(via: Via, existing: Option<Str>)
    requires CleanVia(via) && (existing.Some? ==> CleanValue(existing.value))
    ensures CleanValue(Chain(via, existing))
  {
    if existing.Some? && existing.value != [] {
      var front, comma, ip := existing.value, [44, 32], via.remoteIp;
      AsciiIsUtf8(comma);
      Concat(front, comma);
      Concat(front + comma, ip);
      assert front + comma + ip == front + (comma + ip);
      SpacesOfConcat(front, comma + ip, 0);
      TrimEndConcat(front + comma, ip);
      var s := front + comma + ip;
      forall i: nat | i < |s| ensures !CrlfAt(s, i) {
        if i < |front| {
          assert !CrlfAt(front, i);
        } else if i >= |front| + 2 {
          assert !CrlfAt(ip, i - (|front| + 2));
        }
      }
    }
  }

  lemma {:induction false} ExistingIsClean(headers: seq<Header>)
    requires CleanHeaders(headers)
    ensures ForwardedFor(headers).Some? ==> CleanValue(ForwardedFor(headers).value)
  {
    if headers != [] {
      assert CleanHeader(headers[|headers| - 1]);
      ExistingIsClean(headers[..|headers| - 1]);
    }
  }

  predicate AllQuiet(headers: seq<Header>) {
    forall i | 0 <= i < |headers| :: !Framing(headers[i])
  }

  lemma {:induction false} QuietSaysNothing(headers: seq<Header>)
    requires AllQuiet(headers)
    ensures LengthOf(headers) == None && !ChunkedOf(headers)
  {
    if headers != [] {
      assert !Framing(headers[|headers| - 1]);
      QuietSaysNothing(headers[..|headers| - 1]);
    }
  }

  /** A field with another name. */
  lemma OtherName(text: string, name: string, value: Str)
    requires Different(text, name)
    ensures !Named(Header(Ascii(text), value), name)
  {
    OtherText(text, name);
  }

  /** The proxy's own fields say nothing about the body, and are clean when their values are. */
  predicate OwnField(name: Str, value: Str) {
    !Framing(Header(name, value)) && (CleanHeader(Header(name, value)) <==> CleanValue(value))
  }

  lemma HostIsOwn(value: Str)
    ensures OwnField(Ascii("Host"), value)
  {
    PlainTextIsClean("Host");
    OtherName("Host", "content-length", value);
    OtherName("Host", "transfer-encoding", value);
  }

  lemma RealIpIsOwn(value: Str)
    ensures OwnField(Ascii("X-Real-IP"), value)
  {
    PlainTextIsClean("X-Real-IP");
    OtherName("X-Real-IP", "content-length", value);
    OtherName("X-Real-IP", "transfer-encoding", value);
  }

  lemma ForwardedForIsOwn(value: Str)
    ensures OwnField(Ascii("X-Forwarded-For"), value)
  {
    PlainTextIsClean("X-Forwarded-For");
    OtherName("X-Forwarded-For", "content-length", value);
    OtherName("X-Forwarded-For", "transfer-encoding", value);
  }

  lemma ForwardedProtoIsOwn()
    ensures OwnField(Ascii("X-Forwarded-Proto"), Ascii("http")) && CleanValue(Ascii("http"))
  {
    PlainTextIsClean("X-Forwarded-Proto");
    PlainTextIsClean("http");
    OtherName("X-Forwarded-Proto", "content-length", Ascii("http"));
    OtherName("X-Forwarded-Proto", "transfer-encoding", Ascii("http"));
  }

  lemma CloseIsOwn()
    ensures OwnField(Ascii("Connection"), Ascii("close")) && CleanValue(Ascii("close"))
  {
    PlainTextIsClean("Connection");
    PlainTextIsClean("close");
    OtherName("Connection", "content-length", Ascii("close"));
    OtherName("Connection", "transfer-encoding", Ascii("close"));
  }

  lemma DigitsAreClean(n: nat)
    ensures CleanValue(Decimal(n))
  {
    var s := Decimal(n);
    AsciiIsUtf8(s);
    forall i: nat | i < |s| ensures SpaceAt(s, i) == 0 && !CrlfAt(s, i) {
      assert 48 <= s[i] <= 57;
    }
    TrimEndOf(s);
  }

  lemma LengthIsClean(n: nat)
    ensures CleanHeader(Header(Ascii("Content-Length"), Decimal(n)))
    ensures Named(Header(Ascii("Content-Length"), Decimal(n)), "content-length")
    ensures !Named(Header(Ascii("Content-Length"), Decimal(n)), "transfer-encoding")
  {
    PlainTextIsClean("Content-Length");
    DigitsAreClean(n);
    OtherName("Content-Length", "transfer-encoding", Decimal(n));
    SameName();
  }

  lemma SameName()
    ensures Lower(Ascii("Content-Length")) == Lower(Ascii("content-length"))
  {}

  lemma QuietConcat(a: seq<Header>, b: seq<Header>)
    requires AllQuiet(a) && AllQuiet(b)
    ensures AllQuiet(a + b)
  {}

  lemma CleanConcat(a: seq<Header>, b: seq<Header>)
    ensures CleanHeaders(a + b) <==> CleanHeaders(a) && CleanHeaders(b)
  {
    if CleanHeaders(a + b) {
      forall i | 0 <= i < |a| ensures CleanHeader(a[i]) {
        assert CleanHeader((a + b)[i]);
      }
      forall i | 0 <= i < |b| ensures CleanHeader(b[i]) {
        assert CleanHeader((a + b)[|a| + i]);
      }
    }
  }

  lemma CleanOne(header: Header)
    ensures CleanHeaders([header]) <==> CleanHeader(header)
  {
    assert [header][0] == header;
  }

  /** Only the host's value is not the client's own. */
  lemma {:induction false} PassedFields(via: Via, headers: seq<Header>)
    ensures AllQuiet(AllPassed(via, headers))
    ensures CleanHeaders(headers) ==>
              (CleanHeaders(AllPassed(via, headers)) <==> HasHost(headers) ==> CleanValue(via.host))
  {
    if headers != [] {
      var front, last := headers[..|headers| - 1], headers[|headers| - 1];
      PassedFields(via, front);
      PassedField(via, last);
      QuietConcat(AllPassed(via, front), Passed(via, last));
      CleanConcat(AllPassed(via, front), Passed(via, last));
    }
  }

  lemma PassedField(via: Via, header: Header)
    ensures AllQuiet(Passed(via, header))
    ensures CleanHeader(header) ==>
              (CleanHeaders(Passed(via, header)) <==> Named(header, "host") ==> CleanValue(via.host))
  {
    HostIsOwn(via.host);
    CleanOne(Header(Ascii("Host"), via.host));
    CleanOne(header);
  }

  lemma ThreeFields(a: Header, b: Header, c: Header)
    requires !Framing(a) && !Framing(b) && !Framing(c)
    ensures AllQuiet([a, b, c])
    ensures CleanHeaders([a, b, c]) <==> CleanHeader(a) && CleanHeader(b) && CleanHeader(c)
  {
    var all := [a, b, c];
    assert all[0] == a && all[1] == b && all[2] == c;
  }

  lemma RouteFieldsSay(via: Via, existing: Option<Str>)
    ensures AllQuiet(RouteFields(via, existing))
    ensures CleanHeaders(RouteFields(via, existing)) <==>
            CleanValue(via.remoteIp) && CleanValue(Chain(via, existing))
  {
    RealIpIsOwn(via.remoteIp);
    ForwardedForIsOwn(Chain(via, existing));
    ForwardedProtoIsOwn();
    ThreeFields(Header(Ascii("X-Real-IP"), via.remoteIp),
                Header(Ascii("X-Forwarded-For"), Chain(via, existing)),
                Header(Ascii("X-Forwarded-Proto"), Ascii("http")));
  }

  lemma HostFieldSays(via: Via, wroteHost: bool)
    ensures AllQuiet(HostField(via, wroteHost))
    ensures CleanHeaders(HostField(via, wroteHost)) <==> wroteHost || CleanValue(via.host)
  {
    HostIsOwn(via.host);
    CleanOne(Header(Ascii("Host"), via.host));
  }

  lemma CloseFieldSays(via: Via)
    ensures AllQuiet(CloseField(via)) && CleanHeaders(CloseField(via))
  {
    CloseIsOwn();
  }

  /** What the configuration puts into a head. */
  predicate FieldsFit(via: Via, headers: seq<Header>) {
    CleanValue(via.host) && CleanValue(via.remoteIp) && CleanValue(Chain(via, ForwardedFor(headers)))
  }

  lemma ProxyHeadersSay(via: Via, headers: seq<Header>, length: Option<nat>)
    requires length.Some? ==> length.value < USIZE
    ensures !ChunkedOf(ProxyHeaders(via, headers, length)) && LengthOf(ProxyHeaders(via, headers, length)) == length
    ensures CleanHeaders(headers) ==> (CleanHeaders(ProxyHeaders(via, headers, length)) <==> FieldsFit(via, headers))
  {
    var passed, host := AllPassed(via, headers), HostField(via, HasHost(headers));
    var route, close := RouteFields(via, ForwardedFor(headers)), CloseField(via);
    PassedFields(via, headers);
    HostFieldSays(via, HasHost(headers));
    RouteFieldsSay(via, ForwardedFor(headers));
    CloseFieldSays(via);
    QuietConcat(passed, host);
    QuietConcat(passed + host, route);
    QuietConcat(passed + host + route, close);
    CleanConcat(passed, host);
    CleanConcat(passed + host, route);
    CleanConcat(passed + host + route, close);
    LengthLast(passed + host + route + close, length);
  }

  lemma LengthLast(headers: seq<Header>, length: Option<nat>)
    requires AllQuiet(headers) && (length.Some? ==> length.value < USIZE)
    ensures var all := headers + LengthField(length);
            (CleanHeaders(all) <==> CleanHeaders(headers)) && !ChunkedOf(all) && LengthOf(all) == length
  {
    QuietSaysNothing(headers);
    var all := headers + LengthField(length);
    if length.None? {
      assert all == headers;
    } else {
      LengthIsClean(length.value);
      CleanOne(Header(Ascii("Content-Length"), Decimal(length.value)));
      CleanConcat(headers, LengthField(length));
      assert all[..|all| - 1] == headers;
      LengthReads(length.value);
    }
  }

  lemma LengthReads(n: nat)
    requires n < USIZE
    ensures ParseLength(Decimal(n)) == n
  {
    DecimalRoundTrip(n);
  }

  /** The values a configuration gives leave the head in form: those of its fields fit a line, and
      the target is still a word. */
  predicate ViaFits(via: Via, head: Head) {
    FieldsFit(via, head.headers) && CleanWord(ProxyTarget(head.target, via.rewrite))
  }

  lemma ProxyHeadFits(via: Via, head: Head, length: Option<nat>)
    requires CleanHead(head) && (length.Some? ==> length.value < USIZE)
    ensures CleanHead(ProxyHead(via, head, length)) <==> ViaFits(via, head)
    ensures !ChunkedOf(ProxyHead(via, head, length).headers)
    ensures LengthOf(ProxyHead(via, head, length).headers) == length
  {
    VersionIsClean(head.version);
    ProxyHeadersSay(via, head.headers, length);
  }

  /** One-line values and a word for a prefix fit whatever the request is. */
  lemma CleanViaFits(via: Via, head: Head)
    requires CleanVia(via) && CleanHead(head)
    ensures ViaFits(via, head)
  {
    TargetIsClean(head.target, via.rewrite);
    ExistingIsClean(head.headers);
    ChainIsClean(via, ForwardedFor(head.headers));
  }

  /** The octets of a, CR, LF and x. */
  const TWO_LINES: Str := [97, 13, 10, 120]

  /** A rewrite to "/a b". */
  const TO_TWO_WORDS := ProxyRewrite(Ascii("replacePrefix"), [47], [47, 97, 32, 98])

  /** Storage accepts a rewrite to a prefix with white space in it, and no request for a path fits
      it: its target falls into two words. */
  lemma StoredRewriteMayNotFit(via: Via, head: Head)
    requires via.rewrite == Some(TO_TWO_WORDS) && head.target != [] && head.target[0] == 47
    ensures Storage.GoodRewrite(via.rewrite)
    ensures !ViaFits(via, head)
  {
    var target, query := ProxyTarget(head.target, via.rewrite), FindByte(head.target, 63, 0);
    if query.None? {
      assert target == [47, 97, 32, 98] + head.target[1..];
    } else {
      var path := head.target[..query.value];
      assert path[0] == 47;
      assert target == [47, 97, 32, 98] + path[1..] + head.target[query.value..];
    }
    assert target[2] == 32 && SpaceAt(target, 2) == 1;
  }

  /** The check of an upstream's address lets a line end in the host through as well, though such a
      host has yet to be found by its name before a head is written. */
  lemma StoredHostMayNotFit(via: Via, head: Head)
    requires via.host == TWO_LINES
    ensures Hosts.ParseHttpUpstream(Ascii("http://") + via.host) == Some((via.host, 80))
    ensures !ViaFits(via, head)
  {
    Hosts.HostIsTaken(TWO_LINES);
    assert CrlfAt(TWO_LINES, 1);
  }

  // ----- The theorem

  lemma BodyReadsBack(input: seq<byte>, start: nat, headers: seq<Header>, body: seq<byte>, max: nat)
    requires !ChunkedOf(headers) && DeclaredLength(headers) == |body| <= max
    requires Holds(input, start, body)
    ensures BodyOf(input, start, headers, max) == Ok(body)
  {
    OctetsAre(input, start, body);
  }

  /** A reader finds this request. */
  predicate ReadsAs(input: seq<byte>, max: nat, request: Whole) {
    Request(input, max) == Ok(request)
  }

  lemma RequestReadsBack(input: seq<byte>, end: nat, head: Head, body: seq<byte>, max: nat)
    requires HeaderEnd(input, 0) == Some(end) && ParseHead(Octets(input, 0, end)) == Ok(head)
    requires !ChunkedOf(head.headers) && DeclaredLength(head.headers) == |body| <= max
    requires Holds(input, end + 4, body)
    ensures ReadsAs(input, max, Whole(head, body))
  {
    BodyReadsBack(input, end + 4, head.headers, body, max);
  }

  lemma ConcatHolds(a: seq<byte>, b: seq<byte>, rest: seq<byte>)
    ensures Holds(a + b + rest, 0, a) && Holds(a + b + rest, |a|, b)
  {
    HoldsWhole(a + b + rest);
    HoldsConcat(a + b + rest, 0, a + b, rest);
    HoldsConcat(a + b + rest, 0, a, b);
  }

  /** Whatever request is sent on, whoever reads it by the same rules, whatever follows it, finds
      the rebuilt head and behind it exactly the body if and only if that head is clean: words of
      a request line and fields that fit a line. */
  lemma SentOnReadsBack(via: Via, request: Whole, rest: seq<byte>)
    requires |request.body| < USIZE
    ensures ReadsAs(Forwarded(via, request) + rest, |request.body|,
                    Whole(ProxyHead(via, request.head, request.Length()), request.body)) <==>
            CleanHead(ProxyHead(via, request.head, request.Length()))
  {
    var head := ProxyHead(via, request.head, request.Length());
    ProxyHeadersSay(via, request.head.headers, request.Length());
    if CleanHead(head) {
      SentReadsBack(head, request.body, rest, HeadBytes(head));
    } else if ReadsAs(Forwarded(via, request) + rest, |request.body|, Whole(head, request.body)) {
      ReadHeadIsClean(Forwarded(via, request) + rest, |request.body|, head, request.body);
      assert false;
    }
  }

  /** The framing of a request read from a connection survives the proxy, a chunked body becoming
      one of its length, if and only if the values from the configuration fit the head. */
  lemma ForwardedReadsBack(via: Via, input: seq<byte>, max: nat, request: Whole, rest: seq<byte>)
    requires Request(input, max) == Ok(request) && |request.body| < USIZE
    ensures ReadsAs(Forwarded(via, request) + rest, |request.body|,
                    Whole(ProxyHead(via, request.head, request.Length()), request.body)) <==>
            ViaFits(via, request.head)
  {
    ParsedHeadIsClean(Octets(input, 0, HeaderEnd(input, 0).value));
    ProxyHeadFits(via, request.head, request.Length());
    SentOnReadsBack(via, request, rest);
  }

  lemma ReadHeadIsClean(input: seq<byte>, max: nat, head: Head, body: seq<byte>)
    requires ReadsAs(input, max, Whole(head, body))
    ensures CleanHead(head)
  {
    ParsedHeadIsClean(Octets(input, 0, HeaderEnd(input, 0).value));
  }

  lemma {:induction false} SentReadsBack(head: Head, body: seq<byte>, rest: seq<byte>, bytes: seq<byte>)
    requires CleanHead(head) && !ChunkedOf(head.headers) && DeclaredLength(head.headers) == |body|
    requires bytes == HeadBytes(head)
    ensures ReadsAs(bytes + body + rest, |body|, Whole(head, body))
  {
    ConcatHolds(bytes, body, rest);
    HeadReadsBack(bytes + body + rest, head, bytes);
    RequestReadsBack(bytes + body + rest, |bytes| - 4, head, body, |body|);
  }
}
