/** Lines that end in CRLF, found in a buffer. */
module Lines {
  import opened Prelude
  import opened Text
  import opened Buffers

  const CR: byte := 13
  const LF: byte := 10
  const CRLF: seq<byte> := [13, 10]

  predicate CrlfAt(input: seq<byte>, position: nat) {
    position + 2 <= |input| && input[position] == CR && input[position + 1] == LF
  }

  /** The first CRLF from `position` on. */
  function FindCrlf(input: seq<byte>, position: nat): (r: Option<nat>)
    ensures r.Some? ==> position <= r.value && r.value + 1 < |input|
    decreases |input| - position
  {
    if position + 1 >= |input| then None
    else if input[position] == CR && input[position + 1] == LF then Some(position)
    else FindCrlf(input, position + 1)
  }

  function Line(input: seq<byte>, position: nat): (r: Result<Read<Str>>)
    ensures r.Ok? ==> position + 2 <= r.value.next <= |input|
  {
    match FindCrlf(input, position)
    case None => Err(ConnectionClosed)
    case Some(end) => Ok(Read(Octets(input, position, end - position), end + 2))
  }

  predicate NoCrlf(line: Str) {
    FindCrlf(line, 0) == None
  }

  /** A CRLF found in what is buffered is the first one of the whole. */
  lemma {:induction false} FoundEarly(buffer: seq<byte>, whole: seq<byte>, position: nat)
    requires buffer <= whole
    ensures FindCrlf(buffer, position).Some? ==> FindCrlf(whole, position) == FindCrlf(buffer, position)
    decreases |buffer| - position
  {
    if position + 1 < |buffer| {
      FoundEarly(buffer, whole, position + 1);
    }
  }

  lemma {:induction false} FindBehind(input: seq<byte>, position: nat, line: Str, i: nat)
    requires Holds(input, position, line + CRLF) && i <= |line| && FindCrlf(line, i) == None
    ensures FindCrlf(input, position + i) == Some(position + |line|)
    decreases |line| - i
  {
    HeldAt(input, position, line + CRLF, i);
    HeldAt(input, position, line + CRLF, i + 1);
    if i < |line| {
      FindBehind(input, position, line, i + 1);
    }
  }

  lemma {:induction false} LineReads(input: seq<byte>, position: nat, line: Str)
    requires Holds(input, position, line + CRLF) && NoCrlf(line)
    ensures Line(input, position) == Ok(Read(line, position + |line| + 2))
  {
    FindBehind(input, position, line, 0);
    HoldsConcat(input, position, line, CRLF);
    OctetsAre(input, position, line);
  }

  lemma {:induction false} LineHasNoCrlf(input: seq<byte>, position: nat, line: Str, i: nat)
    requires i <= |line| && Holds(input, position, line)
    requires FindCrlf(input, position + i) == Some(position + |line|)
    ensures FindCrlf(line, i) == None
    decreases |line| - i
  {
    if i < |line| {
      HeldAt(input, position, line, i);
      if i + 1 < |line| {
        HeldAt(input, position, line, i + 1);
      }
      LineHasNoCrlf(input, position, line, i + 1);
    }
  }

  /** A line read is the line before its CRLF. */
  lemma {:induction false} LineIsHeld(input: seq<byte>, position: nat)
    requires Line(input, position).Ok?
    ensures var line := Line(input, position).value;
            && NoCrlf(line.value) && line.next == position + |line.value| + 2
            && Octets(input, position, |line.value| + 2) == line.value + CRLF
  {
    var end := FindCrlf(input, position).value;
    var line := Octets(input, position, end - position);
    forall k: nat | k < |line| ensures SameAt(input, position, line, k) {
      OctetAt(input, position, end - position, k);
    }
    LineHasNoCrlf(input, position, line, 0);
    CrlfIsHeld(input, end, position);
    OctetsJoin(input, position, end - position, 2);
  }

  lemma {:induction false} CrlfIsHeld(input: seq<byte>, end: nat, from: nat)
    requires FindCrlf(input, from) == Some(end)
    ensures CrlfAt(input, end) && Octets(input, end, 2) == CRLF
    decreases |input| - from
  {
    if from < end {
      CrlfIsHeld(input, end, from + 1);
    }
  }
}
