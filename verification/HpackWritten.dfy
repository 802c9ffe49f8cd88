/** The representations of RFC 7541 that the encoder picks. */
module HpackWritten {
  import opened Prelude
  import opened Text
  import opened HpackString
  import opened HpackDecoding
  import HpackEncoder
  import opened HpackRfc

  predicate HasName(entries: seq<Header>, name: Str, i: nat) {
    1 <= i <= |entries| && entries[i - 1].name == name
  }

  /** The first entry of the static table with the name, counted from 1, or the name itself when there
      is none. */
  ghost predicate PicksName(entries: seq<Header>, name: Str, written: Name) {
    match written
    case Indexed(index, pad) =>
      pad == 0 && HasName(entries, name, index) && forall i: nat | i < index :: !HasName(entries, name, i)
    case New(literal) => literal == Literal(false, name, 0) && forall i: nat :: !HasName(entries, name, i)
  }

  /** A literal field that leaves the table alone, its strings plain and its integers as short as can be. */
  ghost predicate PicksField(codec: Codec, header: Header, rep: Representation) {
    && rep.LiteralField? && rep.mode == WithoutIndexing
    && PicksName(codec.staticTable, Lower(header.name), rep.name) && rep.value == Literal(false, header.value, 0)
  }

  ghost predicate PicksFields(codec: Codec, headers: seq<Header>, reps: seq<Representation>) {
    if headers == [] || reps == [] then headers == [] && reps == []
    else PicksField(codec, headers[0], reps[0]) && PicksFields(codec, headers[1..], reps[1..])
  }

  lemma {:induction false} FirstIndex(entries: seq<Header>, name: Str, from: nat)
    ensures match HpackEncoder.NameIndex(entries, name, from)
            case None => forall i: nat | i > from :: !HasName(entries, name, i)
            case Some(index) =>
              HasName(entries, name, index) && forall i: nat | from < i < index :: !HasName(entries, name, i)
    decreases |entries| - from
  {
    if from < |entries| && entries[from].name != name {
      FirstIndex(entries, name, from + 1);
    }
  }

  lemma StringIsLiteral(value: Str)
    requires |value| < U32
    ensures HpackEncoder.StringBytes(value) == LiteralBytes(Literal(false, value, 0))
  {}

  lemma NameIsPicked(codec: Codec, name: Str) returns (written: Name)
    requires |codec.staticTable| == 61 && |name| < U32
    ensures PicksName(codec.staticTable, name, written)
    ensures HpackEncoder.NameBytes(codec, name) == NameBytes(WithoutIndexing, written)
  {
    FirstIndex(codec.staticTable, name, 0);
    match HpackEncoder.NameIndex(codec.staticTable, name)
    case Some(index) => written := Indexed(index, 0);
    case None =>
      written := New(Literal(false, name, 0));
      StringIsLiteral(name);
  }

  lemma FieldIsPicked(codec: Codec, header: Header) returns (rep: Representation)
    requires |codec.staticTable| == 61 && |header.name| < U32 && |header.value| < U32
    ensures PicksField(codec, header, rep) && HpackEncoder.HeaderBytes(codec, header) == Bytes(rep)
  {
    var name := NameIsPicked(codec, Lower(header.name));
    StringIsLiteral(header.value);
    rep := LiteralField(WithoutIndexing, name, Literal(false, header.value, 0));
  }

  predicate Short(headers: seq<Header>) {
    headers == [] || (|headers[0].name| < U32 && |headers[0].value| < U32 && Short(headers[1..]))
  }

  /** The encoder's block is that of these representations. */
  lemma {:induction false} EncodedIsWritten(codec: Codec, headers: seq<Header>) returns (reps: seq<Representation>)
    requires |codec.staticTable| == 61 && Short(headers)
    ensures PicksFields(codec, headers, reps) && HpackEncoder.HeadersBytes(codec, headers) == BlockBytes(reps)
  {
    if headers == [] {
      reps := [];
    } else {
      var rest := EncodedIsWritten(codec, headers[1..]);
      var rep := FieldIsPicked(codec, headers[0]);
      reps := [rep] + rest;
      assert reps[1..] == rest;
    }
  }
}
