/** Note trees as bytes: the recursive writer and reader, and when reading gives back what was
    written. */
module NotesCodec {
  import opened Options

  type Byte = b: int | 0 <= b < 256

  type Bytes = seq<Byte>

  /** A UTF-16 code unit. */
  type Unit = u: int | 0 <= u < 0x1_0000

  /** A string that was never set is not the same as an empty one. */
  datatype QString = Null | Text(units: seq<Unit>)

  datatype Entity =
    | Note(name: QString, text: QString)
    | Folder(name: QString, items: seq<Entity>)

  const WORD := 0x1_0000_0000
  const NULL_MARK := 0xFFFF_FFFF

  // ----- Writing

  /** A 32-bit integer, big-endian; what does not fit is cut off. */
  function U32(n: nat): (r: Bytes)
    ensures |r| == 4
  {
    [n / 0x100_0000 % 256, n / 0x1_0000 % 256, n / 256 % 256, n % 256]
  }

  function Units(s: seq<Unit>): Bytes {
    if s == [] then [] else [s[0] / 256, s[0] % 256] + Units(s[1..])
  }

  function EncodeString(s: QString): Bytes {
    match s
    case Null => U32(NULL_MARK)
    case Text(units) => U32(2 * |units|) + Units(units)
  }

  function Encode(e: Entity): Bytes
    decreases e
  {
    match e
    case Note(name, text) => EncodeString(name) + [0] + EncodeString(text)
    case Folder(name, items) => EncodeString(name) + [1] + (U32(|items|) + EncodeAll(items))
  }

  function EncodeAll(items: seq<Entity>): Bytes
    decreases items
  {
    if items == [] then [] else Encode(items[0]) + EncodeAll(items[1..])
  }

  // ----- Reading.  The result is what was read and what is left of the bytes.

  function ReadU32(b: Bytes): (r: Option<(nat, Bytes)>)
    ensures r.Some? ==> r.value.0 < WORD && |r.value.1| < |b|
  {
    if |b| < 4 then None
    else
      var b0: int, b1: int, b2: int := b[0], b[1], b[2];
      Some((b0 * 0x100_0000 + b1 * 0x1_0000 + b2 * 256 + b[3], b[4..]))
  }

  /** A signed integer. */
  function ReadInt(b: Bytes): (r: Option<(int, Bytes)>)
    ensures r.Some? ==> r.value.0 < WORD / 2 && |r.value.1| < |b|
  {
    match ReadU32(b)
    case None => None
    case Some((n, rest)) => Some((if n >= WORD / 2 then n - WORD else n, rest))
  }

  function ReadUnits(n: nat, b: Bytes): (r: seq<Unit>)
    requires 2 * n <= |b|
    ensures |r| == n
  {
    if n == 0 then []
    else
      var high: int := b[0];
      [high * 256 + b[1]] + ReadUnits(n - 1, b[2..])
  }

  function DecodeString(b: Bytes): (r: Option<(QString, Bytes)>)
    ensures r.Some? ==> |r.value.1| < |b|
  {
    match ReadU32(b)
    case None => None
    case Some((n, rest)) =>
      if n == NULL_MARK then Some((Null, rest))
      else if n % 2 == 1 || n > |rest| then None
      else Some((Text(ReadUnits(n / 2, rest)), rest[n..]))
  }

  function Decode(b: Bytes): (r: Option<(Entity, Bytes)>)
    ensures r.Some? ==> |r.value.1| < |b|
    decreases |b|, 0
  {
    match DecodeString(b)
    case None => None
    case Some((name, b1)) =>
      if b1 == [] then None
      else if b1[0] == 0 then
        match DecodeString(b1[1..])
        case None => None
        case Some((text, rest)) => Some((Note(name, text), rest))
      else
        match DecodeForest(b1[1..])
        case None => None
        case Some((items, rest)) => Some((Folder(name, items), rest))
  }

  /** A count and that many entities: what is in a folder, and what is dragged and dropped. */
  function DecodeForest(b: Bytes): (r: Option<(seq<Entity>, Bytes)>)
    ensures r.Some? ==> |r.value.1| < |b| && |r.value.0| < WORD / 2
    decreases |b|, 2
  {
    match ReadInt(b)
    case None => None
    case Some((n, rest)) => if n < 0 then None else DecodeAll(n, rest)
  }

  function DecodeAll(n: nat, b: Bytes): (r: Option<(seq<Entity>, Bytes)>)
    ensures r.Some? ==> |r.value.1| <= |b| && |r.value.0| == n
    decreases |b|, 1
  {
    if n == 0 then Some(([], b))
    else
      match Decode(b)
      case None => None
      case Some((e, b1)) =>
        match DecodeAll(n - 1, b1)
        case None => None
        case Some((es, rest)) => Some(([e] + es, rest))
  }

  function EncodeForest(items: seq<Entity>): Bytes {
    U32(|items|) + EncodeAll(items)
  }

  // ----- Round trip

  /** Strings whose length in bytes, and folders whose number of items, fit their field. */
  predicate StringFits(s: QString) {
    s.Text? ==> |s.units| < 0x8000_0000
  }

  predicate Fits(e: Entity)
    decreases e
  {
    StringFits(e.name) &&
    match e {
      case Note(_, text) => StringFits(text)
      case Folder(_, items) => |items| < 0x8000_0000 && AllFit(items)
    }
  }

  predicate AllFit(items: seq<Entity>)
    decreases items
  {
    items == [] || (Fits(items[0]) && AllFit(items[1..]))
  }

  lemma Digits(n: nat)
    requires n < WORD
    ensures n == n / 0x100_0000 % 256 * 0x100_0000 + n / 0x1_0000 % 256 * 0x1_0000 + n / 256 % 256 * 256 + n % 256
  {
    var q := n / 256;
    assert n == 256 * q + n % 256;
    var q' := q / 256;
    assert q' == n / 0x1_0000 && q == 256 * q' + q % 256;
    assert q' / 256 == n / 0x100_0000 < 256;
  }

  lemma U32Back(n: nat, rest: Bytes)
    requires n < WORD
    ensures ReadU32(U32(n) + rest) == Some((n, rest))
  {
    Digits(n);
    assert (U32(n) + rest)[4..] == rest;
  }

  lemma {:induction false} UnitsBack(s: seq<Unit>, rest: Bytes)
    ensures |Units(s)| == 2 * |s|
    ensures ReadUnits(|s|, Units(s) + rest) == s
  {
    if s != [] {
      UnitsBack(s[1..], rest);
      assert (Units(s) + rest)[2..] == Units(s[1..]) + rest;
    }
  }

  lemma StringBack(s: QString, rest: Bytes)
    requires StringFits(s)
    ensures DecodeString(EncodeString(s) + rest) == Some((s, rest))
  {
    match s {
      case Null => U32Back(NULL_MARK, rest);
      case Text(units) =>
        UnitsBack(units, rest);
        U32Back(2 * |units|, Units(units) + rest);
        assert EncodeString(s) + rest == U32(2 * |units|) + (Units(units) + rest);
        assert (Units(units) + rest)[2 * |units|..] == rest;
    }
  }

  lemma {:induction false} EntityBack(e: Entity, rest: Bytes)
    requires Fits(e)
    ensures Decode(Encode(e) + rest) == Some((e, rest))
    decreases e, 0
  {
    match e {
      case Note(name, text) =>
        assert Encode(e) + rest == EncodeString(name) + ([0] + (EncodeString(text) + rest));
        StringBack(name, [0] + (EncodeString(text) + rest));
        StringBack(text, rest);
      case Folder(name, items) =>
        assert Encode(e) + rest == EncodeString(name) + ([1] + (EncodeForest(items) + rest));
        StringBack(name, [1] + (EncodeForest(items) + rest));
        ForestBack(items, rest);
    }
  }

  lemma {:induction false} ForestBack(items: seq<Entity>, rest: Bytes)
    requires |items| < WORD / 2 && AllFit(items)
    ensures DecodeForest(EncodeForest(items) + rest) == Some((items, rest))
    decreases items, 1
  {
    assert EncodeForest(items) + rest == U32(|items|) + (EncodeAll(items) + rest);
    U32Back(|items|, EncodeAll(items) + rest);
    AllBack(items, rest);
  }

  lemma {:induction false} AllBack(items: seq<Entity>, rest: Bytes)
    requires AllFit(items)
    ensures DecodeAll(|items|, EncodeAll(items) + rest) == Some((items, rest))
    decreases items, 0
  {
    if items == [] {
      assert EncodeAll(items) + rest == rest;
    } else {
      var b1 := EncodeAll(items[1..]) + rest;
      assert EncodeAll(items) + rest == Encode(items[0]) + b1;
      EntityBack(items[0], b1);
      AllBack(items[1..], rest);
      hide Decode, Encode, EncodeAll;
      assert DecodeAll(|items| - 1, b1) == Some((items[1..], rest));
      assert [items[0]] + items[1..] == items;
    }
  }

  lemma DecodedStringFits(b: Bytes)
    requires DecodeString(b).Some?
    ensures StringFits(DecodeString(b).value.0)
  {
  }

  lemma {:induction false} DecodedFits(b: Bytes)
    requires Decode(b).Some?
    ensures Fits(Decode(b).value.0)
    decreases |b|, 0
  {
    DecodedStringFits(b);
    var b1 := DecodeString(b).value.1;
    if b1[0] == 0 {
      DecodedStringFits(b1[1..]);
    } else {
      DecodedForestFits(b1[1..]);
    }
  }

  lemma {:induction false} DecodedForestFits(b: Bytes)
    requires DecodeForest(b).Some?
    ensures AllFit(DecodeForest(b).value.0)
    decreases |b|, 2
  {
    var (n, rest) := ReadInt(b).value;
    DecodedAllFit(n, rest);
  }

  lemma {:induction false} DecodedAllFit(n: nat, b: Bytes)
    requires DecodeAll(n, b).Some?
    ensures AllFit(DecodeAll(n, b).value.0)
    decreases |b|, 1
  {
    if n > 0 {
      DecodedFits(b);
      DecodedAllFit(n - 1, Decode(b).value.1);
    }
  }

  /** A tree of any depth, written and read back with anything after it, is the same tree and leaves
      exactly what was after it, if and only if its strings and numbers of children fit. */
  lemma RoundTripIff(e: Entity, rest: Bytes)
    ensures Decode(Encode(e) + rest) == Some((e, rest)) <==> Fits(e)
  {
    if Fits(e) {
      EntityBack(e, rest);
    } else if Decode(Encode(e) + rest).Some? {
      DecodedFits(Encode(e) + rest);
    }
  }

  /** The same for what is dragged and dropped. */
  lemma ForestRoundTripIff(items: seq<Entity>, rest: Bytes)
    ensures DecodeForest(EncodeForest(items) + rest) == Some((items, rest)) <==> |items| < 0x8000_0000 && AllFit(items)
  {
    if |items| < WORD / 2 && AllFit(items) {
      ForestBack(items, rest);
    } else if DecodeForest(EncodeForest(items) + rest).Some? {
      DecodedForestFits(EncodeForest(items) + rest);
    }
  }

  /** The bytes of a small tree: a folder "A" with one note in it, which has no name and an empty text. */
  lemma SmallTree()
    ensures Encode(Folder(Text([0x41]), [Note(Null, Text([]))])) ==
            [0, 0, 0, 2, 0, 0x41, 1, 0, 0, 0, 1, 0xFF, 0xFF, 0xFF, 0xFF, 0, 0, 0, 0, 0]
  {
    var note := Note(Null, Text([]));
    assert Encode(note) == [0xFF, 0xFF, 0xFF, 0xFF, 0, 0, 0, 0, 0];
    assert EncodeAll([note]) == Encode(note) + EncodeAll([]) == Encode(note);
    assert EncodeString(Text([0x41])) == [0, 0, 0, 2, 0, 0x41] by {
      assert Units([0x41]) == [0, 0x41];
    }
  }

  /** No two trees that fit are written alike, nor is one the beginning of the other. */
  lemma EncodingsDiffer(d: Entity, e: Entity, s: Bytes, t: Bytes)
    requires Fits(d) && Fits(e) && Encode(d) + s == Encode(e) + t
    ensures d == e && s == t
  {
    EntityBack(d, s);
    EntityBack(e, t);
  }
}
