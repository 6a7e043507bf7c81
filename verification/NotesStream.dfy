/** The stream operators for notes: a writer that appends and a reader that advances, both recursive,
    with a loop over a folder's items. */
module NotesStream {
  import opened Options
  import opened NotesCodec

  class DataStream {
    var bytes: Bytes

    constructor (from: Bytes)
      ensures bytes == from
    {
      bytes := from;
    }

    method WriteEntity(e: Entity)
      modifies this
      ensures bytes == old(bytes) + Encode(e)
      decreases e
    {
      bytes := bytes + EncodeString(e.name);
      bytes := bytes + [if e.Folder? then 1 else 0];
      match e {
        case Folder(_, items) =>
          WriteItems(items);
          Append4(old(bytes), EncodeString(e.name), [1], EncodeForest(items));
        case Note(_, text) =>
          bytes := bytes + EncodeString(text);
          Append4(old(bytes), EncodeString(e.name), [0], EncodeString(text));
      }
    }

    /** The number of items, and each of them. */
    method WriteItems(items: seq<Entity>)
      modifies this
      ensures bytes == old(bytes) + EncodeForest(items)
      decreases items
    {
      assert EncodeAll([]) == [];
      hide U32, Encode, EncodeAll;
      Append3(bytes, U32(|items|), EncodeAll(items));
      bytes := bytes + U32(|items|);
      assert items[0..] == items;
      for i := 0 to |items|
        invariant bytes + EncodeAll(items[i..]) == old(bytes) + EncodeForest(items)
      {
        ItemAhead(items, i);
        Append3(bytes, Encode(items[i]), EncodeAll(items[i + 1..]));
        WriteEntity(items[i]);
      }
      assert items[|items|..] == [] && bytes + [] == bytes;
    }

    lemma ItemAhead(items: seq<Entity>, i: nat)
      requires i < |items|
      ensures EncodeAll(items[i..]) == Encode(items[i]) + EncodeAll(items[i + 1..])
    {
      assert items[i..][1..] == items[i + 1..];
    }

    lemma Append3(a: Bytes, b: Bytes, c: Bytes)
      ensures (a + b) + c == a + (b + c)
    {
    }

    lemma Append4(a: Bytes, b: Bytes, c: Bytes, d: Bytes)
      ensures ((a + b) + c) + d == a + (b + c + d)
    {
    }

    method ReadString() returns (r: Option<QString>)
      modifies this
      ensures match DecodeString(old(bytes)) {
        case None => r.None?
        case Some((s, rest)) => r == Some(s) && bytes == rest
      }
    {
      var d := DecodeString(bytes);
      if d.None? {
        return None;
      }
      bytes := d.value.1;
      return Some(d.value.0);
    }

    method ReadEntity() returns (r: Option<Entity>)
      modifies this
      ensures match Decode(old(bytes)) {
        case None => r.None?
        case Some((e, rest)) => r == Some(e) && bytes == rest
      }
      decreases |bytes|, 0
    {
      var name := ReadString();
      if name.None? || bytes == [] {
        return None;
      }
      var isFolder := bytes[0] != 0;
      bytes := bytes[1..];
      if isFolder {
        var items := ReadItems();
        return if items.Some? then Some(Folder(name.value, items.value)) else None;
      }
      var text := ReadString();
      return if text.Some? then Some(Note(name.value, text.value)) else None;
    }

    /** A number of items, and that many of them pushed to the end of a vector. */
    method ReadItems() returns (r: Option<seq<Entity>>)
      modifies this
      ensures match DecodeForest(old(bytes)) {
        case None => r.None?
        case Some((items, rest)) => r == Some(items) && bytes == rest
      }
      decreases |bytes|, 1
    {
      hide ReadU32;
      var n := ReadInt(bytes);
      if n.None? || n.value.0 < 0 {
        return None;
      }
      bytes := n.value.1;
      var items := [];
      var i := 0;
      Start(DecodeAll(n.value.0, bytes));
      hide ReadInt, Decode, DecodeAll, DecodeForest;
      while i < n.value.0
        invariant 0 <= i <= n.value.0 && |bytes| < |old(bytes)|
        invariant Onto(items, DecodeAll(n.value.0 - i, bytes)) == DecodeForest(old(bytes))
        decreases n.value.0 - i
      {
        Advance(items, n.value.0 - i, bytes);
        var e := ReadEntity();
        if e.None? {
          return None;
        }
        items := items + [e.value];
        i := i + 1;
      }
      Finish(items, bytes);
      return Some(items);
    }

    lemma Finish(items: seq<Entity>, b: Bytes)
      ensures Onto(items, DecodeAll(0, b)) == Some((items, b))
    {
      assert items + [] == items;
    }

    lemma Start(r: Option<(seq<Entity>, Bytes)>)
      ensures Onto([], r) == r
    {
      if r.Some? {
        assert [] + r.value.0 == r.value.0;
      }
    }

    lemma Advance(items: seq<Entity>, n: nat, b: Bytes)
      requires n > 0
      ensures Onto(items, DecodeAll(n, b)) ==
              if Decode(b).None? then None
              else Onto(items + [Decode(b).value.0], DecodeAll(n - 1, Decode(b).value.1))
    {
      hide Decode;
      if Decode(b).Some? {
        var (e, b1) := Decode(b).value;
        var more := DecodeAll(n - 1, b1);
        if more.Some? {
          assert items + ([e] + more.value.0) == (items + [e]) + more.value.0;
        }
      }
    }

    ghost function Onto(items: seq<Entity>, r: Option<(seq<Entity>, Bytes)>): Option<(seq<Entity>, Bytes)> {
      match r
      case None => None
      case Some((more, rest)) => Some((items + more, rest))
    }
  }
}
