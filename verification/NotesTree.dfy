/** The tree of notes as items that point at each other: a folder at its items, an item at its parent.
    What inserting and removing rows makes of it, and how positions in the tree are named. */
module NotesTree {
  import opened Options

  /** Items are numbered as they are made. */
  type Id = nat

  datatype Node =
    | Note(parent: Option<Id>, name: string)
    | Folder(parent: Option<Id>, name: string, items: seq<Id>)

  type Store = map<Id, Node>

  const ROOT: Id := 0

  const EMPTY: Store := map[ROOT := Folder(None, "Folder", [])]

  /** What a view holds of an item: its row, and a pointer to it.  The root has no valid one. */
  datatype Index = Invalid | Cell(row: int, id: Id)

  // ----- The invariant

  predicate IsFolder(s: Store, f: Id) {
    f in s && s[f].Folder?
  }

  /** An item is in the folder that it says is its parent, which is older than it. */
  predicate Linked(s: Store, k: Id) {
    k in s && s[k].parent.Some? && s[k].parent.value < k && IsFolder(s, s[k].parent.value) &&
    k in s[s[k].parent.value].items
  }

  /** A folder's items are different and say that it is their parent. */
  predicate Holds(s: Store, f: Id)
    requires IsFolder(s, f)
  {
    && (forall k :: k in s[f].items ==> k in s && k != ROOT && s[k].parent == Some(f))
    && Distinct(s[f].items)
  }

  predicate Distinct(items: seq<Id>) {
    forall i, j :: 0 <= i < j < |items| ==> items[i] != items[j]
  }

  ghost predicate Tree(s: Store) {
    && IsFolder(s, ROOT) && s[ROOT].parent.None?
    && (forall k {:trigger Linked(s, k)} :: k in s && k != ROOT ==> Linked(s, k))
    && (forall f: Id {:trigger Holds(s, f)} :: IsFolder(s, f) ==> Holds(s, f))
  }

  // ----- Positions

  /** An index that the model has given out and that is still good. */
  predicate Proper(s: Store, index: Index) {
    index.Cell? ==>
      && index.id != ROOT && Linked(s, index.id)
      && 0 <= index.row < |s[s[index.id].parent.value].items|
      && s[s[index.id].parent.value].items[index.row] == index.id
  }

  /** The folder that an index names, if it does not name a note. */
  function FolderAt(s: Store, index: Index): (f: Option<Id>)
    requires Proper(s, index)
    ensures f.Some? && IsFolder(s, ROOT) ==> IsFolder(s, f.value)
  {
    if index.Invalid? then Some(ROOT)
    else if s[index.id].Folder? then Some(index.id)
    else None
  }

  function IndexOf(s: Store, row: int, column: int, parent: Index): Index
    requires IsFolder(s, ROOT) && Proper(s, parent)
  {
    var p := FolderAt(s, parent);
    if row < 0 || column != 0 || p.None? || row >= |s[p.value].items| then Invalid
    else Cell(row, s[p.value].items[row])
  }

  /** The first place of an item among others, or their number. */
  function Position(items: seq<Id>, k: Id): (i: nat)
    ensures i <= |items| && (i < |items| ==> items[i] == k)
    ensures k in items ==> i < |items|
  {
    if items == [] || items[0] == k then 0 else 1 + Position(items[1..], k)
  }

  /** Search the parent among the items of its own parent. */
  ghost function ParentOf(s: Store, index: Index): Index
    requires Tree(s) && Proper(s, index)
  {
    if index.Invalid? then Invalid
    else
      var parent := s[index.id].parent.value;
      if parent == ROOT then Invalid
      else
        assert Linked(s, parent);
        var items := s[s[parent].parent.value].items;
        var i := Position(items, parent);
        if i < |items| then Cell(i, parent) else Invalid
  }

  /** A row has an index if and only if it is asked for in column zero of the root or of a folder that
      has that row; and then the index is of the item there. */
  lemma IndexValidIff(s: Store, row: int, column: int, parent: Index)
    requires IsFolder(s, ROOT) && Proper(s, parent)
    ensures var f, index := if parent.Cell? then parent.id else ROOT, IndexOf(s, row, column, parent);
            && (index.Cell? <==> column == 0 && IsFolder(s, f) && 0 <= row < |s[f].items|)
            && (index.Cell? ==> index == Cell(row, s[f].items[row]))
  {
  }

  /** The search for a parent always finds it. */
  lemma SearchFinds(s: Store, index: Index)
    requires Tree(s) && Proper(s, index) && index.Cell? && s[index.id].parent.value != ROOT
    ensures var parent := s[index.id].parent.value;
            && Linked(s, parent)
            && Position(s[s[parent].parent.value].items, parent) < |s[s[parent].parent.value].items|
            && ParentOf(s, index).Cell? && ParentOf(s, index).id == parent
  {
    assert Linked(s, s[index.id].parent.value);
  }

  lemma OnlyPlace(s: Store, f: Id, i: nat)
    requires IsFolder(s, f) && Holds(s, f) && i < |s[f].items|
    ensures Position(s[f].items, s[f].items[i]) == i
  {
    assert s[f].items[i] in s[f].items;
  }

  /** The parent of the index of a row is the index that the row was asked of. */
  lemma ParentOfIndex(s: Store, row: int, column: int, parent: Index)
    requires Tree(s) && Proper(s, parent)
    requires IndexOf(s, row, column, parent).Cell?
    ensures Proper(s, IndexOf(s, row, column, parent))
    ensures ParentOf(s, IndexOf(s, row, column, parent)) == parent
  {
    var f := FolderAt(s, parent).value;
    var k := s[f].items[row];
    assert Holds(s, f) && k in s[f].items;
    assert Linked(s, k);
    if parent.Cell? {
      var g := s[f].parent.value;
      assert Holds(s, g);
      OnlyPlace(s, g, parent.row);
    }
  }

  /** And asking an index's parent for its row gives the index back: there is one index per item. */
  lemma IndexOfParent(s: Store, index: Index)
    requires Tree(s) && Proper(s, index) && index.Cell?
    ensures Proper(s, ParentOf(s, index))
    ensures IndexOf(s, index.row, 0, ParentOf(s, index)) == index
  {
    if s[index.id].parent.value != ROOT {
      SearchFinds(s, index);
    }
  }

  // ----- Rows of a vector

  function Spliced(items: seq<Id>, row: nat, more: seq<Id>): seq<Id>
    requires row <= |items|
  {
    items[..row] + more + items[row..]
  }

  function Cut(items: seq<Id>, row: nat, n: nat): seq<Id>
    requires row + n <= |items|
  {
    items[..row] + items[row + n..]
  }

  function Range(from: nat, n: nat): (r: seq<nat>)
    ensures |r| == n
    ensures forall i :: 0 <= i < n ==> r[i] == from + i
  {
    seq(n, i => from + i)
  }

  lemma InRange(from: nat, n: nat, k: nat)
    ensures k in Range(from, n) <==> from <= k < from + n
  {
    if from <= k < from + n {
      assert Range(from, n)[k - from] == k;
    }
  }

  lemma SplicedItems(items: seq<Id>, row: nat, more: seq<Id>)
    requires row <= |items| && Distinct(items) && Distinct(more)
    requires forall k :: k in items ==> k !in more
    ensures Distinct(Spliced(items, row, more))
    ensures forall k :: k in Spliced(items, row, more) <==> k in items || k in more
  {
    var r := Spliced(items, row, more);
    forall k
      ensures k in r <==> k in items || k in more
    {
      assert items == items[..row] + items[row..];
    }
    forall i, j | 0 <= i < j < |r|
      ensures r[i] != r[j]
    {
      OneOf(items, row, more, i);
      OneOf(items, row, more, j);
    }
  }

  /** Where an item of the longer vector comes from. */
  lemma OneOf(items: seq<Id>, row: nat, more: seq<Id>, i: nat)
    requires row <= |items| && i < |items| + |more|
    ensures var k := Spliced(items, row, more)[i];
            if row <= i < row + |more| then k in more && k == more[i - row]
            else k in items && k == items[if i < row then i else i - |more|]
  {
  }

  lemma CutItems(items: seq<Id>, row: nat, n: nat)
    requires row + n <= |items| && Distinct(items)
    ensures Distinct(Cut(items, row, n))
    ensures forall k :: k in Cut(items, row, n) <==> k in items && k !in items[row..row + n]
  {
    assert items == items[..row] + items[row..row + n] + items[row + n..];
  }

  lemma CutSpliced(items: seq<Id>, row: nat, more: seq<Id>)
    requires row <= |items|
    ensures row + |more| <= |Spliced(items, row, more)|
    ensures Spliced(items, row, more)[row..row + |more|] == more
    ensures Cut(Spliced(items, row, more), row, |more|) == items
  {
  }

  // ----- Inserting

  /** New items `next`, `next + 1`, ... with the folder `f` for parent, in its rows from `row`. */
  function Inserted(s: Store, f: Id, row: nat, next: Id, n: nat, what: Node): Store
    requires IsFolder(s, f) && row <= |s[f].items|
  {
    s[f := s[f].(items := Spliced(s[f].items, row, Range(next, n)))] + map k | k in Range(next, n) :: what
  }

  /** The items new in the folder's rows are `what`, and nothing else changes but the places of those
      after them. */
  lemma InsertedIs(s: Store, f: Id, row: nat, next: Id, n: nat, what: Node)
    requires Fresh(s, next) && IsFolder(s, f) && row <= |s[f].items|
    ensures var s', items, items' := Inserted(s, f, row, next, n, what), s[f].items,
                                     Inserted(s, f, row, next, n, what)[f].items;
            && (forall k :: k in s' <==> k in s || next <= k < next + n)
            && (forall k :: next <= k < next + n ==> s'[k] == what)
            && (forall k :: k in s && k != f ==> s'[k] == s[k])
            && s'[f] == s[f].(items := items') && |items'| == |items| + n
            && (forall i :: 0 <= i < row ==> items'[i] == items[i])
            && (forall i :: row <= i < row + n ==> items'[i] == next + (i - row))
            && (forall i :: row + n <= i < |items'| ==> items'[i] == items[i - n])
  {
    InsertedAt(s, f, row, next, n, what);
    forall k: Id
      ensures k in Range(next, n) <==> next <= k < next + n
    {
      InRange(next, n, k);
    }
  }

  /** A new note, or a new and empty folder. */
  predicate New(what: Node, f: Id) {
    what.parent == Some(f) && (what.Folder? ==> what.items == [])
  }

  ghost predicate Fresh(s: Store, next: Id) {
    forall k :: k in s ==> k < next
  }

  lemma InsertKeeps(s: Store, f: Id, row: nat, next: Id, n: nat, what: Node)
    requires Tree(s) && Fresh(s, next) && IsFolder(s, f) && row <= |s[f].items| && New(what, f)
    ensures Tree(Inserted(s, f, row, next, n, what)) && Fresh(Inserted(s, f, row, next, n, what), next + n)
  {
    var s' := Inserted(s, f, row, next, n, what);
    InsertedAt(s, f, row, next, n, what);
    hide Linked, Holds, Inserted, Spliced, Range;
    assert Holds(s, f);
    forall k | k in s' && k != ROOT
      ensures Linked(s', k)
    {
      InsertLinks(s, f, row, next, n, what, k);
    }
    forall g: Id | IsFolder(s', g)
      ensures Holds(s', g)
    {
      InsertHolds(s, f, row, next, n, what, g);
    }
    forall k | k in s'
      ensures k < next + n
    {
      InRange(next, n, k);
    }
  }

  lemma InsertLinks(s: Store, f: Id, row: nat, next: Id, n: nat, what: Node, k: Id)
    requires Fresh(s, next) && IsFolder(s, f) && row <= |s[f].items| && New(what, f) && Holds(s, f)
    requires k in Inserted(s, f, row, next, n, what) && (k in s ==> Linked(s, k))
    ensures Linked(Inserted(s, f, row, next, n, what), k)
  {
    NewItems(s, f, row, next, n);
    hide Spliced, Range, Holds;
    InRange(next, n, k);
    InRange(next, n, f);
    if k in s {
      InRange(next, n, s[k].parent.value);
    }
  }

  lemma InsertHolds(s: Store, f: Id, row: nat, next: Id, n: nat, what: Node, g: Id)
    requires Fresh(s, next) && IsFolder(s, f) && row <= |s[f].items| && New(what, f) && Holds(s, f)
    requires IsFolder(Inserted(s, f, row, next, n, what), g) && (IsFolder(s, g) ==> Holds(s, g)) && ROOT in s
    ensures Holds(Inserted(s, f, row, next, n, what), g)
  {
    var s' := Inserted(s, f, row, next, n, what);
    NewItems(s, f, row, next, n);
    InRange(next, n, g);
    InRange(next, n, f);
    InRange(next, n, ROOT);
    assert Distinct([]);
    hide Spliced, Range, Distinct;
    if g in s {
      forall k | k in s'[g].items
        ensures k in s' && k != ROOT && s'[k].parent == Some(g)
      {
        InRange(next, n, k);
      }
    } else {
      assert s'[g].items == [];
    }
  }

  lemma NewItems(s: Store, f: Id, row: nat, next: Id, n: nat)
    requires Fresh(s, next) && IsFolder(s, f) && row <= |s[f].items| && Holds(s, f)
    ensures var items := Spliced(s[f].items, row, Range(next, n));
            Distinct(items) && forall k :: k in items <==> k in s[f].items || k in Range(next, n)
  {
    forall k | k in s[f].items
      ensures k !in Range(next, n)
    {
      InRange(next, n, k);
    }
    assert Distinct(Range(next, n));
    hide Range;
    SplicedItems(s[f].items, row, Range(next, n));
  }

  // ----- Removing

  /** An item that is gone, or is below one that is. */
  predicate Under(s: Store, k: Id, gone: seq<Id>)
    decreases k
  {
    k in gone || (k in s && s[k].parent.Some? && s[k].parent.value < k && Under(s, s[k].parent.value, gone))
  }

  /** Rows of a folder removed, and with them everything below. */
  function Removed(s: Store, f: Id, row: nat, n: nat): Store
    requires IsFolder(s, f) && row + n <= |s[f].items|
  {
    var gone := s[f].items[row..row + n];
    map k | k in s && !Under(s, k, gone) :: if k == f then s[f].(items := Cut(s[f].items, row, n)) else s[k]
  }

  /** What goes with the rows removed is what was in them, and what was in what goes; of what stays only
      the folder itself changes, and it loses just the rows. */
  lemma RemovedIff(s: Store, f: Id, row: nat, n: nat, k: Id)
    requires Tree(s) && IsFolder(s, f) && row + n <= |s[f].items| && k in s
    ensures var s', gone := Removed(s, f, row, n), s[f].items[row..row + n];
            && (k !in s' <==> k in gone || (k != ROOT && s[k].parent.Some? && s[k].parent.value !in s'))
            && (k in s' && k != f ==> s'[k] == s[k])
            && f in s' && s'[f] == s[f].(items := s[f].items[..row] + s[f].items[row + n..])
            && s'.Keys <= s.Keys
  {
    FolderStays(s, f, row, n);
    assert k != ROOT ==> Linked(s, k);
  }

  /** What is not younger than a folder is not under its items. */
  lemma {:induction false} NotUnder(s: Store, f: Id, k: Id, gone: seq<Id>)
    requires forall j :: j in gone ==> j > f
    requires k <= f
    ensures !Under(s, k, gone)
    decreases k
  {
    if k in s && s[k].parent.Some? && s[k].parent.value < k {
      NotUnder(s, f, s[k].parent.value, gone);
    }
  }

  lemma RemoveKeeps(s: Store, f: Id, row: nat, n: nat, next: Id)
    requires Tree(s) && Fresh(s, next) && IsFolder(s, f) && row + n <= |s[f].items|
    ensures Tree(Removed(s, f, row, n)) && Fresh(Removed(s, f, row, n), next)
  {
    var gone := s[f].items[row..row + n];
    var s' := Removed(s, f, row, n);
    hide Linked, Holds;
    assert Holds(s, f);
    ItemsYounger(s, f, row, n, gone);
    NotUnder(s, f, f, gone);
    NotUnder(s, f, ROOT, gone);
    hide Under, Removed;
    forall k | k in s' && k != ROOT
      ensures Linked(s', k)
    {
      StaysIn(s, f, row, n, k);
      RemoveLinks(s, f, row, n, k);
    }
    forall g: Id | IsFolder(s', g)
      ensures Holds(s', g)
    {
      StaysIn(s, f, row, n, g);
      RemoveHolds(s, f, row, n, g);
    }
    RootStays(s, f, row, n);
    forall k | k in s'
      ensures k < next
    {
      StaysIn(s, f, row, n, k);
    }
  }

  /** The folder that loses rows does not go with them. */
  lemma FolderStays(s: Store, f: Id, row: nat, n: nat)
    requires Tree(s) && IsFolder(s, f) && row + n <= |s[f].items|
    ensures !Under(s, f, s[f].items[row..row + n])
  {
    var gone := s[f].items[row..row + n];
    hide Linked, Holds, Under;
    assert Holds(s, f);
    ItemsYounger(s, f, row, n, gone);
    NotUnder(s, f, f, gone);
  }

  lemma ItemsYounger(s: Store, f: Id, row: nat, n: nat, gone: seq<Id>)
    requires IsFolder(s, f) && Holds(s, f) && row + n <= |s[f].items|
    requires forall j {:trigger Linked(s, j)} :: j in s && j != ROOT ==> Linked(s, j)
    requires gone == s[f].items[row..row + n]
    ensures forall k :: k in gone ==> k > f
  {
    forall i | 0 <= i < n
      ensures gone[i] > f
    {
      ItemYounger(s, f, s[f].items[row + i]);
    }
  }

  lemma ItemYounger(s: Store, f: Id, k: Id)
    requires IsFolder(s, f) && Holds(s, f) && k in s[f].items
    requires forall j {:trigger Linked(s, j)} :: j in s && j != ROOT ==> Linked(s, j)
    ensures k > f
  {
    assert k in s && Linked(s, k);
  }

  lemma StaysIn(s: Store, f: Id, row: nat, n: nat, k: Id)
    requires IsFolder(s, f) && row + n <= |s[f].items| && k in Removed(s, f, row, n)
    ensures k in s && !Under(s, k, s[f].items[row..row + n])
    ensures Removed(s, f, row, n)[k] == if k == f then s[f].(items := Cut(s[f].items, row, n)) else s[k]
  {
    hide Under, Cut;
  }

  lemma RootStays(s: Store, f: Id, row: nat, n: nat)
    requires IsFolder(s, f) && row + n <= |s[f].items|
    requires IsFolder(s, ROOT) && s[ROOT].parent.None? && !Under(s, ROOT, s[f].items[row..row + n])
    ensures IsFolder(Removed(s, f, row, n), ROOT) && Removed(s, f, row, n)[ROOT].parent.None?
  {
    hide Under, Cut;
  }

  lemma RemoveLinks(s: Store, f: Id, row: nat, n: nat, k: Id)
    requires IsFolder(s, f) && row + n <= |s[f].items| && Holds(s, f)
    requires k in Removed(s, f, row, n) && Linked(s, k)
    ensures Linked(Removed(s, f, row, n), k)
  {
    var gone := s[f].items[row..row + n];
    assert !Under(s, k, gone);
    assert k !in gone && !Under(s, s[k].parent.value, gone);
    CutItems(s[f].items, row, n);
    hide Cut, Under;
  }

  lemma RemoveHolds(s: Store, f: Id, row: nat, n: nat, g: Id)
    requires IsFolder(s, f) && row + n <= |s[f].items| && Holds(s, f)
    requires IsFolder(Removed(s, f, row, n), g) && IsFolder(s, g) && Holds(s, g)
    requires forall j {:trigger Linked(s, j)} :: j in s && j != ROOT ==> Linked(s, j)
    ensures Holds(Removed(s, f, row, n), g)
  {
    var gone := s[f].items[row..row + n];
    var s' := Removed(s, f, row, n);
    CutItems(s[f].items, row, n);
    assert !Under(s, g, gone);
    hide Cut, Distinct, Linked;
    forall k | k in s'[g].items
      ensures k in s' && k != ROOT && s'[k].parent == Some(g)
    {
      assert k in s[g].items;
      hide Under;
      OnlyUnderParent(s, g, k, gone);
    }
  }

  lemma OnlyUnderParent(s: Store, g: Id, k: Id, gone: seq<Id>)
    requires k in s && s[k].parent == Some(g) && k !in gone && !Under(s, g, gone)
    ensures !Under(s, k, gone)
  {
  }

  /** Removing the rows just inserted gives back the tree as it was. */
  lemma RemoveUndoesInsert(s: Store, f: Id, row: nat, next: Id, n: nat, what: Node)
    requires Tree(s) && Fresh(s, next) && IsFolder(s, f) && row <= |s[f].items| && New(what, f)
    ensures row + n <= |Inserted(s, f, row, next, n, what)[f].items|
    ensures Removed(Inserted(s, f, row, next, n, what), f, row, n) == s
  {
    var s' := Inserted(s, f, row, next, n, what);
    var gone := Range(next, n);
    CutSpliced(s[f].items, row, gone);
    forall k: Id | k in s
      ensures k !in gone
    {
      InRange(next, n, k);
    }
    hide Cut, Spliced, Range, Linked, Holds;
    assert s'[f].items[row..row + n] == gone;
    forall k | k in s
      ensures !Under(s', k, gone)
    {
      OldNotUnder(s, s', k, gone);
    }
    forall k | k in gone
      ensures Under(s', k, gone)
    {
    }
    hide Under, Inserted;
    InsertedAt(s, f, row, next, n, what);
    RemovedIs(s', f, row, n, s);
  }

  lemma InsertedAt(s: Store, f: Id, row: nat, next: Id, n: nat, what: Node)
    requires Fresh(s, next) && IsFolder(s, f) && row <= |s[f].items|
    ensures var s' := Inserted(s, f, row, next, n, what);
            && (forall k :: k in s' <==> k in s || k in Range(next, n))
            && (forall k :: k in s && k != f ==> s'[k] == s[k])
            && s'[f] == s[f].(items := Spliced(s[f].items, row, Range(next, n)))
  {
    forall k: Id | k in s
      ensures k !in Range(next, n)
    {
      InRange(next, n, k);
    }
    hide Spliced, Range;
  }

  lemma RemovedIs(s: Store, f: Id, row: nat, n: nat, r: Store)
    requires IsFolder(s, f) && row + n <= |s[f].items|
    requires forall k :: k in r ==> k in s && r[k] == if k == f then s[f].(items := Cut(s[f].items, row, n)) else s[k]
    requires forall k :: k in s ==> (k in r <==> !Under(s, k, s[f].items[row..row + n]))
    ensures Removed(s, f, row, n) == r
  {
    hide Under, Cut;
  }

  lemma {:induction false} OldNotUnder(s: Store, s': Store, k: Id, gone: seq<Id>)
    requires Tree(s) && k in s
    requires forall j :: j in s ==> j in s' && j !in gone && s'[j].parent == s[j].parent
    ensures !Under(s', k, gone)
    decreases k
  {
    if k != ROOT {
      assert Linked(s, k);
      OldNotUnder(s, s', s[k].parent.value, gone);
    }
  }
}
