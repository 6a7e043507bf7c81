/** The model that views talk to: it names positions, and changes the tree in place. */
module NotesModel {
  import opened Options
  import opened NotesTree

  class NotesModel {
    var attached: bool
    var store: Store
    var next: Id

    ghost predicate Valid()
      reads this
    {
      Tree(store) && Fresh(store, next)
    }

    constructor (notes: bool)
      ensures Valid() && attached == notes && store == EMPTY
    {
      attached, store, next := notes, EMPTY, ROOT + 1;
    }

    method Index(row: int, column: int, parent: NotesTree.Index) returns (r: NotesTree.Index)
      requires Valid() && Proper(store, parent)
      ensures r == if attached then IndexOf(store, row, column, parent) else Invalid
    {
      if !attached || row < 0 || column != 0 {
        return Invalid;
      }
      var p := FolderAt(store, parent);
      if p.None? || row >= |store[p.value].items| {
        return Invalid;
      }
      return Cell(row, store[p.value].items[row]);
    }

    /** The end of the search without a result is never reached. */
    method Parent(index: NotesTree.Index) returns (r: NotesTree.Index)
      requires Valid() && Proper(store, index)
      ensures r == if attached then ParentOf(store, index) else Invalid
    {
      if !attached || index.Invalid? {
        return Invalid;
      }
      var parent := store[index.id].parent.value;
      if parent == ROOT {
        return Invalid;
      }
      SearchFinds(store, index);
      var items := store[store[parent].parent.value].items;
      for i := 0 to |items|
        invariant Position(items, parent) == i + Position(items[i..], parent)
      {
        if items[i] == parent {
          return Cell(i, parent);
        }
        assert items[i..][1..] == items[i + 1..];
      }
      assert false;
    }

    /** Insert notes, before a row or at the end. */
    method InsertRows(row: int, count: int, parent: NotesTree.Index) returns (ok: bool)
      requires Valid() && Proper(store, parent)
      requires FolderAt(store, parent).Some? ==> 0 <= row <= |store[FolderAt(store, parent).value].items|
      modifies this`store, this`next
      ensures Valid()
      ensures ok == (attached && count > 0 && FolderAt(old(store), parent).Some?)
      ensures if ok
              then store == Inserted(old(store), FolderAt(old(store), parent).value, row, old(next), count,
                                     Note(FolderAt(old(store), parent), "Note"))
              else store == old(store)
    {
      hide Linked, Holds;
      if !attached || count <= 0 {
        return false;
      }
      var p := FolderAt(store, parent);
      if p.None? {
        return false;
      }
      ghost var was := store;
      var what := Note(p, "Note");
      InsertKeeps(store, p.value, row, next, count, what);
      hide Tree;
      var made := Make(count, what);
      hide Range, Spliced;
      InRange(next, count, p.value);
      var items := store[p.value].items;
      store := store[p.value := store[p.value].(items := Spliced(items, row, made))];
      next := next + count;
      assert store == Inserted(was, p.value, row, old(next), count, what);
      return true;
    }

    /** New items, and pointers to them. */
    method Make(count: nat, what: Node) returns (made: seq<Id>)
      modifies this`store
      ensures made == Range(next, count)
      ensures store == old(store) + map k | k in made :: what
    {
      made := [];
      while |made| < count
        invariant |made| <= count
        invariant made == Range(next, |made|)
        invariant store == old(store) + map k | k in made :: what
      {
        OneMore(old(store), made, next + |made|, what);
        store := store[next + |made| := what];
        made := made + [next + |made|];
      }
    }

    lemma OneMore(s: Store, made: seq<Id>, k: Id, what: Node)
      ensures (s + map j | j in made :: what)[k := what] == s + map j | j in made + [k] :: what
    {
    }

    method InsertFolder(row: int, parent: NotesTree.Index) returns (ok: bool)
      requires Valid() && Proper(store, parent)
      requires FolderAt(store, parent).Some? ==> 0 <= row <= |store[FolderAt(store, parent).value].items|
      modifies this`store, this`next
      ensures Valid()
      ensures ok == (attached && FolderAt(old(store), parent).Some?)
      ensures if ok
              then store == Inserted(old(store), FolderAt(old(store), parent).value, row, old(next), 1,
                                     Folder(FolderAt(old(store), parent), "Folder", []))
              else store == old(store)
    {
      hide Linked, Holds;
      if !attached {
        return false;
      }
      var p := FolderAt(store, parent);
      if p.None? {
        return false;
      }
      ghost var was := store;
      var what := Folder(p, "Folder", []);
      InsertKeeps(store, p.value, row, next, 1, what);
      hide Tree;
      assert Range(next, 1) == [next];
      hide Range, Spliced;
      var items := store[p.value].items;
      store := store[next := what][p.value := store[p.value].(items := Spliced(items, row, [next]))];
      next := next + 1;
      assert store == Inserted(was, p.value, row, old(next), 1, what);
      return true;
    }

    /** Remove rows; what is below them goes with them. */
    method RemoveRows(row: int, count: int, parent: NotesTree.Index) returns (ok: bool)
      requires Valid() && Proper(store, parent)
      modifies this`store
      ensures Valid()
      ensures ok == (attached && count > 0 && row >= 0 && FolderAt(old(store), parent).Some? &&
                     row + count <= |old(store)[FolderAt(old(store), parent).value].items|)
      ensures store == if ok then Removed(old(store), FolderAt(old(store), parent).value, row, count) else old(store)
    {
      hide Linked, Holds, Under, Cut;
      if !attached || count <= 0 || row < 0 {
        return false;
      }
      var p := FolderAt(store, parent);
      if p.None? || row + count > |store[p.value].items| {
        return false;
      }
      RemoveKeeps(store, p.value, row, count, next);
      FolderStays(store, p.value, row, count);
      hide Tree;
      var was, items := store, store[p.value].items;
      var gone := items[row..row + count];
      store := map k | k in was && !Under(was, k, gone) :: was[k];
      store := store[p.value := was[p.value].(items := Cut(items, row, count))];
      assert store == Removed(was, p.value, row, count);
      return true;
    }
  }
}
