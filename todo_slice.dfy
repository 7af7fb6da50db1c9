/** A model of the todo store: an ordered list of todo records kept by a
    reducer with four operations (add, edit, toggle, delete), mirrored after
    every operation into one persistent key/value slot named "todos". */
module TodoSlice {

  datatype Option<T> = None | Some(value: T)

  /** One todo record. The id comes from the clock when it is created and the
      creation stamp is a display string fixed at creation. */
  datatype Todo = Todo(id: int, text: string, checked: bool, createdAt: string)

  /** A request to add one record: the clock reading used as id, the text and
      the formatted creation stamp. */
  datatype AddRequest = AddRequest(id: int, text: string, stamp: string)

  // ---------------------------------------------------------------------
  // Queries on a list of records
  // ---------------------------------------------------------------------

  predicate HasId(items: seq<Todo>, id: int) {
    exists j :: 0 <= j < |items| && items[j].id == id
  }

  /** No two records of the list share an id. */
  predicate UniqueIds(items: seq<Todo>) {
    forall i, j :: 0 <= i < j < |items| ==> items[i].id != items[j].id
  }

  /** Position k holds the first record whose id is `id`. */
  predicate IsFirstMatch(items: seq<Todo>, id: int, k: int) {
    0 <= k < |items| && items[k].id == id &&
    forall j :: 0 <= j < k ==> items[j].id != id
  }

  /** Two lists have the same ids at the same positions. */
  predicate SameIds(a: seq<Todo>, b: seq<Todo>) {
    |a| == |b| && forall k :: 0 <= k < |a| ==> a[k].id == b[k].id
  }

  /** Number of records whose id is `id`. */
  function Count(items: seq<Todo>, id: int): nat {
    if items == [] then 0
    else (if items[0].id == id then 1 else 0) + Count(items[1..], id)
  }

  /** The position `Array.prototype.find` stops at: the first record with the
      given id, or None when there is none. */
  function FindIndex(items: seq<Todo>, id: int): (r: Option<nat>)
    ensures r.None? <==> !HasId(items, id)
    ensures r.Some? ==> IsFirstMatch(items, id, r.value)
    decreases |items|
  {
    if items == [] then None
    else if items[0].id == id then Some(0)
    else match FindIndex(items[1..], id)
      case None => None
      case Some(k) => Some(k + 1)
  }

  /** The first match is unique. */
  lemma FirstMatchUnique(items: seq<Todo>, id: int, k: int, m: int)
    requires IsFirstMatch(items, id, k) && IsFirstMatch(items, id, m)
    ensures k == m
  {
  }

  /** The first match depends only on the ids of the list. */
  lemma FindIndexSameIds(a: seq<Todo>, b: seq<Todo>, id: int)
    requires SameIds(a, b)
    ensures FindIndex(a, id) == FindIndex(b, id)
  {
    var ra, rb := FindIndex(a, id), FindIndex(b, id);
    if ra.Some? {
      assert IsFirstMatch(b, id, ra.value);
      FirstMatchUnique(b, id, ra.value, rb.value);
    }
  }

  // ---------------------------------------------------------------------
  // The reducers, as functions of the old list
  // ---------------------------------------------------------------------

  /** addTodo: a new unchecked record at the end of the list. */
  function Appended(items: seq<Todo>, id: int, text: string, stamp: string): (r: seq<Todo>)
    ensures |r| == |items| + 1
    ensures r[..|items|] == items
    ensures r[|items|].id == id && r[|items|].text == text
    ensures !r[|items|].checked && r[|items|].createdAt == stamp
  {
    items + [Todo(id, text, false, stamp)]
  }

  /** editTodo: the first record with the id gets the new text; a missing id
      leaves the list as it is. */
  function Edited(items: seq<Todo>, id: int, text: string): (r: seq<Todo>)
    ensures SameIds(r, items)
    ensures forall k :: 0 <= k < |items| ==>
      if IsFirstMatch(items, id, k) then
        r[k].text == text && r[k].id == items[k].id &&
        r[k].checked == items[k].checked && r[k].createdAt == items[k].createdAt
      else r[k] == items[k]
    ensures !HasId(items, id) ==> r == items
  {
    match FindIndex(items, id)
    case None => items
    case Some(k) => items[k := items[k].(text := text)]
  }

  /** toggleTodo: the first record with the id has its flag flipped; a missing
      id leaves the list as it is. */
  function Toggled(items: seq<Todo>, id: int): (r: seq<Todo>)
    ensures SameIds(r, items)
    ensures forall k :: 0 <= k < |items| ==>
      if IsFirstMatch(items, id, k) then
        r[k].checked == !items[k].checked && r[k].id == items[k].id &&
        r[k].text == items[k].text && r[k].createdAt == items[k].createdAt
      else r[k] == items[k]
    ensures !HasId(items, id) ==> r == items
  {
    match FindIndex(items, id)
    case None => items
    case Some(k) => items[k := items[k].(checked := !items[k].checked)]
  }

  /** deleteTodo: `filter` keeps exactly the records whose id differs. */
  function Removed(items: seq<Todo>, id: int): (r: seq<Todo>)
    ensures |r| == |items| - Count(items, id)
    ensures forall k :: 0 <= k < |r| ==> r[k].id != id
    ensures !HasId(items, id) ==> r == items
    decreases |items|
  {
    if items == [] then []
    else if items[0].id == id then Removed(items[1..], id)
    else [items[0]] + Removed(items[1..], id)
  }

  /** filter keeps a record exactly when it was in the list and its id differs. */
  lemma {:induction false} RemovedMembers(items: seq<Todo>, id: int, t: Todo)
    ensures t in Removed(items, id) <==> t in items && t.id != id
    decreases |items|
  {
    if items != [] {
      RemovedMembers(items[1..], id, t);
      assert items == [items[0]] + items[1..];
      assert t in items <==> t == items[0] || t in items[1..];
    }
  }

  /** The persistent slot read at start-up: an absent slot gives the empty
      list, a present one the list written there. */
  function Load(slot: Option<seq<Todo>>): (r: seq<Todo>)
    ensures slot.None? ==> r == []
    ensures slot.Some? ==> r == slot.value
  {
    match slot
    case None => []
    case Some(s) => s
  }

  /** A series of adds, one after another. */
  function AppendedAll(items: seq<Todo>, adds: seq<AddRequest>): (r: seq<Todo>)
    ensures |r| == |items| + |adds|
    decreases |adds|
  {
    if adds == [] then items
    else AppendedAll(Appended(items, adds[0].id, adds[0].text, adds[0].stamp), adds[1..])
  }

  // ---------------------------------------------------------------------
  // Properties of the reducers
  // ---------------------------------------------------------------------

  /** Toggling the same id twice gives back the original list. */
  lemma ToggledTwice(items: seq<Todo>, id: int)
    ensures Toggled(Toggled(items, id), id) == items
  {
    var once := Toggled(items, id);
    var twice := Toggled(once, id);
    assert |twice| == |items|;
    forall k | 0 <= k < |items|
      ensures twice[k] == items[k]
    {
      assert IsFirstMatch(once, id, k) <==> IsFirstMatch(items, id, k);
    }
  }

  /** Editing twice with the same text is the same as editing once. */
  lemma EditedTwice(items: seq<Todo>, id: int, text: string)
    ensures Edited(Edited(items, id, text), id, text) == Edited(items, id, text)
  {
    var once := Edited(items, id, text);
    FindIndexSameIds(once, items, id);
  }

  /** filter keeps the relative order: it distributes over concatenation. */
  lemma {:induction false} RemovedAppend(a: seq<Todo>, b: seq<Todo>, id: int)
    ensures Removed(a + b, id) == Removed(a, id) + Removed(b, id)
    decreases |a|
  {
    if a == [] {
      assert a + b == b;
    } else {
      var ab := a + b;
      assert ab[0] == a[0];
      assert ab[1..] == a[1..] + b;
      RemovedAppend(a[1..], b, id);
      if a[0].id == id {
        assert Removed(ab, id) == Removed(a[1..] + b, id);
        assert Removed(a, id) == Removed(a[1..], id);
      } else {
        assert Removed(ab, id) == [a[0]] + Removed(a[1..] + b, id);
        assert Removed(a, id) == [a[0]] + Removed(a[1..], id);
      }
    }
  }

  /** Deleting the id of the record just added, when that id was fresh, gives
      back the list as it was before the add. */
  lemma AddThenDelete(items: seq<Todo>, id: int, text: string, stamp: string)
    requires !HasId(items, id)
    ensures Removed(Appended(items, id, text, stamp), id) == items
  {
    var t := Todo(id, text, false, stamp);
    RemovedAppend(items, [t], id);
    assert Removed([t], id) == [];
  }

  /** With unique ids, at most one record matches any id, so deleteTodo
      removes at most one record. */
  lemma {:induction false} UniqueCountAtMostOne(items: seq<Todo>, id: int)
    requires UniqueIds(items)
    ensures Count(items, id) == if HasId(items, id) then 1 else 0
    decreases |items|
  {
    if items != [] {
      var rest := items[1..];
      assert UniqueIds(rest);
      UniqueCountAtMostOne(rest, id);
      if items[0].id == id {
        forall j | 0 <= j < |rest|
          ensures rest[j].id != id
        {
          assert rest[j] == items[j + 1];
        }
      } else {
        assert HasId(items, id) ==> HasId(rest, id) by {
          if HasId(items, id) {
            var j :| 0 <= j < |items| && items[j].id == id;
            assert rest[j - 1].id == id;
          }
        }
        assert HasId(rest, id) ==> HasId(items, id) by {
          if HasId(rest, id) {
            var j :| 0 <= j < |rest| && rest[j].id == id;
            assert items[j + 1].id == id;
          }
        }
      }
    }
  }

  /** Adding a record whose id is fresh keeps ids unique. */
  lemma AppendedKeepsUnique(items: seq<Todo>, id: int, text: string, stamp: string)
    requires UniqueIds(items) && !HasId(items, id)
    ensures UniqueIds(Appended(items, id, text, stamp))
  {
    var r := Appended(items, id, text, stamp);
    forall i, j | 0 <= i < j < |r|
      ensures r[i].id != r[j].id
    {
      if j == |items| {
        assert r[i] == items[i];
      } else {
        assert r[i] == items[i] && r[j] == items[j];
      }
    }
  }

  /** Edit and toggle keep every id where it was, so they keep ids unique. */
  lemma SameIdsKeepUnique(a: seq<Todo>, b: seq<Todo>)
    requires SameIds(a, b) && UniqueIds(a)
    ensures UniqueIds(b)
  {
    forall i, j | 0 <= i < j < |b|
      ensures b[i].id != b[j].id
    {
      assert a[i].id != a[j].id;
    }
  }

  /** deleteTodo keeps ids unique. */
  lemma {:induction false} RemovedKeepsUnique(items: seq<Todo>, id: int)
    requires UniqueIds(items)
    ensures UniqueIds(Removed(items, id))
    decreases |items|
  {
    if items != [] {
      var rest := items[1..];
      assert UniqueIds(rest);
      RemovedKeepsUnique(rest, id);
      if items[0].id != id {
        var tail := Removed(rest, id);
        var r := Removed(items, id);
        assert r == [items[0]] + tail;
        forall i, j | 0 <= i < j < |r|
          ensures r[i].id != r[j].id
        {
          if i == 0 {
            assert r[j] == tail[j - 1];
            RemovedMembers(rest, id, tail[j - 1]);
            assert tail[j - 1] in rest;
            var m :| 0 <= m < |rest| && rest[m] == tail[j - 1];
            assert items[m + 1] == rest[m];
          } else {
            assert r[i] == tail[i - 1] && r[j] == tail[j - 1];
          }
        }
      }
    }
  }

  /** A series of adds with fresh, pairwise distinct ids grows the list by
      one record per add and keeps ids unique. */
  lemma {:induction false} AppendedAllKeepsUnique(items: seq<Todo>, adds: seq<AddRequest>)
    requires UniqueIds(items)
    requires forall k :: 0 <= k < |adds| ==> !HasId(items, adds[k].id)
    requires forall i, j :: 0 <= i < j < |adds| ==> adds[i].id != adds[j].id
    ensures UniqueIds(AppendedAll(items, adds))
    decreases |adds|
  {
    if adds != [] {
      var a := adds[0];
      var next := Appended(items, a.id, a.text, a.stamp);
      AppendedKeepsUnique(items, a.id, a.text, a.stamp);
      forall k | 0 <= k < |adds[1..]|
        ensures !HasId(next, adds[1..][k].id)
      {
        var b := adds[k + 1];
        assert b.id != a.id;
        forall j | 0 <= j < |next|
          ensures next[j].id != b.id
        {
          if j < |items| {
            assert next[j] == items[j];
          }
        }
      }
      AppendedAllKeepsUnique(next, adds[1..]);
    }
  }

  // ---------------------------------------------------------------------
  // The store
  // ---------------------------------------------------------------------

  /** `state.find` as a scan from the front of the list. */
  method FindFirst(items: seq<Todo>, id: int) returns (r: Option<nat>)
    ensures r == FindIndex(items, id)
  {
    var i := 0;
    while i < |items|
      invariant 0 <= i <= |items|
      invariant forall j :: 0 <= j < i ==> items[j].id != id
    {
      if items[i].id == id {
        r := Some(i);
        var f := FindIndex(items, id);
        FirstMatchUnique(items, id, i, f.value);
        return;
      }
      i := i + 1;
    }
    r := None;
  }

  /** The todo store: the current list and the "todos" storage slot. */
  class Store {
    var items: seq<Todo>
    var stored: Option<seq<Todo>>

    /** The slot holds exactly the current list. */
    ghost predicate Saved()
      reads this
    {
      stored == Some(items)
    }

    /** Loading the slot now would give back the current list. */
    ghost predicate Persisted()
      reads this
    {
      Load(stored) == items
    }

    /** Start-up: the initial state is whatever the slot holds, or the empty
        list when the slot is absent. Loading does not write the slot. */
    constructor (slot: Option<seq<Todo>>)
      ensures items == Load(slot) && stored == slot
      ensures slot.None? ==> items == []
      ensures Persisted()
    {
      items := Load(slot);
      stored := slot;
    }

    /** saveTodo: overwrite the slot with the whole list. */
    method Save()
      modifies this`stored
      ensures Saved() && Persisted()
    {
      stored := Some(items);
    }

    /** addTodo, with the clock reading and the formatted stamp passed in. */
    method AddTodo(text: string, now: int, stamp: string)
      modifies this
      ensures items == Appended(old(items), now, text, stamp) && Saved() && Persisted()
      ensures UniqueIds(old(items)) && !HasId(old(items), now) ==> UniqueIds(items)
    {
      items := items + [Todo(now, text, false, stamp)];
      Save();
      if UniqueIds(old(items)) && !HasId(old(items), now) {
        AppendedKeepsUnique(old(items), now, text, stamp);
      }
    }

    /** editTodo: replace the text of the first record with the id. */
    method EditTodo(id: int, text: string)
      modifies this
      ensures items == Edited(old(items), id, text) && Saved() && Persisted()
      ensures UniqueIds(old(items)) ==> UniqueIds(items)
    {
      var found := FindFirst(items, id);
      if found.Some? {
        var k := found.value;
        items := items[k := items[k].(text := text)];
      }
      Save();
      if UniqueIds(old(items)) {
        SameIdsKeepUnique(old(items), items);
      }
    }

    /** deleteTodo: keep only the records whose id differs. */
    method DeleteTodo(id: int)
      modifies this
      ensures items == Removed(old(items), id) && Saved() && Persisted()
      ensures UniqueIds(old(items)) ==> UniqueIds(items)
    {
      var newState := Removed(items, id);
      items := newState;
      Save();
      if UniqueIds(old(items)) {
        RemovedKeepsUnique(old(items), id);
      }
    }

    /** toggleTodo: flip the flag of the first record with the id. */
    method ToggleTodo(id: int)
      modifies this
      ensures items == Toggled(old(items), id) && Saved() && Persisted()
      ensures UniqueIds(old(items)) ==> UniqueIds(items)
    {
      var found := FindFirst(items, id);
      if found.Some? {
        var k := found.value;
        items := items[k := items[k].(checked := !items[k].checked)];
      }
      Save();
      if UniqueIds(old(items)) {
        SameIdsKeepUnique(old(items), items);
      }
    }
  }

  /** A reload at any moment: a store started from the slot of another store
      holds that store's list. */
  method Reload(s: Store) returns (t: Store)
    requires s.Persisted()
    ensures t.items == s.items
  {
    t := new Store(s.stored);
  }

  /** Start empty, add "buy milk", toggle it, delete it. */
  method BuyMilk(now: int, stamp: string)
    returns (added: seq<Todo>, toggled: seq<Todo>, deleted: seq<Todo>)
    ensures added == [Todo(now, "buy milk", false, stamp)]
    ensures toggled == [Todo(now, "buy milk", true, stamp)]
    ensures deleted == []
  {
    var s := new Store(None);
    s.AddTodo("buy milk", now, stamp);
    added := s.items;
    s.ToggleTodo(now);
    assert IsFirstMatch(added, now, 0);
    toggled := s.items;
    s.DeleteTodo(now);
    deleted := s.items;
  }
}
