/**
 * The list store: the in-memory collection of lists, the selected list, the
 * registered change listeners, and every operation on them, each modelled as one
 * atomic transition from a store value to the next.
 *
 * Two fields record what the running program does not hold itself but what its
 * effects are observed through:
 *   - `persisted` is the content of the `lists.json` document;
 *   - `notifications` counts change notifications, and `calls` logs, in order,
 *     every listener invocation those notifications made.
 */
module ListStore {
  import opened Wrappers
  import opened Seqs
  import opened Sorting
  import opened Lists

  /** An opaque handle standing for a registered callback; equal handles are the same callback. */
  datatype Listener = Listener(handle: nat)

  datatype Store = Store(
    lists: seq<TodoList>,
    selected: string,
    listeners: seq<Listener>,
    persisted: seq<TodoList>,
    notifications: nat,
    calls: seq<Listener>)

  /**
   * What reading `lists.json` during `init` produced: the document (held in
   * `persisted`) was read and parsed, or reading or parsing failed.
   */
  datatype ReadOutcome = Parsed | ReadFailed

  /**
   * The freshly constructed store, before `init`: no lists in memory, the default
   * list selected, no listener, nothing notified yet; `document` is what
   * `lists.json` holds.
   */
  function New(document: seq<TodoList>): (s: Store)
    ensures s.lists == [] && s.listeners == [] && s.selected == DefaultId
    ensures s.persisted == document && s.notifications == 0 && s.calls == []
  {
    Store([], DefaultId, [], document, 0, [])
  }

  // ----- notification and persistence -----

  /** `t` follows `s` by exactly one notification: each registered listener called once, in registration order. */
  predicate Notified(s: Store, t: Store) {
    && t.listeners == s.listeners
    && t.notifications == s.notifications + 1
    && t.calls == s.calls + s.listeners
  }

  /** `t` follows `s` by one save: the document now holds the in-memory lists, then one notification. */
  predicate Saved(s: Store, t: Store) {
    t.persisted == t.lists && Notified(s, t)
  }

  /** No listener was called between `s` and `t`. */
  predicate Quiet(s: Store, t: Store) {
    t.notifications == s.notifications && t.calls == s.calls
  }

  function Notify(s: Store): (t: Store)
    ensures Notified(s, t)
    ensures t.lists == s.lists && t.selected == s.selected && t.persisted == s.persisted
  {
    s.(notifications := s.notifications + 1, calls := s.calls + s.listeners)
  }

  /** `save`: write the whole collection, then notify. */
  function Save(s: Store): (t: Store)
    ensures Saved(s, t)
    ensures t.lists == s.lists && t.selected == s.selected
  {
    Notify(s.(persisted := s.lists))
  }

  // ----- lookups -----

  /** Some list in `lists` has id `id`. */
  predicate HasId(lists: seq<TodoList>, id: string) {
    exists i :: 0 <= i < |lists| && lists[i].id == id
  }

  /** `findIndex(list => list.id === id)`: the first position holding `id`, if any. */
  function IndexOf(lists: seq<TodoList>, id: string): (r: Option<nat>)
    ensures r.None? <==> !HasId(lists, id)
    ensures r.Some? ==> r.value < |lists| && lists[r.value].id == id
    ensures r.Some? ==> forall j :: 0 <= j < r.value ==> lists[j].id != id
  {
    if |lists| == 0 then None
    else if lists[0].id == id then Some(0)
    else
      match IndexOf(lists[1..], id)
      case None =>
        assert forall i :: 1 <= i < |lists| ==> lists[i] == lists[1..][i - 1];
        None
      case Some(i) =>
        assert lists[i + 1] == lists[1..][i];
        Some(i + 1)
  }

  /** `getListById`: the first list with id `id`, or nothing. */
  function GetListById(s: Store, id: string): (r: Option<TodoList>)
    ensures r.Some? <==> HasId(s.lists, id)
    ensures r.Some? ==> r.value in s.lists && r.value.id == id
    ensures r.Some? ==>
      exists i :: 0 <= i < |s.lists| && s.lists[i] == r.value && forall j :: 0 <= j < i ==> s.lists[j].id != id
  {
    match IndexOf(s.lists, id)
    case None => None
    case Some(i) => Some(s.lists[i])
  }

  /**
   * `getSelectedListId`: the id of the selected list. Whenever the selection names a
   * stored list, looking the returned id up finds a list with that id.
   */
  function SelectedListId(s: Store): (r: string)
    ensures HasId(s.lists, s.selected) ==> GetListById(s, r).Some? && GetListById(s, r).value.id == r
  {
    s.selected
  }

  /** The sort key of `getLists`. */
  function SortKey(l: TodoList): int {
    l.sortOrder
  }

  /**
   * `getLists`: the stored lists sorted by `sortOrder`, stably (lists with equal
   * sort orders keep their stored order). The store itself is not changed.
   */
  function GetLists(s: Store): (r: seq<TodoList>)
    ensures SortedBy(r, SortKey)
    ensures multiset(r) == multiset(s.lists)
    ensures forall k :: KeyClass(r, SortKey, k) == KeyClass(s.lists, SortKey, k)
  {
    Sort(s.lists, SortKey)
  }

  // ----- listeners -----

  /** `subscribe`: register `l` at the end; nothing is saved or notified. */
  function Subscribe(s: Store, l: Listener): (t: Store)
    ensures t.listeners == s.listeners + [l]
    ensures t.lists == s.lists && t.selected == s.selected && t.persisted == s.persisted
    ensures Quiet(s, t)
  {
    s.(listeners := s.listeners + [l])
  }

  /** Keeps listeners other than `l`. */
  function Other(l: Listener): Listener -> bool {
    x => x != l
  }

  /** The unsubscribe function returned by `subscribe`: drops every registration of `l`. */
  function Unsubscribe(s: Store, l: Listener): (t: Store)
    ensures l !in t.listeners
    ensures forall x :: x != l ==> (x in t.listeners <==> x in s.listeners)
    ensures IsSubseq(t.listeners, s.listeners)
    ensures |t.listeners| == Count(s.listeners, Other(l))
    ensures t.lists == s.lists && t.selected == s.selected && t.persisted == s.persisted
    ensures Quiet(s, t)
  {
    s.(listeners := Filter(s.listeners, Other(l)))
  }

  // ----- first run -----

  /**
   * `init`: a successful read installs the document's own lists, writing nothing and
   * notifying no one; a failed read installs the four seeded lists, then saves and
   * notifies. The selection and the listeners are left as they are.
   */
  function Init(s: Store, read: ReadOutcome, stamps: seq<string>): (t: Store)
    requires |stamps| == 4
    ensures t.selected == s.selected && t.listeners == s.listeners
    ensures t.persisted == t.lists
    ensures read.Parsed? ==> t.lists == s.persisted && t.persisted == s.persisted && Quiet(s, t)
    ensures read.ReadFailed? ==>
      && Saved(s, t)
      && |t.lists| == 4
      && forall i :: 0 <= i < 4 ==> t.lists[i].id == DefaultIds[i] && t.lists[i].sortOrder == i
  {
    match read
    case Parsed => s.(lists := s.persisted)
    case ReadFailed => Save(s.(lists := DefaultLists(stamps)))
  }

  // ----- mutators -----

  /** `setSelectedListId`: selects `id` and notifies only when some list has that id; never saves. */
  function SetSelectedListId(s: Store, id: string): (t: Store)
    ensures HasId(s.lists, id) ==>
      t.selected == id && t.lists == s.lists && t.persisted == s.persisted && Notified(s, t)
    ensures !HasId(s.lists, id) ==> t == s
  {
    if IndexOf(s.lists, id).Some? then Notify(s.(selected := id)) else s
  }

  /**
   * `addList`: appends a new list with the fresh id `freshId` and creation time `now`,
   * sort order equal to the number of lists before, and `shared` false; saves,
   * notifies, and returns the new list.
   */
  function AddList(s: Store, freshId: string, now: string, name: string, color: string, icon: Option<string>)
    : (r: (Store, TodoList))
    ensures r.1.id == freshId && r.1.createdAt == now
    ensures r.1.name == name && r.1.color == color && r.1.icon == icon
    ensures r.1.sortOrder == |s.lists| && !r.1.shared
    ensures |r.0.lists| == |s.lists| + 1
    ensures r.0.lists[..|s.lists|] == s.lists && r.0.lists[|s.lists|] == r.1
    ensures r.0.selected == s.selected && Saved(s, r.0)
  {
    var l := TodoList(freshId, name, color, icon, false, |s.lists|, now);
    (Save(s.(lists := s.lists + [l])), l)
  }

  /**
   * `updateList`: shallow-merges `patch` into the first list with id `id`, then saves
   * and notifies; with no such list nothing happens at all.
   */
  function UpdateList(s: Store, id: string, patch: Patch): (t: Store)
    ensures !HasId(s.lists, id) ==> t == s
    ensures HasId(s.lists, id) ==>
      && |t.lists| == |s.lists|
      && (forall j :: 0 <= j < |s.lists| ==>
            t.lists[j] == if IndexOf(s.lists, id) == Some(j) then Merge(s.lists[j], patch) else s.lists[j])
      && t.selected == s.selected
      && Saved(s, t)
  {
    match IndexOf(s.lists, id)
    case None => s
    case Some(i) => Save(s.(lists := s.lists[i := Merge(s.lists[i], patch)]))
  }

  /** Keeps lists whose id is not `id`. */
  function OtherId(id: string): TodoList -> bool {
    (l: TodoList) => l.id != id
  }

  /**
   * `deleteList`: refuses the default list outright. Any other id: removes every list
   * with that id (none, if it is absent), moves the selection to the default list if
   * it pointed at `id`, then saves and notifies.
   */
  function DeleteList(s: Store, id: string): (t: Store)
    ensures id == DefaultId ==> t == s
    ensures id != DefaultId ==>
      && IsSubseq(t.lists, s.lists)
      && (forall l :: l in t.lists <==> l in s.lists && l.id != id)
      && |t.lists| == Count(s.lists, OtherId(id))
      && t.selected == (if s.selected == id then DefaultId else s.selected)
      && Saved(s, t)
  {
    if id == DefaultId then s
    else
      var kept := Filter(s.lists, OtherId(id));
      Save(s.(lists := kept, selected := if s.selected == id then DefaultId else s.selected))
  }

  /**
   * Every entry of `r` is the first list with its id, carrying as sort order a
   * position of `ids` that holds that id.
   */
  predicate Placed(lists: seq<TodoList>, ids: seq<string>, r: seq<TodoList>) {
    forall j :: 0 <= j < |r| ==>
      && 0 <= r[j].sortOrder < |ids|
      && ids[r[j].sortOrder] == r[j].id
      && IndexOf(lists, r[j].id).Some?
      && r[j] == lists[IndexOf(lists, r[j].id).value].(sortOrder := r[j].sortOrder)
  }

  /** Sort orders strictly increase along `r`. */
  predicate Increasing(r: seq<TodoList>) {
    forall i, j :: 0 <= i < j < |r| ==> r[i].sortOrder < r[j].sortOrder
  }

  /** Every position of `ids` that names a list is the sort order of some entry of `r`. */
  predicate Complete(lists: seq<TodoList>, ids: seq<string>, r: seq<TodoList>) {
    forall i :: 0 <= i < |ids| && HasId(lists, ids[i]) ==> exists j :: 0 <= j < |r| && r[j].sortOrder == i
  }

  /**
   * The collection `reorderLists(ids)` builds: for each position `i` of `ids` whose id
   * names a list, that (first) list with sort order `i`, in the order of `ids`; ids
   * naming no list are skipped, and lists not named are not carried over.
   */
  function Reordered(lists: seq<TodoList>, ids: seq<string>): (r: seq<TodoList>)
    ensures |r| <= |ids|
    ensures Placed(lists, ids, r)
    ensures Increasing(r)
    ensures Complete(lists, ids, r)
  {
    if |ids| == 0 then []
    else
      var n := |ids| - 1;
      var front := Reordered(lists, ids[..n]);
      ReorderedStep(lists, ids, front);
      match IndexOf(lists, ids[n])
      case None => front
      case Some(k) => front + [lists[k].(sortOrder := n)]
  }

  /** The inductive step of `Reordered`: extending by the last id of `ids`. */
  lemma ReorderedStep(lists: seq<TodoList>, ids: seq<string>, front: seq<TodoList>)
    requires |ids| > 0
    requires |front| <= |ids| - 1
    requires Placed(lists, ids[..|ids| - 1], front)
    requires Increasing(front)
    requires Complete(lists, ids[..|ids| - 1], front)
    ensures var n := |ids| - 1;
      var r := if IndexOf(lists, ids[n]).Some? then front + [lists[IndexOf(lists, ids[n]).value].(sortOrder := n)] else front;
      |r| <= |ids| && Placed(lists, ids, r) && Increasing(r) && Complete(lists, ids, r)
  {
    var n := |ids| - 1;
    PlacedWiden(lists, ids, front);
    CompleteWiden(lists, ids, front);
    match IndexOf(lists, ids[n])
    case None =>
    case Some(k) =>
      var e := lists[k].(sortOrder := n);
      PlacedExtend(lists, ids, front, e);
      IncreasingExtend(front, e);
      CompleteExtend(lists, ids, front, e);
  }

  lemma PlacedWiden(lists: seq<TodoList>, ids: seq<string>, front: seq<TodoList>)
    requires |ids| > 0
    requires Placed(lists, ids[..|ids| - 1], front)
    ensures Placed(lists, ids, front)
    ensures forall j :: 0 <= j < |front| ==> front[j].sortOrder < |ids| - 1
  {
    var n := |ids| - 1;
    forall j | 0 <= j < |front| ensures ids[front[j].sortOrder] == front[j].id {
      assert ids[..n][front[j].sortOrder] == ids[front[j].sortOrder];
    }
  }

  lemma CompleteWiden(lists: seq<TodoList>, ids: seq<string>, front: seq<TodoList>)
    requires |ids| > 0
    requires Complete(lists, ids[..|ids| - 1], front)
    ensures forall i :: 0 <= i < |ids| - 1 && HasId(lists, ids[i]) ==>
      exists j :: 0 <= j < |front| && front[j].sortOrder == i
  {
    var n := |ids| - 1;
    forall i | 0 <= i < n && HasId(lists, ids[i]) ensures exists j :: 0 <= j < |front| && front[j].sortOrder == i {
      assert ids[..n][i] == ids[i];
    }
  }

  lemma PlacedExtend(lists: seq<TodoList>, ids: seq<string>, front: seq<TodoList>, e: TodoList)
    requires |ids| > 0 && Placed(lists, ids, front)
    requires IndexOf(lists, ids[|ids| - 1]).Some?
    requires e == lists[IndexOf(lists, ids[|ids| - 1]).value].(sortOrder := |ids| - 1)
    ensures Placed(lists, ids, front + [e])
  {
    var r := front + [e];
    forall j | 0 <= j < |r|
      ensures 0 <= r[j].sortOrder < |ids| && ids[r[j].sortOrder] == r[j].id
      ensures IndexOf(lists, r[j].id).Some?
      ensures r[j] == lists[IndexOf(lists, r[j].id).value].(sortOrder := r[j].sortOrder)
    {
      if j < |front| {
        assert r[j] == front[j];
      } else {
        assert r[j] == e;
      }
    }
  }

  lemma IncreasingExtend(front: seq<TodoList>, e: TodoList)
    requires Increasing(front)
    requires forall j :: 0 <= j < |front| ==> front[j].sortOrder < e.sortOrder
    ensures Increasing(front + [e])
  {
    var r := front + [e];
    forall i, j | 0 <= i < j < |r| ensures r[i].sortOrder < r[j].sortOrder {
      assert r[i] == front[i];
      if j < |front| {
        assert r[j] == front[j];
      }
    }
  }

  lemma CompleteExtend(lists: seq<TodoList>, ids: seq<string>, front: seq<TodoList>, e: TodoList)
    requires |ids| > 0 && e.sortOrder == |ids| - 1
    requires forall i :: 0 <= i < |ids| - 1 && HasId(lists, ids[i]) ==>
      exists j :: 0 <= j < |front| && front[j].sortOrder == i
    ensures Complete(lists, ids, front + [e])
  {
    var r := front + [e];
    forall i | 0 <= i < |ids| && HasId(lists, ids[i]) ensures exists j :: 0 <= j < |r| && r[j].sortOrder == i {
      if i < |ids| - 1 {
        var j :| 0 <= j < |front| && front[j].sortOrder == i;
        assert r[j] == front[j];
      } else {
        assert r[|front|] == e;
      }
    }
  }

  /** `reorderLists`: replaces the collection by `Reordered(lists, ids)`, then saves and notifies. */
  function ReorderLists(s: Store, ids: seq<string>): (t: Store)
    ensures t.lists == Reordered(s.lists, ids)
    ensures t.selected == s.selected && Saved(s, t)
  {
    Save(s.(lists := Reordered(s.lists, ids)))
  }
}
