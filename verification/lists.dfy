/**
 * The `TodoList` record of the list store, the shallow-merge update applied to it,
 * and the four lists seeded on first run.
 */
module Lists {
  import opened Wrappers

  /** A named grouping of tasks. `icon` is optional; `shared` is reserved and never set by the store. */
  datatype TodoList = TodoList(
    id: string,
    name: string,
    color: string,
    icon: Option<string>,
    shared: bool,
    sortOrder: int,
    createdAt: string)

  /** The id of the list that `deleteList` refuses to remove. */
  const DefaultId: string := "default"

  /** Ids of the seeded lists, in their seeded order. */
  const DefaultIds: seq<string> := [DefaultId, "personal", "work", "shopping"]

  /**
   * A partial update: every field except `id` and `createdAt`, each either absent
   * (`None`) or present. `icon` is doubly optional because an update object may carry
   * `icon: undefined`, which the object spread copies over the existing icon.
   */
  datatype Patch = Patch(
    name: Option<string>,
    color: Option<string>,
    icon: Option<Option<string>>,
    shared: Option<bool>,
    sortOrder: Option<int>)

  /** The patch with no field present. */
  const EmptyPatch: Patch := Patch(None, None, None, None, None)

  /** `{ ...l, ...p }`: fields present in `p` replace those of `l`; identity and creation time are kept. */
  function Merge(l: TodoList, p: Patch): (r: TodoList)
    ensures r.id == l.id && r.createdAt == l.createdAt
    ensures r.name == (if p.name.Some? then p.name.value else l.name)
    ensures r.color == (if p.color.Some? then p.color.value else l.color)
    ensures r.icon == (if p.icon.Some? then p.icon.value else l.icon)
    ensures r.shared == (if p.shared.Some? then p.shared.value else l.shared)
    ensures r.sortOrder == (if p.sortOrder.Some? then p.sortOrder.value else l.sortOrder)
  {
    l.(name := p.name.GetOr(l.name),
       color := p.color.GetOr(l.color),
       icon := p.icon.GetOr(l.icon),
       shared := p.shared.GetOr(l.shared),
       sortOrder := p.sortOrder.GetOr(l.sortOrder))
  }

  /** Merging the same patch twice is the same as merging it once. */
  lemma MergeIdempotent(l: TodoList, p: Patch)
    ensures Merge(Merge(l, p), p) == Merge(l, p)
  {
  }

  /** Merging the empty patch leaves a list unchanged. */
  lemma MergeEmpty(l: TodoList)
    ensures Merge(l, EmptyPatch) == l
  {
  }

  /**
   * The seeded lists `default`, `personal`, `work` and `shopping`, with their fixed
   * names, colours and icons and sort orders 0 to 3. `stamps` are the four creation
   * timestamps, taken from the clock when the module is loaded.
   */
  function DefaultLists(stamps: seq<string>): (r: seq<TodoList>)
    requires |stamps| == 4
    ensures |r| == |DefaultIds|
    ensures forall i :: 0 <= i < |r| ==>
      && r[i].id == DefaultIds[i]
      && r[i].sortOrder == i
      && !r[i].shared
      && r[i].icon.Some?
      && r[i].createdAt == stamps[i]
  {
    [ TodoList(DefaultId, "Tasks", "#3b82f6", Some("\U{1F4CB}"), false, 0, stamps[0]),
      TodoList("personal", "Personal", "#8b5cf6", Some("\U{1F464}"), false, 1, stamps[1]),
      TodoList("work", "Work", "#10b981", Some("\U{1F4BC}"), false, 2, stamps[2]),
      TodoList("shopping", "Shopping", "#f59e0b", Some("\U{1F6D2}"), false, 3, stamps[3]) ]
  }
}
