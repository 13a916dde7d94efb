/**
 * Properties of the list store that relate several operations or hold across
 * whole runs: the invariant that the default list survives and the selection
 * names a list, the document staying in step with memory, reordering by a full
 * permutation, first-run seeding, and listener registration.
 */
module ListStoreProps {
  import opened Wrappers
  import opened Seqs
  import opened Sorting
  import opened Lists
  import opened ListStore

  /** No two lists share an id. */
  predicate UniqueIds(lists: seq<TodoList>) {
    forall i, j :: 0 <= i < j < |lists| ==> lists[i].id != lists[j].id
  }

  /** Ids are unique, exactly one list is the default list, and the selection names a list. */
  predicate Wf(s: Store) {
    UniqueIds(s.lists) && HasId(s.lists, DefaultId) && HasId(s.lists, s.selected)
  }

  /** The document holds exactly the in-memory lists. */
  predicate Synced(s: Store) {
    s.persisted == s.lists
  }

  // ----- deleteList -----

  /** A subsequence of a list sequence with unique ids has unique ids. */
  lemma {:induction false} SubseqUniqueIds(a: seq<TodoList>, b: seq<TodoList>)
    requires IsSubseq(a, b) && UniqueIds(b)
    ensures UniqueIds(a)
    decreases |b|
  {
    if |a| == 0 {
    } else if a[0] == b[0] && IsSubseq(a[1..], b[1..]) {
      SubseqUniqueIds(a[1..], b[1..]);
      SubseqMembers(a[1..], b[1..]);
      forall i, j | 0 <= i < j < |a| ensures a[i].id != a[j].id {
        if i == 0 {
          assert a[j] == a[1..][j - 1];
          assert a[j] in b[1..];
          var k :| 0 <= k < |b[1..]| && b[1..][k] == a[j];
          assert b[k + 1] == a[j];
        } else {
          assert a[i] == a[1..][i - 1] && a[j] == a[1..][j - 1];
        }
      }
    } else {
      SubseqUniqueIds(a, b[1..]);
    }
  }

  /**
   * Deleting any id keeps the store well formed (the default list cannot be the one
   * removed, and a selection of the removed list falls back to it), and afterwards
   * no list has the deleted id unless it was the default.
   */
  lemma DeleteListKeepsWf(s: Store, id: string)
    requires Wf(s)
    ensures Wf(DeleteList(s, id))
    ensures id != DefaultId ==> !HasId(DeleteList(s, id).lists, id)
  {
    var t := DeleteList(s, id);
    if id != DefaultId {
      SubseqUniqueIds(t.lists, s.lists);
      var d :| 0 <= d < |s.lists| && s.lists[d].id == DefaultId;
      assert s.lists[d] in t.lists;
      if s.selected != id {
        var k :| 0 <= k < |s.lists| && s.lists[k].id == s.selected;
        assert s.lists[k] in t.lists;
      }
      forall k | 0 <= k < |t.lists| ensures t.lists[k].id != id {
        assert t.lists[k] in t.lists;
      }
    }
  }

  // ----- setSelectedListId, addList, updateList -----

  /** Selecting keeps the store well formed. */
  lemma SetSelectedKeepsWf(s: Store, id: string)
    requires Wf(s)
    ensures Wf(SetSelectedListId(s, id))
  {
  }

  /** Adding a list under an id no list has keeps the store well formed. */
  lemma AddListKeepsWf(s: Store, freshId: string, now: string, name: string, color: string, icon: Option<string>)
    requires Wf(s) && !HasId(s.lists, freshId)
    ensures Wf(AddList(s, freshId, now, name, color, icon).0)
  {
    var t := AddList(s, freshId, now, name, color, icon).0;
    var n := |s.lists|;
    assert forall i :: 0 <= i < n ==> t.lists[i] == s.lists[i];
    var d :| 0 <= d < n && s.lists[d].id == DefaultId;
    assert t.lists[d].id == DefaultId;
    var k :| 0 <= k < n && s.lists[k].id == s.selected;
    assert t.lists[k].id == s.selected;
  }

  /** Updating keeps every id in place, so the store stays well formed. */
  lemma UpdateListKeepsWf(s: Store, id: string, patch: Patch)
    requires Wf(s)
    ensures Wf(UpdateList(s, id, patch))
  {
    var t := UpdateList(s, id, patch);
    assert forall j :: 0 <= j < |s.lists| ==> t.lists[j].id == s.lists[j].id;
    if HasId(s.lists, id) {
      var d :| 0 <= d < |s.lists| && s.lists[d].id == DefaultId;
      assert t.lists[d].id == DefaultId;
      var k :| 0 <= k < |s.lists| && s.lists[k].id == s.selected;
      assert t.lists[k].id == s.selected;
    }
  }

  // ----- reorderLists -----

  /**
   * When every id in `ids` names a list, the reordered collection has one entry per
   * id, in the order of `ids`, with sort orders exactly 0 to |ids| - 1.
   */
  lemma {:induction false} ReorderedAllKnown(lists: seq<TodoList>, ids: seq<string>)
    requires forall i :: 0 <= i < |ids| ==> HasId(lists, ids[i])
    ensures var r := Reordered(lists, ids);
      |r| == |ids| && forall i :: 0 <= i < |r| ==> r[i].id == ids[i] && r[i].sortOrder == i
  {
    if |ids| > 0 {
      var n := |ids| - 1;
      var pre := ids[..n];
      forall i | 0 <= i < |pre| ensures HasId(lists, pre[i]) {
        assert pre[i] == ids[i];
      }
      ReorderedAllKnown(lists, pre);
      var front := Reordered(lists, pre);
      assert HasId(lists, ids[n]);
      var k := IndexOf(lists, ids[n]).value;
      var r := Reordered(lists, ids);
      assert r == front + [lists[k].(sortOrder := n)];
      forall i | 0 <= i < |r| ensures r[i].id == ids[i] && r[i].sortOrder == i {
        if i < n {
          assert r[i] == front[i];
          assert pre[i] == ids[i];
        } else {
          assert r[i] == lists[k].(sortOrder := n);
        }
      }
    }
  }

  /**
   * Reordering by ids that all name lists: `getLists()` afterwards returns the lists
   * in exactly the order of `ids`, with sort orders 0, 1, 2, ...
   */
  lemma ReorderByKnownIds(s: Store, ids: seq<string>)
    requires forall i :: 0 <= i < |ids| ==> HasId(s.lists, ids[i])
    ensures var r := GetLists(ReorderLists(s, ids));
      |r| == |ids| && forall i :: 0 <= i < |r| ==> r[i].id == ids[i] && r[i].sortOrder == i
  {
    var t := ReorderLists(s, ids);
    ReorderedAllKnown(s.lists, ids);
    assert SortedBy(t.lists, SortKey);
    SortOfSorted(t.lists, SortKey);
  }

  /**
   * Reordering by a permutation of the stored ids (no repeats, every id named) keeps
   * the store well formed, with sort orders dense from 0.
   */
  lemma ReorderPermutationKeepsWf(s: Store, ids: seq<string>)
    requires Wf(s)
    requires forall i :: 0 <= i < |ids| ==> HasId(s.lists, ids[i])
    requires forall i, j :: 0 <= i < j < |ids| ==> ids[i] != ids[j]
    requires forall l :: l in s.lists ==> l.id in ids
    ensures Wf(ReorderLists(s, ids))
    ensures var t := ReorderLists(s, ids); forall i :: 0 <= i < |t.lists| ==> t.lists[i].sortOrder == i
    ensures var t := ReorderLists(s, ids); forall l :: l in s.lists ==> HasId(t.lists, l.id)
  {
    var t := ReorderLists(s, ids);
    ReorderedAllKnown(s.lists, ids);
    forall l | l in s.lists ensures HasId(t.lists, l.id) {
      ReorderedHasId(s.lists, ids, l.id);
    }
    var d :| 0 <= d < |s.lists| && s.lists[d].id == DefaultId;
    assert s.lists[d] in s.lists;
    var k :| 0 <= k < |s.lists| && s.lists[k].id == s.selected;
    assert s.lists[k] in s.lists;
  }

  /** An id named in `ids`, all of which name lists, names a list after reordering. */
  lemma ReorderedHasId(lists: seq<TodoList>, ids: seq<string>, x: string)
    requires forall i :: 0 <= i < |ids| ==> HasId(lists, ids[i])
    requires x in ids
    ensures HasId(Reordered(lists, ids), x)
  {
    ReorderedAllKnown(lists, ids);
    var i :| 0 <= i < |ids| && ids[i] == x;
    assert Reordered(lists, ids)[i].id == x;
  }

  // ----- init -----

  /**
   * First run with no readable document: `getLists()` returns the four seeded lists
   * `default, personal, work, shopping` with sort orders 0 to 3, the document holds
   * them, every listener has been called once, and a store whose selection is the
   * default list is well formed.
   */
  lemma InitSeedsDefaults(s: Store, stamps: seq<string>)
    requires |stamps| == 4
    ensures var t := Init(s, ReadFailed, stamps);
      && GetLists(t) == t.lists
      && |t.lists| == 4
      && (forall i :: 0 <= i < 4 ==> t.lists[i].id == DefaultIds[i] && t.lists[i].sortOrder == i)
      && Synced(t)
      && Notified(s, t)
      && (s.selected == DefaultId ==> Wf(t))
  {
    var t := Init(s, ReadFailed, stamps);
    assert t.lists == DefaultLists(stamps);
    assert SortedBy(t.lists, SortKey);
    SortOfSorted(t.lists, SortKey);
    DefaultListsWf(stamps);
  }

  /** The seeded lists have unique ids, among them the default list. */
  lemma DefaultListsWf(stamps: seq<string>)
    requires |stamps| == 4
    ensures UniqueIds(DefaultLists(stamps)) && HasId(DefaultLists(stamps), DefaultId)
  {
    var r := DefaultLists(stamps);
    assert r[0].id == DefaultId;
    assert DefaultIds[0][0] == 'd' && DefaultIds[1][0] == 'p' && DefaultIds[2][0] == 'w' && DefaultIds[3][0] == 's';
  }

  // ----- listeners -----

  /** Unsubscribing right after subscribing is the same as unsubscribing. */
  lemma UnsubscribeAfterSubscribe(s: Store, l: Listener)
    ensures Unsubscribe(Subscribe(s, l), l) == Unsubscribe(s, l)
  {
    FilterAppend(s.listeners, [l], Other(l));
    assert Filter([l], Other(l)) == [];
  }

  /** Subscribing a listener that was not registered and then unsubscribing it restores the store. */
  lemma SubscribeUnsubscribeRoundTrip(s: Store, l: Listener)
    requires l !in s.listeners
    ensures Unsubscribe(Subscribe(s, l), l) == s
  {
    UnsubscribeAfterSubscribe(s, l);
    FilterAll(s.listeners, Other(l));
  }

  // ----- whole runs -----

  /** One call on a store after `init`: a mutator, a selection, or a (un)subscription. */
  datatype Op =
    | Select(id: string)
    | Add(freshId: string, now: string, name: string, color: string, icon: Option<string>)
    | Update(id: string, patch: Patch)
    | Delete(id: string)
    | Reorder(ids: seq<string>)
    | Sub(listener: Listener)
    | Unsub(listener: Listener)

  function Step(s: Store, op: Op): (t: Store)
    ensures Quiet(s, t) || Notified(s, t)
    ensures Synced(s) ==> Synced(t)
  {
    match op
    case Select(id) => SetSelectedListId(s, id)
    case Add(freshId, now, name, color, icon) => AddList(s, freshId, now, name, color, icon).0
    case Update(id, patch) => UpdateList(s, id, patch)
    case Delete(id) => DeleteList(s, id)
    case Reorder(ids) => ReorderLists(s, ids)
    case Sub(l) => Subscribe(s, l)
    case Unsub(l) => Unsubscribe(s, l)
  }

  function Run(s: Store, ops: seq<Op>): Store
    decreases |ops|
  {
    if |ops| == 0 then s else Run(Step(s, ops[0]), ops[1..])
  }

  /**
   * After `init`, whatever sequence of calls follows, the document holds exactly the
   * in-memory lists (writes being assumed to succeed).
   */
  lemma {:induction false} DocumentTracksMemory(s: Store, read: ReadOutcome, stamps: seq<string>, ops: seq<Op>)
    requires |stamps| == 4
    ensures Synced(Run(Init(s, read, stamps), ops))
  {
    RunKeepsSynced(Init(s, read, stamps), ops);
  }

  lemma {:induction false} RunKeepsSynced(s: Store, ops: seq<Op>)
    requires Synced(s)
    ensures Synced(Run(s, ops))
    decreases |ops|
  {
    if |ops| > 0 {
      RunKeepsSynced(Step(s, ops[0]), ops[1..]);
    }
  }

  /**
   * A call keeps the store well formed when it adds under an unused id and reorders
   * only by a permutation of the stored ids; every other call always does.
   */
  predicate Admissible(s: Store, op: Op) {
    match op
    case Add(freshId, _, _, _, _) => !HasId(s.lists, freshId)
    case Reorder(ids) =>
      && (forall i :: 0 <= i < |ids| ==> HasId(s.lists, ids[i]))
      && (forall i, j :: 0 <= i < j < |ids| ==> ids[i] != ids[j])
      && (forall l :: l in s.lists ==> l.id in ids)
    case _ => true
  }

  /** An admissible call keeps the store well formed. */
  lemma StepKeepsWf(s: Store, op: Op)
    requires Wf(s) && Admissible(s, op)
    ensures Wf(Step(s, op))
  {
    match op
    case Select(id) => SetSelectedKeepsWf(s, id);
    case Add(freshId, now, name, color, icon) => AddListKeepsWf(s, freshId, now, name, color, icon);
    case Update(id, patch) => UpdateListKeepsWf(s, id, patch);
    case Delete(id) => DeleteListKeepsWf(s, id);
    case Reorder(ids) => ReorderPermutationKeepsWf(s, ids);
    case Sub(l) =>
    case Unsub(l) =>
  }

  /** Every call of `ops` is admissible in the store it is applied to. */
  predicate AdmissibleRun(s: Store, ops: seq<Op>)
    decreases |ops|
  {
    |ops| == 0 || (Admissible(s, ops[0]) && AdmissibleRun(Step(s, ops[0]), ops[1..]))
  }

  /**
   * Along any admissible run the default list is never lost, ids stay unique and the
   * selection always names a list.
   */
  lemma {:induction false} RunKeepsWf(s: Store, ops: seq<Op>)
    requires Wf(s) && AdmissibleRun(s, ops)
    ensures Wf(Run(s, ops))
    decreases |ops|
  {
    if |ops| > 0 {
      StepKeepsWf(s, ops[0]);
      RunKeepsWf(Step(s, ops[0]), ops[1..]);
    }
  }

  /**
   * Start-up: a new store followed by `init`. A readable document is taken over as it
   * is, silently; otherwise the four seeded lists are written and every listener
   * hears of it once. Either way memory and document agree, and after seeding the
   * initial selection `"default"` names a list.
   */
  lemma StartUp(document: seq<TodoList>, read: ReadOutcome, stamps: seq<string>)
    requires |stamps| == 4
    ensures var t := Init(New(document), read, stamps);
      && Synced(t)
      && t.selected == DefaultId
      && (read.Parsed? ==> t.lists == document && t.notifications == 0)
      && (read.ReadFailed? ==> Wf(t) && t.persisted == DefaultLists(stamps) && t.notifications == 1)
  {
    var t := Init(New(document), read, stamps);
    if read.ReadFailed? {
      InitSeedsDefaults(New(document), stamps);
      assert t.lists == DefaultLists(stamps);
    }
  }

  /**
   * After any admissible run from a well-formed store, `getSelectedListId()` names a
   * list that `getListById` finds.
   */
  lemma SelectionResolves(s: Store, ops: seq<Op>)
    requires Wf(s) && AdmissibleRun(s, ops)
    ensures var t := Run(s, ops); GetListById(t, SelectedListId(t)).Some?
  {
    RunKeepsWf(s, ops);
  }
}
