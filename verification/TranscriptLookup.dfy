/**
  What each operation stores, told by lookups alone: one id gets its new value, every other id keeps
  its own, wherever sorting may have put it.
*/
module TranscriptLookup {
  import opened Wrappers
  import opened Json
  import opened Ordering
  import opened Transcript
  import opened TranscriptShape

  function ItemOf(items: seq<Item>, id: string): Option<Item> {
    var at := IndexOf(ItemIds(items), id);
    if at.None? then None else Some(items[at.value])
  }

  function StepOf(steps: seq<Step>, id: string): Option<Step> {
    var at := IndexOf(StepIds(steps), id);
    if at.None? then None else Some(steps[at.value])
  }

  function FrameOf(frames: seq<Frame>, id: string): Option<Frame> {
    var at := IndexOf(FrameIds(frames), id);
    if at.None? then None else Some(frames[at.value])
  }

  // ---------- lookups and lists ----------

  /** With unique ids a lookup finds whatever has the id. */
  lemma ItemOfIs(items: seq<Item>, i: nat)
    requires Unique(ItemIds(items)) && i < |items|
    ensures ItemOf(items, ItemId(items[i])) == Some(items[i])
  {
    IndexOfUnique(ItemIds(items), i);
  }

  lemma IndexOfUnique(ids: seq<string>, i: nat)
    requires Unique(ids) && i < |ids|
    ensures IndexOf(ids, ids[i]) == Some(i)
  {
    var at := IndexOf(ids, ids[i]);
    assert ids[i] in ids;
    assert ids[at.value] == ids[i];
  }

  lemma ArrangedIndex(ids: seq<string>, p: seq<nat>, id: string)
    requires Unique(ids)
    ensures var at := IndexOf(Arrange(ids, p), id);
      IndexOf(ids, id) == if at.None? then None else Some(Choice(p, |ids|)[at.value])
  {
    var at := IndexOf(Arrange(ids, p), id);
    if at.Some? {
      IndexOfUnique(ids, Choice(p, |ids|)[at.value]);
    } else {
      NothingIsLost(ids, p, id);
    }
  }

  lemma NothingIsLost(ids: seq<string>, p: seq<nat>, id: string)
    requires id !in Arrange(ids, p)
    ensures IndexOf(ids, id).None?
  {
    ArrangeKeepsElements(ids, p);
    assert id !in multiset(Arrange(ids, p));
    assert id !in ids;
  }

  lemma ArrangingKeepsItems(items: seq<Item>, p: seq<nat>, id: string)
    requires Unique(ItemIds(items))
    ensures ItemOf(Arrange(items, p), id) == ItemOf(items, id)
  {
    assert ItemIds(Arrange(items, p)) == Arrange(ItemIds(items), p);
    ArrangedIndex(ItemIds(items), p, id);
  }

  lemma ArrangingKeepsSteps(steps: seq<Step>, p: seq<nat>, id: string)
    requires Unique(StepIds(steps))
    ensures StepOf(Arrange(steps, p), id) == StepOf(steps, id)
  {
    assert StepIds(Arrange(steps, p)) == Arrange(StepIds(steps), p);
    ArrangedIndex(StepIds(steps), p, id);
  }

  /** The position of `id` in a list that gained or kept `added` at its first position. */
  lemma {:induction false} IndexAfterPut(ids: seq<string>, added: string, id: string)
    ensures IndexOf(Put(ids, IndexOf(ids, added), added), id) ==
      if id != added then IndexOf(ids, id)
      else if IndexOf(ids, added).Some? then IndexOf(ids, added) else Some(|ids|)
  {
    var at := IndexOf(ids, added);
    if at.Some? {
      assert Put(ids, at, added) == ids;
    } else {
      IndexAfterPush(ids, added, id);
    }
  }

  lemma {:induction false} IndexAfterPush(ids: seq<string>, added: string, id: string)
    ensures IndexOf(ids + [added], id) ==
      if IndexOf(ids, id).Some? then IndexOf(ids, id) else if id == added then Some(|ids|) else None
  {
    if ids != [] {
      assert (ids + [added])[1..] == ids[1..] + [added];
      IndexAfterPush(ids[1..], added, id);
    }
  }

  // ---------- what the upserts store ----------

  /** A marker, task reference or turn stored whole. */
  lemma PutItemStores(items: seq<Item>, item: Item, id: string)
    ensures ItemOf(Put(items, IndexOf(ItemIds(items), ItemId(item)), item), id) ==
      if id == ItemId(item) then Some(item) else ItemOf(items, id)
  {
    var at := IndexOf(ItemIds(items), ItemId(item));
    var put := Put(items, at, item);
    assert ItemIds(put) == Put(ItemIds(items), at, ItemId(item));
    IndexAfterPut(ItemIds(items), ItemId(item), id);
    if id != ItemId(item) && IndexOf(ItemIds(items), id).Some? {
      assert at.None? || at != IndexOf(ItemIds(items), id);
    }
  }

  /** A turn gets its new head and keeps the steps it had; every other item is as before. */
  lemma TurnUpsertStores(order: ItemOrder, items: seq<Item>, head: TurnHead, id: string)
    requires ItemsShape(items)
    ensures ItemOf(UpsertTurn(order, items, head), id) ==
      if id != "turn:" + head.turnId then ItemOf(items, id)
      else
        var known := ItemOf(items, id);
        Some(TurnItem(Turn(head.turnId, head.ordinal, head.body,
          if known.Some? && known.value.TurnItem? then known.value.turn.steps else [])))
  {
    var at := FindTurn(items, head.turnId);
    FindTurnIsIndexOf(items, head.turnId);
    var steps := if at.Some? then items[at.value].turn.steps else [];
    var next := TurnItem(Turn(head.turnId, head.ordinal, head.body, steps));
    var put := Put(items, at, next);
    assert at.Some? ==> ItemShape(items[at.value]);
    PutItemKeepsShape(items, next);
    PutItemStores(items, next, id);
    ArrangingKeepsItems(put, order(SortKeys(put)), id);
  }

  /** A step gets its new head and keeps the frames it had; every other step is as before. */
  lemma StepUpsertStores(steps: seq<Step>, head: StepHead, id: string)
    requires StepsShape(steps)
    ensures StepOf(UpsertStep(steps, head), id) ==
      if id != head.stepId then StepOf(steps, id)
      else Some(Step(head.stepId, head.ordinal, head.body,
        if StepOf(steps, id).Some? then StepOf(steps, id).value.frames else []))
  {
    var at := IndexOf(StepIds(steps), head.stepId);
    var next := Step(head.stepId, head.ordinal, head.body, if at.Some? then steps[at.value].frames else []);
    var put := Put(steps, at, next);
    assert StepIds(put) == Put(StepIds(steps), at, head.stepId);
    PutKeepsUnique(StepIds(steps), head.stepId);
    IndexAfterPut(StepIds(steps), head.stepId, id);
    ArrangingKeepsSteps(put, StableOrder(StepOrdinals(put)), id);
  }

  lemma FrameUpsertStores(frames: seq<Frame>, frame: Frame, id: string)
    ensures FrameOf(UpsertFrame(frames, frame), id) == if id == frame.frameId then Some(frame) else FrameOf(frames, id)
  {
    var at := IndexOf(FrameIds(frames), frame.frameId);
    assert FrameIds(Put(frames, at, frame)) == Put(FrameIds(frames), at, frame.frameId);
    IndexAfterPut(FrameIds(frames), frame.frameId, id);
  }

  /** Removal forgets exactly the listed ids. */
  lemma RemovalForgets(items: seq<Item>, ids: set<string>, id: string)
    requires ItemsShape(items)
    ensures ItemOf(WithoutIds(items, ids), id) == if id in ids then None else ItemOf(items, id)
  {
    var kept := WithoutIds(items, ids);
    IdsOfRemaining(items, ids, id);
    var at := IndexOf(ItemIds(kept), id);
    if at.Some? {
      assert kept[at.value] in kept;
      var i :| 0 <= i < |items| && items[i] == kept[at.value];
      ItemOfIs(items, i);
    }
  }

  // ---------- pages ----------

  /** A page's tasks by id, the last one winning. */
  lemma {:induction false} LastTaskWins(tasks: seq<Task>, i: nat)
    requires i < |tasks| && forall j :: i < j < |tasks| ==> tasks[j].taskId != tasks[i].taskId
    ensures tasks[i].taskId in TasksById(tasks) && TasksById(tasks)[tasks[i].taskId] == tasks[i]
    decreases |tasks|
  {
    if i < |tasks| - 1 { LastTaskWins(tasks[..|tasks| - 1], i); }
  }

  /** The same for keyed collections; values without a string key are skipped. */
  lemma {:induction false} LastValueWins(values: seq<Json>, name: string, i: nat)
    requires i < |values| && KeyOf(values[i], name).Some?
    requires forall j :: i < j < |values| ==> KeyOf(values[j], name) != KeyOf(values[i], name)
    ensures var key := KeyOf(values[i], name).value;
      key in KeyedMap(values, name) && KeyedMap(values, name)[key] == values[i]
    decreases |values|
  {
    if i < |values| - 1 { LastValueWins(values[..|values| - 1], name, i); }
  }

  /** Values without a string under the name add no key. */
  lemma {:induction false} OnlyStringKeysCount(values: seq<Json>, name: string, key: string)
    ensures key in KeyedMap(values, name) <==> exists i :: 0 <= i < |values| && KeyOf(values[i], name) == Some(key)
    decreases |values|
  {
    if values != [] {
      var n := |values| - 1;
      OnlyStringKeysCount(values[..n], name, key);
      assert forall i :: 0 <= i < n ==> values[..n][i] == values[i];
      if KeyOf(values[n], name) == Some(key) { assert key in KeyedMap(values, name); }
    }
  }

  // ---------- when a reset moves the cursor back ----------

  /**
    A reset lowers the cursor exactly when it carries none and is taken, that is unless it has no items
    and some are shown.
  */
  lemma ResetLowersCursor(state: State, page: Page)
    requires state.cursor >= 0 && (page.cursor.Some? ==> page.cursor.value >= 0)
    ensures ApplyTranscriptReset(Some(state), page).cursor < state.cursor <==>
      (page.cursor.None? || page.cursor.value == 0) && state.cursor > 0 && (page.items != [] || state.items == [])
  {
  }

  /** It happens: a page without a cursor is taken at cursor 7 and leaves cursor 0. */
  lemma CursorlessResetExample()
    ensures var state := EmptyTranscript("main").(cursor := 7);
      var page := Page("main", [MarkerItem("m", Null)], false, [], [], [], [], [], Object(map[]), {}, None);
      ApplyTranscriptReset(Some(state), page).cursor == 0 < state.cursor
  {
    var state := EmptyTranscript("main").(cursor := 7);
    var page := Page("main", [MarkerItem("m", Null)], false, [], [], [], [], [], Object(map[]), {}, None);
    ResetLowersCursor(state, page);
  }
}
