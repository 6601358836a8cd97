/**
  The shape every transcript keeps: identities are unique at each level, steps are in order, and
  keyed collections are keyed by their values' own ids.
*/
module TranscriptShape {
  import opened Wrappers
  import opened Json
  import opened Ordering
  import opened Transcript

  predicate Unique(ids: seq<string>) {
    forall i, j :: 0 <= i < j < |ids| ==> ids[i] != ids[j]
  }

  predicate InOrder(steps: seq<Step>) {
    forall i, j :: 0 <= i < j < |steps| ==> steps[i].ordinal <= steps[j].ordinal
  }

  predicate StepShape(step: Step) {
    Unique(FrameIds(step.frames))
  }

  predicate StepsShape(steps: seq<Step>) {
    Unique(StepIds(steps)) && InOrder(steps) && forall j :: 0 <= j < |steps| ==> StepShape(steps[j])
  }

  predicate ItemShape(item: Item) {
    item.TurnItem? ==> StepsShape(item.turn.steps)
  }

  predicate ItemsShape(items: seq<Item>) {
    Unique(ItemIds(items)) && forall i :: 0 <= i < |items| ==> ItemShape(items[i])
  }

  predicate KeyedBy(m: map<string, Json>, name: string) {
    forall key :: key in m ==> KeyOf(m[key], name) == Some(key)
  }

  predicate TasksKeyed(tasks: map<string, Task>) {
    forall id :: id in tasks ==> tasks[id].taskId == id
  }

  predicate TablesKeyed(tables: Tables) {
    && KeyedBy(tables.interactions, KeyName(Interactions))
    && KeyedBy(tables.attachments, KeyName(Attachments))
    && KeyedBy(tables.todos, KeyName(Todos))
    && KeyedBy(tables.prompts, KeyName(Prompts))
  }

  predicate Shape(state: State) {
    ItemsShape(state.items) && TasksKeyed(state.tasks) && TablesKeyed(state.tables)
  }

  /** Operations whose own payload has the shape; only snapshots and whole items carry nested ids. */
  predicate PayloadShape(operation: Operation) {
    match operation
    case Reset(_, snapshot) => snapshot.Some? ==> ItemsShape(snapshot.value.items)
    case ItemUpsert(item) => ItemShape(item)
    case _ => true
  }

  // ---------- building blocks ----------

  lemma PutKeepsUnique(ids: seq<string>, id: string)
    requires Unique(ids)
    ensures Unique(Put(ids, IndexOf(ids, id), id))
  {
    var at := IndexOf(ids, id);
    if at.Some? { assert Put(ids, at, id) == ids; }
  }

  lemma ArrangeKeepsUnique(ids: seq<string>, p: seq<nat>)
    requires Unique(ids)
    ensures Unique(Arrange(ids, p))
  {
    var q := Choice(p, |ids|);
    forall i, j | 0 <= i < j < |ids| ensures ids[q[i]] != ids[q[j]] {
      assert q[i] != q[j];
    }
  }

  lemma SortedStepsAreInOrder(steps: seq<Step>)
    ensures InOrder(SortSteps(steps))
  {
    var keys := StepOrdinals(steps);
    var p := StableOrder(keys);
    forall i, j | 0 <= i < j < |steps| ensures steps[p[i]].ordinal <= steps[p[j]].ordinal {
      assert Before(keys, p[i], p[j]);
    }
  }

  lemma SortStepsShape(steps: seq<Step>)
    requires Unique(StepIds(steps)) && forall j :: 0 <= j < |steps| ==> StepShape(steps[j])
    ensures StepsShape(SortSteps(steps))
  {
    var p := StableOrder(StepOrdinals(steps));
    assert StepIds(Arrange(steps, p)) == Arrange(StepIds(steps), p);
    ArrangeKeepsUnique(StepIds(steps), p);
    SortedStepsAreInOrder(steps);
  }

  lemma UpsertStepKeepsShape(steps: seq<Step>, head: StepHead)
    requires StepsShape(steps)
    ensures StepsShape(UpsertStep(steps, head))
  {
    var at := IndexOf(StepIds(steps), head.stepId);
    var frames := if at.Some? then steps[at.value].frames else [];
    var put := Put(steps, at, Step(head.stepId, head.ordinal, head.body, frames));
    assert at.Some? ==> StepShape(steps[at.value]);
    assert StepIds(put) == Put(StepIds(steps), at, head.stepId);
    PutKeepsUnique(StepIds(steps), head.stepId);
    SortStepsShape(put);
  }

  lemma SortItemsShape(order: ItemOrder, items: seq<Item>)
    requires ItemsShape(items)
    ensures ItemsShape(SortItems(order, items))
  {
    var p := order(SortKeys(items));
    assert ItemIds(Arrange(items, p)) == Arrange(ItemIds(items), p);
    ArrangeKeepsUnique(ItemIds(items), p);
  }

  lemma PutItemKeepsShape(items: seq<Item>, item: Item)
    requires ItemsShape(items) && ItemShape(item)
    ensures ItemsShape(Put(items, IndexOf(ItemIds(items), ItemId(item)), item))
  {
    var at := IndexOf(ItemIds(items), ItemId(item));
    assert ItemIds(Put(items, at, item)) == Put(ItemIds(items), at, ItemId(item));
    PutKeepsUnique(ItemIds(items), ItemId(item));
  }

  lemma UpsertTurnKeepsShape(order: ItemOrder, items: seq<Item>, head: TurnHead)
    requires ItemsShape(items)
    ensures ItemsShape(UpsertTurn(order, items, head))
  {
    var at := FindTurn(items, head.turnId);
    var steps := if at.Some? then items[at.value].turn.steps else [];
    var next := TurnItem(Turn(head.turnId, head.ordinal, head.body, steps));
    assert at.Some? ==> ItemShape(items[at.value]);
    FindTurnIsIndexOf(items, head.turnId);
    PutItemKeepsShape(items, next);
    SortItemsShape(order, Put(items, at, next));
  }

  lemma PutStepsKeepsShape(items: seq<Item>, at: nat, steps: seq<Step>)
    requires ItemsShape(items) && at < |items| && items[at].TurnItem? && StepsShape(steps)
    ensures ItemsShape(items[at := TurnItem(items[at].turn.(steps := steps))])
  {
    assert ItemIds(items[at := TurnItem(items[at].turn.(steps := steps))]) == ItemIds(items);
  }

  lemma PutStepKeepsShape(items: seq<Item>, at: (nat, nat), step: Step)
    requires ItemsShape(items)
    requires at.0 < |items| && items[at.0].TurnItem? && at.1 < |items[at.0].turn.steps|
    requires StepShape(step)
    requires step.stepId == StepAt(items, at).stepId && step.ordinal == StepAt(items, at).ordinal
    ensures ItemsShape(PutStep(items, at, step))
  {
    var turn := items[at.0].turn;
    var steps := turn.steps[at.1 := step];
    assert ItemShape(items[at.0]);
    assert StepIds(steps) == StepIds(turn.steps);
    PutStepsKeepsShape(items, at.0, steps);
  }

  lemma UpsertFrameKeepsShape(step: Step, frame: Frame)
    requires StepShape(step)
    ensures StepShape(step.(frames := UpsertFrame(step.frames, frame)))
  {
    var at := IndexOf(FrameIds(step.frames), frame.frameId);
    assert FrameIds(Put(step.frames, at, frame)) == Put(FrameIds(step.frames), at, frame.frameId);
    PutKeepsUnique(FrameIds(step.frames), frame.frameId);
  }

  lemma {:induction false} WithoutIdsKeepsShape(items: seq<Item>, ids: set<string>)
    requires ItemsShape(items)
    ensures ItemsShape(WithoutIds(items, ids))
    decreases |items|
  {
    if items != [] {
      var n := |items| - 1;
      var front, last := items[..n], items[n];
      assert ItemIds(front) == ItemIds(items)[..n];
      WithoutIdsKeepsShape(front, ids);
      var kept := WithoutIds(front, ids);
      forall i | 0 <= i < |kept| ensures ItemIds(kept)[i] != ItemId(last) {
        assert kept[i] in kept;
        var j :| 0 <= j < n && front[j] == kept[i];
        assert ItemIds(items)[j] != ItemIds(items)[n];
      }
      assert ItemIds(kept + [last]) == ItemIds(kept) + [ItemId(last)];
    }
  }

  lemma {:induction false} TasksByIdKeyed(tasks: seq<Task>)
    ensures TasksKeyed(TasksById(tasks))
  {
    if tasks != [] { TasksByIdKeyed(tasks[..|tasks| - 1]); }
  }

  lemma {:induction false} KeyedMapKeyed(values: seq<Json>, name: string)
    ensures KeyedBy(KeyedMap(values, name), name)
  {
    if values != [] { KeyedMapKeyed(values[..|values| - 1], name); }
  }

  // ---------- what keeps the shape ----------

  lemma PageHasShape(page: Page)
    requires ItemsShape(page.items)
    ensures Shape(TranscriptFromPage(page))
  {
    TasksByIdKeyed(page.tasks);
    KeyedMapKeyed(page.interactions, KeyName(Interactions));
    KeyedMapKeyed(page.attachments, KeyName(Attachments));
    KeyedMapKeyed(page.todos, KeyName(Todos));
    KeyedMapKeyed(page.prompts, KeyName(Prompts));
  }

  lemma SnapshotHasShape(state: State, agentId: Option<string>, snapshot: Page)
    requires ItemsShape(snapshot.items)
    ensures Shape(SnapshotState(state, agentId, snapshot))
  {
    PageHasShape(snapshot.(
      agentId := if agentId.Some? then agentId.value else state.agentId,
      pendingInteractions := {},
      cursor := None));
  }

  lemma StepUpsertKeepsShape(order: ItemOrder, state: State, operation: Operation)
    requires Shape(state) && operation.StepUpsert?
    ensures Shape(ApplyOperation(order, state, operation).state)
  {
    var at := FindTurn(state.items, operation.turnId);
    if at.Some? && operation.step.Some? {
      var turn := state.items[at.value].turn;
      assert ItemShape(state.items[at.value]);
      UpsertStepKeepsShape(turn.steps, operation.step.value);
      PutStepsKeepsShape(state.items, at.value, UpsertStep(turn.steps, operation.step.value));
    }
  }

  lemma FrameUpsertKeepsShape(order: ItemOrder, state: State, operation: Operation)
    requires Shape(state) && operation.FrameUpsert?
    ensures Shape(ApplyOperation(order, state, operation).state)
  {
    var at := FindStep(state.items, operation.turnId, operation.stepId);
    if at.Some? && operation.frame.Some? {
      var step := StepAt(state.items, at.value);
      assert ItemShape(state.items[at.value.0]);
      UpsertFrameKeepsShape(step, operation.frame.value);
      PutStepKeepsShape(state.items, at.value, step.(frames := UpsertFrame(step.frames, operation.frame.value)));
    }
  }

  lemma RewritingKeepsShape(items: seq<Item>, turnId: string, stepId: string, frameId: string, text: Text)
    requires ItemsShape(items) && FindFrame(items, turnId, stepId, frameId).Some?
    ensures ItemsShape(RewriteFrame(items, turnId, stepId, frameId, text))
  {
    var at := FindStep(items, turnId, stepId).value;
    var step := StepAt(items, at);
    var k := IndexOf(FrameIds(step.frames), frameId).value;
    var frames := step.frames[k := step.frames[k].(text := Some(text))];
    assert ItemShape(items[at.0]);
    assert FrameIds(frames) == FrameIds(step.frames);
    PutStepKeepsShape(items, at, step.(frames := frames));
  }

  lemma AppendKeepsShape(order: ItemOrder, state: State, operation: Operation)
    requires Shape(state) && operation.AppendFrame?
    ensures Shape(ApplyOperation(order, state, operation).state)
  {
    AppendFrameCases(order, state, operation);
    var frame := FindFrame(state.items, operation.turnId, operation.stepId, operation.frameId);
    if frame.Some? && frame.value.text.Some? {
      RewritingKeepsShape(state.items, operation.turnId, operation.stepId, operation.frameId,
        frame.value.text.value + operation.text);
    }
  }

  lemma ItemListKeepsShape(order: ItemOrder, state: State, operation: Operation)
    requires Shape(state) && PayloadShape(operation)
    requires operation.TurnUpsert? || operation.ItemUpsert? || operation.ItemsRemove?
    ensures Shape(ApplyOperation(order, state, operation).state)
  {
    match operation
    case TurnUpsert(head) => UpsertTurnKeepsShape(order, state.items, head);
    case ItemUpsert(item) => PutItemKeepsShape(state.items, item);
    case ItemsRemove(ids) => WithoutIdsKeepsShape(state.items, ids);
  }

  lemma TableUpsertKeepsKeys(tables: Tables, table: Table, value: Json)
    requires TablesKeyed(tables)
    ensures TablesKeyed(UpsertInTable(tables, table, value))
  {
    var name := KeyName(table);
    var key := KeyOf(value, name);
    if key.Some? {
      KeepsKeyed(tables.interactions, name, value);
      KeepsKeyed(tables.attachments, name, value);
      KeepsKeyed(tables.todos, name, value);
      KeepsKeyed(tables.prompts, name, value);
    }
  }

  lemma KeepsKeyed(m: map<string, Json>, name: string, value: Json)
    requires KeyOf(value, name).Some?
    ensures KeyedBy(m, name) ==> KeyedBy(m[KeyOf(value, name).value := value], name)
  {
  }

  lemma TaskOperationKeepsShape(order: ItemOrder, state: State, operation: Operation)
    requires Shape(state)
    requires operation.AppendTask? || operation.TaskUpsert?
    ensures Shape(ApplyOperation(order, state, operation).state)
  {
  }

  lemma OperationKeepsShape(order: ItemOrder, state: State, operation: Operation)
    requires Shape(state) && PayloadShape(operation)
    ensures Shape(ApplyOperation(order, state, operation).state)
  {
    match operation
    case Reset(agentId, snapshot) =>
      if snapshot.Some? { SnapshotHasShape(state, agentId, snapshot.value); }
    case StepUpsert(_, _) => StepUpsertKeepsShape(order, state, operation);
    case FrameUpsert(_, _, _) => FrameUpsertKeepsShape(order, state, operation);
    case AppendFrame(_, _, _, _, _) => AppendKeepsShape(order, state, operation);
    case MetaMerge(_) =>
    case Unknown =>
    case TurnUpsert(_) => ItemListKeepsShape(order, state, operation);
    case ItemUpsert(_) => ItemListKeepsShape(order, state, operation);
    case ItemsRemove(_) => ItemListKeepsShape(order, state, operation);
    case TableUpsert(table, value) => TableUpsertKeepsKeys(state.tables, table, value);
    case _ => TaskOperationKeepsShape(order, state, operation);
  }

  lemma {:induction false} RunKeepsShape(order: ItemOrder, state: State, operations: seq<Operation>)
    requires Shape(state) && forall i :: 0 <= i < |operations| ==> PayloadShape(operations[i])
    ensures Shape(RunOperations(order, state, operations).state)
    decreases |operations|
  {
    if operations != [] {
      OperationKeepsShape(order, state, operations[0]);
      RunKeepsShape(order, ApplyOperation(order, state, operations[0]).state, operations[1..]);
    }
  }

  /** Every batch keeps the shape, and a sequenced one never moves the cursor back. */
  lemma BatchKeepsShape(order: ItemOrder, state: State, operations: seq<Operation>, sequence: Option<int>)
    requires Shape(state) && forall i :: 0 <= i < |operations| ==> PayloadShape(operations[i])
    ensures var next := ApplyTranscriptOps(order, state, operations, sequence);
      && Shape(next.state)
      && (next.gap ==> next.state == state)
      && (sequence.Some? ==> next.state.cursor >= state.cursor)
  {
    RunKeepsShape(order, state, operations);
  }

  /** So does every page, and one with a positive cursor never moves a positive cursor back. */
  lemma ResetKeepsShape(state: State, page: Page)
    requires Shape(state) && ItemsShape(page.items)
    ensures var next := ApplyTranscriptReset(Some(state), page);
      && Shape(next)
      && (page.cursor.Some? && page.cursor.value > 0 ==> next.cursor >= state.cursor)
      && (state.items != [] ==> next.items != [])
  {
    PageHasShape(page);
  }

  /** An older page goes in front of what is shown and keeps the shape. */
  lemma PrependKeepsShape(state: State, page: Page)
    requires Shape(state) && ItemsShape(page.items)
    ensures var next := PrependTranscriptPage(state, page);
      && Shape(next)
      && |state.items| <= |next.items|
      && next.items[|next.items| - |state.items|..] == state.items
  {
    var known := set id | id in ItemIds(state.items);
    var added := WithoutIds(page.items, known);
    WithoutIdsKeepsShape(page.items, known);
    assert ItemIds(added + state.items) == ItemIds(added) + ItemIds(state.items);
    forall i | 0 <= i < |added| ensures ItemIds(added)[i] !in ItemIds(state.items) {
      assert added[i] in added;
    }
  }

  /** It loses no item of the page and adds none a second time. */
  lemma PrependIsCompleteAndIdempotent(state: State, page: Page)
    ensures var next := PrependTranscriptPage(state, page);
      && (forall id :: id in ItemIds(next.items) <==> id in ItemIds(state.items) || id in ItemIds(page.items))
      && PrependTranscriptPage(next, page) == next
  {
    var next := PrependTranscriptPage(state, page);
    forall id ensures id in ItemIds(next.items) <==> id in ItemIds(state.items) || id in ItemIds(page.items) {
      IdsAfterPrepend(state, page, id);
    }
    forall i | 0 <= i < |page.items| ensures ItemId(page.items[i]) in ItemIds(next.items) {
      assert ItemId(page.items[i]) == ItemIds(page.items)[i];
    }
    NothingRemains(page.items, set id | id in ItemIds(next.items));
  }

  lemma IdsAfterPrepend(state: State, page: Page, id: string)
    ensures id in ItemIds(PrependTranscriptPage(state, page).items) <==>
      id in ItemIds(state.items) || id in ItemIds(page.items)
  {
    var known := set id | id in ItemIds(state.items);
    var added := WithoutIds(page.items, known);
    assert ItemIds(added + state.items) == ItemIds(added) + ItemIds(state.items);
    IdsOfRemaining(page.items, known, id);
  }

  lemma IdsOfRemaining(items: seq<Item>, ids: set<string>, id: string)
    ensures id in ItemIds(WithoutIds(items, ids)) <==> id in ItemIds(items) && id !in ids
  {
    var kept := WithoutIds(items, ids);
    if id in ItemIds(kept) {
      var i :| 0 <= i < |kept| && ItemIds(kept)[i] == id;
      assert kept[i] in kept;
      var j :| 0 <= j < |items| && items[j] == kept[i];
      assert ItemIds(items)[j] == id;
    }
    if id in ItemIds(items) && id !in ids {
      var j :| 0 <= j < |items| && ItemIds(items)[j] == id;
      assert items[j] in kept;
      var i :| 0 <= i < |kept| && kept[i] == items[j];
      assert ItemIds(kept)[i] == id;
    }
  }

  lemma NothingRemains(items: seq<Item>, ids: set<string>)
    requires forall i :: 0 <= i < |items| ==> ItemId(items[i]) in ids
    ensures WithoutIds(items, ids) == []
  {
    assert forall item :: item in items ==> ItemId(item) in ids;
  }

  // ---------- turn order ----------

  /** A standard-conforming engine has one choice when every item is a turn. */
  ghost predicate SortsTurns(order: ItemOrder) {
    forall keys: seq<SortKey> :: (forall i :: 0 <= i < |keys| ==> keys[i].TurnKey?) ==>
      order(keys) == StableOrder(Ordinals(keys))
  }

  function Ordinals(keys: seq<SortKey>): seq<int>
    requires forall i :: 0 <= i < |keys| ==> keys[i].TurnKey?
  {
    seq(|keys|, i requires 0 <= i < |keys| => keys[i].ordinal)
  }

  lemma {:induction false} SortedTurnsAreInOrder(order: ItemOrder, items: seq<Item>)
    requires SortsTurns(order) && forall i :: 0 <= i < |items| ==> items[i].TurnItem?
    ensures var next := SortItems(order, items);
      && (forall i :: 0 <= i < |next| ==> next[i].TurnItem?)
      && (forall i, j :: 0 <= i < j < |next| ==> next[i].turn.ordinal <= next[j].turn.ordinal)
  {
    var keys := Ordinals(SortKeys(items));
    var p := StableOrder(keys);
    var next := Arrange(items, p);
    assert order(SortKeys(items)) == p;
    forall i, j | 0 <= i < j < |next| ensures next[i].turn.ordinal <= next[j].turn.ordinal {
      assert Before(keys, p[i], p[j]);
    }
  }

  /** Among turns only, an upsert leaves the turns in ordinal order. */
  lemma TurnsAreInOrder(order: ItemOrder, items: seq<Item>, head: TurnHead)
    requires SortsTurns(order) && forall i :: 0 <= i < |items| ==> items[i].TurnItem?
    ensures var next := UpsertTurn(order, items, head);
      && (forall i :: 0 <= i < |next| ==> next[i].TurnItem?)
      && (forall i, j :: 0 <= i < j < |next| ==> next[i].turn.ordinal <= next[j].turn.ordinal)
  {
    var at := FindTurn(items, head.turnId);
    var steps := if at.Some? then items[at.value].turn.steps else [];
    SortedTurnsAreInOrder(order, Put(items, at, TurnItem(Turn(head.turnId, head.ordinal, head.body, steps))));
  }
}
