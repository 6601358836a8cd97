/**
  What each operation does to a whole transcript, told by lookups in the result: when it is a gap, what
  the thing it names now is, and that everything else is as before.
*/
module TranscriptEffects {
  import opened Wrappers
  import opened Json
  import opened Ordering
  import opened Transcript
  import opened TranscriptShape
  import opened TranscriptLookup

  // ---------- what stays ----------

  predicate SameHeader(a: State, b: State) {
    && a.agentId == b.agentId && a.cursor == b.cursor
    && a.hasMoreOlder == b.hasMoreOlder && a.pendingInteractions == b.pendingInteractions
  }

  predicate SameMaps(a: State, b: State) {
    a.tasks == b.tasks && a.tables == b.tables && a.meta == b.meta
  }

  function BareSteps(steps: seq<Step>): seq<Step> {
    seq(|steps|, j requires 0 <= j < |steps| => steps[j].(frames := []))
  }

  /** The item without its frames. */
  function Bare(item: Item): Item {
    if item.TurnItem? then TurnItem(item.turn.(steps := BareSteps(item.turn.steps))) else item
  }

  /** The same turns, steps, markers and task references in the same places. */
  predicate SameTree(a: seq<Item>, b: seq<Item>) {
    |a| == |b| && forall i :: 0 <= i < |a| ==> Bare(a[i]) == Bare(b[i])
  }

  function Entries(tables: Tables, table: Table): map<string, Json> {
    match table
    case Interactions => tables.interactions
    case Attachments => tables.attachments
    case Todos => tables.todos
    case Prompts => tables.prompts
  }

  // ---------- when an operation is a gap ----------

  /** The operation brings nothing, or what it names is missing, or its text starts past the end. */
  predicate Misfits(state: State, operation: Operation) {
    match operation
    case Reset(_, snapshot) => snapshot.None?
    case StepUpsert(turnId, step) => step.None? || ItemOf(state.items, "turn:" + turnId).None?
    case FrameUpsert(turnId, stepId, frame) => frame.None? || FindStep(state.items, turnId, stepId).None?
    case AppendFrame(turnId, stepId, frameId, offset, _) =>
      var frame := FindFrame(state.items, turnId, stepId, frameId);
      frame.None? || frame.value.text.None? || (offset.Some? && offset.value > |frame.value.text.value|)
    case AppendTask(taskId, offset, _) =>
      taskId !in state.tasks || (offset.Some? && offset.value > |state.tasks[taskId].outputTail|)
    case Unknown => true
    case _ => false
  }

  lemma GapsAreMisfits(order: ItemOrder, state: State, operation: Operation)
    ensures ApplyOperation(order, state, operation).gap <==> Misfits(state, operation)
    ensures Misfits(state, operation) ==> ApplyOperation(order, state, operation).state == state
  {
    match operation
    case StepUpsert(turnId, _) => FindTurnIsIndexOf(state.items, turnId);
    case AppendFrame(_, _, _, _, _) => AppendFrameCases(order, state, operation);
    case _ =>
  }

  // ---------- turns ----------

  /** The turn has its new head and its old steps; it is there once, and nothing else has changed. */
  lemma TurnUpsertEffect(order: ItemOrder, state: State, head: TurnHead)
    requires ItemsShape(state.items)
    ensures var next := ApplyOperation(order, state, TurnUpsert(head)).state;
      var id := "turn:" + head.turnId;
      var known := ItemOf(state.items, id);
      var steps := if known.Some? && known.value.TurnItem? then known.value.turn.steps else [];
      && ItemOf(next.items, id) == Some(TurnItem(Turn(head.turnId, head.ordinal, head.body, steps)))
      && (forall other :: other != id ==> ItemOf(next.items, other) == ItemOf(state.items, other))
      && |next.items| == |state.items| + (if known.Some? then 0 else 1)
      && Unique(ItemIds(next.items))
      && SameHeader(state, next) && SameMaps(state, next)
  {
    var next := ApplyOperation(order, state, TurnUpsert(head)).state;
    UpsertTurnKeepsShape(order, state.items, head);
    FindTurnIsIndexOf(state.items, head.turnId);
    TurnUpsertStores(order, state.items, head, "turn:" + head.turnId);
    forall other | other != "turn:" + head.turnId ensures ItemOf(next.items, other) == ItemOf(state.items, other) {
      TurnUpsertStores(order, state.items, head, other);
    }
  }

  /** Whatever ids the items have, the first turn of the name is replaced, or one is added, and sorting loses none. */
  lemma TurnUpsertKeepsItems(order: ItemOrder, state: State, head: TurnHead)
    ensures var next := ApplyOperation(order, state, TurnUpsert(head)).state;
      var at := FindTurn(state.items, head.turnId);
      if at.Some? then
        var turn := state.items[at.value].turn;
        multiset(next.items) == multiset(state.items[at.value :=
          TurnItem(Turn(head.turnId, head.ordinal, head.body, turn.steps))])
      else
        multiset(next.items) == multiset(state.items + [TurnItem(Turn(head.turnId, head.ordinal, head.body, []))])
  {
    var at := FindTurn(state.items, head.turnId);
    var steps := if at.Some? then state.items[at.value].turn.steps else [];
    var put := Put(state.items, at, TurnItem(Turn(head.turnId, head.ordinal, head.body, steps)));
    ArrangeKeepsElements(put, order(SortKeys(put)));
  }

  // ---------- steps ----------

  /** The turn keeps its place and head; the step has its new head and its old frames, every other step is as before. */
  lemma StepUpsertEffect(order: ItemOrder, state: State, turnId: string, head: StepHead)
    requires ItemsShape(state.items) && FindTurn(state.items, turnId).Some?
    ensures var next := ApplyOperation(order, state, StepUpsert(turnId, Some(head))).state;
      var at := FindTurn(state.items, turnId).value;
      var turn := state.items[at].turn;
      && |next.items| == |state.items|
      && (forall i :: 0 <= i < |state.items| && i != at ==> next.items[i] == state.items[i])
      && next.items[at].TurnItem? && next.items[at].turn.(steps := turn.steps) == turn
      && StepOf(next.items[at].turn.steps, head.stepId) == Some(Step(head.stepId, head.ordinal, head.body,
        if StepOf(turn.steps, head.stepId).Some? then StepOf(turn.steps, head.stepId).value.frames else []))
      && (forall id :: id != head.stepId ==> StepOf(next.items[at].turn.steps, id) == StepOf(turn.steps, id))
      && InOrder(next.items[at].turn.steps)
      && SameHeader(state, next) && SameMaps(state, next)
  {
    var at := FindTurn(state.items, turnId).value;
    var turn := state.items[at].turn;
    assert ItemShape(state.items[at]);
    UpsertStepKeepsShape(turn.steps, head);
    StepUpsertStores(turn.steps, head, head.stepId);
    forall id | id != head.stepId ensures StepOf(UpsertStep(turn.steps, head), id) == StepOf(turn.steps, id) {
      StepUpsertStores(turn.steps, head, id);
    }
  }

  // ---------- frames ----------

  lemma PutStepKeepsTree(items: seq<Item>, at: (nat, nat), step: Step)
    requires at.0 < |items| && items[at.0].TurnItem? && at.1 < |items[at.0].turn.steps|
    requires step.(frames := []) == StepAt(items, at).(frames := [])
    ensures SameTree(items, PutStep(items, at, step))
  {
    var steps := items[at.0].turn.steps;
    assert BareSteps(steps[at.1 := step]) == BareSteps(steps);
  }

  /** With ids kept, lookups of frames in other steps are as before. */
  lemma OtherStepsKeepFrames(items: seq<Item>, at: (nat, nat), step: Step, turnId: string, stepId: string,
    frameId: string)
    requires at.0 < |items| && items[at.0].TurnItem? && at.1 < |items[at.0].turn.steps|
    requires step.stepId == StepAt(items, at).stepId && FindStep(items, turnId, stepId) != Some(at)
    ensures FindFrame(PutStep(items, at, step), turnId, stepId, frameId) == FindFrame(items, turnId, stepId, frameId)
  {
    PutStepKeepsPlaces(items, at, step, turnId, stepId);
  }

  /** A step is found under one pair of names. */
  lemma OnePlaceOneName(items: seq<Item>, at: (nat, nat), turnId: string, stepId: string, turnId': string,
    stepId': string)
    requires FindStep(items, turnId, stepId) == Some(at) && FindStep(items, turnId', stepId') == Some(at)
    ensures turnId == turnId' && stepId == stepId'
  {
  }

  lemma OtherFramesStay(items: seq<Item>, turnId: string, stepId: string, frame: Frame, t: string, s: string,
    f: string)
    requires FindStep(items, turnId, stepId).Some? && (t, s, f) != (turnId, stepId, frame.frameId)
    ensures var at := FindStep(items, turnId, stepId).value;
      var step := StepAt(items, at);
      FindFrame(PutStep(items, at, step.(frames := UpsertFrame(step.frames, frame))), t, s, f)
      == FindFrame(items, t, s, f)
  {
    var at := FindStep(items, turnId, stepId).value;
    var step := StepAt(items, at);
    var put := step.(frames := UpsertFrame(step.frames, frame));
    if FindStep(items, t, s) == Some(at) {
      OnePlaceOneName(items, at, turnId, stepId, t, s);
      FrameUpsertStores(step.frames, frame, f);
      PutStepKeepsPlaces(items, at, put, t, s);
    } else {
      OtherStepsKeepFrames(items, at, put, t, s, f);
    }
  }

  /** The frame is found under its name, every other frame is as before, and the tree has not changed. */
  lemma FrameUpsertEffect(order: ItemOrder, state: State, turnId: string, stepId: string, frame: Frame)
    requires FindStep(state.items, turnId, stepId).Some?
    ensures var next := ApplyOperation(order, state, FrameUpsert(turnId, stepId, Some(frame))).state;
      && FindFrame(next.items, turnId, stepId, frame.frameId) == Some(frame)
      && (forall t, s, f :: (t, s, f) != (turnId, stepId, frame.frameId) ==>
            FindFrame(next.items, t, s, f) == FindFrame(state.items, t, s, f))
      && SameTree(state.items, next.items)
      && SameHeader(state, next) && SameMaps(state, next)
  {
    var at := FindStep(state.items, turnId, stepId).value;
    var step := StepAt(state.items, at);
    var put := step.(frames := UpsertFrame(step.frames, frame));
    var next := ApplyOperation(order, state, FrameUpsert(turnId, stepId, Some(frame))).state;
    PutStepKeepsTree(state.items, at, put);
    PutStepKeepsPlaces(state.items, at, put, turnId, stepId);
    FrameUpsertStores(step.frames, frame, frame.frameId);
    forall t, s, f | (t, s, f) != (turnId, stepId, frame.frameId)
      ensures FindFrame(next.items, t, s, f) == FindFrame(state.items, t, s, f)
    {
      OtherFramesStay(state.items, turnId, stepId, frame, t, s, f);
    }
  }

  /**
    Where an append extends, its frame has the longer text and every other frame is as before;
    elsewhere nothing changes.
  */
  lemma AppendFrameEffect(order: ItemOrder, state: State, operation: Operation)
    requires operation.AppendFrame? && !Misfits(state, operation)
    ensures var AppendFrame(turnId, stepId, frameId, offset, text) := operation;
      var next := ApplyOperation(order, state, operation).state;
      var frame := FindFrame(state.items, turnId, stepId, frameId).value;
      if offset.Some? && offset.value < |frame.text.value| then next == state
      else
        && FindFrame(next.items, turnId, stepId, frameId) == Some(frame.(text := Some(frame.text.value + text)))
        && (forall t, s, f :: (t, s, f) != (turnId, stepId, frameId) ==>
              FindFrame(next.items, t, s, f) == FindFrame(state.items, t, s, f))
        && SameTree(state.items, next.items)
        && SameHeader(state, next) && SameMaps(state, next)
  {
    var AppendFrame(turnId, stepId, frameId, offset, text) := operation;
    AppendFrameCases(order, state, operation);
    var frame := FindFrame(state.items, turnId, stepId, frameId).value;
    if !(offset.Some? && offset.value < |frame.text.value|) {
      var next := RewriteFrame(state.items, turnId, stepId, frameId, frame.text.value + text);
      var at := FindStep(state.items, turnId, stepId).value;
      var step := StepAt(state.items, at);
      var k := IndexOf(FrameIds(step.frames), frameId).value;
      var put := step.(frames := step.frames[k := step.frames[k].(text := Some(frame.text.value + text))]);
      PutStepKeepsTree(state.items, at, put);
      forall t, s, f ensures FindFrame(next, t, s, f) ==
        if (t, s, f) == (turnId, stepId, frameId) then Some(frame.(text := Some(frame.text.value + text)))
        else FindFrame(state.items, t, s, f)
      {
        RewrittenFrame(state.items, turnId, stepId, frameId, frame.text.value + text, t, s, f);
      }
    }
  }

  lemma RewrittenFrame(items: seq<Item>, turnId: string, stepId: string, frameId: string, text: Text, t: string,
    s: string, f: string)
    requires FindFrame(items, turnId, stepId, frameId).Some?
    ensures FindFrame(RewriteFrame(items, turnId, stepId, frameId, text), t, s, f) ==
      if (t, s, f) == (turnId, stepId, frameId)
      then Some(FindFrame(items, turnId, stepId, frameId).value.(text := Some(text)))
      else FindFrame(items, t, s, f)
  {
    RewritingKeepsPlaces(items, turnId, stepId, frameId, text, t, s);
  }

  // ---------- items ----------

  /** The item is found under its id where the id was, or else at the end; every other item is as before. */
  lemma ItemUpsertEffect(order: ItemOrder, state: State, item: Item)
    ensures var next := ApplyOperation(order, state, ItemUpsert(item)).state;
      && ItemOf(next.items, ItemId(item)) == Some(item)
      && (forall id :: id != ItemId(item) ==> ItemOf(next.items, id) == ItemOf(state.items, id))
      && ItemIds(next.items) ==
        (if ItemId(item) in ItemIds(state.items) then ItemIds(state.items) else ItemIds(state.items) + [ItemId(item)])
      && SameHeader(state, next) && SameMaps(state, next)
  {
    var next := ApplyOperation(order, state, ItemUpsert(item)).state;
    PutItemStores(state.items, item, ItemId(item));
    forall id | id != ItemId(item) ensures ItemOf(next.items, id) == ItemOf(state.items, id) {
      PutItemStores(state.items, item, id);
    }
  }

  /** Exactly the items with ids not listed are left, in order. */
  lemma ItemsRemoveEffect(order: ItemOrder, state: State, ids: set<string>)
    ensures var next := ApplyOperation(order, state, ItemsRemove(ids)).state;
      var at := Unlisted(state.items, ids);
      && |next.items| == |at|
      && (forall k :: 0 <= k < |at| ==> next.items[k] == state.items[at[k]])
      && (forall k, k' :: 0 <= k < k' < |at| ==> at[k] < at[k'])
      && (forall i :: 0 <= i < |state.items| ==> (i in at <==> ItemId(state.items[i]) !in ids))
      && SameHeader(state, next) && SameMaps(state, next)
  {
    RemovalKeepsOrder(state.items, ids);
    forall i | 0 <= i < |state.items| ensures i in Unlisted(state.items, ids) <==> ItemId(state.items[i]) !in ids {
      UnlistedPositions(state.items, ids, i);
    }
  }

  // ---------- tasks, tables, metadata ----------

  lemma TaskUpsertEffect(order: ItemOrder, state: State, task: Option<Task>)
    ensures var next := ApplyOperation(order, state, TaskUpsert(task)).state;
      && (task.None? ==> next == state)
      && (task.Some? ==> task.value.taskId in next.tasks && next.tasks[task.value.taskId] == task.value)
      && (forall id :: task.None? || id != task.value.taskId ==>
            (id in next.tasks <==> id in state.tasks) && (id in state.tasks ==> next.tasks[id] == state.tasks[id]))
      && next == state.(tasks := next.tasks)
  {
  }

  /**
    Where an append extends, its task has the longer tail and every other task is as before; elsewhere
    nothing changes. The task is stored under the id it carries, which is the id it was found by.
  */
  lemma AppendTaskEffect(order: ItemOrder, state: State, operation: Operation)
    requires operation.AppendTask? && !Misfits(state, operation)
    ensures var AppendTask(taskId, offset, text) := operation;
      var next := ApplyOperation(order, state, operation).state;
      var task := state.tasks[taskId];
      if offset.Some? && offset.value < |task.outputTail| then next == state
      else
        && next.tasks.Keys == state.tasks.Keys + {task.taskId}
        && next.tasks[task.taskId] == task.(outputTail := task.outputTail + text)
        && (forall id :: id in state.tasks && id != task.taskId ==> next.tasks[id] == state.tasks[id])
        && (TasksKeyed(state.tasks) ==> task.taskId == taskId)
        && next == state.(tasks := next.tasks)
  {
  }

  /** The value is found under its own string key in its own table; every other entry of every table is as before. */
  lemma TableUpsertEffect(order: ItemOrder, state: State, table: Table, value: Json)
    ensures var next := ApplyOperation(order, state, TableUpsert(table, value)).state;
      var key := KeyOf(value, KeyName(table));
      && (key.None? ==> next == state)
      && (key.Some? ==>
            key.value in Entries(next.tables, table) && Entries(next.tables, table)[key.value] == value)
      && (forall t, k :: t != table || key.None? || k != key.value ==>
            && (k in Entries(next.tables, t) <==> k in Entries(state.tables, t))
            && (k in Entries(state.tables, t) ==> Entries(next.tables, t)[k] == Entries(state.tables, t)[k]))
      && next == state.(tables := next.tables)
  {
  }

  /** A null deletes its key, an object is merged into an object, anything else replaces; other keys stay. */
  predicate MergedAt(was: map<string, Json>, patch: map<string, Json>, now: map<string, Json>, key: string) {
    if key !in patch then (key in now <==> key in was) && (key in was ==> now[key] == was[key])
    else if patch[key].Null? then key !in now
    else
      && key in now
      && now[key] ==
        if patch[key].Object? && key in was && was[key].Object? then DeepMerge(was[key], patch[key]) else patch[key]
  }

  lemma MetaMergeEffect(order: ItemOrder, state: State, patch: JsonObject)
    ensures var next := ApplyOperation(order, state, MetaMerge(patch)).state;
      && (forall key :: MergedAt(state.meta.fields, patch.fields, next.meta.fields, key))
      && next == state.(meta := next.meta)
  {
    var now := DeepMerge(state.meta, patch).fields;
    forall key ensures MergedAt(state.meta.fields, patch.fields, now, key) {
      if key in now { assert now[key] == MergeField(state.meta, patch, key); }
    }
  }

  // ---------- pages and snapshots ----------

  lemma KeyOfIsTheString(value: Json, name: string, key: string)
    ensures KeyOf(value, name) == Some(key) <==>
      value.Object? && name in value.fields && value.fields[name] == String(key)
  {
  }

  /** Which field of a page goes where; a missing cursor is 0. */
  lemma PageFields(page: Page)
    ensures var state := TranscriptFromPage(page);
      && state.agentId == page.agentId && state.items == page.items && state.meta == page.meta
      && state.hasMoreOlder == page.hasMore && state.pendingInteractions == page.pendingInteractions
      && (page.cursor.Some? ==> state.cursor == page.cursor.value) && (page.cursor.None? ==> state.cursor == 0)
      && HoldsLast(page.interactions, "interactionId", state.tables.interactions)
      && HoldsLast(page.attachments, "attachmentId", state.tables.attachments)
      && HoldsLast(page.todos, "todoId", state.tables.todos)
      && HoldsLast(page.prompts, "promptId", state.tables.prompts)
      && HoldsLastTasks(page.tasks, state.tasks)
    ensures ApplyTranscriptReset(None, page) == TranscriptFromPage(page)
  {
    KeyedMapHoldsLast(page.interactions, "interactionId");
    KeyedMapHoldsLast(page.attachments, "attachmentId");
    KeyedMapHoldsLast(page.todos, "todoId");
    KeyedMapHoldsLast(page.prompts, "promptId");
    TasksByIdHoldsLast(page.tasks);
  }

  /** The empty transcript is what an empty page of the agent becomes. */
  lemma EmptyIsEmptyPage(agentId: string)
    ensures EmptyTranscript(agentId) ==
      TranscriptFromPage(Page(agentId, [], false, [], [], [], [], [], Json.Object(map[]), {}, None))
  {
  }

  /** Position `i` is the last value with its key. */
  predicate LastWith(values: seq<Json>, name: string, key: string, i: nat) {
    && i < |values| && KeyOf(values[i], name) == Some(key)
    && forall j :: i < j < |values| ==> KeyOf(values[j], name) != Some(key)
  }

  /** Under each string that some value has under the name, the last such value; nothing else. */
  ghost predicate HoldsLast(values: seq<Json>, name: string, m: map<string, Json>) {
    && (forall key :: key in m ==> exists i: nat :: LastWith(values, name, key, i) && m[key] == values[i])
    && (forall i: nat, key :: LastWith(values, name, key, i) ==> key in m && m[key] == values[i])
  }

  lemma {:induction false} KeyedMapHoldsLast(values: seq<Json>, name: string)
    ensures HoldsLast(values, name, KeyedMap(values, name))
    decreases |values|
  {
    var m := KeyedMap(values, name);
    if values != [] {
      var n := |values| - 1;
      var front := values[..n];
      KeyedMapHoldsLast(front, name);
      forall key | key in m ensures exists i: nat :: LastWith(values, name, key, i) && m[key] == values[i] {
        if KeyOf(values[n], name) == Some(key) {
          assert LastWith(values, name, key, n);
        } else {
          var i: nat :| LastWith(front, name, key, i) && KeyedMap(front, name)[key] == front[i];
          assert LastWith(values, name, key, i);
        }
      }
      forall i: nat, key | LastWith(values, name, key, i) ensures key in m && m[key] == values[i] {
        if i < n {
          assert LastWith(front, name, key, i);
          assert KeyOf(values[n], name) != Some(key);
        }
      }
    }
  }

  predicate LastTaskAt(tasks: seq<Task>, i: nat) {
    i < |tasks| && forall j :: i < j < |tasks| ==> tasks[j].taskId != tasks[i].taskId
  }

  ghost predicate HoldsLastTasks(tasks: seq<Task>, m: map<string, Task>) {
    && (forall id :: id in m ==> exists i: nat :: LastTaskAt(tasks, i) && tasks[i].taskId == id && m[id] == tasks[i])
    && (forall i: nat :: LastTaskAt(tasks, i) ==> tasks[i].taskId in m && m[tasks[i].taskId] == tasks[i])
  }

  lemma {:induction false} TasksByIdHoldsLast(tasks: seq<Task>)
    ensures HoldsLastTasks(tasks, TasksById(tasks))
    decreases |tasks|
  {
    var m := TasksById(tasks);
    if tasks != [] {
      var n := |tasks| - 1;
      var front := tasks[..n];
      TasksByIdHoldsLast(front);
      forall id | id in m
        ensures exists i: nat :: LastTaskAt(tasks, i) && tasks[i].taskId == id && m[id] == tasks[i]
      {
        if tasks[n].taskId == id {
          assert LastTaskAt(tasks, n);
        } else {
          var i: nat :| LastTaskAt(front, i) && front[i].taskId == id && TasksById(front)[id] == front[i];
          assert LastTaskAt(tasks, i);
        }
      }
      forall i: nat | LastTaskAt(tasks, i) ensures tasks[i].taskId in m && m[tasks[i].taskId] == tasks[i] {
        if i < n {
          assert LastTaskAt(front, i);
          assert tasks[n].taskId != tasks[i].taskId;
        }
      }
    }
  }

  /** A snapshot replaces everything; the agent stays if none is named, nothing is pending, and the cursor is 0. */
  lemma ResetEffect(order: ItemOrder, state: State, agentId: Option<string>, snapshot: Page)
    ensures var next := ApplyOperation(order, state, Reset(agentId, Some(snapshot))).state;
      && next.agentId == (if agentId.Some? then agentId.value else state.agentId)
      && next.items == snapshot.items && next.meta == snapshot.meta && next.hasMoreOlder == snapshot.hasMore
      && next.pendingInteractions == {} && next.cursor == 0
      && HoldsLast(snapshot.interactions, "interactionId", next.tables.interactions)
      && HoldsLast(snapshot.attachments, "attachmentId", next.tables.attachments)
      && HoldsLast(snapshot.todos, "todoId", next.tables.todos)
      && HoldsLast(snapshot.prompts, "promptId", next.tables.prompts)
      && HoldsLastTasks(snapshot.tasks, next.tasks)
  {
    PageFields(snapshot.(
      agentId := if agentId.Some? then agentId.value else state.agentId,
      pendingInteractions := {},
      cursor := None));
  }

  /** An older page changes the items and whether more are to come, and nothing else. */
  lemma PrependEffect(state: State, page: Page)
    ensures var next := PrependTranscriptPage(state, page);
      && next == state.(items := next.items, hasMoreOlder := page.hasMore)
      && |next.items| == |Unlisted(page.items, set id | id in ItemIds(state.items))| + |state.items|
  {
    RemovalKeepsOrder(page.items, set id | id in ItemIds(state.items));
  }

  // ---------- batches ----------

  /**
    A batch that is stale does nothing, and one that is ahead is a gap; any other is a gap exactly if its
    operations run into one, and otherwise leaves their result under its number or, without one, theirs.
  */
  lemma BatchOutcome(order: ItemOrder, current: State, operations: seq<Operation>, sequence: Option<int>)
    ensures var result := ApplyTranscriptOps(order, current, operations, sequence);
      var run := RunOperations(order, current, operations);
      var stale := sequence.Some? && sequence.value <= current.cursor;
      var ahead := sequence.Some? && current.cursor > 0 && sequence.value > current.cursor + 1;
      && (result.gap <==> ahead || (!stale && run.gap))
      && (result.gap || stale ==> result.state == current)
      && (!result.gap && !stale ==>
            && result.state.(cursor := run.state.cursor) == run.state
            && result.state.cursor == if sequence.Some? then sequence.value else run.state.cursor)
  {
  }

  /** The operations run in order up to the first that does not fit. */
  lemma {:induction false} RunStopsAtTheFirstMisfit(order: ItemOrder, state: State, operations: seq<Operation>, d: nat)
    requires d < |operations|
    ensures var before := RunOperations(order, state, operations[..d]);
      var after := RunOperations(order, state, operations[..d + 1]);
      && (before.gap ==> after == before)
      && (!before.gap ==> (after.gap <==> Misfits(before.state, operations[d])))
  {
    RunOneMore(order, state, operations, d);
    GapsAreMisfits(order, RunOperations(order, state, operations[..d]).state, operations[d]);
  }
}
