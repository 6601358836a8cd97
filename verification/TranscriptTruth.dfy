/**
  Streamed text among all other operations: targets come into being through upserts, snapshots and
  pages, grow by appends, are upserted again and removed, while batches and pages are lost, repeated
  and reordered. Whatever happens, every text on display is a prefix of its target's true text.
*/
module TranscriptTruth {
  import opened Wrappers
  import opened Transcript
  import opened TranscriptText
  import opened TranscriptLog
  import opened TranscriptDriver

  type Truth = Target -> Text

  // ---------- texts brought whole ----------

  predicate FrameTrue(truth: Truth, turnId: string, stepId: string, frame: Frame) {
    frame.text.Some? ==> frame.text.value <= truth(FrameTarget(turnId, stepId, frame.frameId))
  }

  predicate StepTrue(truth: Truth, turnId: string, step: Step) {
    forall k :: 0 <= k < |step.frames| ==> FrameTrue(truth, turnId, step.stepId, step.frames[k])
  }

  predicate TurnTrue(truth: Truth, turn: Turn) {
    forall j :: 0 <= j < |turn.steps| ==> StepTrue(truth, turn.turnId, turn.steps[j])
  }

  predicate ItemTrue(truth: Truth, item: Item) {
    item.TurnItem? ==> TurnTrue(truth, item.turn)
  }

  predicate ItemsTrue(truth: Truth, items: seq<Item>) {
    forall i :: 0 <= i < |items| ==> ItemTrue(truth, items[i])
  }

  predicate TaskTrue(truth: Truth, task: Task) {
    task.outputTail <= truth(TaskTarget(task.taskId))
  }

  predicate TasksTrue(truth: Truth, tasks: map<string, Task>) {
    forall id :: id in tasks ==> tasks[id].taskId == id && TaskTrue(truth, tasks[id])
  }

  /** Every text of the state, found by a lookup or not, is a prefix of its target's true text. */
  predicate StateTrue(truth: Truth, state: State) {
    ItemsTrue(truth, state.items) && TasksTrue(truth, state.tasks)
  }

  predicate PageTrue(truth: Truth, page: Page) {
    ItemsTrue(truth, page.items) && forall i :: 0 <= i < |page.tasks| ==> TaskTrue(truth, page.tasks[i])
  }

  /** An append is a slice of the true text at its offset; one without an offset must bring nothing. */
  predicate AppendTrue(truth: Truth, target: Target, offset: Offset, text: Text) {
    if offset.Some? then TrueSlice(truth, Chunk(target, offset.value, text)) else text == []
  }

  predicate OperationTrue(truth: Truth, operation: Operation) {
    match operation
    case Reset(_, snapshot) => snapshot.Some? ==> PageTrue(truth, snapshot.value)
    case FrameUpsert(turnId, stepId, frame) => frame.Some? ==> FrameTrue(truth, turnId, stepId, frame.value)
    case AppendFrame(turnId, stepId, frameId, offset, text) =>
      AppendTrue(truth, FrameTarget(turnId, stepId, frameId), offset, text)
    case AppendTask(taskId, offset, text) => AppendTrue(truth, TaskTarget(taskId), offset, text)
    case ItemUpsert(item) => ItemTrue(truth, item)
    case TaskUpsert(task) => task.Some? ==> TaskTrue(truth, task.value)
    case _ => true
  }

  predicate OperationsTrue(truth: Truth, operations: seq<Operation>) {
    forall i :: 0 <= i < |operations| ==> OperationTrue(truth, operations[i])
  }

  predicate LogTrue(truth: Truth, log: Log) {
    forall i :: 0 <= i < |log| ==> OperationsTrue(truth, log[i])
  }

  // ---------- each operation ----------

  lemma AppendKeepsPrefix(truth: Truth, target: Target, shown: Text, offset: Offset, text: Text)
    requires shown <= truth(target) && AppendTrue(truth, target, offset, text)
    ensures var append := AppendTo(shown, offset, text);
      append.Extend? ==> append.text <= truth(target)
  {
    if offset.Some? && offset.value == |shown| {
      SliceExtendsPrefix(truth, Chunk(target, offset.value, text), shown);
    } else if offset.None? {
      assert shown + text == shown;
    }
  }

  lemma UpsertStepKeepsTruth(truth: Truth, turn: Turn, head: StepHead)
    requires TurnTrue(truth, turn)
    ensures TurnTrue(truth, turn.(steps := UpsertStep(turn.steps, head)))
  {
    var at := IndexOf(StepIds(turn.steps), head.stepId);
    var frames := if at.Some? then turn.steps[at.value].frames else [];
    var put := Put(turn.steps, at, Step(head.stepId, head.ordinal, head.body, frames));
    assert at.Some? ==> StepTrue(truth, turn.turnId, turn.steps[at.value]);
    forall j | 0 <= j < |put| ensures StepTrue(truth, turn.turnId, put[j]) {
      if j < |turn.steps| { assert StepTrue(truth, turn.turnId, turn.steps[j]); }
    }
  }

  lemma UpsertTurnKeepsTruth(truth: Truth, order: ItemOrder, items: seq<Item>, head: TurnHead)
    requires ItemsTrue(truth, items)
    ensures ItemsTrue(truth, UpsertTurn(order, items, head))
  {
    var at := FindTurn(items, head.turnId);
    var steps := if at.Some? then items[at.value].turn.steps else [];
    assert at.Some? ==> ItemTrue(truth, items[at.value]);
    var put := Put(items, at, TurnItem(Turn(head.turnId, head.ordinal, head.body, steps)));
    assert ItemsTrue(truth, put);
  }

  /** Replacing a step by a true one of its name. */
  lemma PutStepKeepsTruth(truth: Truth, items: seq<Item>, at: (nat, nat), step: Step)
    requires at.0 < |items| && items[at.0].TurnItem? && at.1 < |items[at.0].turn.steps|
    requires ItemsTrue(truth, items) && StepTrue(truth, items[at.0].turn.turnId, step)
    ensures ItemsTrue(truth, PutStep(items, at, step))
  {
    assert ItemTrue(truth, items[at.0]);
  }

  lemma StepUpsertKeepsTruth(truth: Truth, order: ItemOrder, state: State, operation: Operation)
    requires StateTrue(truth, state) && operation.StepUpsert?
    ensures StateTrue(truth, ApplyOperation(order, state, operation).state)
  {
    var at := FindTurn(state.items, operation.turnId);
    if at.Some? && operation.step.Some? {
      assert ItemTrue(truth, state.items[at.value]);
      UpsertStepKeepsTruth(truth, state.items[at.value].turn, operation.step.value);
    }
  }

  lemma FoundStepIsTrue(truth: Truth, items: seq<Item>, turnId: string, stepId: string)
    requires ItemsTrue(truth, items)
    ensures var at := FindStep(items, turnId, stepId);
      at.Some? ==> items[at.value.0].turn.turnId == turnId && StepTrue(truth, turnId, StepAt(items, at.value))
  {
    var at := FindStep(items, turnId, stepId);
    if at.Some? { assert ItemTrue(truth, items[at.value.0]); }
  }

  lemma FrameUpsertKeepsTruth(truth: Truth, order: ItemOrder, state: State, operation: Operation)
    requires StateTrue(truth, state) && operation.FrameUpsert? && OperationTrue(truth, operation)
    ensures StateTrue(truth, ApplyOperation(order, state, operation).state)
  {
    var at := FindStep(state.items, operation.turnId, operation.stepId);
    FoundStepIsTrue(truth, state.items, operation.turnId, operation.stepId);
    if at.Some? && operation.frame.Some? {
      var step := StepAt(state.items, at.value);
      var put := step.(frames := UpsertFrame(step.frames, operation.frame.value));
      assert StepTrue(truth, operation.turnId, put);
      PutStepKeepsTruth(truth, state.items, at.value, put);
    }
  }

  lemma AppendFrameKeepsTruth(truth: Truth, order: ItemOrder, state: State, operation: Operation)
    requires StateTrue(truth, state) && operation.AppendFrame? && OperationTrue(truth, operation)
    ensures StateTrue(truth, ApplyOperation(order, state, operation).state)
  {
    var AppendFrame(turnId, stepId, frameId, offset, text) := operation;
    AppendFrameCases(order, state, operation);
    FoundStepIsTrue(truth, state.items, turnId, stepId);
    var found := FindFrame(state.items, turnId, stepId, frameId);
    if found.Some? && found.value.text.Some? && AppendTo(found.value.text.value, offset, text).Extend? {
      var at := FindStep(state.items, turnId, stepId).value;
      var step := StepAt(state.items, at);
      var k := IndexOf(FrameIds(step.frames), frameId).value;
      assert FrameTrue(truth, turnId, stepId, step.frames[k]);
      AppendKeepsPrefix(truth, FrameTarget(turnId, stepId, frameId), found.value.text.value, offset, text);
      var longer := found.value.text.value + text;
      var put := step.(frames := step.frames[k := step.frames[k].(text := Some(longer))]);
      assert StepTrue(truth, turnId, put);
      PutStepKeepsTruth(truth, state.items, at, put);
    }
  }

  lemma {:induction false} TasksByIdAreTrue(truth: Truth, tasks: seq<Task>)
    requires forall i :: 0 <= i < |tasks| ==> TaskTrue(truth, tasks[i])
    ensures TasksTrue(truth, TasksById(tasks))
    decreases |tasks|
  {
    if tasks != [] { TasksByIdAreTrue(truth, tasks[..|tasks| - 1]); }
  }

  lemma PageBecomesTrue(truth: Truth, page: Page)
    requires PageTrue(truth, page)
    ensures StateTrue(truth, TranscriptFromPage(page))
  {
    TasksByIdAreTrue(truth, page.tasks);
  }

  lemma TaskOperationKeepsTruth(truth: Truth, order: ItemOrder, state: State, operation: Operation)
    requires StateTrue(truth, state) && OperationTrue(truth, operation)
    requires operation.AppendTask? || operation.TaskUpsert?
    ensures StateTrue(truth, ApplyOperation(order, state, operation).state)
  {
    if operation.AppendTask? && operation.taskId in state.tasks {
      var shown := state.tasks[operation.taskId].outputTail;
      AppendKeepsPrefix(truth, TaskTarget(operation.taskId), shown, operation.offset, operation.text);
    }
  }

  lemma OperationKeepsTruth(truth: Truth, order: ItemOrder, state: State, operation: Operation)
    requires StateTrue(truth, state) && OperationTrue(truth, operation)
    ensures StateTrue(truth, ApplyOperation(order, state, operation).state)
  {
    match operation
    case Reset(agentId, snapshot) =>
      if snapshot.Some? { SnapshotBecomesTrue(truth, state, agentId, snapshot.value); }
    case TurnUpsert(head) => UpsertTurnKeepsTruth(truth, order, state.items, head);
    case StepUpsert(_, _) => StepUpsertKeepsTruth(truth, order, state, operation);
    case FrameUpsert(_, _, _) => FrameUpsertKeepsTruth(truth, order, state, operation);
    case AppendFrame(_, _, _, _, _) => AppendFrameKeepsTruth(truth, order, state, operation);
    case AppendTask(_, _, _) => TaskOperationKeepsTruth(truth, order, state, operation);
    case ItemUpsert(_) => ItemUpsertKeepsTruth(truth, order, state, operation);
    case ItemsRemove(ids) => RemovalKeepsTruth(truth, state.items, ids);
    case TaskUpsert(_) => TaskOperationKeepsTruth(truth, order, state, operation);
    case _ =>
  }

  lemma SnapshotBecomesTrue(truth: Truth, state: State, agentId: Option<string>, snapshot: Page)
    requires PageTrue(truth, snapshot)
    ensures StateTrue(truth, SnapshotState(state, agentId, snapshot))
  {
    TasksByIdAreTrue(truth, snapshot.tasks);
  }

  lemma ItemUpsertKeepsTruth(truth: Truth, order: ItemOrder, state: State, operation: Operation)
    requires StateTrue(truth, state) && operation.ItemUpsert? && OperationTrue(truth, operation)
    ensures StateTrue(truth, ApplyOperation(order, state, operation).state)
  {
  }

  lemma RemovalKeepsTruth(truth: Truth, items: seq<Item>, ids: set<string>)
    requires ItemsTrue(truth, items)
    ensures ItemsTrue(truth, WithoutIds(items, ids))
  {
    var kept := WithoutIds(items, ids);
    forall i | 0 <= i < |kept| ensures ItemTrue(truth, kept[i]) {
      assert kept[i] in items;
    }
  }

  // ---------- batches, pages, deliveries ----------

  lemma {:induction false} RunKeepsTruth(truth: Truth, order: ItemOrder, state: State, operations: seq<Operation>)
    requires StateTrue(truth, state) && OperationsTrue(truth, operations)
    ensures StateTrue(truth, RunOperations(order, state, operations).state)
    decreases |operations|
  {
    if operations != [] {
      OperationKeepsTruth(truth, order, state, operations[0]);
      var first := ApplyOperation(order, state, operations[0]);
      if !first.gap { RunKeepsTruth(truth, order, first.state, operations[1..]); }
    }
  }

  lemma BatchKeepsTruth(truth: Truth, order: ItemOrder, state: State, operations: seq<Operation>,
    sequence: Option<int>)
    requires StateTrue(truth, state) && OperationsTrue(truth, operations)
    ensures StateTrue(truth, ApplyTranscriptOps(order, state, operations, sequence).state)
  {
    RunKeepsTruth(truth, order, state, operations);
    BatchStates(order, state, operations, sequence);
  }

  lemma ResetKeepsTruth(truth: Truth, state: State, page: Page)
    requires StateTrue(truth, state) && PageTrue(truth, page)
    ensures StateTrue(truth, ApplyTranscriptReset(Some(state), page))
  {
    PageBecomesTrue(truth, page);
  }

  /** So do older pages put in front. */
  lemma PrependKeepsTruth(truth: Truth, state: State, page: Page)
    requires StateTrue(truth, state) && PageTrue(truth, page)
    ensures StateTrue(truth, PrependTranscriptPage(state, page))
  {
    RemovalKeepsTruth(truth, page.items, set id | id in ItemIds(state.items));
  }

  predicate DeliveryTrue(truth: Truth, delivery: Delivery) {
    delivery.Live? ==> PageTrue(truth, delivery.page)
  }

  predicate DeliveriesTrue(truth: Truth, deliveries: seq<Delivery>) {
    forall i :: 0 <= i < |deliveries| ==> DeliveryTrue(truth, deliveries[i])
  }

  lemma ReceivingKeepsTruth(truth: Truth, order: ItemOrder, log: Log, state: State, delivery: Delivery)
    requires LogTrue(truth, log) && Deliverable(log, delivery) && DeliveryTrue(truth, delivery)
    requires StateTrue(truth, state)
    ensures StateTrue(truth, Receive(order, log, state, delivery))
  {
    match delivery
    case Batch(n) => BatchKeepsTruth(truth, order, state, log[n - 1], Some(n));
    case Live(page) => ResetKeepsTruth(truth, state, page);
  }

  /** Over any delivery with losses, repeats and reordering, whatever the cursor was. */
  lemma {:induction false} DeliveriesKeepTruth(truth: Truth, order: ItemOrder, log: Log, start: State,
    deliveries: seq<Delivery>)
    requires LogTrue(truth, log) && AllDeliverable(log, deliveries) && StateTrue(truth, start)
    requires DeliveriesTrue(truth, deliveries)
    ensures StateTrue(truth, ReceiveAll(order, log, start, deliveries))
    decreases |deliveries|
  {
    if deliveries != [] {
      var n := |deliveries| - 1;
      DeliveriesKeepTruth(truth, order, log, start, deliveries[..n]);
      ReceivingKeepsTruth(truth, order, log, ReceiveAll(order, log, start, deliveries[..n]), deliveries[n]);
    }
  }

  /** What is shown for a target in a true state. */
  lemma ShownIsPrefix(truth: Truth, state: State, target: Target)
    requires StateTrue(truth, state)
    ensures Shown(state, target).Some? ==> Shown(state, target).value <= truth(target)
  {
    if target.FrameTarget? {
      var FrameTarget(turnId, stepId, frameId) := target;
      FoundStepIsTrue(truth, state.items, turnId, stepId);
      var found := FindFrame(state.items, turnId, stepId, frameId);
      if found.Some? {
        var frames := StepAt(state.items, FindStep(state.items, turnId, stepId).value).frames;
        assert FrameTrue(truth, turnId, stepId, frames[IndexOf(FrameIds(frames), frameId).value]);
      }
    }
  }

  /**
    If every append is a slice of its target's true text and every text brought whole is a prefix of
    it, then after any delivery of the log and of pages every text shown is a prefix of its true text.
  */
  lemma EveryTextShownIsTrue(truth: Truth, order: ItemOrder, log: Log, start: State, deliveries: seq<Delivery>,
    target: Target)
    requires LogTrue(truth, log) && AllDeliverable(log, deliveries) && StateTrue(truth, start)
    requires DeliveriesTrue(truth, deliveries)
    ensures var shown := Shown(ReceiveAll(order, log, start, deliveries), target);
      shown.Some? ==> shown.value <= truth(target)
  {
    DeliveriesKeepTruth(truth, order, log, start, deliveries);
    ShownIsPrefix(truth, ReceiveAll(order, log, start, deliveries), target);
  }

  // ---------- whole runs of the driver ----------

  /** Pages that reach the selected session are true. */
  predicate ActTrue(truth: Truth, selected: Selection, act: Act) {
    match act
    case Arrives(to, event) =>
      to == selected && event.ResetEvent? && event.page.Some? ==> PageTrue(truth, event.page.value)
    case Reads(page) => PageTrue(truth, page)
    case _ => true
  }

  predicate ActsTrue(truth: Truth, selected: Selection, acts: seq<Act>) {
    forall i :: 0 <= i < |acts| ==> ActTrue(truth, selected, acts[i])
  }

  predicate QueueTrue(truth: Truth, selected: Selection, queue: seq<Queued>) {
    forall i :: 0 <= i < |queue| ==> ActTrue(truth, selected, Arrives(queue[i].to, queue[i].event))
  }

  lemma {:induction false} WaitingIsTrue(truth: Truth, log: Log, selected: Selection, acts: seq<Act>)
    requires AllAllowed(log, selected, acts) && ActsTrue(truth, selected, acts)
    ensures QueueTrue(truth, selected, Waiting(log, selected, acts))
    decreases |acts|
  {
    if acts != [] {
      var n := |acts| - 1;
      WaitingIsTrue(truth, log, selected, acts[..n]);
      assert ActTrue(truth, selected, acts[n]);
    }
  }

  lemma CarriedIsTrue(truth: Truth, log: Log, selected: Selection, queued: Queued)
    requires queued.to == selected && FromLog(log, queued.event)
    requires ActTrue(truth, selected, Arrives(queued.to, queued.event))
    ensures DeliveriesTrue(truth, Carried(log, queued.event))
  {
  }

  lemma {:induction false} DeliveredIsTrue(truth: Truth, log: Log, selected: Selection, queue: seq<Queued>)
    requires AllFromLog(log, selected, queue) && QueueTrue(truth, selected, queue)
    ensures DeliveriesTrue(truth, Delivered(log, selected, queue))
    decreases |queue|
  {
    if queue != [] {
      var n := |queue| - 1;
      assert forall i :: 0 <= i < n ==> queue[..n][i] == queue[i];
      DeliveredIsTrue(truth, log, selected, queue[..n]);
      if queue[n].to == selected {
        assert ActTrue(truth, selected, Arrives(queue[n].to, queue[n].event));
        CarriedIsTrue(truth, log, selected, queue[n]);
      }
    }
  }

  lemma CatchUpKeepsTruth(truth: Truth, order: ItemOrder, log: Log, from: State, numbers: seq<nat>)
    requires LogTrue(truth, log) && AllDeliverable(log, AsDeliveries(numbers)) && StateTrue(truth, from)
    ensures var next := CatchUp(order, from, Entries(log, numbers)); next.Some? ==> StateTrue(truth, next.value)
  {
    CatchUpIsDelivery(order, log, from, numbers);
    DeliveriesKeepTruth(truth, order, log, from, AsDeliveries(numbers));
  }

  lemma FlushKeepsTruth(truth: Truth, order: ItemOrder, log: Log, selected: Selection, shown: State, queue: seq<Queued>)
    requires LogTrue(truth, log) && AllFromLog(log, selected, queue) && QueueTrue(truth, selected, queue)
    requires StateTrue(truth, shown)
    ensures var next := TakeAll(order, selected, Progress(Some(shown), false), queue).next;
      next.Some? && StateTrue(truth, next.value)
  {
    FlushingIsReceiving(order, log, selected, shown, false, queue);
    DeliveredIsTrue(truth, log, selected, queue);
    DeliveriesKeepTruth(truth, order, log, shown, Delivered(log, selected, queue));
  }

  /** Over whole runs of the driver, catch-ups that overtake live events included. */
  lemma {:induction false} EverythingDisplayedIsTrue(truth: Truth, order: ItemOrder, log: Log, selected: Selection,
    start: State, acts: seq<Act>)
    requires LogTrue(truth, log) && AllAllowed(log, selected, acts) && ActsTrue(truth, selected, acts)
    requires StateTrue(truth, start)
    ensures StateTrue(truth, Displayed(order, log, selected, start, acts))
    decreases |acts|
  {
    if acts != [] {
      var n := |acts| - 1;
      EverythingDisplayedIsTrue(truth, order, log, selected, start, acts[..n]);
      var before := Displayed(order, log, selected, start, acts[..n]);
      assert Allowed(log, selected, acts[n], n) && ActTrue(truth, selected, acts[n]);
      match acts[n]
      case Arrives(_, _) =>
      case Frame =>
        WaitingIsTrue(truth, log, selected, acts[..n]);
        FlushKeepsTruth(truth, order, log, selected, before, Waiting(log, selected, acts[..n]));
      case Completes(since, numbers) =>
        EverythingDisplayedIsTrue(truth, order, log, selected, start, acts[..since]);
        CatchUpKeepsTruth(truth, order, log, Displayed(order, log, selected, start, acts[..since]), numbers);
      case Reads(page) => ResetKeepsTruth(truth, before, page);
    }
  }
}
