/**
  Streamed text: what a frame or task shows while chunks of it are lost, repeated and reordered.
*/
module TranscriptText {
  import opened Wrappers
  import opened Transcript
  import opened TranscriptShape

  datatype Target =
    | FrameTarget(turnId: string, stepId: string, frameId: string)
    | TaskTarget(taskId: string)

  /** A piece of text sent for one target with the offset it starts at. */
  datatype Chunk = Chunk(target: Target, offset: int, text: Text)

  function AsOperation(chunk: Chunk): Operation {
    match chunk.target
    case FrameTarget(turnId, stepId, frameId) =>
      AppendFrame(turnId, stepId, frameId, Some(chunk.offset), chunk.text)
    case TaskTarget(taskId) => AppendTask(taskId, Some(chunk.offset), chunk.text)
  }

  function AsOperations(chunks: seq<Chunk>): seq<Operation> {
    seq(|chunks|, i requires 0 <= i < |chunks| => AsOperation(chunks[i]))
  }

  /** The text on display for a target; None if there is no such target. */
  function Shown(state: State, target: Target): Option<Text> {
    match target
    case FrameTarget(turnId, stepId, frameId) =>
      var frame := FindFrame(state.items, turnId, stepId, frameId);
      if frame.None? then None else frame.value.text
    case TaskTarget(taskId) =>
      if taskId in state.tasks then Some(state.tasks[taskId].outputTail) else None
  }

  // ---------- one append ----------

  /** Rewriting the text of one found frame changes that frame and no other lookup. */
  lemma RewriteOneFrame(items: seq<Item>, turnId: string, stepId: string, frameId: string, text: Text,
    turnId': string, stepId': string, frameId': string)
    requires FindFrame(items, turnId, stepId, frameId).Some?
    ensures FindFrame(RewriteFrame(items, turnId, stepId, frameId, text), turnId', stepId', frameId') ==
      if (turnId', stepId', frameId') == (turnId, stepId, frameId)
      then Some(FindFrame(items, turnId, stepId, frameId).value.(text := Some(text)))
      else FindFrame(items, turnId', stepId', frameId')
  {
    RewritingKeepsPlaces(items, turnId, stepId, frameId, text, turnId', stepId');
    var at := FindStep(items, turnId, stepId).value;
    var frames := StepAt(items, at).frames;
    var k := IndexOf(FrameIds(frames), frameId).value;
    assert FrameIds(frames[k := frames[k].(text := Some(text))]) == FrameIds(frames);
  }

  /** An append changes its own target's text, by its offset, and nothing else on display. */
  ghost predicate IsAppendEffect(state: State, chunk: Chunk, next: Outcome, target: Target) {
    var before := Shown(state, chunk.target);
    && TasksKeyed(next.state.tasks)
    && (next.gap <==> before.None? || chunk.offset > |before.value|)
    && (target != chunk.target || next.gap ==> Shown(next.state, target) == Shown(state, target))
    && (!next.gap ==>
      Shown(next.state, chunk.target) ==
        if chunk.offset < |before.value| then before else Some(before.value + chunk.text))
  }

  lemma AppendEffect(order: ItemOrder, state: State, chunk: Chunk, target: Target)
    requires TasksKeyed(state.tasks)
    ensures IsAppendEffect(state, chunk, ApplyOperation(order, state, AsOperation(chunk)), target)
  {
    if chunk.target.FrameTarget? {
      FrameAppendEffect(order, state, chunk, target);
    }
  }

  lemma FrameAppendEffect(order: ItemOrder, state: State, chunk: Chunk, target: Target)
    requires TasksKeyed(state.tasks) && chunk.target.FrameTarget?
    ensures IsAppendEffect(state, chunk, ApplyOperation(order, state, AsOperation(chunk)), target)
  {
    var FrameTarget(turnId, stepId, frameId) := chunk.target;
    AppendFrameCases(order, state, AsOperation(chunk));
    var frame := FindFrame(state.items, turnId, stepId, frameId);
    if frame.Some? && frame.value.text.Some? {
      var text := frame.value.text.value + chunk.text;
      RewriteOneFrame(state.items, turnId, stepId, frameId, text, turnId, stepId, frameId);
      if target.FrameTarget? {
        RewriteOneFrame(state.items, turnId, stepId, frameId, text, target.turnId, target.stepId, target.frameId);
      }
    }
  }

  /** Repeating an append that went through is harmless exactly when its offset is a number or its text is empty. */
  lemma AppendTwiceIsOnce(order: ItemOrder, state: State, operation: Operation)
    requires TasksKeyed(state.tasks) && (operation.AppendFrame? || operation.AppendTask?)
    requires !ApplyOperation(order, state, operation).gap
    ensures var once := ApplyOperation(order, state, operation);
      ApplyOperation(order, once.state, operation) == once <==> operation.offset.Some? || operation.text == []
  {
    if operation.AppendTask? {
      TaskAppendTwice(order, state, operation);
    } else {
      FrameAppendTwice(order, state, operation);
    }
  }

  /** It fails for an append whose offset is not a number: "a" is shown twice. */
  lemma UnnumberedAppendExample(order: ItemOrder)
    ensures var state := EmptyTranscript("main").(tasks := map["t" := Task("t", [], Json.Json.Null)]);
      var append := AppendTask("t", None, [97]);
      var once := ApplyOperation(order, state, append);
      var twice := ApplyOperation(order, once.state, append);
      && !once.gap && once.state.tasks["t"].outputTail == [97]
      && !twice.gap && twice.state.tasks["t"].outputTail == [97, 97]
  {
    var state := EmptyTranscript("main").(tasks := map["t" := Task("t", [], Json.Json.Null)]);
    var once := ApplyOperation(order, state, AppendTask("t", None, [97]));
    assert [] + [97] == [97 as CodeUnit] && [97] + [97] == [97 as CodeUnit, 97];
    assert once.state.tasks["t"].outputTail == [97];
  }

  lemma TaskAppendTwice(order: ItemOrder, state: State, operation: Operation)
    requires TasksKeyed(state.tasks) && operation.AppendTask?
    requires !ApplyOperation(order, state, operation).gap
    ensures var once := ApplyOperation(order, state, operation);
      ApplyOperation(order, once.state, operation) == once <==> operation.offset.Some? || operation.text == []
  {
    var id := operation.taskId;
    var once := ApplyOperation(order, state, operation);
    var twice := ApplyOperation(order, once.state, operation);
    var shown := once.state.tasks[id].outputTail;
    if operation.text == [] {
      assert shown + operation.text == shown;
      assert twice.state.tasks == once.state.tasks;
    } else if operation.offset.None? {
      assert twice.state.tasks[id].outputTail == shown + operation.text;
    }
  }

  lemma FrameAppendTwice(order: ItemOrder, state: State, operation: Operation)
    requires operation.AppendFrame?
    requires !ApplyOperation(order, state, operation).gap
    ensures var once := ApplyOperation(order, state, operation);
      ApplyOperation(order, once.state, operation) == once <==> operation.offset.Some? || operation.text == []
  {
    var AppendFrame(turnId, stepId, frameId, offset, text) := operation;
    var once := ApplyOperation(order, state, operation);
    AppendFrameCases(order, state, operation);
    AppendFrameCases(order, once.state, operation);
    var shown := FindFrame(state.items, turnId, stepId, frameId).value.text.value;
    if AppendTo(shown, offset, text).Extend? {
      var longer := shown + text;
      RewriteOneFrame(state.items, turnId, stepId, frameId, longer, turnId, stepId, frameId);
      if text == [] {
        assert longer + text == longer;
        RewritingTheSameText(once.state.items, turnId, stepId, frameId);
      } else if offset.None? {
        RewriteOneFrame(once.state.items, turnId, stepId, frameId, longer + text, turnId, stepId, frameId);
        assert longer + text != longer;
      }
    }
  }

  lemma RewritingTheSameText(items: seq<Item>, turnId: string, stepId: string, frameId: string)
    requires FindFrame(items, turnId, stepId, frameId).Some?
    requires FindFrame(items, turnId, stepId, frameId).value.text.Some?
    ensures RewriteFrame(items, turnId, stepId, frameId,
      FindFrame(items, turnId, stepId, frameId).value.text.value) == items
  {
    var at := FindStep(items, turnId, stepId).value;
    var frames := StepAt(items, at).frames;
    var k := IndexOf(FrameIds(frames), frameId).value;
    var steps := items[at.0].turn.steps;
    assert frames[k := frames[k].(text := Some(frames[k].text.value))] == frames;
    assert steps[at.1 := steps[at.1].(frames := frames)] == steps;
    assert items[at.0 := TurnItem(items[at.0].turn.(steps := steps))] == items;
  }

  // ---------- whole deliveries ----------

  /** The chunk is a slice of the authoritative text of its target. */
  predicate TrueSlice(truth: Target -> Text, chunk: Chunk) {
    var whole := truth(chunk.target);
    0 <= chunk.offset <= chunk.offset + |chunk.text| <= |whole| &&
    chunk.text == whole[chunk.offset..chunk.offset + |chunk.text|]
  }

  datatype Parcel = Parcel(chunks: seq<Chunk>, sequence: Option<int>)

  predicate TrueParcels(truth: Target -> Text, parcels: seq<Parcel>) {
    forall i, j :: 0 <= i < |parcels| && 0 <= j < |parcels[i].chunks| ==> TrueSlice(truth, parcels[i].chunks[j])
  }

  function ReceiveParcels(order: ItemOrder, state: State, parcels: seq<Parcel>): State {
    if parcels == [] then state
    else
      var n := |parcels| - 1;
      ApplyTranscriptOps(order, ReceiveParcels(order, state, parcels[..n]),
        AsOperations(parcels[n].chunks), parcels[n].sequence).state
  }

  /** What may change on display between two moments: text grows within the truth, targets stay. */
  ghost predicate GrowsTowards(truth: Target -> Text, before: State, after: State, target: Target) {
    match Shown(before, target)
    case None => Shown(after, target).None?
    case Some(text) =>
      && Shown(after, target).Some?
      && (text <= truth(target) ==> text <= Shown(after, target).value <= truth(target))
  }

  lemma SliceExtendsPrefix(truth: Target -> Text, chunk: Chunk, shown: Text)
    requires TrueSlice(truth, chunk) && shown <= truth(chunk.target) && chunk.offset == |shown|
    ensures shown <= shown + chunk.text <= truth(chunk.target)
  {
    var whole := truth(chunk.target);
    assert whole == shown + whole[|shown|..];
  }

  lemma {:induction false} RunGrowsText(order: ItemOrder, truth: Target -> Text, state: State, chunks: seq<Chunk>,
    target: Target)
    requires TasksKeyed(state.tasks)
    requires forall j :: 0 <= j < |chunks| ==> TrueSlice(truth, chunks[j])
    ensures var run := RunOperations(order, state, AsOperations(chunks));
      TasksKeyed(run.state.tasks) && GrowsTowards(truth, state, run.state, target)
    decreases |chunks|
  {
    if chunks != [] {
      var operations := AsOperations(chunks);
      assert operations[1..] == AsOperations(chunks[1..]);
      AppendEffect(order, state, chunks[0], target);
      var first := ApplyOperation(order, state, operations[0]);
      var shown := Shown(state, target);
      if chunks[0].target == target && !first.gap && shown.value <= truth(target) && chunks[0].offset == |shown.value| {
        SliceExtendsPrefix(truth, chunks[0], shown.value);
      }
      if !first.gap {
        RunGrowsText(order, truth, first.state, chunks[1..], target);
      }
    }
  }

  lemma CursorIsNotShown(state: State, cursor: int, target: Target)
    ensures Shown(state.(cursor := cursor), target) == Shown(state, target)
  {
  }

  lemma {:induction false} ParcelGrowsText(order: ItemOrder, truth: Target -> Text, state: State, parcel: Parcel,
    target: Target)
    requires TasksKeyed(state.tasks)
    requires forall j :: 0 <= j < |parcel.chunks| ==> TrueSlice(truth, parcel.chunks[j])
    ensures var after := ApplyTranscriptOps(order, state, AsOperations(parcel.chunks), parcel.sequence).state;
      TasksKeyed(after.tasks) && GrowsTowards(truth, state, after, target)
  {
    var operations := AsOperations(parcel.chunks);
    var run := RunOperations(order, state, operations).state;
    var after := ApplyTranscriptOps(order, state, operations, parcel.sequence).state;
    RunGrowsText(order, truth, state, parcel.chunks, target);
    BatchStates(order, state, operations, parcel.sequence);
    CursorIsNotShown(run, after.cursor, target);
  }

  lemma GrowthComposes(truth: Target -> Text, a: State, b: State, c: State, target: Target)
    requires GrowsTowards(truth, a, b, target) && GrowsTowards(truth, b, c, target)
    ensures GrowsTowards(truth, a, c, target)
  {
  }

  /**
    Whatever happens to the chunks on the way, a target that starts as a prefix of its true text
    shows a prefix of it ever after, and what is shown never shrinks.
  */
  lemma {:induction false} StreamedTextNeverShrinks(order: ItemOrder, truth: Target -> Text, state: State,
    parcels: seq<Parcel>, target: Target)
    requires TasksKeyed(state.tasks) && TrueParcels(truth, parcels)
    ensures var after := ReceiveParcels(order, state, parcels);
      TasksKeyed(after.tasks) && GrowsTowards(truth, state, after, target)
    decreases |parcels|
  {
    if parcels != [] {
      var n := |parcels| - 1;
      assert TrueParcels(truth, parcels[..n]);
      StreamedTextNeverShrinks(order, truth, state, parcels[..n], target);
      var before := ReceiveParcels(order, state, parcels[..n]);
      ParcelGrowsText(order, truth, before, parcels[n], target);
      GrowthComposes(truth, state, before, ReceiveParcels(order, state, parcels), target);
    }
  }
}
