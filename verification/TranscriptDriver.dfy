/**
  The driver of the reducer: the event queue that is flushed once per animation frame, and the
  catch-up that runs beside it (`queueTranscriptEvent`, `flushTranscriptEvents` and
  `reconcileTranscript` in `apps/web/src/App.tsx`).
*/
module TranscriptDriver {
  import opened Wrappers
  import opened Transcript
  import opened TranscriptLog
  import opened TranscriptEffects

  /** What the page currently shows or is about to show. */
  datatype Selection = Selection(hostId: string, generation: int, sessionId: string)

  datatype Event =
    | OpsEvent(agentId: string, operations: seq<Operation>, sequence: Option<int>)
    | ResetEvent(page: Option<Page>)

  datatype Queued = Queued(to: Selection, event: Event)

  // ---------- flushing the queue ----------

  /** The transcript so far, None before the first event, and whether some batch had a gap. */
  datatype Progress = Progress(next: Option<State>, gap: bool)

  function Take(order: ItemOrder, selected: Selection, progress: Progress, queued: Queued): Progress {
    if queued.to != selected then progress
    else match queued.event
      case ResetEvent(page) =>
        if page.None? then progress
        else progress.(next := Some(ApplyTranscriptReset(progress.next, page.value)))
      case OpsEvent(agentId, operations, sequence) =>
        var base := if progress.next.Some? then progress.next.value else EmptyTranscript(agentId);
        var result := ApplyTranscriptOps(order, base, operations, sequence);
        Progress(Some(result.state), progress.gap || result.gap)
  }

  function TakeAll(order: ItemOrder, selected: Selection, progress: Progress, events: seq<Queued>): Progress
    decreases |events|
  {
    if events == [] then progress
    else TakeAll(order, selected, Take(order, selected, progress, events[0]), events[1..])
  }

  class Driver {
    var queue: seq<Queued>
    var transcript: Option<State>
    var transcriptSession: string

    constructor ()
      ensures queue == [] && transcript == None && transcriptSession == ""
    {
      queue, transcript, transcriptSession := [], None, "";
    }

    /** What is on display for the selected session. */
    function ShownFor(selected: Selection): Option<State>
      reads this
    {
      if transcriptSession == selected.sessionId then transcript else None
    }

    method Enqueue(to: Selection, selected: Selection, event: Event)
      modifies this`queue
      ensures queue == old(queue) +
        if to.hostId != "" && to.sessionId == selected.sessionId && to.generation == selected.generation
        then [Queued(to, event)] else []
    {
      if to.hostId == "" || to.sessionId != selected.sessionId || to.generation != selected.generation {
        return;
      }
      queue := queue + [Queued(to, event)];
    }

    /** One animation frame: everything queued is taken in order and the queue is left empty. */
    method Flush(order: ItemOrder, selected: Selection) returns (needsReconcile: bool)
      modifies this
      ensures queue == []
      ensures var progress := TakeAll(order, selected, Progress(old(ShownFor(selected)), false), old(queue));
        && ShownFor(selected) == progress.next
        && needsReconcile == progress.gap
        && (progress.next.None? ==> transcript == old(transcript) && transcriptSession == old(transcriptSession))
    {
      var events := queue;
      queue := [];
      var next := if transcript.Some? && transcriptSession == selected.sessionId then transcript else None;
      needsReconcile := false;
      for i := 0 to |events|
        invariant queue == [] && transcript == old(transcript) && transcriptSession == old(transcriptSession)
        invariant old(ShownFor(selected)).Some? ==> next.Some?
        invariant TakeAll(order, selected, Progress(old(ShownFor(selected)), false), events) ==
          TakeAll(order, selected, Progress(next, needsReconcile), events[i..])
      {
        assert events[i..][0] == events[i] && events[i..][1..] == events[i + 1..];
        var queued := events[i];
        if queued.to != selected { continue; }
        match queued.event {
          case ResetEvent(page) =>
            if page.Some? { next := Some(ApplyTranscriptReset(next, page.value)); }
          case OpsEvent(agentId, operations, sequence) =>
            var base := if next.Some? then next.value else EmptyTranscript(agentId);
            var result := ApplyTranscriptOps(order, base, operations, sequence);
            next := Some(result.state);
            needsReconcile := needsReconcile || result.gap;
        }
      }
      if next.Some? {
        transcript, transcriptSession := next, selected.sessionId;
      }
    }

    /**
      A catch-up that set out from `from` completes. If it goes through it replaces what is on display,
      unless the user has moved on meanwhile; if it fails a page has to be read.
    */
    method CompleteCatchUp(order: ItemOrder, from: State, batches: seq<SequencedBatch>, isCurrent: bool)
      returns (readPage: bool)
      modifies this`transcript
      ensures readPage <==> CatchUp(order, from, batches).None?
      ensures transcript == if !readPage && isCurrent then CatchUp(order, from, batches) else old(transcript)
    {
      var next := CatchUpLoop(order, from, batches);
      if next.None? { return true; }
      if isCurrent { transcript := next; }
      return false;
    }

    /** A page read for the selected session arrives; if the user has moved on it is ignored. */
    method ShowPage(selected: Selection, page: Page, isCurrent: bool)
      modifies this`transcript, this`transcriptSession
      ensures !isCurrent ==> transcript == old(transcript) && transcriptSession == old(transcriptSession)
      ensures isCurrent ==>
        && transcriptSession == selected.sessionId
        && transcript == Some(MergeTranscriptPage(old(transcript), old(transcriptSession), selected.sessionId, page))
        && ShownFor(selected) == Some(ApplyTranscriptReset(old(ShownFor(selected)), page))
    {
      if !isCurrent { return; }
      transcript := Some(MergeTranscriptPage(transcript, transcriptSession, selected.sessionId, page));
      transcriptSession := selected.sessionId;
    }
  }

  function For(selected: Selection, events: seq<Queued>): seq<Queued>
    decreases |events|
  {
    if events == [] then []
    else (if events[0].to == selected then [events[0]] else []) + For(selected, events[1..])
  }

  /** Events of another host, generation or session never reach the selected transcript. */
  lemma {:induction false} OthersAreInvisible(order: ItemOrder, selected: Selection, progress: Progress,
    events: seq<Queued>)
    ensures TakeAll(order, selected, progress, events) == TakeAll(order, selected, progress, For(selected, events))
    decreases |events|
  {
    if events != [] {
      var rest := For(selected, events[1..]);
      OthersAreInvisible(order, selected, Take(order, selected, progress, events[0]), events[1..]);
      if events[0].to == selected {
        assert ([events[0]] + rest)[1..] == rest;
      } else {
        assert [] + rest == rest;
      }
    }
  }

  /** How events are split over frames makes no difference. */
  lemma {:induction false} FramesDoNotMatter(order: ItemOrder, selected: Selection, progress: Progress,
    first: seq<Queued>, second: seq<Queued>)
    ensures TakeAll(order, selected, progress, first + second) ==
      TakeAll(order, selected, TakeAll(order, selected, progress, first), second)
    decreases |first|
  {
    if first == [] {
      assert first + second == second;
    } else {
      assert (first + second)[1..] == first[1..] + second;
      FramesDoNotMatter(order, selected, Take(order, selected, progress, first[0]), first[1..], second);
    }
  }

  /** With nothing on display the first page is taken as it is, and the first batch goes to an empty transcript. */
  lemma NothingShownYet(order: ItemOrder, selected: Selection, gap: bool, events: seq<Queued>)
    requires events != [] && events[0].to == selected
    ensures var first := events[0].event;
      TakeAll(order, selected, Progress(None, gap), events) ==
        if first.OpsEvent? then TakeAll(order, selected, Progress(Some(EmptyTranscript(first.agentId)), gap), events)
        else if first.page.None? then TakeAll(order, selected, Progress(None, gap), events[1..])
        else TakeAll(order, selected, Progress(Some(TranscriptFromPage(first.page.value)), gap), events[1..])
  {
  }

  // ---------- catching up ----------

  datatype SequencedBatch = SequencedBatch(sequence: int, operations: seq<Operation>)

  /** The batches a complete catch-up returned, applied one after another; None if one has a gap. */
  function CatchUp(order: ItemOrder, from: State, batches: seq<SequencedBatch>): Option<State> {
    if batches == [] then Some(from)
    else
      var n := |batches| - 1;
      match CatchUp(order, from, batches[..n])
      case None => None
      case Some(next) =>
        var applied := ApplyTranscriptOps(order, next, batches[n].operations, Some(batches[n].sequence));
        if applied.gap then None else Some(applied.state)
  }

  method CatchUpLoop(order: ItemOrder, from: State, batches: seq<SequencedBatch>) returns (next: Option<State>)
    ensures next == CatchUp(order, from, batches)
  {
    next := Some(from);
    for i := 0 to |batches|
      invariant next == CatchUp(order, from, batches[..i])
    {
      assert batches[..i + 1][..i] == batches[..i];
      if next.Some? {
        var applied := ApplyTranscriptOps(order, next.value, batches[i].operations, Some(batches[i].sequence));
        next := if applied.gap then None else Some(applied.state);
      }
    }
    assert batches[..|batches|] == batches;
  }

  function Entries(log: Log, numbers: seq<nat>): seq<SequencedBatch>
    requires AllDeliverable(log, AsDeliveries(numbers))
  {
    seq(|numbers|, i requires 0 <= i < |numbers| =>
      assert Deliverable(log, AsDeliveries(numbers)[i]);
      SequencedBatch(numbers[i], log[numbers[i] - 1]))
  }

  /** A catch-up that goes through is a delivery of its batches to the state it set out from. */
  lemma {:induction false} CatchUpIsDelivery(order: ItemOrder, log: Log, from: State, numbers: seq<nat>)
    requires AllDeliverable(log, AsDeliveries(numbers))
    ensures var next := CatchUp(order, from, Entries(log, numbers));
      next.Some? ==> next.value == ReceiveAll(order, log, from, AsDeliveries(numbers))
    decreases |numbers|
  {
    if numbers != [] {
      var n := |numbers| - 1;
      var deliveries := AsDeliveries(numbers);
      assert AsDeliveries(numbers[..n]) == deliveries[..n];
      assert AllDeliverable(log, deliveries[..n]);
      assert Entries(log, numbers[..n]) == Entries(log, numbers)[..n];
      CatchUpIsDelivery(order, log, from, numbers[..n]);
      assert deliveries[n] == Batch(numbers[n]);
      assert Entries(log, numbers)[n] == SequencedBatch(numbers[n], log[numbers[n] - 1]);
    }
  }

  /** A catch-up from a positive cursor fails exactly if one of its batches is missed where those before it led. */
  lemma {:induction false} CatchUpFailsOnMissedBatches(order: ItemOrder, log: Log, from: State, numbers: seq<nat>)
    requires AllDeliverable(log, AsDeliveries(numbers)) && from.cursor > 0
    ensures CatchUp(order, from, Entries(log, numbers)).None? <==>
      AnyMissed(order, log, from, AsDeliveries(numbers))
    decreases |numbers|
  {
    if numbers != [] {
      var front := numbers[..|numbers| - 1];
      CatchUpOneMore(order, log, from, numbers);
      CatchUpFailsOnMissedBatches(order, log, from, front);
      CatchUpIsDelivery(order, log, from, front);
      ShowsContiguousLog(order, log, from, AsDeliveries(front));
      OneMoreIsMissed(order, log, from, numbers);
    }
  }

  lemma OneMoreIsMissed(order: ItemOrder, log: Log, from: State, numbers: seq<nat>)
    requires AllDeliverable(log, AsDeliveries(numbers)) && numbers != []
    requires AllDeliverable(log, AsDeliveries(numbers[..|numbers| - 1]))
    requires ReceiveAll(order, log, from, AsDeliveries(numbers[..|numbers| - 1])).cursor > 0
    ensures Deliverable(log, Batch(numbers[|numbers| - 1]))
    ensures var n := |numbers| - 1;
      var front := AsDeliveries(numbers[..n]);
      AnyMissed(order, log, from, AsDeliveries(numbers)) <==>
        AnyMissed(order, log, from, front)
        || ApplyTranscriptOps(order, ReceiveAll(order, log, from, front), log[numbers[n] - 1], Some(numbers[n])).gap
  {
    var n := |numbers| - 1;
    var front := AsDeliveries(numbers[..n]);
    assert Deliverable(log, AsDeliveries(numbers)[n]);
    assert AsDeliveries(numbers) == front + [Batch(numbers[n])];
    MissedStays(order, log, from, front, [Batch(numbers[n])]);
    GapIsMissing(order, log, ReceiveAll(order, log, from, front), numbers[n]);
  }

  lemma GapIsMissing(order: ItemOrder, log: Log, state: State, n: nat)
    requires Deliverable(log, Batch(n)) && state.cursor > 0
    ensures ApplyTranscriptOps(order, state, log[n - 1], Some(n)).gap <==> Missed(order, log, state, Batch(n))
  {
    BatchOutcome(order, state, log[n - 1], Some(n));
  }

  lemma CatchUpOneMore(order: ItemOrder, log: Log, from: State, numbers: seq<nat>)
    requires AllDeliverable(log, AsDeliveries(numbers)) && numbers != []
    ensures AllDeliverable(log, AsDeliveries(numbers[..|numbers| - 1]))
    ensures Deliverable(log, Batch(numbers[|numbers| - 1]))
    ensures var n := |numbers| - 1;
      var before := CatchUp(order, from, Entries(log, numbers[..n]));
      CatchUp(order, from, Entries(log, numbers)).None? <==>
        before.None? || ApplyTranscriptOps(order, before.value, log[numbers[n] - 1], Some(numbers[n])).gap
  {
    var n := |numbers| - 1;
    assert AsDeliveries(numbers[..n]) == AsDeliveries(numbers)[..n];
    assert Deliverable(log, AsDeliveries(numbers)[n]);
    assert Entries(log, numbers[..n]) == Entries(log, numbers)[..n];
  }

  /** A catch-up that goes through leaves the cursor at the largest of its numbers and the cursor it set out from. */
  lemma {:induction false} CatchUpCursor(order: ItemOrder, from: State, batches: seq<SequencedBatch>)
    requires CatchUp(order, from, batches).Some?
    ensures var cursor := CatchUp(order, from, batches).value.cursor;
      && from.cursor <= cursor
      && (forall i :: 0 <= i < |batches| ==> batches[i].sequence <= cursor)
      && (cursor == from.cursor || exists i :: 0 <= i < |batches| && batches[i].sequence == cursor)
    decreases |batches|
  {
    if batches != [] {
      var n := |batches| - 1;
      CatchUpCursor(order, from, batches[..n]);
      var before := CatchUp(order, from, batches[..n]).value;
      if before.cursor != from.cursor {
        var i :| 0 <= i < n && batches[..n][i].sequence == before.cursor;
        assert batches[i].sequence == before.cursor;
      }
      assert forall i :: 0 <= i < n ==> batches[..n][i] == batches[i];
    }
  }

  // ---------- everything ever shown ----------

  /**
    One change of what is shown. A catch-up started when history entry `from` was on display and
    overwrites whatever has been shown since.
  */
  datatype Change = Received(delivery: Delivery) | CaughtUp(from: nat, numbers: seq<nat>)

  predicate Possible(log: Log, shownBefore: nat, change: Change) {
    match change
    case Received(delivery) => Deliverable(log, delivery)
    case CaughtUp(from, numbers) => from < shownBefore && AllDeliverable(log, AsDeliveries(numbers))
  }

  predicate AllPossible(log: Log, changes: seq<Change>) {
    forall i :: 0 <= i < |changes| ==> Possible(log, i + 1, changes[i])
  }

  /** Everything shown, in order, the start first; a catch-up with a gap changes nothing. */
  function History(order: ItemOrder, log: Log, start: State, changes: seq<Change>): (shown: seq<State>)
    requires AllPossible(log, changes)
    ensures |shown| == |changes| + 1
  {
    if changes == [] then [start]
    else
      var n := |changes| - 1;
      var before := History(order, log, start, changes[..n]);
      before + [Show(order, log, before, changes[n])]
  }

  function Show(order: ItemOrder, log: Log, before: seq<State>, change: Change): State
    requires before != [] && Possible(log, |before|, change)
  {
    match change
    case Received(delivery) => Receive(order, log, before[|before| - 1], delivery)
    case CaughtUp(from, numbers) =>
      var next := CatchUp(order, before[from], Entries(log, numbers));
      if next.Some? then next.value else before[|before| - 1]
  }

  lemma {:induction false} HistoryOfPrefix(order: ItemOrder, log: Log, start: State, changes: seq<Change>, n: nat)
    requires AllPossible(log, changes) && n <= |changes|
    ensures History(order, log, start, changes[..n]) == History(order, log, start, changes)[..n + 1]
    decreases |changes|
  {
    if n == |changes| {
      assert changes[..n] == changes;
    } else {
      assert changes[..|changes| - 1][..n] == changes[..n];
      HistoryOfPrefix(order, log, start, changes[..|changes| - 1], n);
    }
  }

  /** Change `i` is a page that is taken. */
  predicate ResetAt(order: ItemOrder, log: Log, start: State, changes: seq<Change>, i: nat)
    requires AllPossible(log, changes)
  {
    && i < |changes| && changes[i].Received? && changes[i].delivery.Live?
    && assert Possible(log, i + 1, changes[i]);
    Taken(History(order, log, start, changes)[i], changes[i].delivery.page)
  }

  /** `origin` is `start` or what was shown right after a page was taken. */
  predicate IsOrigin(order: ItemOrder, log: Log, start: State, changes: seq<Change>, origin: State)
    requires AllPossible(log, changes)
  {
    origin == start ||
    exists i :: 0 <= i < |changes| && ResetAt(order, log, start, changes, i) &&
      origin == History(order, log, start, changes)[i + 1]
  }

  predicate GroundedIn(order: ItemOrder, log: Log, origin: State, shown: State) {
    0 < origin.cursor <= shown.cursor && Replay(order, origin, log, shown.cursor) == Some(shown)
  }

  ghost predicate Grounded(order: ItemOrder, log: Log, start: State, changes: seq<Change>, shown: State)
    requires AllPossible(log, changes)
  {
    exists origin :: IsOrigin(order, log, start, changes, origin) && GroundedIn(order, log, origin, shown)
  }

  /**
    Even with catch-ups overtaking live events, every transcript ever shown is the start, or what was
    shown right after a page was taken, folded through exactly the contiguous entries up to its cursor.
  */
  lemma {:induction false} EverythingShownIsGrounded(order: ItemOrder, log: Log, start: State, changes: seq<Change>,
    t: nat)
    requires start.cursor > 0 && AllPossible(log, changes) && t <= |changes|
    ensures Grounded(order, log, start, changes, History(order, log, start, changes)[t])
    decreases |changes|
  {
    if changes == [] {
      assert IsOrigin(order, log, start, changes, start) && GroundedIn(order, log, start, start);
    } else {
      var n := |changes| - 1;
      var before := History(order, log, start, changes[..n]);
      EverythingShownIsGrounded(order, log, start, changes[..n], if t <= n then t else n);
      StaysGrounded(order, log, start, changes, before[if t <= n then t else n]);
      if t == |changes| {
        assert Possible(log, n + 1, changes[n]);
        match changes[n]
        case Received(delivery) => ReceivingIsGrounded(order, log, start, changes);
        case CaughtUp(from, numbers) =>
          EverythingShownIsGrounded(order, log, start, changes[..n], from);
          StaysGrounded(order, log, start, changes, before[from]);
          CatchUpIsDelivery(order, log, before[from], numbers);
          DeliveryIsGrounded(order, log, start, changes, before[from], numbers);
      }
    }
  }

  lemma OriginStays(order: ItemOrder, log: Log, start: State, changes: seq<Change>, origin: State)
    requires AllPossible(log, changes) && changes != []
    requires IsOrigin(order, log, start, changes[..|changes| - 1], origin)
    ensures IsOrigin(order, log, start, changes, origin)
  {
    var front := changes[..|changes| - 1];
    if origin != start {
      var i :| 0 <= i < |front| && ResetAt(order, log, start, front, i)
        && origin == History(order, log, start, front)[i + 1];
      assert ResetAt(order, log, start, changes, i);
    }
  }

  lemma StaysGrounded(order: ItemOrder, log: Log, start: State, changes: seq<Change>, shown: State)
    requires AllPossible(log, changes) && changes != []
    requires Grounded(order, log, start, changes[..|changes| - 1], shown)
    ensures Grounded(order, log, start, changes, shown)
  {
    var origin :| IsOrigin(order, log, start, changes[..|changes| - 1], origin)
      && GroundedIn(order, log, origin, shown);
    OriginStays(order, log, start, changes, origin);
  }

  lemma ReceivingIsGrounded(order: ItemOrder, log: Log, start: State, changes: seq<Change>)
    requires AllPossible(log, changes) && changes != [] && changes[|changes| - 1].Received?
    requires Grounded(order, log, start, changes, History(order, log, start, changes)[|changes| - 1])
    ensures Grounded(order, log, start, changes, History(order, log, start, changes)[|changes|])
  {
    var n := |changes| - 1;
    var history := History(order, log, start, changes);
    var shown, next := history[n], history[n + 1];
    var origin :| IsOrigin(order, log, start, changes, origin) && GroundedIn(order, log, origin, shown);
    assert Possible(log, n + 1, changes[n]);
    match changes[n].delivery
    case Batch(k) =>
      BatchStep(order, log, origin, shown, k);
      assert GroundedIn(order, log, origin, next);
    case Live(page) =>
      ResetCases(shown, page);
      if Taken(shown, page) {
        assert ResetAt(order, log, start, changes, n);
        assert IsOrigin(order, log, start, changes, next) && GroundedIn(order, log, next, next);
      }
  }

  lemma DeliveryIsGrounded(order: ItemOrder, log: Log, start: State, changes: seq<Change>, from: State,
    numbers: seq<nat>)
    requires AllPossible(log, changes) && Grounded(order, log, start, changes, from)
    requires AllDeliverable(log, AsDeliveries(numbers))
    ensures Grounded(order, log, start, changes, ReceiveAll(order, log, from, AsDeliveries(numbers)))
  {
    var origin :| IsOrigin(order, log, start, changes, origin) && GroundedIn(order, log, origin, from);
    var next := ReceiveAll(order, log, from, AsDeliveries(numbers));
    ShowsContiguousLog(order, log, from, AsDeliveries(numbers));
    OnlyBatchesKeepTheBase(order, log, from, numbers);
    ReplayComposes(order, log, origin, from, next.cursor);
    assert GroundedIn(order, log, origin, next);
  }

  // ---------- the cursor can go back ----------

  /**
    A catch-up lowers the cursor exactly when it goes through and both the cursor it set out from and
    every number it brings are below the cursor shown when it completes.
  */
  lemma CatchUpLowersTheCursor(order: ItemOrder, log: Log, before: seq<State>, change: Change)
    requires before != [] && Possible(log, |before|, change) && change.CaughtUp?
    ensures var shown := before[|before| - 1].cursor;
      Show(order, log, before, change).cursor < shown <==>
        && CatchUp(order, before[change.from], Entries(log, change.numbers)).Some?
        && before[change.from].cursor < shown
        && forall i :: 0 <= i < |change.numbers| ==> change.numbers[i] < shown
  {
    var entries := Entries(log, change.numbers);
    assert forall i :: 0 <= i < |change.numbers| ==> entries[i].sequence == change.numbers[i];
    if CatchUp(order, before[change.from], entries).Some? {
      CatchUpCursor(order, before[change.from], entries);
    }
  }

  /** It happens: an empty catch-up that set out before a live batch undoes that batch on display. */
  lemma CursorCanGoBack(order: ItemOrder)
    ensures exists log: Log, start: State, changes: seq<Change> ::
      && start.cursor > 0 && AllPossible(log, changes) && |changes| == 2
      && History(order, log, start, changes)[2].cursor < History(order, log, start, changes)[1].cursor
  {
    var log: Log := [[], []];
    var start := EmptyTranscript("main").(cursor := 1);
    var changes := [Received(Batch(2)), CaughtUp(0, [])];
    assert AsDeliveries([]) == [];
    assert AllPossible(log, changes);
    assert changes[..1] == [Received(Batch(2))] && changes[..1][..0] == [];
    assert History(order, log, start, changes[..1]) == [start, start.(cursor := 2)];
    assert History(order, log, start, changes) == [start, start.(cursor := 2), start];
  }

  // ---------- whole runs of the driver ----------

  /** What can happen to a session while it stays selected: `since` counts the acts before a catch-up set out. */
  datatype Act =
    | Arrives(to: Selection, event: Event)
    | Frame
    | Completes(since: nat, numbers: seq<nat>)
    | Reads(page: Page)

  /** The event carries an entry of the log, or a page with a positive cursor, or no page. */
  predicate FromLog(log: Log, event: Event) {
    match event
    case OpsEvent(_, operations, sequence) =>
      sequence.Some? && 1 <= sequence.value <= |log| && operations == log[sequence.value - 1]
    case ResetEvent(page) => page.Some? ==> Deliverable(log, Live(page.value))
  }

  predicate AllFromLog(log: Log, selected: Selection, events: seq<Queued>) {
    forall i :: 0 <= i < |events| && events[i].to == selected ==> FromLog(log, events[i].event)
  }

  function Carried(log: Log, event: Event): (deliveries: seq<Delivery>)
    requires FromLog(log, event)
    ensures |deliveries| <= 1 && AllDeliverable(log, deliveries)
  {
    match event
    case OpsEvent(_, _, sequence) => [Batch(sequence.value)]
    case ResetEvent(page) => if page.Some? then [Live(page.value)] else []
  }

  /** What the queue delivers to the selected session. */
  function Delivered(log: Log, selected: Selection, events: seq<Queued>): (deliveries: seq<Delivery>)
    requires AllFromLog(log, selected, events)
    ensures AllDeliverable(log, deliveries)
  {
    if events == [] then []
    else
      var n := |events| - 1;
      Delivered(log, selected, events[..n]) + if events[n].to == selected then Carried(log, events[n].event) else []
  }

  lemma TakingIsReceiving(order: ItemOrder, log: Log, selected: Selection, shown: State, gap: bool, queued: Queued)
    requires queued.to == selected && FromLog(log, queued.event)
    ensures var next := Take(order, selected, Progress(Some(shown), gap), queued).next;
      var carried := Carried(log, queued.event);
      next == Some(if carried == [] then shown else Receive(order, log, shown, carried[0]))
  {
    var carried := Carried(log, queued.event);
    assert carried != [] ==> Deliverable(log, carried[0]);
  }

  lemma ReceivingOneMore(order: ItemOrder, log: Log, start: State, deliveries: seq<Delivery>, delivery: Delivery)
    requires AllDeliverable(log, deliveries) && Deliverable(log, delivery)
    ensures AllDeliverable(log, deliveries + [delivery])
    ensures ReceiveAll(order, log, start, deliveries + [delivery]) ==
      Receive(order, log, ReceiveAll(order, log, start, deliveries), delivery)
  {
    var all := deliveries + [delivery];
    assert all[..|all| - 1] == deliveries;
  }

  /** Flushing a queue of log events is receiving what it delivers. */
  lemma {:induction false} FlushingIsReceiving(order: ItemOrder, log: Log, selected: Selection, shown: State,
    gap: bool, events: seq<Queued>)
    requires AllFromLog(log, selected, events)
    ensures TakeAll(order, selected, Progress(Some(shown), gap), events).next ==
      Some(ReceiveAll(order, log, shown, Delivered(log, selected, events)))
    decreases |events|
  {
    if events != [] {
      var n := |events| - 1;
      var front, last := events[..n], events[n];
      FlushingIsReceiving(order, log, selected, shown, gap, front);
      var before := TakeAll(order, selected, Progress(Some(shown), gap), front);
      TakingOneMore(order, selected, Progress(Some(shown), gap), events);
      var delivered := Delivered(log, selected, front);
      if last.to == selected {
        TakingIsReceiving(order, log, selected, before.next.value, before.gap, last);
        var carried := Carried(log, last.event);
        if carried == [] {
          assert delivered + carried == delivered;
        } else {
          assert carried == [carried[0]];
          ReceivingOneMore(order, log, shown, delivered, carried[0]);
        }
      } else {
        assert delivered + [] == delivered;
      }
    }
  }

  /** A batch of the log that cannot be applied: one before it is missing, or it is the next and does not fit. */
  predicate Missed(order: ItemOrder, log: Log, state: State, delivery: Delivery)
    requires Deliverable(log, delivery)
  {
    delivery.Batch? && (
      delivery.n > state.cursor + 1
      || (delivery.n == state.cursor + 1 && RunOperations(order, state, log[delivery.n - 1]).gap))
  }

  /** Delivery `i` is missed where the ones before it have led. */
  predicate MissedAt(order: ItemOrder, log: Log, start: State, deliveries: seq<Delivery>, i: nat)
    requires AllDeliverable(log, deliveries)
  {
    i < |deliveries| && Missed(order, log, ReceiveAll(order, log, start, deliveries[..i]), deliveries[i])
  }

  ghost predicate AnyMissed(order: ItemOrder, log: Log, start: State, deliveries: seq<Delivery>)
    requires AllDeliverable(log, deliveries)
  {
    exists i: nat :: MissedAt(order, log, start, deliveries, i)
  }

  lemma TakingIsMissing(order: ItemOrder, log: Log, selected: Selection, shown: State, gap: bool, queued: Queued)
    requires queued.to == selected && FromLog(log, queued.event) && shown.cursor > 0
    ensures var carried := Carried(log, queued.event);
      Take(order, selected, Progress(Some(shown), gap), queued).gap <==>
        gap || (carried != [] && Missed(order, log, shown, carried[0]))
  {
    var carried := Carried(log, queued.event);
    assert carried != [] ==> Deliverable(log, carried[0]);
    if queued.event.OpsEvent? {
      BatchOutcome(order, shown, queued.event.operations, queued.event.sequence);
    }
  }

  lemma MissedStays(order: ItemOrder, log: Log, start: State, some: seq<Delivery>, more: seq<Delivery>)
    requires AllDeliverable(log, some) && AllDeliverable(log, more) && |more| <= 1
    ensures AllDeliverable(log, some + more)
    ensures AnyMissed(order, log, start, some + more) <==>
      AnyMissed(order, log, start, some)
      || (more != [] && Missed(order, log, ReceiveAll(order, log, start, some), more[0]))
  {
    var all := some + more;
    forall i: nat | i < |some| ensures MissedAt(order, log, start, all, i) <==> MissedAt(order, log, start, some, i) {
      assert all[..i] == some[..i];
    }
    if more != [] {
      assert all[..|some|] == some && all[|some|] == more[0];
      assert MissedAt(order, log, start, all, |some|) <==>
        Missed(order, log, ReceiveAll(order, log, start, some), more[0]);
    }
  }

  /**
    From a positive cursor a flush asks for a reconcile exactly if some batch it delivered was missed:
    one before it had not arrived, or it was the next one and did not fit. A stale batch never asks.
  */
  lemma {:induction false} ReconcileIsAskedForMissedBatches(order: ItemOrder, log: Log, selected: Selection,
    shown: State, gap: bool, events: seq<Queued>)
    requires AllFromLog(log, selected, events) && shown.cursor > 0
    ensures TakeAll(order, selected, Progress(Some(shown), gap), events).gap <==>
      gap || AnyMissed(order, log, shown, Delivered(log, selected, events))
    decreases |events|
  {
    if events != [] {
      var n := |events| - 1;
      var front, last := events[..n], events[n];
      ReconcileIsAskedForMissedBatches(order, log, selected, shown, gap, front);
      FlushingIsReceiving(order, log, selected, shown, gap, front);
      var before := TakeAll(order, selected, Progress(Some(shown), gap), front);
      TakingOneMore(order, selected, Progress(Some(shown), gap), events);
      var delivered := Delivered(log, selected, front);
      ShowsContiguousLog(order, log, shown, delivered);
      var carried := if last.to == selected then Carried(log, last.event) else [];
      MissedStays(order, log, shown, delivered, carried);
      if last.to == selected { TakingIsMissing(order, log, selected, before.next.value, before.gap, last); }
    }
  }

  /** It asks when the batch after the next arrives. */
  lemma LostBatchExample(order: ItemOrder, selected: Selection)
    ensures var shown := EmptyTranscript("main").(cursor := 1);
      TakeAll(order, selected, Progress(Some(shown), false), [Queued(selected, OpsEvent("main", [], Some(3)))]).gap
  {
    var queued := Queued(selected, OpsEvent("main", [], Some(3)));
    assert [queued][1..] == [];
  }

  lemma TakingOneMore(order: ItemOrder, selected: Selection, progress: Progress, events: seq<Queued>)
    requires events != []
    ensures TakeAll(order, selected, progress, events) ==
      Take(order, selected, TakeAll(order, selected, progress, events[..|events| - 1]), events[|events| - 1])
  {
    var n := |events| - 1;
    assert events == events[..n] + [events[n]];
    FramesDoNotMatter(order, selected, progress, events[..n], [events[n]]);
    assert [events[n]][1..] == [];
  }

  predicate Allowed(log: Log, selected: Selection, act: Act, before: nat) {
    match act
    case Arrives(to, event) => to == selected ==> FromLog(log, event)
    case Frame => true
    case Completes(since, numbers) => since <= before && AllDeliverable(log, AsDeliveries(numbers))
    case Reads(page) => Deliverable(log, Live(page))
  }

  predicate AllAllowed(log: Log, selected: Selection, acts: seq<Act>) {
    forall i :: 0 <= i < |acts| ==> Allowed(log, selected, acts[i], i)
  }

  /** The queue after the acts. */
  function Waiting(log: Log, selected: Selection, acts: seq<Act>): (queue: seq<Queued>)
    requires AllAllowed(log, selected, acts)
    ensures AllFromLog(log, selected, queue)
  {
    if acts == [] then []
    else
      var n := |acts| - 1;
      var before := Waiting(log, selected, acts[..n]);
      match acts[n]
      case Arrives(to, event) =>
        assert Allowed(log, selected, acts[n], n);
        if to.hostId != "" && to.sessionId == selected.sessionId && to.generation == selected.generation
        then before + [Queued(to, event)] else before
      case Frame => []
      case _ => before
  }

  /** What is on display after the acts; `Play` shows that the methods of `Driver` leave it so. */
  function Displayed(order: ItemOrder, log: Log, selected: Selection, start: State, acts: seq<Act>): State
    requires AllAllowed(log, selected, acts)
    decreases |acts|
  {
    if acts == [] then start
    else
      var n := |acts| - 1;
      var before := Displayed(order, log, selected, start, acts[..n]);
      match acts[n]
      case Arrives(_, _) => before
      case Frame =>
        var next := TakeAll(order, selected, Progress(Some(before), false), Waiting(log, selected, acts[..n])).next;
        if next.Some? then next.value else before
      case Completes(since, numbers) =>
        assert Allowed(log, selected, acts[n], n);
        var next := CatchUp(order, Displayed(order, log, selected, start, acts[..since]), Entries(log, numbers));
        if next.Some? then next.value else before
      case Reads(page) => MergeTranscriptPage(Some(before), selected.sessionId, selected.sessionId, page)
  }

  /** Every transcript that was on display after the first acts, in order. */
  predicate ShowsAll(order: ItemOrder, log: Log, selected: Selection, start: State, acts: seq<Act>, shown: seq<State>)
    requires AllAllowed(log, selected, acts)
  {
    |shown| == |acts| + 1 &&
    forall k :: 0 <= k <= |acts| ==> shown[k] == Displayed(order, log, selected, start, acts[..k])
  }

  ghost predicate Plays(order: ItemOrder, log: Log, selected: Selection, driver: Driver, start: State, acts: seq<Act>)
    requires AllAllowed(log, selected, acts)
    reads driver
  {
    && driver.queue == Waiting(log, selected, acts)
    && driver.transcript == Some(Displayed(order, log, selected, start, acts))
    && driver.transcriptSession == selected.sessionId
  }

  /** One act more; a catch-up remembers what was on display when it set out. */
  method PlayOne(order: ItemOrder, log: Log, selected: Selection, driver: Driver, ghost start: State,
    ghost acts: seq<Act>, act: Act, shown: seq<State>)
    requires AllAllowed(log, selected, acts + [act]) && AllAllowed(log, selected, acts)
    requires Plays(order, log, selected, driver, start, acts)
    requires ShowsAll(order, log, selected, start, acts, shown)
    modifies driver
    ensures Plays(order, log, selected, driver, start, acts + [act])
  {
    ghost var n := |acts|;
    assert (acts + [act])[..n] == acts && (acts + [act])[n] == act;
    assert Allowed(log, selected, (acts + [act])[n], n);
    match act {
      case Arrives(to, event) => driver.Enqueue(to, selected, event);
      case Frame =>
        FlushingIsReceiving(order, log, selected, driver.transcript.value, false, driver.queue);
        var _ := driver.Flush(order, selected);
      case Completes(since, numbers) =>
        assert (acts + [act])[..since] == acts[..since];
        var _ := driver.CompleteCatchUp(order, shown[since], Entries(log, numbers), true);
      case Reads(page) => driver.ShowPage(selected, page, true);
    }
  }

  /** A driver that goes through the acts has exactly this queue and this display. */
  method Play(order: ItemOrder, log: Log, selected: Selection, driver: Driver, ghost start: State, acts: seq<Act>)
    requires AllAllowed(log, selected, acts) && driver.queue == []
    requires driver.transcript == Some(start) && driver.transcriptSession == selected.sessionId
    modifies driver
    ensures driver.queue == Waiting(log, selected, acts)
    ensures driver.transcript == Some(Displayed(order, log, selected, start, acts))
    ensures driver.transcriptSession == selected.sessionId
  {
    var shown := [driver.transcript.value];
    for n := 0 to |acts|
      invariant AllAllowed(log, selected, acts[..n]) && Plays(order, log, selected, driver, start, acts[..n])
      invariant ShowsAll(order, log, selected, start, acts[..n], shown)
    {
      OneActMore(log, selected, acts, n);
      PlayOne(order, log, selected, driver, start, acts[..n], acts[n], shown);
      OneMoreShown(order, log, selected, start, acts, n, shown);
      shown := shown + [driver.transcript.value];
    }
    assert acts[..|acts|] == acts;
  }

  lemma OneMoreShown(order: ItemOrder, log: Log, selected: Selection, start: State, acts: seq<Act>, n: nat,
    shown: seq<State>)
    requires AllAllowed(log, selected, acts) && n < |acts| && AllAllowed(log, selected, acts[..n])
    requires AllAllowed(log, selected, acts[..n + 1]) && ShowsAll(order, log, selected, start, acts[..n], shown)
    ensures ShowsAll(order, log, selected, start, acts[..n + 1],
      shown + [Displayed(order, log, selected, start, acts[..n + 1])])
  {
    assert forall k :: 0 <= k <= n ==> acts[..n + 1][..k] == acts[..k] && acts[..n][..k] == acts[..k];
    assert acts[..n + 1][..n + 1] == acts[..n + 1];
  }

  lemma OneActMore(log: Log, selected: Selection, acts: seq<Act>, n: nat)
    requires AllAllowed(log, selected, acts) && n < |acts|
    ensures AllAllowed(log, selected, acts[..n + 1]) && acts[..n + 1] == acts[..n] + [acts[n]]
  {
    assert forall i :: 0 <= i <= n ==> acts[..n + 1][i] == acts[i];
  }

  /** The changes that the acts make, deliveries of a flush one by one. */
  function Changes(log: Log, selected: Selection, acts: seq<Act>): seq<Change>
    requires AllAllowed(log, selected, acts)
    decreases |acts|
  {
    if acts == [] then []
    else
      var n := |acts| - 1;
      var before := Changes(log, selected, acts[..n]);
      match acts[n]
      case Arrives(_, _) => before
      case Frame => before + AllReceived(Delivered(log, selected, Waiting(log, selected, acts[..n])))
      case Completes(since, numbers) =>
        assert Allowed(log, selected, acts[n], n);
        before + [CaughtUp(|Changes(log, selected, acts[..since])|, numbers)]
      case Reads(page) => before + [Received(Live(page))]
  }

  function AllReceived(deliveries: seq<Delivery>): (changes: seq<Change>)
    ensures |changes| == |deliveries| && forall i :: 0 <= i < |deliveries| ==> changes[i] == Received(deliveries[i])
  {
    seq(|deliveries|, i requires 0 <= i < |deliveries| => Received(deliveries[i]))
  }

  lemma {:induction false} ChangesGrow(log: Log, selected: Selection, acts: seq<Act>, since: nat)
    requires AllAllowed(log, selected, acts) && since <= |acts|
    ensures Changes(log, selected, acts[..since]) <= Changes(log, selected, acts)
    decreases |acts|
  {
    if since == |acts| {
      assert acts[..since] == acts;
    } else {
      assert acts[..|acts| - 1][..since] == acts[..since];
      ChangesGrow(log, selected, acts[..|acts| - 1], since);
    }
  }

  lemma {:induction false} ChangesArePossible(log: Log, selected: Selection, acts: seq<Act>)
    requires AllAllowed(log, selected, acts)
    ensures AllPossible(log, Changes(log, selected, acts))
    decreases |acts|
  {
    if acts != [] {
      var n := |acts| - 1;
      ChangesArePossible(log, selected, acts[..n]);
      assert Allowed(log, selected, acts[n], n);
      if acts[n].Completes? {
        assert acts[..n][..acts[n].since] == acts[..acts[n].since];
        ChangesGrow(log, selected, acts[..n], acts[n].since);
      }
    }
  }

  function LastOf(shown: seq<State>): State
    requires shown != []
  {
    shown[|shown| - 1]
  }

  lemma OneMoreReceived(order: ItemOrder, log: Log, start: State, changes: seq<Change>, delivery: Delivery)
    requires AllPossible(log, changes) && Deliverable(log, delivery)
    ensures AllPossible(log, changes + [Received(delivery)])
    ensures LastOf(History(order, log, start, changes + [Received(delivery)])) ==
      Receive(order, log, LastOf(History(order, log, start, changes)), delivery)
  {
    var all := changes + [Received(delivery)];
    assert all[..|all| - 1] == changes;
  }

  lemma AllReceivedGrows(changes: seq<Change>, deliveries: seq<Delivery>)
    requires deliveries != []
    ensures var n := |deliveries| - 1;
      changes + AllReceived(deliveries) == changes + AllReceived(deliveries[..n]) + [Received(deliveries[n])]
  {
  }

  lemma {:induction false} ReceivingOneByOne(order: ItemOrder, log: Log, start: State, changes: seq<Change>,
    deliveries: seq<Delivery>)
    requires AllPossible(log, changes) && AllDeliverable(log, deliveries)
    ensures AllPossible(log, changes + AllReceived(deliveries))
    ensures LastOf(History(order, log, start, changes + AllReceived(deliveries))) ==
      ReceiveAll(order, log, LastOf(History(order, log, start, changes)), deliveries)
    decreases |deliveries|
  {
    if deliveries == [] {
      assert changes + AllReceived(deliveries) == changes;
    } else {
      var n := |deliveries| - 1;
      var before := changes + AllReceived(deliveries[..n]);
      ReceivingOneByOne(order, log, start, changes, deliveries[..n]);
      OneMoreReceived(order, log, start, before, deliveries[n]);
      AllReceivedGrows(changes, deliveries);
    }
  }

  /** What is on display is the last entry of the history of changes. */
  lemma {:induction false} DisplayedIsHistory(order: ItemOrder, log: Log, selected: Selection, start: State,
    acts: seq<Act>)
    requires AllAllowed(log, selected, acts)
    ensures AllPossible(log, Changes(log, selected, acts))
    ensures Displayed(order, log, selected, start, acts) ==
      LastOf(History(order, log, start, Changes(log, selected, acts)))
    decreases |acts|
  {
    ChangesArePossible(log, selected, acts);
    if acts != [] {
      var n := |acts| - 1;
      var front := acts[..n];
      DisplayedIsHistory(order, log, selected, start, front);
      assert Allowed(log, selected, acts[n], n);
      var changes, before := Changes(log, selected, front), Displayed(order, log, selected, start, front);
      match acts[n]
      case Arrives(_, _) =>
      case Frame =>
        var queue := Waiting(log, selected, front);
        FlushingIsReceiving(order, log, selected, before, false, queue);
        ReceivingOneByOne(order, log, start, changes, Delivered(log, selected, queue));
      case Completes(since, numbers) => CatchUpIsInHistory(order, log, selected, start, acts);
      case Reads(page) =>
        assert Changes(log, selected, acts)[..|changes|] == changes;
    }
  }

  lemma CatchUpIsInHistory(order: ItemOrder, log: Log, selected: Selection, start: State, acts: seq<Act>)
    requires AllAllowed(log, selected, acts) && acts != [] && acts[|acts| - 1].Completes?
    requires var front := acts[..|acts| - 1];
      && AllPossible(log, Changes(log, selected, front))
      && Displayed(order, log, selected, start, front) ==
        LastOf(History(order, log, start, Changes(log, selected, front)))
    ensures AllPossible(log, Changes(log, selected, acts))
    ensures Displayed(order, log, selected, start, acts) ==
      LastOf(History(order, log, start, Changes(log, selected, acts)))
    decreases |acts|, 0
  {
    var n := |acts| - 1;
    var front := acts[..n];
    assert Allowed(log, selected, acts[n], n);
    var since := acts[n].since;
    ChangesArePossible(log, selected, acts);
    var changes, all := Changes(log, selected, front), Changes(log, selected, acts);
    assert all[..|changes|] == changes;
    DisplayedIsHistory(order, log, selected, start, acts[..since]);
    assert front[..since] == acts[..since];
    ChangesGrow(log, selected, front, since);
    var from := |Changes(log, selected, acts[..since])|;
    HistoryOfPrefix(order, log, start, changes, from);
    assert changes[..from] == Changes(log, selected, acts[..since]);
    assert History(order, log, start, changes)[from] == Displayed(order, log, selected, start, acts[..since]);
  }

  /**
    Over whole runs of arriving events, animation frames, catch-ups and pages, what is on display is
    always the start, or what was shown right after a page was taken, folded through exactly the
    contiguous entries up to its cursor.
  */
  lemma EverythingDisplayedIsGrounded(order: ItemOrder, log: Log, selected: Selection, start: State, acts: seq<Act>)
    requires start.cursor > 0 && AllAllowed(log, selected, acts)
    ensures AllPossible(log, Changes(log, selected, acts))
    ensures Grounded(order, log, start, Changes(log, selected, acts), Displayed(order, log, selected, start, acts))
  {
    DisplayedIsHistory(order, log, selected, start, acts);
    var changes := Changes(log, selected, acts);
    EverythingShownIsGrounded(order, log, start, changes, |changes|);
  }
}
