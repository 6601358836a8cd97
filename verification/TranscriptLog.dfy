/**
  Delivery of one log's batches over a link that drops, repeats and reorders them.

  Entry `k` of the log carries sequence number `k + 1`. The theorems compare whatever the reducer
  shows with `Replay`, the fold of the log's contiguous entries.
*/
module TranscriptLog {
  import opened Wrappers
  import opened Transcript

  type Log = seq<seq<Operation>>

  /** `start` folded through the entries after its cursor, up to `n`; None if one of them has a gap. */
  function Replay(order: ItemOrder, start: State, log: Log, n: int): (r: Option<State>)
    requires 0 <= start.cursor <= n
    ensures r.Some? ==> r.value.cursor == n
    decreases n
  {
    if n == start.cursor then Some(start)
    else if n > |log| then None
    else
      match Replay(order, start, log, n - 1)
      case None => None
      case Some(before) =>
        var run := RunOperations(order, before, log[n - 1]);
        if run.gap then None else Some(run.state.(cursor := n))
  }

  datatype Delivery = Batch(n: nat) | Live(page: Page)

  /** Batches come from the log; pages, with items or without, carry a positive cursor. */
  predicate Deliverable(log: Log, delivery: Delivery) {
    match delivery
    case Batch(n) => 1 <= n <= |log|
    case Live(page) => page.cursor.Some? && page.cursor.value > 0
  }

  predicate AllDeliverable(log: Log, deliveries: seq<Delivery>) {
    forall i :: 0 <= i < |deliveries| ==> Deliverable(log, deliveries[i])
  }

  function Receive(order: ItemOrder, log: Log, state: State, delivery: Delivery): State
    requires Deliverable(log, delivery)
  {
    match delivery
    case Batch(n) => ApplyTranscriptOps(order, state, log[n - 1], Some(n)).state
    case Live(page) => ApplyTranscriptReset(Some(state), page)
  }

  function ReceiveAll(order: ItemOrder, log: Log, start: State, deliveries: seq<Delivery>): State
    requires AllDeliverable(log, deliveries)
  {
    if deliveries == [] then start
    else
      var n := |deliveries| - 1;
      Receive(order, log, ReceiveAll(order, log, start, deliveries[..n]), deliveries[n])
  }

  /** A page is taken unless it is older than what is shown or, without items, adds no news to it. */
  predicate Taken(state: State, page: Page)
    requires page.cursor.Some?
  {
    if page.items == [] && state.items != [] then page.cursor.value > state.cursor
    else page.cursor.value >= state.cursor
  }

  /** A page that is taken replaces everything shown, except that one without items leaves the items. */
  lemma ResetCases(state: State, page: Page)
    requires state.cursor > 0 && page.cursor.Some? && page.cursor.value > 0
    ensures ApplyTranscriptReset(Some(state), page) ==
      if !Taken(state, page) then state
      else TranscriptFromPage(page).(items := if page.items == [] then state.items else page.items)
  {
  }

  /** Taken or not, a page leaves the larger of the two cursors. */
  lemma PageCursor(order: ItemOrder, log: Log, state: State, page: Page)
    requires state.cursor > 0 && page.cursor.Some? && page.cursor.value > 0
    ensures Receive(order, log, state, Live(page)).cursor ==
      if page.cursor.value > state.cursor then page.cursor.value else state.cursor
  {
    ResetCases(state, page);
  }

  lemma CursorNeverFallsNow(order: ItemOrder, log: Log, state: State, delivery: Delivery)
    requires state.cursor > 0 && Deliverable(log, delivery)
    ensures state.cursor <= Receive(order, log, state, delivery).cursor
  {
    if delivery.Live? { PageCursor(order, log, state, delivery.page); }
  }

  /** What was shown right after the last page that was taken, or the start if none was. */
  function LastReset(order: ItemOrder, log: Log, start: State, deliveries: seq<Delivery>): State
    requires AllDeliverable(log, deliveries)
  {
    if deliveries == [] then start
    else
      var n := |deliveries| - 1;
      var before := ReceiveAll(order, log, start, deliveries[..n]);
      if deliveries[n].Live? && Taken(before, deliveries[n].page) then Receive(order, log, before, deliveries[n])
      else LastReset(order, log, start, deliveries[..n])
  }

  // ---------- safety ----------

  /** One batch advances a replayed state by one entry or leaves it alone. */
  lemma BatchStep(order: ItemOrder, log: Log, base: State, state: State, n: nat)
    requires 0 < base.cursor <= state.cursor && 1 <= n <= |log|
    requires Replay(order, base, log, state.cursor) == Some(state)
    ensures var next := Receive(order, log, state, Batch(n));
      && state.cursor <= next.cursor
      && Replay(order, base, log, next.cursor) == Some(next)
      && (next == state || next.cursor == n == state.cursor + 1)
      && (n == state.cursor + 1 && Replay(order, base, log, n).Some? ==> next.cursor == n)
  {
    var next := Receive(order, log, state, Batch(n));
    if n != state.cursor + 1 {
      assert next == state;
    } else {
      var run := RunOperations(order, state, log[n - 1]);
      assert next == if run.gap then state else run.state.(cursor := n);
    }
  }

  /**
    Whatever is dropped, repeated or reordered, the transcript is what was shown right after the last
    page taken, or the start, folded through exactly the contiguous entries up to its cursor.
  */
  lemma {:induction false} ShowsContiguousLog(order: ItemOrder, log: Log, start: State, deliveries: seq<Delivery>)
    requires start.cursor > 0 && AllDeliverable(log, deliveries)
    ensures var shown := ReceiveAll(order, log, start, deliveries);
      var base := LastReset(order, log, start, deliveries);
      && 0 < base.cursor <= shown.cursor
      && start.cursor <= shown.cursor
      && Replay(order, base, log, shown.cursor) == Some(shown)
    decreases |deliveries|
  {
    if deliveries != [] {
      var n := |deliveries| - 1;
      ShowsContiguousLog(order, log, start, deliveries[..n]);
      var before := ReceiveAll(order, log, start, deliveries[..n]);
      match deliveries[n]
      case Batch(k) => BatchStep(order, log, LastReset(order, log, start, deliveries[..n]), before, k);
      case Live(page) => ResetCases(before, page);
    }
  }

  /** Replaying on from a replayed state is replaying from the start. */
  lemma {:induction false} ReplayComposes(order: ItemOrder, log: Log, start: State, mid: State, n: int)
    requires 0 <= start.cursor <= mid.cursor <= n
    requires Replay(order, start, log, mid.cursor) == Some(mid)
    ensures Replay(order, mid, log, n) == Replay(order, start, log, n)
    decreases n
  {
    if mid.cursor < n && n <= |log| {
      ReplayComposes(order, log, start, mid, n - 1);
    }
  }

  /**
    The page is the log's state at its cursor. A page without items does not say what they are: it
    must then not skip entries that change them, counted from cursor `at`.
  */
  predicate PageOfLog(order: ItemOrder, log: Log, start: State, at: int, page: Page)
    requires page.cursor.Some? && 0 <= start.cursor <= at
  {
    start.cursor <= page.cursor.value &&
    match Replay(order, start, log, page.cursor.value)
    case None => false
    case Some(state) =>
      && TranscriptFromPage(page) == state.(items := page.items)
      && if page.items != [] then page.items == state.items
         else page.cursor.value > at ==> SameItems(Replay(order, start, log, at), state)
  }

  predicate SameItems(a: Option<State>, b: State) {
    a.Some? && a.value.items == b.items
  }

  /** Every page that is taken is one of the log, for the cursor it meets. */
  predicate PagesOfLog(order: ItemOrder, log: Log, start: State, deliveries: seq<Delivery>)
    requires AllDeliverable(log, deliveries)
  {
    forall i :: 0 <= i < |deliveries| && deliveries[i].Live? ==>
      var before := ReceiveAll(order, log, start, deliveries[..i]);
      assert Deliverable(log, deliveries[i]);
      Taken(before, deliveries[i].page) ==>
        0 <= start.cursor <= before.cursor && PageOfLog(order, log, start, before.cursor, deliveries[i].page)
  }

  lemma PagesOfPrefix(order: ItemOrder, log: Log, start: State, deliveries: seq<Delivery>, n: nat)
    requires AllDeliverable(log, deliveries) && PagesOfLog(order, log, start, deliveries) && n <= |deliveries|
    ensures PagesOfLog(order, log, start, deliveries[..n])
  {
    assert forall i :: 0 <= i < n ==> deliveries[..n][..i] == deliveries[..i] && deliveries[..n][i] == deliveries[i];
  }

  lemma ReceivingKeepsReplay(order: ItemOrder, log: Log, start: State, state: State, delivery: Delivery)
    requires 0 < start.cursor <= state.cursor && Replay(order, start, log, state.cursor) == Some(state)
    requires Deliverable(log, delivery)
    requires delivery.Live? && Taken(state, delivery.page) ==>
      PageOfLog(order, log, start, state.cursor, delivery.page)
    ensures var next := Receive(order, log, state, delivery);
      state.cursor <= next.cursor && Replay(order, start, log, next.cursor) == Some(next)
  {
    match delivery
    case Batch(k) => BatchStep(order, log, start, state, k);
    case Live(page) => ResetCases(state, page);
  }

  lemma LastReceived(order: ItemOrder, log: Log, start: State, deliveries: seq<Delivery>) returns (before: State)
    requires AllDeliverable(log, deliveries) && deliveries != []
    ensures before == ReceiveAll(order, log, start, deliveries[..|deliveries| - 1])
    ensures ReceiveAll(order, log, start, deliveries) == Receive(order, log, before, deliveries[|deliveries| - 1])
  {
    before := ReceiveAll(order, log, start, deliveries[..|deliveries| - 1]);
  }

  /**
    When pages are states of the same log, history no longer matters: two browsers with equal
    cursors show equal transcripts.
  */
  lemma {:induction false} PagesOfTheLogConverge(order: ItemOrder, log: Log, start: State, deliveries: seq<Delivery>)
    requires start.cursor > 0 && AllDeliverable(log, deliveries) && PagesOfLog(order, log, start, deliveries)
    ensures var shown := ReceiveAll(order, log, start, deliveries);
      start.cursor <= shown.cursor && Replay(order, start, log, shown.cursor) == Some(shown)
    decreases |deliveries|
  {
    if deliveries != [] {
      var n := |deliveries| - 1;
      PagesOfPrefix(order, log, start, deliveries, n);
      PagesOfTheLogConverge(order, log, start, deliveries[..n]);
      var before := LastReceived(order, log, start, deliveries);
      ReceivingKeepsReplay(order, log, start, before, deliveries[n]);
    }
  }

  // ---------- progress ----------

  /** The last entry that replay gets through. */
  function Horizon(order: ItemOrder, log: Log, start: State, n: int): (horizon: int)
    requires 0 <= start.cursor <= n && Replay(order, start, log, n).Some?
    ensures n <= horizon
    ensures Replay(order, start, log, horizon).Some? && Replay(order, start, log, horizon + 1).None?
    decreases |log| - n
  {
    if Replay(order, start, log, n + 1).Some? then Horizon(order, log, start, n + 1) else n
  }

  /** Replay gets through an entry only after all before it. */
  lemma {:induction false} ReplayPrefix(order: ItemOrder, log: Log, start: State, m: int, n: int)
    requires 0 <= start.cursor <= m <= n && Replay(order, start, log, n).Some?
    ensures Replay(order, start, log, m).Some?
    decreases n
  {
    if m < n { ReplayPrefix(order, log, start, m, n - 1); }
  }

  /** So the horizon is where replay ends. */
  lemma HorizonIsExact(order: ItemOrder, log: Log, start: State, n: int)
    requires 0 <= start.cursor <= n
    ensures Replay(order, start, log, n).Some? <==> n <= Horizon(order, log, start, start.cursor)
  {
    var horizon := Horizon(order, log, start, start.cursor);
    if n <= horizon {
      ReplayPrefix(order, log, start, n, horizon);
    } else if Replay(order, start, log, n).Some? {
      ReplayPrefix(order, log, start, horizon + 1, n);
    }
  }

  /** Where the cursor gets to, by numbers alone, if replay is possible up to `horizon`. */
  function ReachOne(reached: int, delivery: Delivery, horizon: int): int {
    match delivery
    case Batch(k) => if k == reached + 1 <= horizon then k else reached
    case Live(page) => if page.cursor.Some? && page.cursor.value > reached then page.cursor.value else reached
  }

  function Reach(cursor: int, deliveries: seq<Delivery>, horizon: int): int {
    if deliveries == [] then cursor
    else ReachOne(Reach(cursor, deliveries[..|deliveries| - 1], horizon), deliveries[|deliveries| - 1], horizon)
  }

  /** The cursor after any delivery depends only on the sequence numbers of its batches and pages. */
  lemma {:induction false} CursorIsReach(order: ItemOrder, log: Log, start: State, deliveries: seq<Delivery>)
    requires start.cursor > 0 && AllDeliverable(log, deliveries) && PagesOfLog(order, log, start, deliveries)
    ensures ReceiveAll(order, log, start, deliveries).cursor ==
      Reach(start.cursor, deliveries, Horizon(order, log, start, start.cursor))
    decreases |deliveries|
  {
    if deliveries != [] {
      var n := |deliveries| - 1;
      PagesOfPrefix(order, log, start, deliveries, n);
      CursorIsReach(order, log, start, deliveries[..n]);
      PagesOfTheLogConverge(order, log, start, deliveries[..n]);
      var before := LastReceived(order, log, start, deliveries);
      ReachesNext(order, log, start, before, deliveries[n]);
    }
  }

  lemma ReachesNext(order: ItemOrder, log: Log, start: State, state: State, delivery: Delivery)
    requires 0 < start.cursor <= state.cursor && Replay(order, start, log, state.cursor) == Some(state)
    requires Deliverable(log, delivery)
    ensures Receive(order, log, state, delivery).cursor ==
      ReachOne(state.cursor, delivery, Horizon(order, log, start, start.cursor))
  {
    HorizonIsExact(order, log, start, state.cursor + 1);
    match delivery
    case Batch(k) => BatchStep(order, log, start, state, k);
    case Live(page) => PageCursor(order, log, state, page);
  }

  /** `positions` picks out the batches cursor + 1, cursor + 2, ... in the order of delivery. */
  predicate PicksNext(deliveries: seq<Delivery>, cursor: int, positions: seq<nat>) {
    && (forall i :: 0 <= i < |positions| ==>
          && positions[i] < |deliveries|
          && deliveries[positions[i]].Batch?
          && deliveries[positions[i]].n == cursor + 1 + i)
    && (forall i, j :: 0 <= i < j < |positions| ==> positions[i] < positions[j])
  }

  lemma {:induction false} CursorNeverFalls(order: ItemOrder, log: Log, start: State, deliveries: seq<Delivery>, n: nat)
    requires start.cursor > 0 && AllDeliverable(log, deliveries) && n <= |deliveries|
    ensures 0 < ReceiveAll(order, log, start, deliveries[..n]).cursor
    ensures ReceiveAll(order, log, start, deliveries[..n]).cursor <= ReceiveAll(order, log, start, deliveries).cursor
    decreases |deliveries|
  {
    if n == |deliveries| {
      assert deliveries[..n] == deliveries;
      ShowsContiguousLog(order, log, start, deliveries);
    } else {
      var m := |deliveries| - 1;
      assert deliveries[..m][..n] == deliveries[..n];
      CursorNeverFalls(order, log, start, deliveries[..m], n);
      var before := LastReceived(order, log, start, deliveries);
      CursorNeverFallsNow(order, log, before, deliveries[m]);
    }
  }

  /**
    Noise does no harm: if the next entries, which replay, arrive in order, with any batches and pages
    of the log in between, the cursor gets past all of them.
  */
  lemma {:induction false} InOrderEntriesArrive(order: ItemOrder, log: Log, start: State, deliveries: seq<Delivery>,
    positions: seq<nat>)
    requires start.cursor > 0 && AllDeliverable(log, deliveries) && PagesOfLog(order, log, start, deliveries)
    requires PicksNext(deliveries, start.cursor, positions)
    requires Replay(order, start, log, start.cursor + |positions|).Some?
    ensures ReceiveAll(order, log, start, deliveries).cursor >= start.cursor + |positions|
    decreases |positions|
  {
    if positions == [] {
      assert deliveries[..0] == [];
      CursorNeverFalls(order, log, start, deliveries, 0);
    } else {
      var m := |positions| - 1;
      var last := positions[m];
      PagesOfPrefix(order, log, start, deliveries, last);
      ReplayPrefix(order, log, start, start.cursor + m, start.cursor + m + 1);
      assert forall i :: 0 <= i < last ==> deliveries[..last][i] == deliveries[i];
      InOrderEntriesArrive(order, log, start, deliveries[..last], positions[..m]);
      EntryArrives(order, log, start, deliveries, last);
      CursorNeverFalls(order, log, start, deliveries, last + 1);
    }
  }

  /** An entry that replays and is the next one, or an earlier one, does not fail to arrive. */
  lemma EntryArrives(order: ItemOrder, log: Log, start: State, deliveries: seq<Delivery>, i: nat)
    requires start.cursor > 0 && AllDeliverable(log, deliveries) && PagesOfLog(order, log, start, deliveries)
    requires i < |deliveries| && deliveries[i].Batch?
    requires start.cursor < deliveries[i].n <= ReceiveAll(order, log, start, deliveries[..i]).cursor + 1
    requires Replay(order, start, log, deliveries[i].n).Some?
    ensures ReceiveAll(order, log, start, deliveries[..i + 1]).cursor >= deliveries[i].n
  {
    assert deliveries[..i + 1][..i] == deliveries[..i] && deliveries[..i + 1][i] == deliveries[i];
    PagesOfPrefix(order, log, start, deliveries, i);
    PagesOfTheLogConverge(order, log, start, deliveries[..i]);
    BatchStep(order, log, start, ReceiveAll(order, log, start, deliveries[..i]), deliveries[i].n);
  }

  // ---------- deliveries of batches alone ----------

  function AsDeliveries(batches: seq<nat>): (deliveries: seq<Delivery>)
    ensures |deliveries| == |batches| && forall i :: 0 <= i < |batches| ==> deliveries[i] == Batch(batches[i])
  {
    seq(|batches|, i requires 0 <= i < |batches| => Batch(batches[i]))
  }

  lemma {:induction false} OnlyBatchesKeepTheBase(order: ItemOrder, log: Log, start: State, batches: seq<nat>)
    requires AllDeliverable(log, AsDeliveries(batches))
    ensures LastReset(order, log, start, AsDeliveries(batches)) == start
    decreases |batches|
  {
    if batches != [] {
      var n := |batches| - 1;
      assert AsDeliveries(batches[..n]) == AsDeliveries(batches)[..n];
      OnlyBatchesKeepTheBase(order, log, start, batches[..n]);
    }
  }

  // ---------- why the cursor must be positive ----------

  /**
    A batch moves the cursor over entries it does not contain exactly when the cursor was 0 and the
    batch, not the first, goes through.
  */
  lemma ZeroCursorSkipsEntries(order: ItemOrder, log: Log, state: State, n: nat)
    requires 1 <= n <= |log| && state.cursor >= 0
    ensures Receive(order, log, state, Batch(n)).cursor > state.cursor + 1 <==>
      state.cursor == 0 && n > 1 && !RunOperations(order, state, log[n - 1]).gap
  {
  }

  /** It happens, and what is shown is then not the replayed log. */
  lemma SkippedEntryExample(order: ItemOrder)
    ensures exists log: Log, start: State, n: nat ::
      && start.cursor == 0 && Deliverable(log, Batch(n))
      && Receive(order, log, start, Batch(n)).cursor == n
      && Replay(order, start, log, n) != Some(Receive(order, log, start, Batch(n)))
  {
    var task := Task("t", [], Json.Json.Null);
    var log: Log := [[TaskUpsert(Some(task))], []];
    var start := EmptyTranscript("main");
    var first := start.(tasks := map["t" := task]);
    assert RunOperations(order, start, log[0]) == Done(first) by {
      assert ApplyOperation(order, start, log[0][0]) == Done(first);
      assert log[0][1..] == [];
    }
    assert Replay(order, start, log, 0) == Some(start);
    assert Replay(order, start, log, 1) == Some(first.(cursor := 1));
    assert Replay(order, start, log, 2) == Some(first.(cursor := 2));
    assert "t" in first.tasks && "t" !in Receive(order, log, start, Batch(2)).tasks;
    assert Deliverable(log, Batch(2));
  }
}
