/**
  The elevated broker (`crates/agent/src/broker_main.rs`): the bounded output buffer with its polling
  reader (`crates/agent/src/terminal.rs`), and the window of used request ids.
*/
module Broker {
  import opened Scrollback

  const MAX_OUTPUT_BYTES := 512 * 1024

  /** The last `limit` elements of `s`. */
  function Last<T>(s: seq<T>, limit: nat): seq<T> {
    if |s| > limit then s[|s| - limit..] else s
  }

  /** Keeping the last of what was kept and what is new is keeping the last of everything. */
  lemma LastOfLast<T>(s: seq<T>, more: seq<T>, limit: nat)
    ensures Last(Last(s, limit) + more, limit) == Last(s + more, limit)
  {
  }

  /** Where the buffer starts once `total` bytes have been written. */
  function Base(total: nat): nat {
    if total > MAX_OUTPUT_BYTES then total - MAX_OUTPUT_BYTES else 0
  }

  // ---------- the buffer ----------

  class OutputBuffer {
    var baseOffset: nat
    var data: seq<Byte>
    var exited: bool
    /** Everything ever pushed. */
    ghost var history: seq<Byte>

    ghost predicate Valid()
      reads this
    {
      data == Last(history, MAX_OUTPUT_BYTES) && baseOffset == Base(|history|)
    }

    constructor ()
      ensures Valid() && history == [] && !exited
    {
      baseOffset, data, exited, history := 0, [], false, [];
    }

    method Push(bytes: seq<Byte>)
      requires Valid()
      modifies this
      ensures Valid() && history == old(history) + bytes && exited == old(exited)
    {
      LastOfLast(history, bytes, MAX_OUTPUT_BYTES);
      data := data + bytes;
      if |data| > MAX_OUTPUT_BYTES {
        var overflow := |data| - MAX_OUTPUT_BYTES;
        data := data[overflow..];
        baseOffset := baseOffset + overflow;
      }
      history := history + bytes;
    }

    /** The `Read` command: what is new since `cursor`, as far as it is still there. */
    method ReadFrom(cursor: nat) returns (bytes: seq<Byte>, next: nat, truncated: bool)
      requires Valid()
      ensures next == |history|
      ensures truncated <==> cursor < Base(|history|)
      ensures bytes == if cursor > |history| then [] else history[Resume(cursor, |history|)..]
    {
      var effective := if cursor > baseOffset then cursor else baseOffset;
      var start := effective - baseOffset;
      bytes := if start < |data| then data[start..] else [];
      next := baseOffset + |data|;
      truncated := cursor < baseOffset;
    }
  }

  /** The first byte a reader at `cursor` gets. */
  function Resume(cursor: nat, total: nat): (from: nat)
    ensures cursor <= total ==> from <= total
  {
    if cursor > Base(total) then cursor else Base(total)
  }

  // ---------- a polling reader ----------

  datatype Event = Written(bytes: seq<Byte>) | Polled

  /** The reader follows the returned cursor; `lost` counts the bytes it skipped over, `told` the flag. */
  datatype Reader = Reader(history: seq<Byte>, cursor: nat, received: seq<Byte>, lost: nat, told: bool)

  function Observe(r: Reader, event: Event): Reader
    requires r.cursor <= |r.history|
  {
    match event
    case Written(bytes) => r.(history := r.history + bytes)
    case Polled =>
      var from := Resume(r.cursor, |r.history|);
      r.(
        cursor := |r.history|,
        received := r.received + r.history[from..],
        lost := r.lost + from - r.cursor,
        told := r.told || r.cursor < Base(|r.history|))
  }

  function Follow(events: seq<Event>): (r: Reader)
    ensures r.cursor <= |r.history|
  {
    if events == [] then Reader([], 0, [], 0, false)
    else Observe(Follow(events[..|events| - 1]), events[|events| - 1])
  }

  /** Every byte up to the cursor is either received or lost, and the flag tells which happened. */
  lemma {:induction false} ReaderIsTold(events: seq<Event>)
    ensures var r := Follow(events);
      && |r.received| + r.lost == r.cursor
      && (r.told <==> r.lost > 0)
      && (r.received == r.history[..r.cursor] <==> !r.told)
    decreases |events|
  {
    if events != [] {
      var n := |events| - 1;
      ReaderIsTold(events[..n]);
      var before, r := Follow(events[..n]), Follow(events);
      match events[n]
      case Written(bytes) => assert r.history[..r.cursor] == before.history[..r.cursor];
      case Polled =>
        if !r.told {
          assert before.history == before.history[..before.cursor] + before.history[before.cursor..];
          assert r.history[..r.cursor] == r.history;
        }
    }
  }

  /** The bytes written since the last poll. */
  function Unread(events: seq<Event>): nat {
    if events == [] then 0
    else match events[|events| - 1]
      case Polled => 0
      case Written(bytes) => Unread(events[..|events| - 1]) + |bytes|
  }

  lemma {:induction false} UnreadIsDistance(events: seq<Event>)
    ensures Unread(events) == |Follow(events).history| - Follow(events).cursor
    decreases |events|
  {
    if events != [] { UnreadIsDistance(events[..|events| - 1]); }
  }

  /** Exactly the output history arrives if and only if no poll came later than 524288 bytes after the one before. */
  lemma {:induction false} ReassemblesExactlyWhenInTime(events: seq<Event>)
    ensures var r := Follow(events);
      r.received == r.history[..r.cursor] <==>
      forall i :: 0 <= i < |events| && events[i].Polled? ==> Unread(events[..i]) <= MAX_OUTPUT_BYTES
    decreases |events|
  {
    ReaderIsTold(events);
    if events != [] {
      var n := |events| - 1;
      ReassemblesExactlyWhenInTime(events[..n]);
      ReaderIsTold(events[..n]);
      UnreadIsDistance(events[..n]);
      assert forall i :: 0 <= i < n ==> events[..n][..i] == events[..i] && events[..n][i] == events[i];
      var before := Follow(events[..n]);
      assert events[n].Polled? ==> (before.cursor < Base(|before.history|) <==> Unread(events[..n]) > MAX_OUTPUT_BYTES);
    }
  }

  // ---------- used request ids ----------

  const WINDOW := 4096
  const FRESH_MS := 30_000

  class RequestWindow {
    var used: set<string>
    var order: seq<string>
    /** Every id ever accepted, in order. */
    ghost var accepted: seq<string>

    ghost predicate Valid()
      reads this
    {
      && order == Last(accepted, WINDOW)
      && used == (set id | id in order)
      && Spaced(accepted)
    }

    constructor ()
      ensures Valid() && accepted == []
    {
      used, order, accepted := {}, [], [];
    }

    /** `validate_fresh_request`: accepted exactly if recent, well formed and not among the last 4096 accepted. */
    method ValidateFresh(requestId: string, isUuid: bool, timestamp: nat, now: nat) returns (ok: bool)
      requires Valid()
      modifies this
      ensures Valid()
      ensures ok <==> -FRESH_MS <= now - timestamp <= FRESH_MS && isUuid && requestId !in Last(old(accepted), WINDOW)
      ensures accepted == old(accepted) + if ok then [requestId] else []
    {
      var distance := if now > timestamp then now - timestamp else timestamp - now;
      if distance > FRESH_MS || !isUuid || requestId in used {
        return false;
      }
      used := used + {requestId};
      order := order + [requestId];
      accepted := accepted + [requestId];
      LastOfLast(old(accepted), [requestId], WINDOW);
      NewIdIsSpaced(old(accepted), requestId);
      assert used == (set id | id in order);
      Evict();
      return true;
    }

    /** The oldest ids are forgotten from the queue and the set together. */
    method Evict()
      requires Distinct(order) && used == (set id | id in order)
      modifies this`used, this`order
      ensures order == Last(old(order), WINDOW) && used == (set id | id in order)
    {
      while |order| > WINDOW
        invariant Last(order, WINDOW) == Last(old(order), WINDOW)
        invariant Distinct(order) && used == (set id | id in order)
        decreases |order|
      {
        var id := order[0];
        RemovingTheHead(order);
        order := order[1..];
        used := used - {id};
      }
    }
  }

  predicate Distinct(ids: seq<string>) {
    forall i, j :: 0 <= i < j < |ids| ==> ids[i] != ids[j]
  }

  lemma RemovingTheHead(order: seq<string>)
    requires Distinct(order) && |order| > WINDOW
    ensures Distinct(order[1..]) && Last(order[1..], WINDOW) == Last(order, WINDOW)
    ensures (set id | id in order[1..]) == (set id | id in order) - {order[0]}
  {
    assert order == [order[0]] + order[1..];
  }

  /** Equal ids are more than a window apart. */
  predicate Spaced(accepted: seq<string>) {
    forall i, j :: 0 <= i < j < |accepted| && accepted[i] == accepted[j] ==> j - i > WINDOW
  }

  lemma NewIdIsSpaced(accepted: seq<string>, id: string)
    requires Spaced(accepted) && id !in Last(accepted, WINDOW)
    ensures Spaced(accepted + [id])
    ensures Distinct(Last(accepted, WINDOW) + [id])
  {
    var order := Last(accepted, WINDOW);
    var from := |accepted| - |order|;
    assert forall i :: 0 <= i < |order| ==> order[i] == accepted[from + i];
    assert forall i :: from <= i < |accepted| ==> accepted[i] == order[i - from];
  }
}
