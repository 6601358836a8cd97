/** The fixed-window rate limiter of the relay (`consumeRate` in `apps/control-plane/src/relay.ts`). */
module RateWindow {

  datatype Window = Window(startedAt: int, count: nat)

  predicate Resets(window: Window, durationMs: int, now: int) {
    now - window.startedAt >= durationMs
  }

  function Next(window: Window, durationMs: int, now: int): Window {
    if Resets(window, durationMs, now) then Window(now, 1) else window.(count := window.count + 1)
  }

  class Limiter {
    var startedAt: int
    var count: nat

    function View(): Window
      reads this
    {
      Window(startedAt, count)
    }

    constructor (now: int)
      ensures View() == Window(now, 0)
    {
      startedAt, count := now, 0;
    }

    method ConsumeRate(maximum: nat, durationMs: int, now: int) returns (admitted: bool)
      modifies this
      ensures View() == Next(old(View()), durationMs, now)
      ensures admitted <==> View().count <= maximum
    {
      if now - startedAt >= durationMs {
        startedAt := now;
        count := 0;
      }
      count := count + 1;
      return count <= maximum;
    }
  }

  // ---------- call sequences ----------

  /** The window after the first `n` calls. */
  function After(start: Window, durationMs: int, calls: seq<int>, n: nat): Window
    requires n <= |calls|
  {
    if n == 0 then start else Next(After(start, durationMs, calls, n - 1), durationMs, calls[n - 1])
  }

  /** How many of the calls `lo`, ..., `hi - 1` are admitted. */
  function Admitted(start: Window, maximum: nat, durationMs: int, calls: seq<int>, lo: nat, hi: nat): nat
    requires lo <= hi <= |calls|
  {
    if lo == hi then 0
    else
      var last := if After(start, durationMs, calls, hi).count <= maximum then 1 else 0;
      Admitted(start, maximum, durationMs, calls, lo, hi - 1) + last
  }

  /** How many of them start a new window. */
  function Restarts(start: Window, durationMs: int, calls: seq<int>, lo: nat, hi: nat): nat
    requires lo <= hi <= |calls|
  {
    if lo == hi then 0
    else
      var last := if Resets(After(start, durationMs, calls, hi - 1), durationMs, calls[hi - 1]) then 1 else 0;
      Restarts(start, durationMs, calls, lo, hi - 1) + last
  }

  /** A window is younger than its duration at every call in it, and begins with a call or is the first. */
  lemma WindowsEndInTime(start: Window, durationMs: int, calls: seq<int>, n: nat)
    requires 0 < n <= |calls| && durationMs > 0
    ensures var window := After(start, durationMs, calls, n);
      && calls[n - 1] - window.startedAt < durationMs
      && (window.startedAt == calls[n - 1] || window.startedAt == After(start, durationMs, calls, n - 1).startedAt)
  {
  }

  /** A window opens with a call, so it starts at the start or at one of the calls. */
  lemma {:induction false} WindowsStartWithCalls(start: Window, durationMs: int, calls: seq<int>, n: nat)
    requires n <= |calls|
    ensures var startedAt := After(start, durationMs, calls, n).startedAt;
      startedAt == start.startedAt || exists i :: 0 <= i < n && calls[i] == startedAt
    decreases n
  {
    if n > 0 { WindowsStartWithCalls(start, durationMs, calls, n - 1); }
  }

  /** After a pause of the whole duration a new window opens, and its first call gets through. */
  lemma PauseOpensAWindow(start: Window, maximum: nat, durationMs: int, calls: seq<int>, n: nat)
    requires n < |calls| && calls[n] - start.startedAt >= durationMs
    requires forall i :: 0 <= i < n ==> calls[n] - calls[i] >= durationMs
    ensures After(start, durationMs, calls, n + 1) == Window(calls[n], 1)
    ensures maximum > 0 ==> Admitted(start, maximum, durationMs, calls, n, n + 1) == 1
  {
    WindowsStartWithCalls(start, durationMs, calls, n);
    assert Admitted(start, maximum, durationMs, calls, n, n) == 0;
  }

  predicate Clocked(calls: seq<int>) {
    forall i, j :: 0 <= i < j < |calls| ==> calls[i] <= calls[j]
  }

  function Min(a: nat, b: nat): nat {
    if a < b then a else b
  }

  /** Every window that begins behind call `lo`, and the one call `lo` is in, admits at most `maximum`. */
  lemma {:induction false} AdmittedPerWindow(start: Window, maximum: nat, durationMs: int, calls: seq<int>, lo: nat,
    hi: nat)
    requires lo < hi <= |calls|
    ensures Admitted(start, maximum, durationMs, calls, lo, hi) <=
      maximum * Restarts(start, durationMs, calls, lo + 1, hi) + Min(After(start, durationMs, calls, hi).count, maximum)
    decreases hi
  {
    if lo + 1 < hi {
      AdmittedPerWindow(start, maximum, durationMs, calls, lo, hi - 1);
      if Resets(After(start, durationMs, calls, hi - 1), durationMs, calls[hi - 1]) {
        var before := Restarts(start, durationMs, calls, lo + 1, hi - 1);
        assert maximum * (before + 1) == maximum * before + maximum;
      }
    } else {
      assert Admitted(start, maximum, durationMs, calls, lo, lo) == 0;
      assert Restarts(start, durationMs, calls, hi, hi) == 0;
    }
  }

  /** Calls with no restart behind the first belong to one window: at most `maximum` get through. */
  lemma WithinOneWindow(start: Window, maximum: nat, durationMs: int, calls: seq<int>, lo: nat, hi: nat)
    requires lo < hi <= |calls| && Restarts(start, durationMs, calls, lo + 1, hi) == 0
    ensures Admitted(start, maximum, durationMs, calls, lo, hi) <= maximum
  {
    AdmittedPerWindow(start, maximum, durationMs, calls, lo, hi);
  }

  /** A whole window admits exactly its first calls, up to `maximum`. */
  lemma {:induction false} WindowAdmitsItsFirstCalls(start: Window, maximum: nat, durationMs: int, calls: seq<int>,
    lo: nat, hi: nat)
    requires lo < hi <= |calls| && Restarts(start, durationMs, calls, lo + 1, hi) == 0
    requires Resets(After(start, durationMs, calls, lo), durationMs, calls[lo])
    ensures After(start, durationMs, calls, hi) == Window(calls[lo], hi - lo)
    ensures Admitted(start, maximum, durationMs, calls, lo, hi) == Min(hi - lo, maximum)
    decreases hi
  {
    if lo + 1 < hi {
      WindowAdmitsItsFirstCalls(start, maximum, durationMs, calls, lo, hi - 1);
    } else {
      assert Admitted(start, maximum, durationMs, calls, lo, lo) == 0;
    }
  }

  /** After a restart inside the range, the window began inside the range. */
  lemma {:induction false} WindowStartsInRange(start: Window, durationMs: int, calls: seq<int>, lo: nat, hi: nat)
    requires lo <= hi <= |calls| && Clocked(calls) && Restarts(start, durationMs, calls, lo, hi) > 0
    ensures calls[lo] <= After(start, durationMs, calls, hi).startedAt
    decreases hi
  {
    if !Resets(After(start, durationMs, calls, hi - 1), durationMs, calls[hi - 1]) {
      WindowStartsInRange(start, durationMs, calls, lo, hi - 1);
    }
  }

  lemma {:induction false} ShortRangesRestartOnce(start: Window, durationMs: int, calls: seq<int>, lo: nat, hi: nat)
    requires lo < hi <= |calls| && Clocked(calls) && calls[hi - 1] - calls[lo] < durationMs
    ensures Restarts(start, durationMs, calls, lo + 1, hi) <= 1
    decreases hi
  {
    if lo + 1 < hi {
      ShortRangesRestartOnce(start, durationMs, calls, lo, hi - 1);
      if Restarts(start, durationMs, calls, lo + 1, hi - 1) > 0 {
        WindowStartsInRange(start, durationMs, calls, lo + 1, hi - 1);
      }
    }
  }

  /** Calls in any interval shorter than the window: at most twice `maximum` get through. */
  lemma AtMostTwiceTheMaximum(start: Window, maximum: nat, durationMs: int, calls: seq<int>, lo: nat, hi: nat)
    requires lo < hi <= |calls| && Clocked(calls) && calls[hi - 1] - calls[lo] < durationMs
    ensures Admitted(start, maximum, durationMs, calls, lo, hi) <= 2 * maximum
  {
    AdmittedPerWindow(start, maximum, durationMs, calls, lo, hi);
    ShortRangesRestartOnce(start, durationMs, calls, lo, hi);
    var restarts := Restarts(start, durationMs, calls, lo + 1, hi);
    assert restarts == 0 || restarts == 1;
  }
}
