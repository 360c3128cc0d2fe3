/** The two persisted limiters: the fixed-window webhook limit and the unlock lockout.
    Times are integers, in seconds for the lockout; both tables are keyed by scope. */
module Limiters {
  import opened Options

  predicate Nondecreasing(ts: seq<int>) {
    forall i, j :: 0 <= i < j < |ts| ==> ts[i] <= ts[j]
  }

  datatype Result<+T> = Ok(value: T) | Invalid

  // ---- Webhook windows ----

  datatype Window = Window(start: int, requests: nat)

  /** The upsert: a window that is a full window old is replaced. */
  function Counted(w: Option<Window>, now: int, window: int): Window {
    if w.Some? && now - window < w.value.start then w.value.(requests := w.value.requests + 1)
    else Window(now, 1)
  }

  class WebhookLimits {
    var windows: map<string, Window>

    method AllowWebhookRequest(scope: string, limit: int, window: int, now: int) returns (r: Result<bool>)
      modifies this
      ensures r.Invalid? <==> scope == "" || limit < 1 || window <= 0
      ensures r.Invalid? ==> windows == old(windows)
      ensures r.Ok? ==>
                var w := Counted(if scope in old(windows) then Some(old(windows)[scope]) else None, now, window);
                windows == old(windows)[scope := w] && r.value == (w.requests <= limit)
      ensures r.Ok? && scope in old(windows) && now - old(windows)[scope].start < window ==>
                windows == old(windows)[scope := Window(old(windows)[scope].start, old(windows)[scope].requests + 1)]
                && r.value == (old(windows)[scope].requests < limit)
      ensures r.Ok? && (scope !in old(windows) || now - old(windows)[scope].start >= window) ==>
                windows == old(windows)[scope := Window(now, 1)] && r.value
    {
      if scope == "" || limit < 1 || window <= 0 {
        return Invalid;
      }
      var cutoff := now - window;
      if scope in windows {
        var w := windows[scope];
        windows := windows[scope := Window(if w.start <= cutoff then now else w.start,
                                           if w.start <= cutoff then 1 else w.requests + 1)];
      } else {
        windows := windows[scope := Window(now, 1)];
      }
      var requests := windows[scope].requests;
      return Ok(requests <= limit);
    }
  }

  /** How many of the requests at `ts`, arriving with the scope in state `w`, are allowed
      at a time in [lo, hi). */
  function Allowed(w: Option<Window>, ts: seq<int>, limit: int, window: int, lo: int, hi: int): nat
    decreases ts
  {
    if ts == [] then 0 else
    var n := Counted(w, ts[0], window);
    (if lo <= ts[0] < hi && n.requests <= limit then 1 else 0) + Allowed(Some(n), ts[1..], limit, window, lo, hi)
  }

  function Left(w: Window, limit: int): nat {
    if w.requests < limit then limit - w.requests else 0
  }

  /** What can still be allowed in a span of one window's length, given the window in
      force and that no request before `last` is to come. */
  function Budget(w: Window, last: int, limit: int, window: int, lo: int): int {
    if lo + window <= w.start then 0
    else if lo <= w.start then Left(w, limit)
    else if lo <= last then Left(w, limit) + limit
    else 2 * limit - 1
  }

  lemma {:induction false} WindowBudget(w: Window, last: int, ts: seq<int>, limit: int, window: int, lo: int)
    requires limit >= 1 && window >= 1 && w.requests >= 1 && w.start <= last
    requires Nondecreasing(ts) && (ts != [] ==> last <= ts[0])
    ensures Allowed(Some(w), ts, limit, window, lo, lo + window) <= Budget(w, last, limit, window, lo)
    decreases ts
  {
    if ts != [] {
      var n := Counted(Some(w), ts[0], window);
      assert forall i :: 0 <= i < |ts[1..]| ==> ts[1..][i] == ts[i + 1];
      WindowBudget(n, ts[0], ts[1..], limit, window, lo);
    }
  }

  /** In any half-open span as long as the window at most 2 * limit - 1 requests are
      allowed, from any state of the scope. */
  lemma AllowedPerSpan(w: Option<Window>, ts: seq<int>, limit: int, window: int, lo: int)
    requires limit >= 1 && window >= 1 && Nondecreasing(ts)
    requires w.Some? ==> w.value.requests >= 1 && (ts != [] ==> w.value.start <= ts[0])
    ensures Allowed(w, ts, limit, window, lo, lo + window) <= 2 * limit - 1
  {
    if ts != [] {
      if w.Some? {
        WindowBudget(w.value, w.value.start, ts, limit, window, lo);
      } else {
        assert forall i :: 0 <= i < |ts[1..]| ==> ts[1..][i] == ts[i + 1];
        WindowBudget(Window(ts[0], 1), ts[0], ts[1..], limit, window, lo);
      }
    }
  }

  /** `n` requests at the same time. */
  function Burst(now: int, n: nat): seq<int> {
    seq(n, _ => now)
  }

  lemma {:induction false} BurstAllowed(w: Window, now: int, n: nat, more: seq<int>, limit: int, window: int, lo: int, hi: int)
    requires now - window < w.start <= now && w.requests + n <= limit
    ensures Allowed(Some(w), Burst(now, n) + more, limit, window, lo, hi)
            == (if lo <= now < hi then n else 0) + Allowed(Some(w.(requests := w.requests + n)), more, limit, window, lo, hi)
    decreases n
  {
    if n == 0 {
      assert Burst(now, 0) + more == more;
    } else {
      var ts := Burst(now, n) + more;
      assert ts[0] == now && ts[1..] == Burst(now, n - 1) + more;
      BurstAllowed(w.(requests := w.requests + 1), now, n - 1, more, limit, window, lo, hi);
    }
  }

  /** The bound is reached for every limit and every window longer than one tick: a
      window that starts early and fills late, then the next one. */
  lemma BoundIsTight(limit: nat, window: int)
    requires limit >= 1 && window >= 2
    ensures var ts := [0] + (Burst(window - 1, limit - 1) + Burst(window, limit));
            Nondecreasing(ts) && Allowed(None, ts, limit, window, 1, 1 + window) == 2 * limit - 1
  {
    var late := Burst(window - 1, limit - 1);
    var next := Burst(window, limit);
    var ts := [0] + (late + next);
    assert ts[1..] == late + next;
    BurstAllowed(Window(0, 1), window - 1, limit - 1, next, limit, window, 1, 1 + window);
    assert next[0] == window && next[1..] == Burst(window, limit - 1) + [];
    BurstAllowed(Window(window, 1), window, limit - 1, [], limit, window, 1, 1 + window);
  }

  /** A request at least a full window after the window in force began is always allowed;
      one in that window is allowed exactly while fewer than limit were counted in it. */
  lemma AllowedExactly(w: Window, now: int, limit: int, window: int)
    requires limit >= 1 && window >= 1
    ensures Allowed(Some(w), [now], limit, window, now, now + 1) == 1
            <==> now >= w.start + window || w.requests < limit
  {
    assert [now][1..] == [];
  }

  /** In one counted window: of the requests that arrive before it can be replaced,
      exactly as many are allowed as the limit leaves, the earliest ones. */
  lemma {:induction false} AllowedInWindowExactly(w: Window, ts: seq<int>, limit: int, window: int, lo: int, hi: int)
    requires limit >= 1 && window >= 1
    requires forall i :: 0 <= i < |ts| ==> ts[i] < w.start + window && lo <= ts[i] < hi
    ensures Allowed(Some(w), ts, limit, window, lo, hi) == if |ts| <= Left(w, limit) then |ts| else Left(w, limit)
    decreases ts
  {
    if ts != [] {
      assert forall i :: 0 <= i < |ts[1..]| ==> ts[1..][i] == ts[i + 1];
      AllowedInWindowExactly(Counted(Some(w), ts[0], window), ts[1..], limit, window, lo, hi);
    }
  }

  /** A window of a single tick holds requests of one time only, and there the bound is
      the limit itself. */
  lemma {:induction false} AllowedPerTick(w: Option<Window>, ts: seq<int>, limit: int, lo: int)
    requires limit >= 1 && Nondecreasing(ts)
    requires w.Some? && ts != [] ==> w.value.start <= ts[0]
    ensures Allowed(w, ts, limit, 1, lo, lo + 1) <= if w.Some? && w.value.start == lo then Left(w.value, limit) else limit
    ensures w.Some? && w.value.start > lo ==> Allowed(w, ts, limit, 1, lo, lo + 1) == 0
    decreases ts
  {
    if ts != [] {
      assert forall i :: 0 <= i < |ts[1..]| ==> ts[1..][i] == ts[i + 1];
      AllowedPerTick(Some(Counted(w, ts[0], 1)), ts[1..], limit, lo);
    }
  }

  // ---- Unlock lockouts ----

  const LOCKOUT := 300
  const ATTEMPTS := 5

  datatype Attempts = Attempts(failures: nat, until: Option<int>)

  predicate Locked(a: Attempts, now: int) {
    a.until.Some? && a.until.value > now
  }

  /** A failure that is counted. */
  function Failed(a: Attempts, now: int): Attempts {
    if a.failures + 1 >= ATTEMPTS then Attempts(0, Some(now + LOCKOUT)) else Attempts(a.failures + 1, None)
  }

  function Stored(t: map<string, Attempts>, scope: string): Attempts {
    if scope in t then t[scope] else Attempts(0, None)
  }

  datatype UnlockOutcome = Refused | WrongPassword(lockedOut: bool) | Unlocked

  class UnlockAttempts {
    var attempts: map<string, Attempts>
    var unlocked: bool

    /** The active lockout of a scope. */
    method UnlockLockoutUntil(scope: string, now: int) returns (r: Result<Option<int>>)
      ensures r.Invalid? <==> scope == ""
      ensures r.Ok? ==> r.value == if Locked(Stored(attempts, scope), now) then Stored(attempts, scope).until else None
      ensures r.Ok? ==> (r.value.Some? <==> scope in attempts && attempts[scope].until.Some? && now < attempts[scope].until.value)
    {
      if scope == "" {
        return Invalid;
      }
      if scope in attempts && attempts[scope].until.Some? && attempts[scope].until.value > now {
        return Ok(attempts[scope].until);
      }
      return Ok(None);
    }

    /** Under an active lockout nothing is counted; otherwise the fifth failure starts one
        and resets the counter. */
    method RegisterFailedUnlock(scope: string, now: int) returns (r: Result<Option<int>>)
      modifies this`attempts
      ensures r.Invalid? <==> scope == ""
      ensures scope == "" || Locked(Stored(old(attempts), scope), now) ==> attempts == old(attempts)
      ensures r.Ok? && Locked(Stored(old(attempts), scope), now) ==> r.value == Stored(old(attempts), scope).until
      ensures r.Ok? && !Locked(Stored(old(attempts), scope), now) ==>
                attempts == old(attempts)[scope := Failed(Stored(old(attempts), scope), now)] && r.value == attempts[scope].until
      ensures r.Ok? && !Locked(Stored(old(attempts), scope), now) ==>
                var failures := if scope in old(attempts) then old(attempts)[scope].failures else 0;
                attempts == old(attempts)[scope := if failures >= 4 then Attempts(0, Some(now + 300)) else Attempts(failures + 1, None)]
    {
      if scope == "" {
        return Invalid;
      }
      var failures: nat := 0;
      var until: Option<int> := None;
      if scope in attempts {
        failures, until := attempts[scope].failures, attempts[scope].until;
      }
      if until.Some? && until.value > now {
        return Ok(until);
      }
      failures := failures + 1;
      var lockedUntil: Option<int> := None;
      if failures >= ATTEMPTS {
        lockedUntil := Some(now + LOCKOUT);
        failures := 0;
      }
      attempts := attempts[scope := Attempts(failures, lockedUntil)];
      return Ok(lockedUntil);
    }

    method ClearUnlockFailures(scope: string)
      modifies this`attempts
      ensures attempts == old(attempts) - {scope}
    {
      attempts := attempts - {scope};
    }

    /** The handler's order: the lockout is read before the password is tried, so under a
        lockout even the right password neither unlocks nor clears the count. */
    method Unlock(scope: string, now: int, rightPassword: bool) returns (outcome: UnlockOutcome)
      requires scope != ""
      modifies this
      ensures outcome == Refused <==> Locked(Stored(old(attempts), scope), now)
      ensures outcome == Refused ==> attempts == old(attempts) && unlocked == old(unlocked)
      ensures outcome.WrongPassword? <==> !Locked(Stored(old(attempts), scope), now) && !rightPassword
      ensures outcome.WrongPassword? ==>
                && attempts == old(attempts)[scope := Failed(Stored(old(attempts), scope), now)] && unlocked == old(unlocked)
                && (outcome.lockedOut <==> Stored(old(attempts), scope).failures + 1 >= ATTEMPTS)
      ensures outcome == Unlocked ==> attempts == old(attempts) - {scope} && unlocked
    {
      var lockout := UnlockLockoutUntil(scope, now);
      if lockout.value != None {
        return Refused;
      }
      if !rightPassword {
        var recorded := RegisterFailedUnlock(scope, now);
        return WrongPassword(recorded.value != None);
      }
      ClearUnlockFailures(scope);
      unlocked := true;
      return Unlocked;
    }
  }

  /** How many of the failed unlocks at `ts` are counted at a time in [lo, hi). */
  function CountedFailures(a: Attempts, ts: seq<int>, lo: int, hi: int): nat
    decreases ts
  {
    if ts == [] then 0 else
    if Locked(a, ts[0]) then CountedFailures(a, ts[1..], lo, hi) else
    (if lo <= ts[0] < hi then 1 else 0) + CountedFailures(Failed(a, ts[0]), ts[1..], lo, hi)
  }

  function AfterFailures(a: Attempts, ts: seq<int>): Attempts
    decreases ts
  {
    if ts == [] then a else
    AfterFailures(if Locked(a, ts[0]) then a else Failed(a, ts[0]), ts[1..])
  }

  /** The stored counter stays below five, and a stored lockout goes with a zero counter. */
  predicate AttemptsOk(a: Attempts) {
    a.failures < ATTEMPTS && (a.until.Some? ==> a.failures == 0)
  }

  lemma {:induction false} CounterStaysSmall(a: Attempts, ts: seq<int>)
    requires AttemptsOk(a)
    ensures AttemptsOk(AfterFailures(a, ts))
    decreases ts
  {
    if ts != [] {
      CounterStaysSmall(if Locked(a, ts[0]) then a else Failed(a, ts[0]), ts[1..]);
    }
  }

  /** What a span of five minutes can still count. */
  function FailureBudget(a: Attempts, last: int, lo: int): int {
    if last >= lo + LOCKOUT || (a.until.Some? && a.until.value >= lo + LOCKOUT) then 0
    else if lo <= last then ATTEMPTS - a.failures
    else ATTEMPTS
  }

  lemma {:induction false} SpanBudget(a: Attempts, last: int, ts: seq<int>, lo: int)
    requires AttemptsOk(a)
    requires Nondecreasing(ts) && (ts != [] ==> last <= ts[0])
    ensures CountedFailures(a, ts, lo, lo + LOCKOUT) <= FailureBudget(a, last, lo)
    decreases ts
  {
    if ts != [] {
      assert forall i :: 0 <= i < |ts[1..]| ==> ts[1..][i] == ts[i + 1];
      SpanBudget(if Locked(a, ts[0]) then a else Failed(a, ts[0]), ts[0], ts[1..], lo);
    }
  }

  /** Between clears, at most five failed unlocks of a scope are counted in any half-open
      five-minute span. */
  lemma FiveFailuresPerSpan(a: Attempts, ts: seq<int>, lo: int)
    requires AttemptsOk(a) && Nondecreasing(ts)
    ensures CountedFailures(a, ts, lo, lo + 300) <= 5
  {
    if ts != [] {
      SpanBudget(a, ts[0], ts, lo);
    }
  }

  /** From a clean scope the fifth counted failure, and no earlier one, starts a lockout
      of exactly five minutes, after which five more are counted. */
  lemma LockoutOnFifth(ts: seq<int>)
    requires |ts| == 5 && Nondecreasing(ts)
    ensures forall n :: 0 <= n < 5 ==> AfterFailures(Attempts(0, None), ts[..n]) == Attempts(n, None)
    ensures AfterFailures(Attempts(0, None), ts) == Attempts(0, Some(ts[4] + 300))
    ensures forall now :: Locked(AfterFailures(Attempts(0, None), ts), now) <==> now < ts[4] + 300
  {
    FailuresBelowFive(ts[..0]);
    FailuresBelowFive(ts[..1]);
    FailuresBelowFive(ts[..2]);
    FailuresBelowFive(ts[..3]);
    FailuresBelowFive(ts[..4]);
    assert ts[..4] + [ts[4]] == ts;
    AfterFailuresAppend(Attempts(0, None), ts[..4], ts[4]);
  }

  lemma {:induction false} FailuresBelowFive(ts: seq<int>)
    requires |ts| < ATTEMPTS
    ensures AfterFailures(Attempts(0, None), ts) == Attempts(|ts|, None)
    decreases ts
  {
    if ts != [] {
      var n := |ts| - 1;
      FailuresBelowFive(ts[..n]);
      assert ts[..n] + [ts[n]] == ts;
      AfterFailuresAppend(Attempts(0, None), ts[..n], ts[n]);
    }
  }

  lemma {:induction false} AfterFailuresAppend(a: Attempts, ts: seq<int>, now: int)
    ensures var b := AfterFailures(a, ts); AfterFailures(a, ts + [now]) == if Locked(b, now) then b else Failed(b, now)
    decreases ts
  {
    if ts == [] {
      assert [] + [now] == [now] && [now][1..] == [];
    } else {
      assert (ts + [now])[1..] == ts[1..] + [now];
      AfterFailuresAppend(if Locked(a, ts[0]) then a else Failed(a, ts[0]), ts[1..], now);
    }
  }
}
