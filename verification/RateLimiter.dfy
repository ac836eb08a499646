/** A sliding-window limit on how often each action is called. */
module RateLimiter {
  import opened Wrappers

  datatype Limit = Limit(max: int, window: real)

  /** The times kept for an action, and every allowed call since its last reset. */
  datatype Window = Window(recent: seq<real>, log: seq<real>)

  function After(times: seq<real>, cutoff: real): seq<real> {
    if times == [] then [] else
    var n := |times| - 1;
    After(times[..n], cutoff) + if times[n] > cutoff then [times[n]] else []
  }

  function Checked(w: Window, now: real, limit: Limit): Window {
    var recent := After(w.recent, now - limit.window);
    if |recent| >= limit.max then w.(recent := recent) else Window(recent + [now], w.log + [now])
  }

  predicate Allows(w: Window, now: real, limit: Limit) {
    |After(w.recent, now - limit.window)| < limit.max
  }

  /** The window after checks at those times since the last reset. */
  function Run(times: seq<real>, limit: Limit): Window {
    if times == [] then Window([], []) else Checked(Run(times[..|times| - 1], limit), times[|times| - 1], limit)
  }

  lemma RunOne(times: seq<real>, now: real, limit: Limit)
    ensures Run(times + [now], limit) == Checked(Run(times, limit), now, limit)
  {
  }

  method Prune(times: seq<real>, cutoff: real) returns (recent: seq<real>)
    ensures recent == After(times, cutoff)
  {
    recent := [];
    for i := 0 to |times|
      invariant recent == After(times[..i], cutoff)
    {
      assert times[..i + 1][..i] == times[..i];
      if times[i] > cutoff {
        recent := recent + [times[i]];
      }
    }
    assert times[..|times|] == times;
  }

  /** One check against the times kept from the checks before it. */
  method CheckWindow(times: seq<real>, now: real, limit: Limit, ghost log: seq<real>)
    returns (allowed: bool, kept: seq<real>)
    ensures allowed <==> Allows(Window(times, log), now, limit)
    ensures kept == Checked(Window(times, log), now, limit).recent
  {
    kept := Prune(times, now - limit.window);
    allowed := |kept| < limit.max;
    if allowed {
      kept := kept + [now];
    }
  }

  class Limiter {
    const limits: map<string, Limit>
    var windows: map<string, seq<real>>
    /** The times of every check of each limited action since its last reset. */
    ghost var checks: map<string, seq<real>>

    ghost predicate Valid()
      reads this
    {
      && windows.Keys == checks.Keys <= limits.Keys
      && forall a :: a in windows ==> windows[a] == Run(checks[a], limits[a]).recent
    }

    ghost function Checks(action: string): seq<real>
      reads this
    {
      if action in checks then checks[action] else []
    }

    constructor (limits: map<string, Limit>)
      ensures Valid() && this.limits == limits && checks == map[]
    {
      this.limits := limits;
      windows, checks := map[], map[];
    }

    /** An action without a limit is always allowed and leaves no trace. */
    method Check(action: string, now: real) returns (allowed: bool)
      requires Valid()
      modifies this
      ensures Valid()
      ensures action !in limits ==> allowed && checks == old(checks) && windows == old(windows)
      ensures action in limits ==>
                checks == old(checks)[action := old(Checks(action)) + [now]] &&
                (allowed <==> Allows(Run(old(Checks(action)), limits[action]), now, limits[action]))
    {
      if action !in limits {
        return true;
      }
      var times := if action in windows then windows[action] else [];
      var kept;
      ghost var w := Run(Checks(action), limits[action]);
      RunOne(Checks(action), now, limits[action]);
      allowed, kept := CheckWindow(times, now, limits[action], w.log);
      windows := windows[action := kept];
      checks := checks[action := Checks(action) + [now]];
    }

    /** Forgets one action; without a name, or with an empty one, forgets all. */
    method Reset(action: Option<string>)
      requires Valid()
      modifies this
      ensures Valid()
      ensures checks == if action.Some? && action.value != "" then old(checks) - {action.value} else map[]
    {
      if action.Some? && action.value != "" {
        windows, checks := windows - {action.value}, checks - {action.value};
      } else {
        windows, checks := map[], map[];
      }
    }
  }

  // ---- Any run of checks -----------------------------------------------------------------------

  predicate NonDecreasing(times: seq<real>) {
    forall i, j :: 0 <= i < j < |times| ==> times[i] <= times[j]
  }

  /** How many of the times lie in a half-open interval, its end included. */
  function CountIn(times: seq<real>, from: real, to: real): nat {
    if times == [] then 0 else
    var n := |times| - 1;
    CountIn(times[..n], from, to) + if from < times[n] <= to then 1 else 0
  }

  lemma AfterOne(times: seq<real>, t: real, cutoff: real)
    ensures After(times + [t], cutoff) == if t > cutoff then After(times, cutoff) + [t] else After(times, cutoff)
  {
  }

  lemma CountOne(times: seq<real>, t: real, from: real, to: real)
    ensures CountIn(times + [t], from, to) == CountIn(times, from, to) + if from < t <= to then 1 else 0
  {
  }

  lemma {:induction false} AfterAgain(times: seq<real>, early: real, late: real)
    requires early <= late
    ensures After(After(times, early), late) == After(times, late)
  {
    if times != [] {
      var n := |times| - 1;
      AfterAgain(times[..n], early, late);
      assert times == times[..n] + [times[n]];
      AfterOne(times[..n], times[n], early);
      AfterOne(times[..n], times[n], late);
      AfterOne(After(times[..n], early), times[n], late);
    }
  }

  lemma {:induction false} AfterCounts(times: seq<real>, cutoff: real, to: real)
    requires AllUpTo(times, to)
    ensures |After(times, cutoff)| == CountIn(times, cutoff, to)
  {
    if times != [] { AfterCounts(times[..|times| - 1], cutoff, to); }
  }

  lemma {:induction false} NarrowerCountsLess(times: seq<real>, from: real, to: real, from': real, to': real)
    requires from' <= from && AllUpTo(times, to')
    ensures CountIn(times, from, to) <= CountIn(times, from', to')
  {
    if times != [] { NarrowerCountsLess(times[..|times| - 1], from, to, from', to'); }
  }

  predicate AllUpTo(times: seq<real>, now: real) {
    forall i :: 0 <= i < |times| ==> times[i] <= now
  }

  lemma {:induction false} LogEndsWithTheClock(times: seq<real>, limit: Limit, now: real)
    requires AllUpTo(times, now)
    ensures AllUpTo(Run(times, limit).log, now)
  {
    if times != [] {
      var n := |times| - 1;
      LogEndsWithTheClock(times[..n], limit, now);
      assert times[n] <= now;
    }
  }

  lemma OneMoreCheckAgrees(w: Window, now: real, limit: Limit, cutoff: real)
    requires now - limit.window <= cutoff
    requires After(w.recent, now - limit.window) == After(w.log, now - limit.window)
    ensures After(Checked(w, now, limit).recent, cutoff) == After(Checked(w, now, limit).log, cutoff)
  {
    var cut := now - limit.window;
    AfterAgain(w.log, cut, cutoff);
    AfterOne(After(w.log, cut), now, cutoff);
    AfterOne(w.log, now, cutoff);
  }

  /** The pruned list agrees with the full log of allowed calls on every window ending at the last
      check or later. */
  lemma {:induction false} KeptAgreesWithLog(times: seq<real>, limit: Limit, cutoff: real)
    requires NonDecreasing(times) && (times == [] || times[|times| - 1] - limit.window <= cutoff)
    ensures After(Run(times, limit).recent, cutoff) == After(Run(times, limit).log, cutoff)
    decreases |times|
  {
    if times != [] {
      var n := |times| - 1;
      KeptAgreesWithLog(times[..n], limit, times[n] - limit.window);
      OneMoreCheckAgrees(Run(times[..n], limit), times[n], limit, cutoff);
    }
  }

  /** So the number kept at a check is the number allowed in the window that ends with it. */
  lemma KeptCounts(times: seq<real>, limit: Limit, now: real)
    requires NonDecreasing(times) && AllUpTo(times, now)
    ensures |After(Run(times, limit).recent, now - limit.window)| ==
            CountIn(Run(times, limit).log, now - limit.window, now)
  {
    KeptAgreesWithLog(times, limit, now - limit.window);
    LogEndsWithTheClock(times, limit, now);
    AfterCounts(Run(times, limit).log, now - limit.window, now);
  }

  lemma OneMoreCheckFits(w: Window, now: real, limit: Limit, from: real)
    requires AllUpTo(w.log, now) && CountIn(w.log, from, from + limit.window) <= limit.max
    requires |After(w.recent, now - limit.window)| == CountIn(w.log, now - limit.window, now)
    ensures CountIn(Checked(w, now, limit).log, from, from + limit.window) <= limit.max
  {
    CountOne(w.log, now, from, from + limit.window);
    if from < now <= from + limit.window {
      NarrowerCountsLess(w.log, from, from + limit.window, now - limit.window, now);
    }
  }

  /** Any half-open interval as long as the window holds at most the limit of allowed calls, for
      any clock that does not run backwards. */
  lemma {:induction false} WindowIsNeverExceeded(times: seq<real>, limit: Limit, from: real)
    requires NonDecreasing(times) && limit.max >= 0
    ensures CountIn(Run(times, limit).log, from, from + limit.window) <= limit.max
    decreases |times|
  {
    if times != [] {
      var n := |times| - 1;
      WindowIsNeverExceeded(times[..n], limit, from);
      KeptCounts(times[..n], limit, times[n]);
      LogEndsWithTheClock(times[..n], limit, times[n]);
      OneMoreCheckFits(Run(times[..n], limit), times[n], limit, from);
    }
  }

  lemma KeptFits(times: seq<real>, limit: Limit, now: real)
    requires NonDecreasing(times) && AllUpTo(times, now) && limit.max >= 0
    ensures CountIn(Run(times, limit).log, now - limit.window, now) <= limit.max
  {
    WindowIsNeverExceeded(times, limit, now - limit.window);
    assert now - limit.window + limit.window == now;
  }

  lemma RefusedWhenFull(w: Window, now: real, limit: Limit)
    requires |After(w.recent, now - limit.window)| == CountIn(w.log, now - limit.window, now) <= limit.max
    ensures !Allows(w, now, limit) <==> CountIn(w.log, now - limit.window, now) == limit.max
  {
  }

  /** A check is refused exactly when the window that ends now already holds the full limit. */
  lemma RefusedExactlyAtTheLimit(times: seq<real>, limit: Limit, now: real)
    requires NonDecreasing(times) && AllUpTo(times, now) && limit.max >= 0
    ensures !Allows(Run(times, limit), now, limit) <==>
            CountIn(Run(times, limit).log, now - limit.window, now) == limit.max
  {
    KeptCounts(times, limit, now);
    KeptFits(times, limit, now);
    RefusedWhenFull(Run(times, limit), now, limit);
  }
}
