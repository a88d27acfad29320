/** The sliding-window rate limiter: an in-place deque per key that must agree with counting a full log. */
module RateLimiter {
  import opened Base

  datatype Policy = Policy(window: nat, maxRequests: nat, maxTrackedKeys: nat)

  // ----- specification of one call -----

  /** The admissions still inside the window: oldest ones are dropped from the front. */
  function Trim(entries: seq<nat>, window: nat, now: nat): (r: seq<nat>)
    ensures |r| <= |entries| && r == entries[|entries| - |r|..]
  {
    if entries != [] && entries[0] + window <= now then Trim(entries[1..], window, now) else entries
  }

  function AdmitStep<K>(p: Policy, windows: map<K, seq<nat>>, key: K, now: nat): (map<K, seq<nat>>, bool) {
    if key in windows then
      var kept := Trim(windows[key], p.window, now);
      if |kept| >= p.maxRequests then (windows[key := kept], false) else (windows[key := kept + [now]], true)
    else if |windows| >= p.maxTrackedKeys then (windows, false)
    else (windows[key := [now]], true)
  }

  class RateLimiter<K(==)> {
    const policy: Policy
    var windows: map<K, seq<nat>>

    constructor (policy: Policy)
      ensures this.policy == policy && windows == map[]
    {
      this.policy := policy;
      windows := map[];
    }

    method Admit(key: K, now: nat) returns (admitted: bool)
      modifies this
      ensures (windows, admitted) == AdmitStep(policy, old(windows), key, now)
    {
      if key in windows {
        var entries := windows[key];
        while entries != [] && entries[0] + policy.window <= now
          invariant Trim(entries, policy.window, now) == Trim(windows[key], policy.window, now)
          decreases |entries|
        {
          entries := entries[1..];
        }
        windows := windows[key := entries];
        if |entries| >= policy.maxRequests {
          return false;
        }
        windows := windows[key := entries + [now]];
        assert windows == old(windows)[key := entries + [now]];
        return true;
      }
      if |windows| >= policy.maxTrackedKeys {
        return false;
      }
      windows := windows[key := [now]];
      return true;
    }
  }

  // ----- the reference: a full log of admissions -----

  datatype Admission<K> = Admission(key: K, at: nat)

  /** The times at which a key was admitted. */
  function Times<K(==)>(log: seq<Admission<K>>, key: K): seq<nat> {
    if log == [] then []
    else
      var n := |log| - 1;
      var before := Times(log[..n], key);
      if log[n].key == key then before + [log[n].at] else before
  }

  function Keys<K(==)>(log: seq<Admission<K>>): set<K> {
    set a | a in log :: a.key
  }

  /** How many of these times lie in the window of length `window` ending at `now`. */
  function CountInWindow(times: seq<nat>, window: nat, now: nat): (c: nat)
    ensures c <= |times|
  {
    if times == [] then 0
    else
      var n := |times| - 1;
      CountInWindow(times[..n], window, now) + if times[n] <= now < times[n] + window then 1 else 0
  }

  /** What the full log would decide. */
  ghost predicate LogAdmits<K>(p: Policy, log: seq<Admission<K>>, key: K, now: nat) {
    if key in Keys(log) then CountInWindow(Times(log, key), p.window, now) < p.maxRequests
    else |Keys(log)| < p.maxTrackedKeys
  }

  ghost predicate InOrder(times: seq<nat>, last: nat) {
    && (forall i, j :: 0 <= i < j < |times| ==> times[i] <= times[j])
    && (forall i :: 0 <= i < |times| ==> times[i] <= last)
  }

  /** The deque is the end of the full list; whatever was dropped is outside every later window. */
  ghost predicate Suffix(entries: seq<nat>, times: seq<nat>, window: nat, last: nat) {
    && |entries| <= |times|
    && entries == times[|times| - |entries|..]
    && forall i :: 0 <= i < |times| - |entries| ==> times[i] + window <= last
  }

  /** Any `budget + 1` consecutive admissions span at least one window. */
  ghost predicate Spaced(times: seq<nat>, budget: nat, window: nat) {
    forall i, j :: 0 <= i && i + budget == j < |times| ==> times[i] + window <= times[j]
  }

  /** The budget the limiter enforces: a new key is admitted once even when `max_requests` is zero. */
  function Budget(p: Policy): nat {
    if p.maxRequests == 0 then 1 else p.maxRequests
  }

  ghost predicate KeyAgrees<K>(p: Policy, windows: map<K, seq<nat>>, log: seq<Admission<K>>, last: nat, key: K) {
    && InOrder(Times(log, key), last)
    && Spaced(Times(log, key), Budget(p), p.window)
    && (key in windows ==> Suffix(windows[key], Times(log, key), p.window, last))
    && (key in windows <==> key in Keys(log))
  }

  ghost predicate Agrees<K(!new)>(p: Policy, windows: map<K, seq<nat>>, log: seq<Admission<K>>, last: nat) {
    && (forall key :: KeyAgrees(p, windows, log, last, key))
    && windows.Keys == Keys(log)
    && |windows| <= p.maxTrackedKeys
  }

  // ----- machine arithmetic -----

  /** Adding the window to any stored time fits 64 bits, so the additions of the next call are exact. */
  ghost predicate SumsFit<K>(p: Policy, windows: map<K, seq<nat>>) {
    forall key, i :: key in windows && 0 <= i < |windows[key]| ==> windows[key][i] + p.window < U64_LIMIT
  }

  /** The additions stay exact exactly unless a request is admitted within one window of the last time. */
  lemma SumsFitExactly<K>(p: Policy, windows: map<K, seq<nat>>, key: K, now: nat)
    requires SumsFit(p, windows)
    ensures var (after, admitted) := AdmitStep(p, windows, key, now);
            SumsFit(p, after) <==> !admitted || now + p.window < U64_LIMIT
  {
    hide Trim;
    var (after, admitted) := AdmitStep(p, windows, key, now);
    if admitted {
      assert after[key][|after[key]| - 1] == now;
    }
  }

  // ----- proofs -----

  lemma {:induction false} TrimDropsExpired(entries: seq<nat>, window: nat, now: nat)
    ensures var r := Trim(entries, window, now);
            && (forall i :: 0 <= i < |entries| - |r| ==> entries[i] + window <= now)
            && (r != [] ==> r[0] + window > now)
  {
    if entries != [] && entries[0] + window <= now {
      var tail, r := entries[1..], Trim(entries, window, now);
      assert r == Trim(tail, window, now);
      hide Trim;
      TrimDropsExpired(tail, window, now);
      forall i | 0 <= i < |entries| - |r| ensures entries[i] + window <= now {
        if i > 0 {
          assert entries[i] == tail[i - 1];
        }
      }
    }
  }

  lemma {:induction false} CountSuffix(times: seq<nat>, window: nat, now: nat, p: nat)
    requires p <= |times|
    requires forall i :: 0 <= i < p ==> !(times[i] <= now < times[i] + window)
    ensures CountInWindow(times, window, now) <= |times| - p
    ensures (forall i :: p <= i < |times| ==> times[i] <= now < times[i] + window) ==>
              CountInWindow(times, window, now) == |times| - p
  {
    if times != [] {
      var n := |times| - 1;
      CountSuffix(times[..n], window, now, if p == |times| then n else p);
    }
  }

  /** Trimming the deque counts the full list. */
  lemma TrimCounts(entries: seq<nat>, times: seq<nat>, window: nat, last: nat, now: nat)
    requires InOrder(times, last) && Suffix(entries, times, window, last) && last <= now
    ensures |Trim(entries, window, now)| == CountInWindow(times, window, now)
    ensures Suffix(Trim(entries, window, now), times, window, now)
  {
    var r := Trim(entries, window, now);
    TrimDropsExpired(entries, window, now);
    hide Trim, CountInWindow;
    var cut := |times| - |entries|;
    var p := |times| - |r|;
    assert forall i :: cut <= i < |times| ==> times[i] == entries[i - cut];
    assert r == times[p..];
    forall i | 0 <= i < p ensures times[i] + window <= now {
      if i >= cut {
        assert times[i] == entries[i - cut];
      }
    }
    forall i | p <= i < |times| ensures times[i] <= now < times[i] + window {
      assert r[0] == times[p] <= times[i];
    }
    CountSuffix(times, window, now, p);
  }

  lemma TimesAppend<K>(log: seq<Admission<K>>, a: Admission<K>, key: K)
    ensures Times(log + [a], key) == if a.key == key then Times(log, key) + [a.at] else Times(log, key)
    ensures Keys(log + [a]) == Keys(log) + {a.key}
  {
    assert (log + [a])[..|log|] == log;
    assert forall b :: b in log + [a] <==> b in log || b == a;
  }

  /** Admitting under the budget keeps the spacing. */
  lemma AdmitSpaced(times: seq<nat>, kept: seq<nat>, budget: nat, window: nat, last: nat, now: nat)
    requires InOrder(times, last) && last <= now && Spaced(times, budget, window)
    requires Suffix(kept, times, window, now) && |kept| < budget
    ensures InOrder(times + [now], now) && Spaced(times + [now], budget, window)
  {
  }

  lemma {:induction false} TimesOfStranger<K>(log: seq<Admission<K>>, key: K)
    requires key !in Keys(log)
    ensures Times(log, key) == []
  {
    if log != [] {
      var n := |log| - 1;
      assert log[n] in log;
      assert Keys(log[..n]) <= Keys(log);
      TimesOfStranger(log[..n], key);
    }
  }

  lemma KeyLater<K>(p: Policy, windows: map<K, seq<nat>>, log: seq<Admission<K>>, last: nat, now: nat, k: K)
    requires KeyAgrees(p, windows, log, last, k) && last <= now
    ensures KeyAgrees(p, windows, log, now, k)
  {
  }

  lemma FirstAdmission(now: nat, budget: nat, window: nat)
    requires budget > 0
    ensures InOrder([now], now) && Spaced([now], budget, window) && Suffix([now], [now], window, now)
  {
  }

  lemma KeyStep<K(!new)>(p: Policy, windows: map<K, seq<nat>>, log: seq<Admission<K>>, last: nat, key: K, now: nat,
                         k: K)
    requires KeyAgrees(p, windows, log, last, k) && last <= now
    ensures var (windows', admitted) := AdmitStep(p, windows, key, now);
            KeyAgrees(p, windows', if admitted then log + [Admission(key, now)] else log, now, k)
  {
    hide Trim, Times, CountInWindow, InOrder, Suffix, Spaced, Keys;
    KeyLater(p, windows, log, last, now, k);
    TimesAppend(log, Admission(key, now), k);
    var times := Times(log, k);
    if k == key && key in windows {
      TrimCounts(windows[key], times, p.window, last, now);
      var kept := Trim(windows[key], p.window, now);
      if |kept| < p.maxRequests {
        AdmitSpaced(times, kept, Budget(p), p.window, last, now);
        SuffixGrows(kept, times, p.window, now);
      }
    } else if k == key {
      TimesOfStranger(log, key);
      assert [] + [now] == [now];
      FirstAdmission(now, Budget(p), p.window);
    }
  }

  lemma SuffixGrows(entries: seq<nat>, times: seq<nat>, window: nat, now: nat)
    requires Suffix(entries, times, window, now)
    ensures Suffix(entries + [now], times + [now], window, now)
  {
  }

  /** Under a clock that does not go back, the limiter decides as the full log does and keeps agreeing with it. */
  lemma AdmitAgrees<K(!new)>(p: Policy, windows: map<K, seq<nat>>, log: seq<Admission<K>>, last: nat, key: K, now: nat)
    requires Agrees(p, windows, log, last) && last <= now
    ensures var (windows', admitted) := AdmitStep(p, windows, key, now);
            && (admitted <==> LogAdmits(p, log, key, now))
            && Agrees(p, windows', if admitted then log + [Admission(key, now)] else log, now)
  {
    hide Trim, Times, CountInWindow, KeyAgrees, Keys;
    var (windows', admitted) := AdmitStep(p, windows, key, now);
    var log' := if admitted then log + [Admission(key, now)] else log;
    forall k ensures KeyAgrees(p, windows', log', now, k) {
      assert KeyAgrees(p, windows, log, last, k);
      KeyStep(p, windows, log, last, key, now, k);
    }
    TimesAppend(log, Admission(key, now), key);
    assert KeyAgrees(p, windows, log, last, key);
    if key in windows {
      CountAgrees(p, windows, log, last, key, now);
      assert windows'.Keys == windows.Keys;
    } else if admitted {
      assert windows'.Keys == windows.Keys + {key};
    }
    assert |windows'| == |windows'.Keys| && |windows| == |windows.Keys|;
  }

  lemma CountAgrees<K(!new)>(p: Policy, windows: map<K, seq<nat>>, log: seq<Admission<K>>, last: nat, key: K, now: nat)
    requires KeyAgrees(p, windows, log, last, key) && last <= now && key in windows
    ensures |Trim(windows[key], p.window, now)| == CountInWindow(Times(log, key), p.window, now)
  {
    TrimCounts(windows[key], Times(log, key), p.window, last, now);
  }

  // ----- every run -----

  datatype Attempt<K> = Attempt(key: K, now: nat)

  /** The windows and the log after a list of requests. */
  function RunLimiter<K>(p: Policy, requests: seq<Attempt<K>>): (map<K, seq<nat>>, seq<Admission<K>>) {
    if requests == [] then (map[], [])
    else
      var n := |requests| - 1;
      var (windows, log) := RunLimiter(p, requests[..n]);
      var (windows', admitted) := AdmitStep(p, windows, requests[n].key, requests[n].now);
      (windows', if admitted then log + [Admission(requests[n].key, requests[n].now)] else log)
  }

  ghost predicate TimesInOrder<K>(requests: seq<Attempt<K>>) {
    forall i, j :: 0 <= i < j < |requests| ==> requests[i].now <= requests[j].now
  }

  lemma {:induction false} RunAgrees<K(!new)>(p: Policy, requests: seq<Attempt<K>>)
    requires TimesInOrder(requests)
    ensures var (windows, log) := RunLimiter(p, requests);
            Agrees(p, windows, log, if requests == [] then 0 else requests[|requests| - 1].now)
  {
    if requests == [] {
      assert RunLimiter<K>(p, requests) == (map[], []);
    } else {
      hide Agrees, AdmitStep;
      var n := |requests| - 1;
      RunAgrees(p, requests[..n]);
      var (windows, log) := RunLimiter(p, requests[..n]);
      AdmitAgrees(p, windows, log, if n == 0 then 0 else requests[n - 1].now, requests[n].key, requests[n].now);
    }
  }

  /** Over every run under a clock that does not go back: in no window, wherever it ends, does a key get
      more than its budget, and no more keys are tracked than allowed. */
  lemma BudgetHolds<K(!new)>(p: Policy, requests: seq<Attempt<K>>, key: K, t: nat)
    requires TimesInOrder(requests)
    ensures CountInWindow(Times(RunLimiter(p, requests).1, key), p.window, t) <= Budget(p)
    ensures |RunLimiter(p, requests).0| <= p.maxTrackedKeys
  {
    RunAgrees(p, requests);
    var (windows, log) := RunLimiter(p, requests);
    var last := if requests == [] then 0 else requests[|requests| - 1].now;
    assert KeyAgrees(p, windows, log, last, key);
    SpacedCounts(Times(log, key), Budget(p), p.window, last, t);
  }

  lemma {:induction false} SpacedCounts(times: seq<nat>, budget: nat, window: nat, last: nat, t: nat)
    requires InOrder(times, last) && Spaced(times, budget, window)
    ensures CountInWindow(times, window, t) <= budget
  {
    if |times| > budget {
      var n := |times| - 1;
      if times[n] > t {
        SpacedCounts(times[..n], budget, window, last, t);
      } else {
        forall i | 0 <= i < |times| - budget ensures times[i] + window <= t {
          if budget > 0 {
            assert times[i] + window <= times[i + budget] <= times[n];
          }
        }
        CountSuffix(times, window, t, |times| - budget);
      }
    }
  }

  /** With a zero budget the first request of a key is still admitted, so `max_requests` itself is the
      bound exactly when it is positive. */
  lemma BudgetIsMaxRequestsExactly(p: Policy)
    requires p.maxTrackedKeys > 0 && p.window > 0
    ensures p.maxRequests > 0 <==>
            forall requests: seq<Attempt<nat>>, key, t | TimesInOrder(requests) ::
              CountInWindow(Times(RunLimiter(p, requests).1, key), p.window, t) <= p.maxRequests
  {
    if p.maxRequests > 0 {
      forall requests: seq<Attempt<nat>>, key, t | TimesInOrder(requests)
        ensures CountInWindow(Times(RunLimiter(p, requests).1, key), p.window, t) <= p.maxRequests
      {
        BudgetHolds(p, requests, key, t);
      }
    } else {
      var requests: seq<Attempt<nat>> := [Attempt(0, 0)];
      FirstRequestAdmitted(p);
      CountSuffix([0], p.window, 0, 0);
      assert TimesInOrder(requests);
      assert CountInWindow(Times(RunLimiter(p, requests).1, 0), p.window, 0) > p.maxRequests;
    }
  }

  lemma FirstRequestAdmitted(p: Policy)
    requires p.maxTrackedKeys > 0
    ensures Times(RunLimiter<nat>(p, [Attempt(0, 0)]).1, 0) == [0]
  {
    var requests: seq<Attempt<nat>> := [Attempt(0, 0)];
    assert requests[..0] == [];
    assert RunLimiter<nat>(p, []) == (map[], []);
    var log := RunLimiter(p, requests).1;
    assert log == [Admission(0, 0)];
    assert log[..0] == [];
  }
}
