/** The in-memory sliding-window limiter in front of the admin login.  Clock readings are
    reals; a run is a list of (key, clock) calls. */
module RateLimiter {

  datatype Call = Call(key: string, now: real)

  datatype Limits = Limits(maxAttempts: int, window: real)

  /** `[t for t in log if now - t < window]`. */
  function Recent(log: seq<real>, now: real, window: real): (r: seq<real>)
    ensures |r| <= |log|
  {
    if log == [] then []
    else
      var front := Recent(log[..|log| - 1], now, window);
      if now - log[|log| - 1] < window then front + [log[|log| - 1]] else front
  }

  function Times(calls: seq<Call>, key: string): seq<real> {
    if calls == [] then []
    else
      var last := calls[|calls| - 1];
      var front := Times(calls[..|calls| - 1], key);
      if last.key == key then front + [last.now] else front
  }

  function Pruned(lim: Limits, log: seq<real>, now: real): seq<real> {
    var kept := Recent(log, now, lim.window);
    if |kept| >= lim.maxAttempts then kept else kept + [now]
  }

  /** The list stored for a key after a run: pruned at every call with that key. */
  function Stored(lim: Limits, calls: seq<Call>, key: string): seq<real> {
    if calls == [] then []
    else
      var before := Stored(lim, calls[..|calls| - 1], key);
      var last := calls[|calls| - 1];
      if last.key == key then Pruned(lim, before, last.now) else before
  }

  /** The calls that were let through, never pruned, on whatever clock. */
  function Passed(lim: Limits, calls: seq<Call>, key: string): seq<real> {
    if calls == [] then []
    else
      var front, before, last := Passed(lim, calls[..|calls| - 1], key), calls[..|calls| - 1], calls[|calls| - 1];
      if last.key == key && Admits(lim, Stored(lim, before, key), last.now) then front + [last.now] else front
  }

  /** No earlier reading for the key lies after this one. */
  predicate NotBefore(calls: seq<Call>, key: string, now: real) {
    forall c :: c in calls && c.key == key ==> c.now <= now
  }

  /** What a limiter that forgets nothing would admit: a call gets through when fewer than
      `maxAttempts` admissions lie less than `window` back. */
  function Admitted(lim: Limits, calls: seq<Call>, key: string): seq<real> {
    if calls == [] then []
    else
      var before := Admitted(lim, calls[..|calls| - 1], key);
      var last := calls[|calls| - 1];
      if last.key == key && Admits(lim, before, last.now) then before + [last.now] else before
  }

  predicate Admits(lim: Limits, admissions: seq<real>, now: real) {
    |Recent(admissions, now, lim.window)| < lim.maxAttempts
  }

  /** The clock never runs backwards. */
  predicate Ordered(calls: seq<Call>) {
    forall i, j :: 0 <= i <= j < |calls| ==> calls[i].now <= calls[j].now
  }

  predicate Sorted(ts: seq<real>) {
    forall i, j :: 0 <= i <= j < |ts| ==> ts[i] <= ts[j]
  }

  /** A missing key reads as the empty list. */
  function Log(hits: map<string, seq<real>>, key: string): seq<real> {
    if key in hits then hits[key] else []
  }

  ghost predicate Tracks(hits: map<string, seq<real>>, lim: Limits, calls: seq<Call>) {
    forall key :: Log(hits, key) == Stored(lim, calls, key)
  }

  class RateLimiter {
    const limits: Limits
    var hits: map<string, seq<real>>
    ghost var history: seq<Call>

    /** Each stored list is the pruned list of the calls made so far; a key never asked about
        has none. */
    ghost predicate Valid()
      reads this
    {
      Tracks(hits, limits, history)
    }

    constructor (maxAttempts: int := 5, window: real := 300.0)
      ensures Valid() && history == [] && hits == map[]
      ensures limits == Limits(maxAttempts, window)
    {
      limits := Limits(maxAttempts, window);
      hits := map[];
      history := [];
    }

    method Check(key: string, now: real) returns (ok: bool)
      requires Valid()
      modifies this
      ensures Valid()
      ensures history == old(history) + [Call(key, now)]
      ensures ok <==> Admits(limits, Stored(limits, old(history), key), now)
      ensures NotBefore(old(history), key, now) ==> (ok <==> Admits(limits, Passed(limits, old(history), key), now))
      ensures Ordered(history) ==> (ok <==> Admits(limits, Admitted(limits, old(history), key), now))
      ensures Passed(limits, history, key)
              == if ok then Passed(limits, old(history), key) + [now] else Passed(limits, old(history), key)
      ensures key in hits && hits[key] == Stored(limits, history, key)
      ensures hits == old(hits)[key := hits[key]]
    {
      ghost var before, was := history, hits;
      hide Stored, Recent, Admitted, Passed, Ordered, NotBefore, Tracks;
      OneMoreCall(limits, before, key, now);
      TracksAfter(hits, limits, before, key, now);
      history := history + [Call(key, now)];
      var kept := Recent(if key in hits then hits[key] else [], now, limits.window);
      hits := hits[key := kept];
      if |kept| >= limits.maxAttempts {
        ok := false;
      } else {
        hits := hits[key := kept + [now]];
        ok := true;
        WrittenTwice(was, key, kept, kept + [now]);
      }
    }
  }

  /** The limiter in front of the admin login. */
  method LoginLimiter() returns (limiter: RateLimiter)
    ensures fresh(limiter) && limiter.Valid() && limiter.history == []
    ensures limiter.limits.maxAttempts == 5 && limiter.limits.window == 300.0
  {
    limiter := new RateLimiter();
  }

  lemma WrittenTwice(hits: map<string, seq<real>>, key: string, a: seq<real>, b: seq<real>)
    ensures hits[key := a][key := b] == hits[key := b]
  {
  }

  lemma TracksAfter(hits: map<string, seq<real>>, lim: Limits, calls: seq<Call>, key: string, now: real)
    requires Tracks(hits, lim, calls)
    ensures Log(hits, key) == Stored(lim, calls, key)
    ensures Tracks(hits[key := Pruned(lim, Log(hits, key), now)], lim, calls + [Call(key, now)])
    ensures Pruned(lim, Log(hits, key), now) == Stored(lim, calls + [Call(key, now)], key)
  {
    hide Stored, Pruned, Admitted, Passed, Ordered, NotBefore, Admits;
    OneMoreCall(lim, calls, key, now);
    var after := hits[key := Pruned(lim, Log(hits, key), now)];
    forall k ensures Log(after, k) == Stored(lim, calls + [Call(key, now)], k) {
      assert k != key ==> Log(after, k) == Log(hits, k);
    }
  }

  lemma OneMoreCall(lim: Limits, calls: seq<Call>, key: string, now: real)
    ensures forall k :: Stored(lim, calls + [Call(key, now)], k)
                        == if k == key then Pruned(lim, Stored(lim, calls, key), now) else Stored(lim, calls, k)
    ensures forall k :: Admitted(lim, calls + [Call(key, now)], k)
                        == if k == key && Admits(lim, Admitted(lim, calls, key), now)
                           then Admitted(lim, calls, key) + [now] else Admitted(lim, calls, k)
    ensures Passed(lim, calls + [Call(key, now)], key)
            == if Admits(lim, Stored(lim, calls, key), now) then Passed(lim, calls, key) + [now]
               else Passed(lim, calls, key)
    ensures NotBefore(calls, key, now) ==>
              (Admits(lim, Stored(lim, calls, key), now) <==> Admits(lim, Passed(lim, calls, key), now))
    ensures Ordered(calls + [Call(key, now)]) ==>
              (Admits(lim, Stored(lim, calls, key), now) <==> Admits(lim, Admitted(lim, calls, key), now))
  {
    var all := calls + [Call(key, now)];
    assert all[..|calls|] == calls;
    if NotBefore(calls, key, now) {
      PrunedRefinesFull(lim, calls, key, now);
    }
    if Ordered(all) {
      LatestIsLast(all);
      assert forall c :: c in calls ==> c in all;
      PrunedRefinesFull(lim, calls, key, now);
      PassedIsAdmitted(lim, calls, key);
    }
  }

  // ---- The pruned list answers as the full one ----

  lemma LatestIsLast(calls: seq<Call>)
    requires Ordered(calls) && calls != []
    ensures forall c :: c in calls ==> c.now <= calls[|calls| - 1].now
  {
    forall c | c in calls ensures c.now <= calls[|calls| - 1].now {
      var i :| 0 <= i < |calls| && calls[i] == c;
    }
  }

  lemma {:induction false} RecentTwice(log: seq<real>, a: real, b: real, window: real)
    requires a <= b
    ensures Recent(Recent(log, a, window), b, window) == Recent(log, b, window)
  {
    if log != [] {
      var n := |log| - 1;
      var front := Recent(log[..n], a, window);
      RecentTwice(log[..n], a, b, window);
      RecentAppend(front, log[n], b, window);
    }
  }

  lemma RecentAppend(log: seq<real>, t: real, now: real, window: real)
    ensures Recent(log + [t], now, window)
            == if now - t < window then Recent(log, now, window) + [t] else Recent(log, now, window)
  {
    assert (log + [t])[..|log|] == log;
  }

  /** At any time not before the key's earlier readings, the pruned list shows the same recent
      admissions as the full one, however the clock has run so far. */
  lemma {:induction false} PrunedRefinesFull(lim: Limits, calls: seq<Call>, key: string, now: real)
    requires NotBefore(calls, key, now)
    ensures Recent(Stored(lim, calls, key), now, lim.window) == Recent(Passed(lim, calls, key), now, lim.window)
  {
    if calls != [] {
      var before, last := calls[..|calls| - 1], calls[|calls| - 1];
      assert last in calls && forall c :: c in before ==> c in calls;
      PrunedRefinesFull(lim, before, key, now);
      if last.key == key {
        var s, p := Stored(lim, before, key), Passed(lim, before, key);
        RecentTwice(s, last.now, now, lim.window);
        RecentAppend(Recent(s, last.now, lim.window), last.now, now, lim.window);
        RecentAppend(p, last.now, now, lim.window);
      }
    }
  }

  /** On a clock that never runs backwards `check` admits exactly what a limiter that forgets
      nothing would. */
  lemma {:induction false} PassedIsAdmitted(lim: Limits, calls: seq<Call>, key: string)
    requires Ordered(calls)
    ensures Passed(lim, calls, key) == Admitted(lim, calls, key)
  {
    if calls != [] {
      var before, last := calls[..|calls| - 1], calls[|calls| - 1];
      PassedIsAdmitted(lim, before, key);
      LatestIsLast(calls);
      assert forall c :: c in before ==> c in calls;
      PrunedRefinesFull(lim, before, key, last.now);
    }
  }

  // ---- What a clock that runs backwards costs ----

  /** Call `i` was let through for this key. */
  predicate PassedAt(lim: Limits, calls: seq<Call>, key: string, i: nat)
    requires i < |calls|
  {
    calls[i].key == key && Admits(lim, Stored(lim, calls[..i], key), calls[i].now)
  }

  /** Some later call of the key read the clock a window or more after call `i`. */
  predicate Outlived(lim: Limits, calls: seq<Call>, i: nat)
    requires i < |calls|
  {
    exists j :: i < j < |calls| && calls[j].key == calls[i].key && calls[j].now - calls[i].now >= lim.window
  }

  /** The admissions among the first `n` calls that no later call has outlived. */
  function Unforgotten(lim: Limits, calls: seq<Call>, key: string, n: nat): seq<real>
    requires n <= |calls|
  {
    if n == 0 then []
    else
      var front := Unforgotten(lim, calls, key, n - 1);
      if PassedAt(lim, calls, key, n - 1) && !Outlived(lim, calls, n - 1) then front + [calls[n - 1].now] else front
  }

  lemma OutlivedAfter(lim: Limits, calls: seq<Call>, c: Call, i: nat)
    requires i < |calls|
    ensures Outlived(lim, calls + [c], i)
            <==> Outlived(lim, calls, i) || (c.key == calls[i].key && c.now - calls[i].now >= lim.window)
  {
    var all := calls + [c];
    if c.key == calls[i].key && c.now - calls[i].now >= lim.window {
      assert all[|calls|] == c;
    }
    if Outlived(lim, calls, i) {
      var j :| i < j < |calls| && calls[j].key == calls[i].key && calls[j].now - calls[i].now >= lim.window;
      assert all[j] == calls[j];
    }
  }

  lemma PassedAtAfter(lim: Limits, calls: seq<Call>, key: string, c: Call, i: nat)
    requires i < |calls|
    ensures PassedAt(lim, calls + [c], key, i) <==> PassedAt(lim, calls, key, i)
    ensures PassedAt(lim, calls, key, i) ==> calls[i].key == key
  {
    assert (calls + [c])[..i] == calls[..i] && (calls + [c])[i] == calls[i];
    hide Stored, Admits;
  }

  lemma {:induction false} UnforgottenAfter(lim: Limits, calls: seq<Call>, key: string, c: Call, n: nat)
    requires n <= |calls|
    ensures Unforgotten(lim, calls + [c], key, n)
            == if c.key == key then Recent(Unforgotten(lim, calls, key, n), c.now, lim.window)
               else Unforgotten(lim, calls, key, n)
  {
    if n > 0 {
      hide Outlived, PassedAt, Recent;
      UnforgottenAfter(lim, calls, key, c, n - 1);
      OutlivedAfter(lim, calls, c, n - 1);
      PassedAtAfter(lim, calls, key, c, n - 1);
      RecentAppend(Unforgotten(lim, calls, key, n - 1), calls[n - 1].now, c.now, lim.window);
    } else {
      assert Recent([], c.now, lim.window) == [];
    }
  }

  /** On any clock the stored list is exactly the admissions no later call has outlived. */
  lemma {:induction false} StoredIsUnforgotten(lim: Limits, calls: seq<Call>, key: string)
    ensures Stored(lim, calls, key) == Unforgotten(lim, calls, key, |calls|)
  {
    if calls != [] {
      var n := |calls| - 1;
      var before, last := calls[..n], calls[n];
      StoredIsUnforgotten(lim, before, key);
      assert calls == before + [last];
      UnforgottenAfter(lim, before, key, last, n);
      assert !Outlived(lim, calls, n);
    }
  }

  /** How many admissions are recent at `now` and yet have been outlived. */
  function Lost(lim: Limits, calls: seq<Call>, key: string, now: real, n: nat): nat
    requires n <= |calls|
  {
    if n == 0 then 0
    else
      Lost(lim, calls, key, now, n - 1)
      + if PassedAt(lim, calls, key, n - 1) && now - calls[n - 1].now < lim.window && Outlived(lim, calls, n - 1)
        then 1 else 0
  }

  lemma PassedStep(lim: Limits, calls: seq<Call>, key: string, n: nat)
    requires 0 < n <= |calls|
    ensures Passed(lim, calls[..n], key)
            == if PassedAt(lim, calls, key, n - 1) then Passed(lim, calls[..n - 1], key) + [calls[n - 1].now]
               else Passed(lim, calls[..n - 1], key)
  {
    assert calls[..n][..n - 1] == calls[..n - 1];
  }

  lemma {:induction false} LostIsTheDifference(lim: Limits, calls: seq<Call>, key: string, now: real, n: nat)
    requires n <= |calls|
    ensures |Recent(Unforgotten(lim, calls, key, n), now, lim.window)| + Lost(lim, calls, key, now, n)
            == |Recent(Passed(lim, calls[..n], key), now, lim.window)|
  {
    if n > 0 {
      LostIsTheDifference(lim, calls, key, now, n - 1);
      PassedStep(lim, calls, key, n);
      hide Outlived, Passed, PassedAt, Recent;
      RecentAppend(Unforgotten(lim, calls, key, n - 1), calls[n - 1].now, now, lim.window);
      RecentAppend(Passed(lim, calls[..n - 1], key), calls[n - 1].now, now, lim.window);
    }
  }

  /** On any clock and at any reading the pruned list answers as the full one exactly when few
      enough recent admissions have been outlived; where they part, it admits a call that the
      full list refuses. */
  lemma AgreesIffFewLost(lim: Limits, calls: seq<Call>, key: string, now: real)
    ensures var recent, lost := |Recent(Passed(lim, calls, key), now, lim.window)|, Lost(lim, calls, key, now, |calls|);
            (Admits(lim, Stored(lim, calls, key), now) <==> Admits(lim, Passed(lim, calls, key), now))
            <==> recent < lim.maxAttempts || recent - lost >= lim.maxAttempts
    ensures Admits(lim, Passed(lim, calls, key), now) ==> Admits(lim, Stored(lim, calls, key), now)
  {
    StoredIsUnforgotten(lim, calls, key);
    LostIsTheDifference(lim, calls, key, now, |calls|);
    assert calls[..|calls|] == calls;
    hide Recent, Stored, Passed, Unforgotten;
  }

  lemma {:induction false} RecentInside(log: seq<real>, a: real, b: real, window: real)
    requires b <= a
    ensures Recent(Recent(log, a, window), b, window) == Recent(log, a, window)
  {
    if log != [] {
      var n := |log| - 1;
      RecentInside(log[..n], a, b, window);
      RecentAppend(Recent(log[..n], a, window), log[n], b, window);
    }
  }

  lemma {:induction false} TimesAreCalls(calls: seq<Call>, key: string)
    ensures forall i :: 0 <= i < |Times(calls, key)| ==> Call(key, Times(calls, key)[i]) in calls
  {
    if calls != [] {
      var n := |calls| - 1;
      TimesAreCalls(calls[..n], key);
      assert calls == calls[..n] + [calls[n]];
      assert calls[n].key == key ==> calls[n] == Call(key, calls[n].now);
    }
  }

  /** While the clock runs forward the stored list is what was recent at the key's last call. */
  lemma {:induction false} StoredIsRecentAtLast(lim: Limits, calls: seq<Call>, key: string)
    requires Ordered(calls) && Times(calls, key) != [] && lim.window > 0.0
    ensures var ts := Times(calls, key);
            Stored(lim, calls, key) == Recent(Admitted(lim, calls, key), ts[|ts| - 1], lim.window)
  {
    var before, last := calls[..|calls| - 1], calls[|calls| - 1];
    if last.key == key {
      var s, a := Stored(lim, before, key), Admitted(lim, before, key);
      LatestIsLast(calls);
      assert forall c :: c in before ==> c in calls;
      PrunedRefinesFull(lim, before, key, last.now);
      PassedIsAdmitted(lim, before, key);
      RecentAppend(a, last.now, last.now, lim.window);
      assert last.now - last.now < lim.window;
      hide Recent, Stored, Admitted, Passed;
    } else {
      StoredIsRecentAtLast(lim, before, key);
    }
  }

  /** The first reading that runs backwards, or any other next reading: the pruned list answers as
      the full one exactly when the admission `maxAttempts` back is missing, stale by now, or
      was not yet stale at the key's last call. */
  lemma AgreesIff(lim: Limits, calls: seq<Call>, key: string, now: real)
    requires Ordered(calls) && lim.maxAttempts >= 1 && lim.window > 0.0 && Times(calls, key) != []
    ensures var a, ts, m := Admitted(lim, calls, key), Times(calls, key), lim.maxAttempts;
            (Admits(lim, Stored(lim, calls, key), now) <==> Admits(lim, a, now))
            <==> |a| < m || now - a[|a| - m] >= lim.window || ts[|ts| - 1] - a[|a| - m] < lim.window
  {
    var a, ts := Admitted(lim, calls, key), Times(calls, key);
    var last := ts[|ts| - 1];
    AdmittedSpaced(lim, calls, key);
    StoredIsRecentAtLast(lim, calls, key);
    RecentCount(a, now, lim.window, lim.maxAttempts);
    RecentCount(a, last, lim.window, lim.maxAttempts);
    if now >= last {
      RecentTwice(a, last, now, lim.window);
    } else {
      RecentInside(a, last, now, lim.window);
    }
    hide Recent, Stored, Admitted, Times, Ordered;
  }

  /** One call at `t0`, then `n` at `t1`. */
  function Burst(key: string, t0: real, t1: real, n: nat): seq<Call> {
    if n == 0 then [Call(key, t0)] else Burst(key, t0, t1, n - 1) + [Call(key, t1)]
  }

  lemma {:induction false} BurstIsOrdered(key: string, t0: real, t1: real, n: nat)
    requires t0 <= t1
    ensures var calls := Burst(key, t0, t1, n);
            Ordered(calls) && |calls| == n + 1 && forall i :: 0 <= i <= n ==> calls[i].now == if i == 0 then t0 else t1
  {
    if n > 0 {
      BurstIsOrdered(key, t0, t1, n - 1);
    }
  }

  lemma {:induction false} BurstIsAdmitted(lim: Limits, key: string, t0: real, t1: real, n: nat)
    requires n < lim.maxAttempts
    ensures var a := Admitted(lim, Burst(key, t0, t1, n), key);
            Times(Burst(key, t0, t1, n), key) == a && |a| == n + 1 && a[0] == t0 && a[n] == if n == 0 then t0 else t1
  {
    var calls := Burst(key, t0, t1, n);
    if n == 0 {
      assert calls[..0] == [];
    } else {
      BurstIsAdmitted(lim, key, t0, t1, n - 1);
      var before := Burst(key, t0, t1, n - 1);
      assert calls[..|calls| - 1] == before && calls[|calls| - 1] == Call(key, t1);
      assert Admits(lim, Admitted(lim, before, key), t1);
      hide Burst, Recent, Admits;
    }
  }

  /** So an out-of-order clock does over-admit, for every limit above one: when `maxAttempts - 1`
      calls at `t1` have pruned the admission at `t0`, a reading less than a window after `t0`
      lets through a call that the full history refuses. */
  lemma BackwardClockOverAdmits(lim: Limits, key: string, t0: real, t1: real, now: real)
    requires lim.maxAttempts >= 2 && lim.window > 0.0
    requires t1 - t0 >= lim.window > now - t0
    ensures var calls := Burst(key, t0, t1, lim.maxAttempts - 1);
            && Ordered(calls)
            && Admits(lim, Stored(lim, calls, key), now)
            && !Admits(lim, Admitted(lim, calls, key), now)
  {
    var calls := Burst(key, t0, t1, lim.maxAttempts - 1);
    BurstIsOrdered(key, t0, t1, lim.maxAttempts - 1);
    BurstIsAdmitted(lim, key, t0, t1, lim.maxAttempts - 1);
    AgreesIff(lim, calls, key, now);
    AdmittedSpaced(lim, calls, key);
    AdmitsIff(lim, Admitted(lim, calls, key), now);
  }

  /** No key's list ever grows past `maxAttempts`, whatever the clock does. */
  lemma {:induction false} StoredIsBounded(lim: Limits, calls: seq<Call>, key: string)
    ensures |Stored(lim, calls, key)| <= if lim.maxAttempts > 0 then lim.maxAttempts else 0
  {
    if calls != [] {
      StoredIsBounded(lim, calls[..|calls| - 1], key);
    }
  }

  // ---- Keys do not interfere ----

  function Only(calls: seq<Call>, key: string): seq<Call> {
    if calls == [] then []
    else
      var last := calls[|calls| - 1];
      var front := Only(calls[..|calls| - 1], key);
      if last.key == key then front + [last] else front
  }

  /** What a key's calls get depends on that key's calls alone. */
  lemma {:induction false} KeysAreIndependent(lim: Limits, calls: seq<Call>, key: string)
    ensures Stored(lim, calls, key) == Stored(lim, Only(calls, key), key)
    ensures Passed(lim, calls, key) == Passed(lim, Only(calls, key), key)
    ensures Admitted(lim, calls, key) == Admitted(lim, Only(calls, key), key)
  {
    if calls != [] {
      var before, last := calls[..|calls| - 1], calls[|calls| - 1];
      KeysAreIndependent(lim, before, key);
      assert (Only(before, key) + [last])[..|Only(before, key)|] == Only(before, key);
    }
  }

  // ---- Refused calls leave no trace ----

  lemma {:induction false} NothingDropped(log: seq<real>, now: real, window: real)
    requires |Recent(log, now, window)| == |log|
    ensures Recent(log, now, window) == log
  {
    if log != [] {
      NothingDropped(log[..|log| - 1], now, window);
      assert log == log[..|log| - 1] + [log[|log| - 1]];
    }
  }

  /** A refused call writes the pruned list back, and that is the list it found. */
  lemma RefusalChangesNothing(lim: Limits, calls: seq<Call>, key: string, now: real)
    requires !Admits(lim, Stored(lim, calls, key), now)
    ensures Pruned(lim, Stored(lim, calls, key), now) == Stored(lim, calls, key)
  {
    var log := Stored(lim, calls, key);
    StoredIsBounded(lim, calls, key);
    NothingDropped(log, now, lim.window);
  }

  /** The calls that `check` lets through, of all keys. */
  function LetThrough(lim: Limits, calls: seq<Call>): seq<Call> {
    if calls == [] then []
    else
      var before, last := calls[..|calls| - 1], calls[|calls| - 1];
      var front := LetThrough(lim, before);
      if Admits(lim, Stored(lim, before, last.key), last.now) then front + [last] else front
  }

  /** On any clock: had the refused calls never been made, every key would have the same stored
      list and the same admissions, and so would every later call the same answer.  A refusal
      never prolongs a lockout. */
  lemma {:induction false} RefusalsLeaveNoTrace(lim: Limits, calls: seq<Call>, key: string)
    ensures Stored(lim, LetThrough(lim, calls), key) == Stored(lim, calls, key)
    ensures Passed(lim, LetThrough(lim, calls), key) == Passed(lim, calls, key)
  {
    if calls != [] {
      var before, last := calls[..|calls| - 1], calls[|calls| - 1];
      var front := LetThrough(lim, before);
      RefusalsLeaveNoTrace(lim, before, key);
      RefusalsLeaveNoTrace(lim, before, last.key);
      assert (front + [last])[..|front|] == front;
      if !Admits(lim, Stored(lim, before, last.key), last.now) {
        RefusalChangesNothing(lim, before, last.key, last.now);
      }
      hide Admits, Pruned, Recent;
    }
  }

  function Granted(lim: Limits, calls: seq<Call>): seq<Call> {
    if calls == [] then []
    else
      var before, last := calls[..|calls| - 1], calls[|calls| - 1];
      var front := Granted(lim, before);
      if Admits(lim, Admitted(lim, before, last.key), last.now) then front + [last] else front
  }

  /** The same of the limiter that forgets nothing. */
  lemma {:induction false} FullHistoryIgnoresRefusals(lim: Limits, calls: seq<Call>, key: string)
    ensures Admitted(lim, Granted(lim, calls), key) == Admitted(lim, calls, key)
  {
    if calls != [] {
      var before, last := calls[..|calls| - 1], calls[|calls| - 1];
      var g := Granted(lim, before);
      FullHistoryIgnoresRefusals(lim, before, key);
      FullHistoryIgnoresRefusals(lim, before, last.key);
      assert (g + [last])[..|g|] == g;
    }
  }

  // ---- How densely admissions can lie ----

  lemma {:induction false} NoneRecent(log: seq<real>, now: real, window: real)
    requires forall i :: 0 <= i < |log| ==> !(now - log[i] < window)
    ensures Recent(log, now, window) == []
  {
    if log != [] {
      NoneRecent(log[..|log| - 1], now, window);
    }
  }

  /** In a sorted list the recent entries are the last ones. */
  lemma {:induction false} RecentCount(log: seq<real>, now: real, window: real, k: nat)
    requires Sorted(log) && k >= 1
    ensures |Recent(log, now, window)| >= k <==> |log| >= k && now - log[|log| - k] < window
  {
    if log != [] {
      var front := log[..|log| - 1];
      if now - log[|log| - 1] < window {
        if k > 1 {
          RecentCount(front, now, window, k - 1);
        }
      } else {
        NoneRecent(front, now, window);
      }
    }
  }

  lemma AdmitsIff(lim: Limits, a: seq<real>, now: real)
    requires Sorted(a) && lim.maxAttempts >= 1
    ensures Admits(lim, a, now) <==> |a| < lim.maxAttempts || now - a[|a| - lim.maxAttempts] >= lim.window
  {
    RecentCount(a, now, lim.window, lim.maxAttempts);
  }

  /** `max` admissions apart is at least one window apart. */
  predicate Spaced(lim: Limits, a: seq<real>)
    requires lim.maxAttempts >= 1
  {
    forall i :: 0 <= i && i + lim.maxAttempts < |a| ==> a[i + lim.maxAttempts] - a[i] >= lim.window
  }

  /** Nothing is admitted later than the latest call. */
  lemma {:induction false} AdmittedNoLater(lim: Limits, calls: seq<Call>, key: string, now: real)
    requires forall i :: 0 <= i < |calls| ==> calls[i].now <= now
    ensures forall i :: 0 <= i < |Admitted(lim, calls, key)| ==> Admitted(lim, calls, key)[i] <= now
  {
    if calls != [] {
      AdmittedNoLater(lim, calls[..|calls| - 1], key, now);
    }
  }

  lemma {:induction false} AdmittedSpaced(lim: Limits, calls: seq<Call>, key: string)
    requires Ordered(calls) && lim.maxAttempts >= 1
    ensures Sorted(Admitted(lim, calls, key)) && Spaced(lim, Admitted(lim, calls, key))
  {
    if calls != [] {
      var before, last := calls[..|calls| - 1], calls[|calls| - 1];
      AdmittedSpaced(lim, before, key);
      AdmittedNoLater(lim, before, key, last.now);
      AdmitsIff(lim, Admitted(lim, before, key), last.now);
    }
  }

  lemma {:induction false} SpacedFar(lim: Limits, a: seq<real>, i: nat, m: nat)
    requires lim.maxAttempts >= 1 && lim.window > 0.0 && Spaced(lim, a)
    requires i + lim.maxAttempts * m < |a|
    ensures a[i + lim.maxAttempts * m] - a[i] >= lim.window * (m as real)
    decreases m
  {
    if m > 0 {
      var k := i + lim.maxAttempts * (m - 1);
      assert k + lim.maxAttempts == i + lim.maxAttempts * m;
      SpacedFar(lim, a, i, m - 1);
      assert lim.window * (m as real) == lim.window * ((m - 1) as real) + lim.window;
    } else {
      assert lim.maxAttempts * m == 0 && lim.window * (m as real) == 0.0;
    }
  }

  /** The entries of a list between two times, both included. */
  function Within(a: seq<real>, lo: real, hi: real): seq<real> {
    if a == [] then []
    else
      var front := Within(a[..|a| - 1], lo, hi);
      if lo <= a[|a| - 1] <= hi then front + [a[|a| - 1]] else front
  }

  /** The entries between two times end at some position `e` and reach back far enough. */
  lemma {:induction false} WithinEnds(a: seq<real>, lo: real, hi: real) returns (e: nat)
    requires Sorted(a) && Within(a, lo, hi) != []
    ensures |Within(a, lo, hi)| <= e + 1 <= |a|
    ensures a[e] <= hi && a[e + 1 - |Within(a, lo, hi)|] >= lo
  {
    var n := |a| - 1;
    var front := Within(a[..n], lo, hi);
    if lo <= a[n] <= hi {
      e := n;
      if front != [] {
        var d := WithinEnds(a[..n], lo, hi);
        assert a[d + 1 - |front|] <= a[n - |front|];
      }
    } else {
      e := WithinEnds(a[..n], lo, hi);
    }
  }

  lemma ProductPositive(x: int, y: int)
    requires x >= 1 && y >= 1
    ensures x * y >= 1
  {
  }

  lemma SpanBound(lim: Limits, a: seq<real>, lo: real, hi: real, m: nat)
    requires lim.maxAttempts >= 1 && lim.window > 0.0 && Sorted(a) && Spaced(lim, a)
    requires lo <= hi && m >= 1 && hi - lo < lim.window * (m as real)
    ensures |Within(a, lo, hi)| <= lim.maxAttempts * m
  {
    var k := lim.maxAttempts * m;
    ProductPositive(lim.maxAttempts, m);
    if |Within(a, lo, hi)| > k {
      var e := WithinEnds(a, lo, hi);
      var i := e + 1 - |Within(a, lo, hi)|;
      SpacedFar(lim, a, i, m);
    }
  }

  /** The long-run bound: a closed interval of length L holds at most
      `maxAttempts * (floor(L / window) + 1)` admissions of a key. */
  lemma LongRunBound(lim: Limits, calls: seq<Call>, key: string, lo: real, hi: real)
    requires Ordered(calls) && lim.maxAttempts >= 1 && lim.window > 0.0 && lo <= hi
    ensures |Within(Admitted(lim, calls, key), lo, hi)| <= lim.maxAttempts * (((hi - lo) / lim.window).Floor + 1)
  {
    AdmittedSpaced(lim, calls, key);
    FloorBound(hi - lo, lim.window);
    SpanBound(lim, Admitted(lim, calls, key), lo, hi, ((hi - lo) / lim.window).Floor + 1);
  }

  lemma FloorBound(len: real, w: real)
    requires len >= 0.0 && w > 0.0
    ensures (len / w).Floor >= 0
    ensures len < w * (((len / w).Floor + 1) as real)
  {
    var q := len / w;
    assert q >= 0.0;
    assert q < (q.Floor + 1) as real;
    assert q * w == len;
    assert q * w < ((q.Floor + 1) as real) * w;
  }

  /** In any span shorter than the window at most `maxAttempts` admissions lie. */
  lemma WindowBound(lim: Limits, calls: seq<Call>, key: string, lo: real, hi: real)
    requires Ordered(calls) && lim.maxAttempts >= 1 && lo <= hi && hi - lo < lim.window
    ensures |Within(Admitted(lim, calls, key), lo, hi)| <= lim.maxAttempts
  {
    AdmittedSpaced(lim, calls, key);
    assert hi - lo < lim.window * (1 as real);
    SpanBound(lim, Admitted(lim, calls, key), lo, hi, 1);
  }

  // ---- Greedy is optimal ----

  /** A choice of calls, by position, no `max + 1` of which lie in a span shorter than the
      window. */
  predicate Legal(lim: Limits, ts: seq<real>, picks: seq<nat>)
    requires lim.maxAttempts >= 1
  {
    && (forall i :: 0 <= i < |picks| ==> picks[i] < |ts|)
    && (forall i, j :: 0 <= i < j < |picks| ==> picks[i] < picks[j])
    && (forall i :: 0 <= i && i + lim.maxAttempts < |picks| ==>
          ts[picks[i + lim.maxAttempts]] - ts[picks[i]] >= lim.window)
  }

  /** The positions of the admitted calls. */
  lemma {:induction false} AdmittedPicks(lim: Limits, calls: seq<Call>, key: string) returns (picks: seq<nat>)
    ensures forall i :: 0 <= i < |picks| ==> picks[i] < |Times(calls, key)|
    ensures forall i, j :: 0 <= i < j < |picks| ==> picks[i] < picks[j]
    ensures |picks| == |Admitted(lim, calls, key)|
    ensures forall i :: 0 <= i < |picks| ==> Admitted(lim, calls, key)[i] == Times(calls, key)[picks[i]]
  {
    if calls == [] {
      picks := [];
    } else {
      var before, last := calls[..|calls| - 1], calls[|calls| - 1];
      picks := AdmittedPicks(lim, before, key);
      if last.key == key && Admits(lim, Admitted(lim, before, key), last.now) {
        picks := picks + [|Times(before, key)|];
      }
    }
  }

  /** The admissions are themselves such a choice. */
  lemma AdmittedIsLegal(lim: Limits, calls: seq<Call>, key: string) returns (picks: seq<nat>)
    requires Ordered(calls) && lim.maxAttempts >= 1
    ensures Legal(lim, Times(calls, key), picks)
    ensures |picks| == |Admitted(lim, calls, key)|
    ensures forall i :: 0 <= i < |picks| ==> Admitted(lim, calls, key)[i] == Times(calls, key)[picks[i]]
  {
    picks := AdmittedPicks(lim, calls, key);
    AdmittedSpaced(lim, calls, key);
    hide Admitted, Times, Ordered;
  }

  lemma FirstPick(lim: Limits, ts: seq<real>, picks: seq<nat>)
    requires lim.maxAttempts >= 1 && Legal(lim, ts, picks)
    ensures picks == [] || picks[0] < |ts|
  {
  }

  /** Optimality: no legal choice has more calls than `check` admits, and the j-th call of any
      legal choice comes no earlier than the j-th admission. */
  lemma {:induction false} GreedyIsOptimal(lim: Limits, calls: seq<Call>, key: string, picks: seq<nat>)
    requires Ordered(calls) && lim.maxAttempts >= 1
    requires Legal(lim, Times(calls, key), picks)
    ensures |picks| <= |Admitted(lim, calls, key)|
    ensures forall j :: 0 <= j < |picks| ==> Admitted(lim, calls, key)[j] <= Times(calls, key)[picks[j]]
  {
    FirstPick(lim, Times(calls, key), picks);
    if calls != [] {
      var before := calls[..|calls| - 1];
      var ts, all := Times(before, key), Times(calls, key);
      assert ts == all[..|ts|];
      var m := if picks != [] && picks[|picks| - 1] == |ts| then |picks| - 1 else |picks|;
      LegalPrefix(lim, all, |ts|, picks, m);
      GreedyIsOptimal(lim, before, key, picks[..m]);
      if m < |picks| {
        LastPickIsMatched(lim, calls, key, picks);
      }
    }
  }

  lemma LegalPrefix(lim: Limits, all: seq<real>, n: nat, picks: seq<nat>, m: nat)
    requires lim.maxAttempts >= 1 && Legal(lim, all, picks) && n <= |all| <= n + 1
    requires m <= |picks| && (m < |picks| ==> picks[m] <= n)
    requires m == |picks| && m > 0 ==> picks[m - 1] < n
    ensures Legal(lim, all[..n], picks[..m])
  {
    var rest := picks[..m];
    forall i | 0 <= i < m ensures rest[i] < n {
      if m < |picks| {
        assert picks[i] < picks[m];
      } else if i < m - 1 {
        assert picks[i] < picks[m - 1];
      }
    }
  }

  /** When the choice takes the latest call, either `check` is ahead already or it admits the
      call too. */
  lemma LastPickIsMatched(lim: Limits, calls: seq<Call>, key: string, picks: seq<nat>)
    requires Ordered(calls) && lim.maxAttempts >= 1 && calls != []
    requires Legal(lim, Times(calls, key), picks)
    requires picks != [] && picks[|picks| - 1] == |Times(calls[..|calls| - 1], key)|
    requires var a := Admitted(lim, calls[..|calls| - 1], key);
             |picks| - 1 <= |a| && forall j :: 0 <= j < |picks| - 1 ==> a[j] <= Times(calls, key)[picks[j]]
    ensures |picks| <= |Admitted(lim, calls, key)|
    ensures forall j :: 0 <= j < |picks| ==> Admitted(lim, calls, key)[j] <= Times(calls, key)[picks[j]]
  {
    var before, last := calls[..|calls| - 1], calls[|calls| - 1];
    var a, all, m := Admitted(lim, before, key), Times(calls, key), |picks| - 1;
    assert picks[m] < |all|;
    assert last.key == key && all[picks[m]] == last.now;
    AdmittedNoLater(lim, calls, key, last.now);
    if |a| == m {
      AdmittedSpaced(lim, before, key);
      AdmitsIff(lim, a, last.now);
      if m >= lim.maxAttempts {
        var i := m - lim.maxAttempts;
        assert a[i] <= all[picks[i]];
        assert all[picks[i + lim.maxAttempts]] - all[picks[i]] >= lim.window;
      }
    }
  }
}
