/** Safety and exact waiting of the sliding windows, over whole runs. */
module RateLimitProofs {
  import opened RateLimits

  // --- One window against its full log ---------------------------------

  ghost predicate Chronological(log: seq<Entry>) {
    forall i, j :: 0 <= i <= j < |log| ==> log[i].time <= log[j].time
  }

  /** The weight logged in the half-open interval `(lo, hi]`. */
  ghost function WeightBetween(log: seq<Entry>, lo: real, hi: real): nat {
    if log == [] then 0
    else
      var e := log[|log| - 1];
      WeightBetween(log[..|log| - 1], lo, hi) + if lo < e.time <= hi then e.weight else 0
  }

  ghost function WeightInWindow(log: seq<Entry>, rule: Rule, t: real): nat {
    WeightBetween(log, Cutoff(rule, t), t)
  }

  ghost predicate WithinLimit(log: seq<Entry>, rule: Rule) {
    forall t: real :: WeightInWindow(log, rule, t) <= rule.limit
  }

  /** `w` still holds all but the first `n` entries of its log, and those are out of reach. */
  ghost predicate TracksFrom(w: WindowState, log: seq<Entry>, now: real, n: nat) {
    && n <= |log|
    && w.entries == log[n..]
    && w.used == TotalWeight(w.entries)
    && Chronological(log)
    && (forall e <- log :: e.time <= now)
    && (forall i :: 0 <= i < n ==> log[i].time <= Cutoff(w.rule, now))
  }

  ghost predicate Tracks(w: WindowState, log: seq<Entry>, now: real) {
    exists n :: TracksFrom(w, log, now, n)
  }

  lemma {:induction false} TotalWeightSnoc(entries: seq<Entry>, e: Entry)
    ensures TotalWeight(entries + [e]) == TotalWeight(entries) + e.weight
    decreases |entries|
  {
    if entries == [] {
      assert [e][1..] == [];
    } else {
      assert (entries + [e])[1..] == entries[1..] + [e];
      TotalWeightSnoc(entries[1..], e);
    }
  }

  /** Evicting leaves the running total exact, and only what is out of reach goes. */
  lemma {:induction false} EvictedTracks(w: WindowState, log: seq<Entry>, now: real, n: nat) returns (m: nat)
    requires TracksFrom(w, log, now, n)
    ensures TracksFrom(Evicted(w, now), log, now, m)
    ensures forall i :: m <= i < |log| ==> log[i].time > Cutoff(w.rule, now)
    decreases |log| - n
  {
    if w.entries != [] && w.entries[0].time <= Cutoff(w.rule, now) {
      m := EvictedTracks(w.(entries := w.entries[1..], used := w.used - w.entries[0].weight), log, now, n + 1);
    } else {
      m := n;
    }
  }

  /** When the log splits at the cutoff, the weight in reach is the total of the second part. */
  lemma {:induction false} WeightBetweenIsTotal(log: seq<Entry>, m: nat, lo: real, hi: real)
    requires m <= |log|
    requires forall i :: 0 <= i < m ==> log[i].time <= lo
    requires forall i :: m <= i < |log| ==> lo < log[i].time <= hi
    ensures WeightBetween(log, lo, hi) == TotalWeight(log[m..])
    decreases |log|
  {
    if m < |log| {
      var init, e := log[..|log| - 1], log[|log| - 1];
      WeightBetweenIsTotal(init, m, lo, hi);
      assert log[m..] == init[m..] + [e];
      TotalWeightSnoc(init[m..], e);
    } else if log != [] {
      WeightBetweenIsTotal(log[..|log| - 1], m - 1, lo, hi);
      assert log[..|log| - 1][m - 1..] == [] == log[m..];
    }
  }

  /** A shorter interval holds no more weight. */
  lemma {:induction false} WeightBetweenMonotone(log: seq<Entry>, lo: real, hi: real, lo': real, hi': real)
    requires lo' <= lo && forall e <- log :: e.time <= hi ==> e.time <= hi'
    ensures WeightBetween(log, lo, hi) <= WeightBetween(log, lo', hi')
    decreases |log|
  {
    if log != [] {
      WeightBetweenMonotone(log[..|log| - 1], lo, hi, lo', hi');
    }
  }

  /** Charging a window extends its log. */
  lemma {:induction false} RecordingTracks(w: WindowState, log: seq<Entry>, now: real, m: nat, weight: nat)
    requires TracksFrom(w, log, now, m)
    ensures TracksFrom(Recorded(w, now, weight), log + [Entry(now, weight)], now, m)
  {
    TotalWeightSnoc(w.entries, Entry(now, weight));
    hide TotalWeight;
    assert (log + [Entry(now, weight)])[m..] == log[m..] + [Entry(now, weight)];
  }

  lemma {:induction false} OneMoreEntry(log: seq<Entry>, e: Entry, lo: real, hi: real)
    ensures WeightBetween(log + [e], lo, hi) == WeightBetween(log, lo, hi) + if lo < e.time <= hi then e.weight else 0
  {
    assert (log + [e])[..|log|] == log;
  }

  /** The weight in reach at `now` is what an evicted window holds. */
  lemma {:induction false} UsedIsInReach(w: WindowState, log: seq<Entry>, now: real, m: nat)
    requires TracksFrom(w, log, now, m)
    requires forall i :: m <= i < |log| ==> log[i].time > Cutoff(w.rule, now)
    ensures WeightBetween(log, Cutoff(w.rule, now), now) == w.used
  {
    hide TotalWeight, WeightBetween;
    WeightBetweenIsTotal(log, m, Cutoff(w.rule, now), now);
  }

  /** Granting what fits now keeps the cost within the limit in the reach of every instant. */
  lemma {:induction false} RecordingStaysWithinLimit(
      w: WindowState, log: seq<Entry>, now: real, m: nat, weight: nat)
    requires TracksFrom(w, log, now, m) && WithinLimit(log, w.rule)
    requires forall i :: m <= i < |log| ==> log[i].time > Cutoff(w.rule, now)
    requires w.used + weight <= w.rule.limit
    ensures WithinLimit(log + [Entry(now, weight)], w.rule)
  {
    UsedIsInReach(w, log, now, m);
    assert forall e <- log :: e.time <= now;
    hide TracksFrom, WeightBetween, TotalWeight;
    forall t: real
      ensures WeightInWindow(log + [Entry(now, weight)], w.rule, t) <= w.rule.limit
    {
      OneMoreEntry(log, Entry(now, weight), Cutoff(w.rule, t), t);
      if Cutoff(w.rule, t) < now <= t {
        WeightBetweenMonotone(log, Cutoff(w.rule, t), t, Cutoff(w.rule, now), now);
      } else {
        assert WeightInWindow(log, w.rule, t) <= w.rule.limit;
      }
    }
  }

  // --- How long to wait ------------------------------------------------

  /** What an honest clock guarantees of a window: its entries are in order and correctly totalled. */
  ghost predicate Orderly(w: WindowState, now: real) {
    && Chronological(w.entries)
    && w.used == TotalWeight(w.entries)
    && (forall e <- w.entries :: e.time <= now)
  }

  ghost predicate FitsAt(w: WindowState, now: real, weight: nat) {
    Evicted(w, now).used + weight <= w.rule.limit
  }

  lemma {:induction false} TracksIsOrderly(w: WindowState, log: seq<Entry>, now: real)
    requires Tracks(w, log, now)
    ensures Orderly(w, now)
  {
  }

  lemma {:induction false} EvictedOrderly(w: WindowState, now: real, later: real)
    requires Orderly(w, now) && now <= later
    ensures Orderly(Evicted(w, later), later)
    ensures Evicted(w, later).rule == w.rule
    ensures forall e <- Evicted(w, later).entries :: e.time > Cutoff(w.rule, later)
    decreases |w.entries|
  {
    if w.entries != [] && w.entries[0].time <= Cutoff(w.rule, later) {
      var rest := w.(entries := w.entries[1..], used := w.used - w.entries[0].weight);
      RestIsOrderly(w, now);
      hide Orderly;
      EvictedOrderly(rest, now, later);
    }
  }

  lemma {:induction false} RestIsOrderly(w: WindowState, now: real)
    requires Orderly(w, now) && w.entries != []
    ensures Orderly(w.(entries := w.entries[1..], used := w.used - w.entries[0].weight), now)
  {
  }

  lemma {:induction false} EvictingTwice(w: WindowState, now: real, later: real)
    requires now <= later
    ensures Evicted(Evicted(w, now), later) == Evicted(w, later)
    decreases |w.entries|
  {
    if w.entries != [] && w.entries[0].time <= Cutoff(w.rule, now) {
      EvictingTwice(w.(entries := w.entries[1..], used := w.used - w.entries[0].weight), now, later);
    }
  }

  lemma {:induction false} EvictingFrees(w: WindowState, now: real)
    ensures Evicted(w, now).used <= w.used
    decreases |w.entries|
  {
    if w.entries != [] && w.entries[0].time <= Cutoff(w.rule, now) {
      EvictingFrees(w.(entries := w.entries[1..], used := w.used - w.entries[0].weight), now);
    }
  }

  /** The freeing entry is the one whose expiry, and no earlier, frees `needed`. */
  lemma {:induction false} FreeingEntryIsExact(w: WindowState, needed: int, at: real)
    requires Chronological(w.entries) && needed > 0
    ensures FreeingEntry(w.entries, needed).None? <==> TotalWeight(w.entries) < needed
    ensures var freeing := FreeingEntry(w.entries, needed);
            freeing.Some? ==>
              && freeing.value in w.entries
              && (freeing.value.time <= Cutoff(w.rule, at) <==> Evicted(w, at).used <= w.used - needed)
    decreases |w.entries|
  {
    if w.entries != [] {
      var first := w.entries[0];
      var rest := w.(entries := w.entries[1..], used := w.used - first.weight);
      if first.weight >= needed {
        EvictingFrees(rest, at);
      } else {
        FreeingEntryIsExact(rest, needed - first.weight, at);
      }
    }
  }

  /**
   * `wait_seconds` is infinite exactly when the cost exceeds the limit, and otherwise the least
   * delay after which the cost fits: it fits at `now + d` for a delay `d` just when `d` is at
   * least the reported one.
   */
  lemma {:induction false} WaitIsTheLeastSufficientDelay(w: WindowState, now: real, weight: nat, d: real)
    requires Orderly(w, now) && d >= 0.0
    ensures var wait := WaitOf(Evicted(w, now), now, weight);
            && (wait.Never? <==> weight > w.rule.limit)
            && (wait.Seconds? ==> wait.value >= 0.0)
            && (wait.Seconds? ==> (FitsAt(w, now + d, weight) <==> d >= wait.value))
  {
    var v := Evicted(w, now);
    EvictedOrderly(w, now, now);
    EvictingTwice(w, now, now + d);
    var needed := v.used + weight - w.rule.limit;
    if needed > 0 {
      FreeingEntryIsExact(v, needed, now + d);
    } else {
      EvictingFrees(v, now + d);
    }
  }

  // --- A pass over every window ----------------------------------------

  ghost predicate AllOrderly(ws: seq<WindowState>, now: real) {
    forall w <- ws :: Orderly(w, now)
  }

  /** A window on raw requests has room for one more; one on the type asked for, for the weight. */
  ghost predicate Admits(w: WindowState, req: Request, at: real) {
    if w.rule.limitType == "RAW_REQUESTS" then FitsAt(w, at, 1)
    else w.rule.limitType == req.limitType ==> FitsAt(w, at, req.weight)
  }

  /** The request can never fit under the rule of the window. */
  ghost predicate TooHeavy(w: WindowState, req: Request) {
    Forbids(w.rule, req)
  }

  ghost predicate Forbids(rule: Rule, req: Request) {
    if rule.limitType == "RAW_REQUESTS" then rule.limit < 1
    else rule.limitType == req.limitType && req.weight > rule.limit
  }

  /** Every applicable window has room for the request at time `at`. */
  ghost predicate AllAdmit(ws: seq<WindowState>, req: Request, at: real) {
    forall w <- ws :: Admits(w, req, at)
  }

  /** What one window asks of a request, applicable or not. */
  lemma {:induction false} WindowWaitIsExact(w: WindowState, req: Request, d: real)
    requires Orderly(w, req.now) && d >= 0.0
    ensures var wait := WindowWait(w, req);
            && (wait.Never? <==> TooHeavy(w, req))
            && (wait.Seconds? ==> wait.value >= 0.0 && (Admits(w, req, req.now + d) <==> d >= wait.value))
  {
    hide Evicted, WaitOf, Orderly;
    if Applies(w.rule, req.limitType) {
      WaitIsTheLeastSufficientDelay(w, req.now, Cost(w.rule, req.weight), d);
    }
  }

  lemma {:induction false} OneMoreWindow(init: seq<WindowState>, w: WindowState, req: Request, at: real)
    ensures AllAdmit(init + [w], req, at) <==> AllAdmit(init, req, at) && Admits(w, req, at)
    ensures (exists v <- init + [w] :: TooHeavy(v, req)) <==> (exists v <- init :: TooHeavy(v, req)) || TooHeavy(w, req)
  {
    hide Admits, TooHeavy;
    assert w in init + [w] && forall v <- init :: v in init + [w];
  }

  /**
   * A pass is refused for good exactly when some applicable window can never fit the request;
   * otherwise it is granted exactly when all of them fit it now, and a refusal reports the least
   * delay after which all of them do.
   */
  lemma {:induction false} VerdictIsExact(ws: seq<WindowState>, req: Request, d: real)
    requires AllOrderly(ws, req.now) && d >= 0.0
    ensures var verdict := Verdict(ws, req);
            && (verdict.Impossible? <==> exists w <- ws :: TooHeavy(w, req))
            && (verdict.Granted? ==> AllAdmit(ws, req, req.now + d))
            && (verdict.Throttled? ==> verdict.delay > 0.0 && (AllAdmit(ws, req, req.now + d) <==> d >= verdict.delay))
    decreases |ws|
  {
    hide Orderly, TooHeavy, Admits, WindowWait;
    if ws != [] {
      hide AllAdmit;
      var init, w := ws[..|ws| - 1], ws[|ws| - 1];
      VerdictIsExact(init, req, d);
      assert ws == init + [w];
      OneMoreWindow(init, w, req, req.now + d);
      WindowWaitIsExact(w, req, d);
    }
  }

  lemma {:induction false} GrantedIffAllAdmit(ws: seq<WindowState>, req: Request)
    requires AllOrderly(ws, req.now)
    ensures Verdict(ws, req).Granted? <==> AllAdmit(ws, req, req.now) && !exists w <- ws :: TooHeavy(w, req)
  {
    VerdictIsExact(ws, req, 0.0);
  }

  /** Two sets of windows that differ only in what has expired by `at`. */
  ghost predicate SameFrom(ws: seq<WindowState>, vs: seq<WindowState>, at: real) {
    && |ws| == |vs|
    && forall i :: 0 <= i < |ws| ==> Evicted(ws[i], at) == Evicted(vs[i], at) && vs[i].rule == ws[i].rule
  }

  function RunPasses(ws: seq<WindowState>, reqs: seq<Request>): seq<WindowState>
    decreases |reqs|
  {
    if reqs == [] then ws else RunPasses(AfterPass(ws, reqs[0]), reqs[1..])
  }

  /** None of these passes, taken in order, is granted. */
  ghost predicate NoneGranted(ws: seq<WindowState>, reqs: seq<Request>)
    decreases |reqs|
  {
    reqs == [] || (!Verdict(ws, reqs[0]).Granted? && NoneGranted(AfterPass(ws, reqs[0]), reqs[1..]))
  }

  ghost predicate ClockOk(reqs: seq<Request>, from: real, to: real) {
    && from <= to
    && (forall r <- reqs :: from <= r.now <= to)
    && (forall i, j :: 0 <= i <= j < |reqs| ==> reqs[i].now <= reqs[j].now)
  }

  lemma {:induction false} RefusedPassOnlyEvicts(ws: seq<WindowState>, req: Request, from: real, at: real)
    requires AllOrderly(ws, from) && from <= req.now <= at && !Verdict(ws, req).Granted?
    ensures var after := AfterPass(ws, req);
            AllOrderly(after, req.now) && SameFrom(ws, after, at)
  {
    var after := AfterPass(ws, req);
    forall i | 0 <= i < |ws|
      ensures Orderly(after[i], req.now) && Evicted(ws[i], at) == Evicted(after[i], at) && after[i].rule == ws[i].rule
    {
      EvictedOrderly(ws[i], from, req.now);
      EvictingTwice(ws[i], req.now, at);
    }
  }

  lemma {:induction false} RefusalsOnlyEvict(ws: seq<WindowState>, reqs: seq<Request>, from: real, at: real)
    requires AllOrderly(ws, from) && ClockOk(reqs, from, at) && NoneGranted(ws, reqs)
    ensures AllOrderly(RunPasses(ws, reqs), at) && SameFrom(ws, RunPasses(ws, reqs), at)
    decreases |reqs|
  {
    if reqs != [] {
      RefusedPassOnlyEvicts(ws, reqs[0], from, at);
      RefusalsOnlyEvict(AfterPass(ws, reqs[0]), reqs[1..], reqs[0].now, at);
    }
  }

  lemma {:induction false} SameFromSameAdmission(ws: seq<WindowState>, vs: seq<WindowState>, req: Request, at: real)
    requires SameFrom(ws, vs, at)
    ensures AllAdmit(ws, req, at) <==> AllAdmit(vs, req, at)
    ensures (exists w <- ws :: TooHeavy(w, req)) <==> (exists v <- vs :: TooHeavy(v, req))
  {
    forall i | 0 <= i < |ws| ensures Admits(ws[i], req, at) <==> Admits(vs[i], req, at) {
      assert Evicted(ws[i], at) == Evicted(vs[i], at);
    }
    forall i | 0 <= i < |ws| ensures TooHeavy(ws[i], req) <==> TooHeavy(vs[i], req) {
      assert vs[i].rule == ws[i].rule;
    }
  }

  lemma {:induction false} RetryNeedsTheSame(ws: seq<WindowState>, req: Request, at: real)
    ensures AllAdmit(ws, req.(now := at), at) <==> AllAdmit(ws, req, at)
    ensures (exists w <- ws :: TooHeavy(w, req.(now := at))) <==> (exists w <- ws :: TooHeavy(w, req))
  {
    var retry := req.(now := at);
    forall w <- ws
      ensures Admits(w, retry, at) <==> Admits(w, req, at)
      ensures TooHeavy(w, retry) <==> TooHeavy(w, req)
    {
    }
  }

  lemma {:induction false} SameFromTransitive(
      ws: seq<WindowState>, vs: seq<WindowState>, us: seq<WindowState>, at: real)
    requires SameFrom(ws, vs, at) && SameFrom(vs, us, at)
    ensures SameFrom(ws, us, at)
  {
  }

  /**
   * A throttled request that retries at `at` is granted exactly when it has slept at least the
   * reported delay, whatever refused requests came in between.
   */
  lemma {:induction false} SleepingTheDelayIsExactlyEnough(
      ws: seq<WindowState>, req: Request, between: seq<Request>, at: real)
    requires AllOrderly(ws, req.now) && Verdict(ws, req).Throttled?
    requires ClockOk(between, req.now, at) && NoneGranted(AfterPass(ws, req), between)
    ensures Verdict(RunPasses(AfterPass(ws, req), between), req.(now := at)).Granted?
            <==> at >= req.now + Verdict(ws, req).delay
  {
    hide Orderly, TooHeavy, Admits, RunPasses, AfterPass, Verdict, NoneGranted;
    var mid := AfterPass(ws, req);
    var end := RunPasses(mid, between);
    RefusedPassOnlyEvicts(ws, req, req.now, at);
    RefusalsOnlyEvict(mid, between, req.now, at);
    SameFromTransitive(ws, mid, end, at);
    SameFromSameAdmission(ws, end, req.(now := at), at);
    GrantedIffAllAdmit(end, req.(now := at));
    RetryNeedsTheSame(ws, req, at);
    VerdictIsExact(ws, req, at - req.now);
    assert req.now + (at - req.now) == at;
  }

  // --- Other callers -----------------------------------------------------

  /**
   * A caller is put off a second time only by someone else's grant: if it slept for the reported
   * delay and is still not let in, a request of another caller was granted in its sleep.
   */
  lemma {:induction false} EachRetryIsPaidForByAnotherGrant(
      ws: seq<WindowState>, req: Request, between: seq<Request>, at: real)
    requires AllOrderly(ws, req.now) && Verdict(ws, req).Throttled?
    requires ClockOk(between, req.now, at) && at >= req.now + Verdict(ws, req).delay
    requires !Verdict(RunPasses(AfterPass(ws, req), between), req.(now := at)).Granted?
    ensures !NoneGranted(AfterPass(ws, req), between)
  {
    hide Verdict, AfterPass, RunPasses, NoneGranted, ClockOk;
    if NoneGranted(AfterPass(ws, req), between) {
      SleepingTheDelayIsExactlyEnough(ws, req, between, at);
    }
  }

  /** The rules of the windows, which no pass changes. */
  ghost predicate SameRules(ws: seq<WindowState>, vs: seq<WindowState>) {
    |ws| == |vs| && forall i :: 0 <= i < |ws| ==> vs[i].rule == ws[i].rule
  }

  lemma {:induction false} ChargingKeepsOrder(w: WindowState, now: real, weight: nat)
    requires Orderly(w, now)
    ensures Orderly(Recorded(w, now, weight), now)
  {
    TotalWeightSnoc(w.entries, Entry(now, weight));
  }

  lemma {:induction false} PassKeepsOrder(ws: seq<WindowState>, req: Request, from: real)
    requires AllOrderly(ws, from) && from <= req.now
    ensures AllOrderly(AfterPass(ws, req), req.now) && SameRules(ws, AfterPass(ws, req))
  {
    hide Orderly, Evicted, Recorded, Verdict, Examined;
    var after := AfterPass(ws, req);
    forall i | 0 <= i < |ws| ensures Orderly(after[i], req.now) && after[i].rule == ws[i].rule {
      OnePassKeepsOrder(ws, req, from, i);
    }
  }

  lemma {:induction false} OnePassKeepsOrder(ws: seq<WindowState>, req: Request, from: real, i: nat)
    requires AllOrderly(ws, from) && from <= req.now && i < |ws|
    ensures Orderly(AfterPass(ws, req)[i], req.now) && AfterPass(ws, req)[i].rule == ws[i].rule
  {
    PassAt(ws, req, i);
    EvictedKeepsRule(ws[i], req.now);
    EvictedOrderly(ws[i], from, req.now);
    ChargingKeepsOrder(Evicted(ws[i], req.now), req.now, Cost(ws[i].rule, req.weight));
  }

  lemma {:induction false} PassesKeepOrder(ws: seq<WindowState>, reqs: seq<Request>, from: real, to: real)
    requires AllOrderly(ws, from) && ClockOk(reqs, from, to)
    ensures AllOrderly(RunPasses(ws, reqs), to) && SameRules(ws, RunPasses(ws, reqs))
    decreases |reqs|
  {
    hide AfterPass;
    if reqs != [] {
      PassKeepsOrder(ws, reqs[0], from);
      PassesKeepOrder(AfterPass(ws, reqs[0]), reqs[1..], reqs[0].now, to);
    }
  }

  /** Whether a request can ever fit is a matter of the rules alone. */
  lemma {:induction false} WeightIsJudgedByRules(
      ws: seq<WindowState>, vs: seq<WindowState>, req: Request, other: Request)
    requires SameRules(ws, vs) && other == req.(now := other.now)
    ensures (exists w <- ws :: TooHeavy(w, req)) <==> (exists v <- vs :: TooHeavy(v, other))
  {
    forall i | 0 <= i < |ws| ensures TooHeavy(ws[i], req) <==> TooHeavy(vs[i], other) {
      assert vs[i].rule == ws[i].rule;
    }
  }

  /** What other callers do in the `k`-th sleep of one, between its start and its end: their passes in order. */
  type Others = (nat, real, real) -> seq<Request>

  ghost predicate Timely(others: Others) {
    forall k, from, to :: from <= to ==> ClockOk(others(k, from, to), from, to)
  }

  /**
   * One caller's way through the retry loop: when it starts, what it asks for, how late each of its
   * sleeps ends, and what the others do in them.
   */
  datatype Attempt = Attempt(start: real, weight: nat, limitType: string, late: nat -> real, others: Others) {
    function Ask(now: real): Request {
      Request(now, weight, limitType)
    }

    ghost predicate Valid() {
      Timely(others) && forall k :: late(k) >= 0.0
    }
  }

  /** The windows and the clock as the caller finds them. */
  datatype Moment = Moment(ws: seq<WindowState>, at: real)

  /** When the `k`-th sleep, taken at a refusal, ends. */
  function WakesAt(m: Moment, a: Attempt, k: nat): real {
    match Verdict(m.ws, a.Ask(m.at))
    case Throttled(delay) => m.at + delay + a.late(k)
    case _ => m.at
  }

  /** The passes of others in the `k`-th sleep. */
  function InSleep(m: Moment, a: Attempt, k: nat): seq<Request> {
    a.others(k, m.at, WakesAt(m, a, k))
  }

  /** From one try to the next. */
  function NextTry(m: Moment, a: Attempt, k: nat): Moment {
    Moment(RunPasses(AfterPass(m.ws, a.Ask(m.at)), InSleep(m, a, k)), WakesAt(m, a, k))
  }

  /** The `k`-th try, had all before it been throttled. */
  function TryOf(ws: seq<WindowState>, a: Attempt, k: nat): Moment {
    if k == 0 then Moment(ws, a.start) else NextTry(TryOf(ws, a, k - 1), a, k - 1)
  }

  function VerdictOn(m: Moment, a: Attempt): Outcome {
    Verdict(m.ws, a.Ask(m.at))
  }

  /** The `k`-th try is throttled, and somebody else is granted a request in the sleep it is sent to. */
  ghost predicate Contended(ws: seq<WindowState>, a: Attempt, k: nat) {
    var m := TryOf(ws, a, k);
    VerdictOn(m, a).Throttled? && !NoneGranted(AfterPass(m.ws, a.Ask(m.at)), InSleep(m, a, k))
  }

  /** A throttled caller wakes to orderly windows under the same rules, and is let in if nobody else was. */
  lemma {:induction false} SleepIsKept(m: Moment, a: Attempt, k: nat)
    requires a.Valid() && AllOrderly(m.ws, m.at) && VerdictOn(m, a).Throttled?
    ensures var next := NextTry(m, a, k);
            && next.at >= m.at && AllOrderly(next.ws, next.at) && SameRules(m.ws, next.ws)
            && (NoneGranted(AfterPass(m.ws, a.Ask(m.at)), InSleep(m, a, k)) ==> VerdictOn(next, a).Granted?)
  {
    hide AfterPass, RunPasses, SameRules, Verdict, NoneGranted, Orderly, ClockOk;
    var req, wake := a.Ask(m.at), WakesAt(m, a, k);
    VerdictIsExact(m.ws, req, 0.0);
    assert a.late(k) >= 0.0 && wake >= m.at;
    assert ClockOk(a.others(k, m.at, wake), m.at, wake);
    PassKeepsOrder(m.ws, req, m.at);
    PassesKeepOrder(AfterPass(m.ws, req), InSleep(m, a, k), m.at, wake);
    SameRulesTwice(m.ws, AfterPass(m.ws, req), NextTry(m, a, k).ws);
    if NoneGranted(AfterPass(m.ws, req), InSleep(m, a, k)) {
      SleepingTheDelayIsExactlyEnough(m.ws, req, InSleep(m, a, k), wake);
      assert req.(now := wake) == a.Ask(wake);
    }
  }

  /** Every try before the `n`-th was throttled. */
  ghost predicate ThrottledUntil(ws: seq<WindowState>, a: Attempt, n: nat) {
    forall k :: 0 <= k < n ==> VerdictOn(TryOf(ws, a, k), a).Throttled?
  }

  lemma {:induction false} TriesAreKept(ws: seq<WindowState>, a: Attempt, n: nat)
    requires a.Valid() && AllOrderly(ws, a.start) && ThrottledUntil(ws, a, n)
    ensures var m := TryOf(ws, a, n);
            m.at >= a.start && AllOrderly(m.ws, m.at) && SameRules(ws, m.ws)
    decreases n
  {
    hide NextTry, SameRules, Orderly, VerdictOn;
    if n == 0 {
      RulesAreTheirOwn(ws);
    } else {
      var m := TryOf(ws, a, n - 1);
      TriesAreKept(ws, a, n - 1);
      SleepIsKept(m, a, n - 1);
      SameRulesTwice(ws, m.ws, TryOf(ws, a, n).ws);
    }
  }

  /** If the first `n` tries are throttled, others were let in during every sleep between them. */
  lemma {:induction false} EverySleepButOneIsContended(ws: seq<WindowState>, a: Attempt, n: nat, k: nat)
    requires a.Valid() && AllOrderly(ws, a.start) && ThrottledUntil(ws, a, n) && k + 1 < n
    ensures Contended(ws, a, k)
  {
    hide VerdictOn, NoneGranted, AfterPass, InSleep;
    TriesAreKept(ws, a, k);
    SleepIsKept(TryOf(ws, a, k), a, k);
    assert TryOf(ws, a, k + 1) == NextTry(TryOf(ws, a, k), a, k);
    assert VerdictOn(TryOf(ws, a, k + 1), a).Throttled? && VerdictOn(TryOf(ws, a, k), a).Throttled?;
  }

  /** That a request can never fit is found at the first try or not at all. */
  lemma {:induction false} WeightIsJudgedAtOnce(ws: seq<WindowState>, a: Attempt, n: nat)
    requires a.Valid() && AllOrderly(ws, a.start) && ThrottledUntil(ws, a, n)
    ensures VerdictOn(TryOf(ws, a, n), a).Impossible? <==> exists w <- ws :: TooHeavy(w, a.Ask(a.start))
  {
    hide Orderly, SameRules, TooHeavy, Verdict, TryOf;
    TriesAreKept(ws, a, n);
    var m := TryOf(ws, a, n);
    WeightIsJudgedByRules(ws, m.ws, a.Ask(a.start), a.Ask(m.at));
    VerdictIsExact(m.ws, a.Ask(m.at), 0.0);
  }

  lemma {:induction false} RulesAreTheirOwn(ws: seq<WindowState>)
    ensures SameRules(ws, ws)
  {
  }

  lemma {:induction false} SameRulesTwice(ws: seq<WindowState>, vs: seq<WindowState>, us: seq<WindowState>)
    requires SameRules(ws, vs) && SameRules(vs, us)
    ensures SameRules(ws, us)
  {
  }

  // --- Steps of the loops in `acquire` ---------------------------------

  lemma {:induction false} MeasuredStep(before: seq<WindowState>, now: seq<WindowState>, req: Request, i: nat)
    requires i < |before| == |now|
    requires now[i] == if Applies(before[i].rule, req.limitType) then Evicted(before[i], req.now) else before[i]
    requires forall j | 0 <= j < |now| && j != i :: now[j] == Measured(before, req, i)[j]
    ensures now == Measured(before, req, i + 1)
  {
  }

  lemma {:induction false} ChargedStep(before: seq<WindowState>, now: seq<WindowState>, req: Request, i: nat)
    requires i < |before| == |now|
    requires now[i] == Charged(before[i], req)
    requires forall j | 0 <= j < |now| && j != i :: now[j] == ChargedUpTo(before, req, i)[j]
    ensures now == ChargedUpTo(before, req, i + 1)
  {
  }

  lemma {:induction false} MeasuringOneMore(ws: seq<WindowState>, req: Request, i: nat)
    requires i < |ws| && !Verdict(ws[..i], req).Impossible?
    ensures Examined(ws[..i + 1], req) == i + 1
    ensures Verdict(ws[..i + 1], req) ==
            match WindowWait(ws[i], req)
            case Never => Impossible(ws[i].rule)
            case Seconds(d) =>
              var longest := Max(if Verdict(ws[..i], req).Throttled? then Verdict(ws[..i], req).delay else 0.0, d);
              if longest <= 0.0 then Granted else Throttled(longest)
  {
    hide WindowWait;
    assert ws[..i + 1][..i] == ws[..i];
  }

  lemma {:induction false} ImpossibleAt(ws: seq<WindowState>, req: Request, i: nat)
    requires i < |ws|
    requires !Verdict(ws[..i], req).Impossible? && WindowWait(ws[i], req).Never?
    ensures Verdict(ws, req) == Impossible(ws[i].rule)
    ensures Examined(ws, req) == i + 1
    decreases |ws|
  {
    assert ws[..i + 1][..i] == ws[..i];
    if i + 1 == |ws| {
      assert ws[..i + 1] == ws;
    } else {
      var init := ws[..|ws| - 1];
      assert init[..i] == ws[..i];
      ImpossibleAt(init, req, i);
    }
  }

  // --- Whole runs ------------------------------------------------------

  /** The windows after a run, with every request that was granted, in order. */
  datatype Trace = Trace(windows: seq<WindowState>, granted: seq<Request>)

  function GrantedAfter(ws: seq<WindowState>, granted: seq<Request>, req: Request): seq<Request> {
    if Verdict(ws, req).Granted? then granted + [req] else granted
  }

  function Run(rules: seq<Rule>, reqs: seq<Request>): Trace {
    if reqs == [] then
      Trace(Fresh(rules), [])
    else
      var before := Run(rules, reqs[..|reqs| - 1]);
      var req := reqs[|reqs| - 1];
      Trace(AfterPass(before.windows, req),
            GrantedAfter(before.windows, before.granted, req))
  }

  ghost predicate NonDecreasing(reqs: seq<Request>) {
    forall i, j :: 0 <= i <= j < |reqs| ==> reqs[i].now <= reqs[j].now
  }

  /** What a run charged to `rule`, one entry a grant it applies to. */
  ghost function LogOf(granted: seq<Request>, rule: Rule): seq<Entry> {
    if granted == [] then []
    else
      var earlier := LogOf(granted[..|granted| - 1], rule);
      var req := granted[|granted| - 1];
      if rule.limitType == "RAW_REQUESTS" then earlier + [Entry(req.now, 1)]
      else if rule.limitType == req.limitType then earlier + [Entry(req.now, req.weight)]
      else earlier
  }

  /** The number of requests granted in the interval `(lo, hi]`, of any type. */
  ghost function CountGranted(granted: seq<Request>, lo: real, hi: real): nat {
    if granted == [] then 0
    else
      CountGranted(granted[..|granted| - 1], lo, hi) + if lo < granted[|granted| - 1].now <= hi then 1 else 0
  }

  /** The weight of the requests of one type granted in the interval `(lo, hi]`. */
  ghost function WeightGranted(granted: seq<Request>, limitType: string, lo: real, hi: real): nat {
    if granted == [] then 0
    else
      var req := granted[|granted| - 1];
      WeightGranted(granted[..|granted| - 1], limitType, lo, hi)
      + if req.limitType == limitType && lo < req.now <= hi then req.weight else 0
  }

  /** What a rule counts of the requests granted in `(lo, hi]`: each once, or the weights of its type. */
  ghost function Counted(granted: seq<Request>, rule: Rule, lo: real, hi: real): nat {
    if rule.limitType == "RAW_REQUESTS" then CountGranted(granted, lo, hi)
    else WeightGranted(granted, rule.limitType, lo, hi)
  }

  lemma {:induction false} CountedIsLogged(granted: seq<Request>, rule: Rule, lo: real, hi: real)
    ensures Counted(granted, rule, lo, hi) == WeightBetween(LogOf(granted, rule), lo, hi)
    decreases |granted|
  {
    if granted != [] {
      var init, req := granted[..|granted| - 1], granted[|granted| - 1];
      CountedIsLogged(init, rule, lo, hi);
      var log := LogOf(init, rule);
      OneMoreEntry(log, Entry(req.now, 1), lo, hi);
      OneMoreEntry(log, Entry(req.now, req.weight), lo, hi);
    }
  }

  lemma {:induction false} TracksLater(w: WindowState, log: seq<Entry>, now: real, later: real)
    requires Tracks(w, log, now) && now <= later
    ensures Tracks(w, log, later)
  {
    var n :| TracksFrom(w, log, now, n);
    assert TracksFrom(w, log, later, n);
  }

  /** What a pass does to one window: nothing, evict it, or evict and charge it. */
  lemma {:induction false} PassAt(ws: seq<WindowState>, req: Request, i: nat)
    requires i < |ws|
    ensures var w := AfterPass(ws, req)[i];
            if !Applies(ws[i].rule, req.limitType) then w == ws[i]
            else if Verdict(ws, req).Granted? then
              w == Recorded(Evicted(ws[i], req.now), req.now, Cost(ws[i].rule, req.weight))
            else w == ws[i] || w == Evicted(ws[i], req.now)
  {
    EvictedKeepsRule(ws[i], req.now);
  }

  lemma {:induction false} EvictedKeepsRule(w: WindowState, now: real)
    ensures Evicted(w, now).rule == w.rule
    decreases |w.entries|
  {
    if w.entries != [] && w.entries[0].time <= Cutoff(w.rule, now) {
      EvictedKeepsRule(w.(entries := w.entries[1..], used := w.used - w.entries[0].weight), now);
    }
  }

  lemma {:induction false} LogAfter(ws: seq<WindowState>, granted: seq<Request>, req: Request, rule: Rule)
    ensures LogOf(GrantedAfter(ws, granted, req), rule) ==
            if Verdict(ws, req).Granted? && Applies(rule, req.limitType)
            then LogOf(granted, rule) + [Entry(req.now, Cost(rule, req.weight))]
            else LogOf(granted, rule)
  {
    assert (granted + [req])[..|granted|] == granted;
  }

  /** One pass, seen from one window. */
  lemma {:induction false} PassKeepsWindow(
      ws: seq<WindowState>, granted: seq<Request>, req: Request, i: nat)
    requires i < |ws| && AllOrderly(ws, req.now)
    requires Tracks(ws[i], LogOf(granted, ws[i].rule), req.now)
    requires WithinLimit(LogOf(granted, ws[i].rule), ws[i].rule)
    ensures var w := AfterPass(ws, req)[i];
            && w.rule == ws[i].rule
            && Tracks(w, LogOf(GrantedAfter(ws, granted, req), w.rule), req.now)
            && WithinLimit(LogOf(GrantedAfter(ws, granted, req), w.rule), w.rule)
  {
    var w, log := ws[i], LogOf(granted, ws[i].rule);
    PassAt(ws, req, i);
    LogAfter(ws, granted, req, w.rule);
    EvictedKeepsRule(w, req.now);
    var n :| TracksFrom(w, log, req.now, n);
    var m := EvictedTracks(w, log, req.now, n);
    if Verdict(ws, req).Granted? && Applies(w.rule, req.limitType) {
      GrantedIffAllAdmit(ws, req);
      assert Admits(w, req, req.now);
      RecordingTracks(Evicted(w, req.now), log, req.now, m, Cost(w.rule, req.weight));
      RecordingStaysWithinLimit(Evicted(w, req.now), log, req.now, m, Cost(w.rule, req.weight));
    }
  }

  ghost function ClockAfter(reqs: seq<Request>, default: real): real {
    if reqs == [] then default else reqs[|reqs| - 1].now
  }

  lemma {:induction false} RunInvariant(rules: seq<Rule>, reqs: seq<Request>, i: nat)
    requires NonDecreasing(reqs) && i < |rules|
    requires forall rule <- rules :: rule.limit >= 0
    ensures var trace := Run(rules, reqs);
            && |trace.windows| == |rules|
            && trace.windows[i].rule == rules[i]
            && (forall now: real | reqs == [] || reqs[|reqs| - 1].now <= now ::
                  Tracks(trace.windows[i], LogOf(trace.granted, rules[i]), now))
            && WithinLimit(LogOf(trace.granted, rules[i]), rules[i])
    decreases |reqs|
  {
    if reqs == [] {
      forall now: real ensures Tracks(WindowState(rules[i], [], 0), [], now) {
        assert TracksFrom(WindowState(rules[i], [], 0), [], now, 0);
      }
    } else {
      var init, req := reqs[..|reqs| - 1], reqs[|reqs| - 1];
      var before := Run(rules, init);
      assert init != [] ==> init[|init| - 1].now <= req.now;
      RunInvariant(rules, init, i);
      forall j | 0 <= j < |rules|
        ensures |before.windows| == |rules| && before.windows[j].rule == rules[j]
        ensures Tracks(before.windows[j], LogOf(before.granted, rules[j]), req.now)
        ensures WithinLimit(LogOf(before.granted, rules[j]), rules[j])
      {
        RunInvariant(rules, init, j);
      }
      forall w <- before.windows ensures Orderly(w, req.now) {
        var j :| 0 <= j < |before.windows| && before.windows[j] == w;
        TracksIsOrderly(w, LogOf(before.granted, rules[j]), req.now);
      }
      PassKeepsWindow(before.windows, before.granted, req, i);
      var trace := Run(rules, reqs);
      forall now: real | req.now <= now ensures Tracks(trace.windows[i], LogOf(trace.granted, rules[i]), now) {
        TracksLater(trace.windows[i], LogOf(trace.granted, rules[i]), req.now, now);
      }
    }
  }

  /**
   * However requests interleave, in the interval up to any instant the requests granted are within
   * every limit: their number within one on raw requests, their weights within one on their type.
   */
  lemma {:induction false} NoWindowIsEverExceeded(rules: seq<Rule>, reqs: seq<Request>, rule: Rule, t: real)
    requires NonDecreasing(reqs) && rule in rules
    requires forall r <- rules :: r.limit >= 0
    ensures var granted, from := Run(rules, reqs).granted, t - rule.intervalSeconds as real;
            if rule.limitType == "RAW_REQUESTS" then CountGranted(granted, from, t) <= rule.limit
            else WeightGranted(granted, rule.limitType, from, t) <= rule.limit
  {
    var i :| 0 <= i < |rules| && rules[i] == rule;
    RunInvariant(rules, reqs, i);
    CountedIsLogged(Run(rules, reqs).granted, rule, Cutoff(rule, t), t);
    assert WeightInWindow(LogOf(Run(rules, reqs).granted, rule), rule, t) <= rule.limit;
  }

  /** Of the requests granted so far, those in the interval up to `at` leave room for `req` under `rule`. */
  ghost predicate LeavesRoom(granted: seq<Request>, rule: Rule, req: Request, at: real) {
    var from := at - rule.intervalSeconds as real;
    if rule.limitType == "RAW_REQUESTS" then CountGranted(granted, from, at) + 1 <= rule.limit
    else rule.limitType == req.limitType ==>
           WeightGranted(granted, rule.limitType, from, at) + req.weight <= rule.limit
  }

  /** What a window holds of the last interval is what its rule counts of the grants in it. */
  lemma {:induction false} HeldIsCounted(w: WindowState, granted: seq<Request>, at: real)
    requires Tracks(w, LogOf(granted, w.rule), at)
    ensures Evicted(w, at).used == Counted(granted, w.rule, at - w.rule.intervalSeconds as real, at)
  {
    hide LogOf, Counted, WeightBetween, TotalWeight;
    var log := LogOf(granted, w.rule);
    var n :| TracksFrom(w, log, at, n);
    var m := EvictedTracks(w, log, at, n);
    hide TracksFrom;
    EvictedKeepsRule(w, at);
    UsedIsInReach(Evicted(w, at), log, at, m);
    CountedIsLogged(granted, w.rule, Cutoff(w.rule, at), at);
  }

  lemma {:induction false} AdmitsIsRoom(w: WindowState, granted: seq<Request>, req: Request, at: real)
    requires Tracks(w, LogOf(granted, w.rule), at)
    ensures Admits(w, req, at) <==> LeavesRoom(granted, w.rule, req, at)
  {
    HeldIsCounted(w, granted, at);
    EvictedKeepsRule(w, at);
    hide Tracks, Evicted, LogOf, CountGranted, WeightGranted;
  }

  lemma {:induction false} RunAdmitsIsRoom(rules: seq<Rule>, reqs: seq<Request>, req: Request, at: real)
    requires NonDecreasing(reqs) && (forall r <- reqs :: r.now <= at) && forall rule <- rules :: rule.limit >= 0
    ensures var trace := Run(rules, reqs);
            && AllOrderly(trace.windows, at)
            && (AllAdmit(trace.windows, req, at) <==> forall rule <- rules :: LeavesRoom(trace.granted, rule, req, at))
            && ((exists w <- trace.windows :: TooHeavy(w, req)) <==> exists rule <- rules :: Forbids(rule, req))
  {
    hide Admits, LeavesRoom, Tracks, Orderly, Forbids, WithinLimit;
    var trace := Run(rules, reqs);
    forall i | 0 <= i < |rules|
      ensures |trace.windows| == |rules| && trace.windows[i].rule == rules[i] && Orderly(trace.windows[i], at)
      ensures Admits(trace.windows[i], req, at) <==> LeavesRoom(trace.granted, rules[i], req, at)
      ensures TooHeavy(trace.windows[i], req) <==> Forbids(rules[i], req)
    {
      RunInvariant(rules, reqs, i);
      assert Tracks(trace.windows[i], LogOf(trace.granted, rules[i]), at);
      AdmitsIsRoom(trace.windows[i], trace.granted, req, at);
      TracksIsOrderly(trace.windows[i], LogOf(trace.granted, rules[i]), at);
    }
    RunHasItsRules(rules, reqs);
    forall rule <- rules | Forbids(rule, req) ensures exists w <- trace.windows :: TooHeavy(w, req) {
      var i :| 0 <= i < |rules| && rules[i] == rule;
      assert trace.windows[i] in trace.windows;
    }
  }

  lemma {:induction false} RunHasItsRules(rules: seq<Rule>, reqs: seq<Request>)
    ensures |Run(rules, reqs).windows| == |rules|
    decreases |reqs|
  {
    if reqs != [] {
      RunHasItsRules(rules, reqs[..|reqs| - 1]);
    }
  }

  /**
   * What a pass answers follows from what has been granted: never, exactly if the request is too heavy
   * for a rule on its type or a rule lets no request at all through; else at once exactly if every
   * rule leaves room, and otherwise after the least delay with which every rule does.
   */
  lemma {:induction false} VerdictFollowsWhatWasGranted(rules: seq<Rule>, reqs: seq<Request>, req: Request, d: real)
    requires NonDecreasing(reqs) && (forall r <- reqs :: r.now <= req.now) && d >= 0.0
    requires forall rule <- rules :: rule.limit >= 0
    ensures var trace := Run(rules, reqs);
            var verdict := Verdict(trace.windows, req);
            && (verdict.Impossible? <==> exists rule <- rules :: Forbids(rule, req))
            && (verdict.Granted? <==>
                !verdict.Impossible? && forall rule <- rules :: LeavesRoom(trace.granted, rule, req, req.now))
            && (verdict.Throttled? ==>
                  && verdict.delay > 0.0
                  && ((forall rule <- rules :: LeavesRoom(trace.granted, rule, req, req.now + d))
                      <==> d >= verdict.delay))
  {
    hide Run, Verdict, LeavesRoom, Forbids, Orderly, Admits, TooHeavy;
    RunAdmitsIsRoom(rules, reqs, req, req.now);
    RunAdmitsIsRoom(rules, reqs, req, req.now + d);
    VerdictIsExact(Run(rules, reqs).windows, req, d);
    VerdictIsExact(Run(rules, reqs).windows, req, 0.0);
  }

  /**
   * Recording is all or nothing: each window holds the grants that apply to it and nothing else,
   * less an expired head, and its running total is their exact sum.
   */
  lemma {:induction false} EveryGrantIsRecordedEverywhere(rules: seq<Rule>, reqs: seq<Request>, i: nat)
    returns (expired: nat)
    requires NonDecreasing(reqs) && i < |rules|
    requires forall rule <- rules :: rule.limit >= 0
    ensures var trace := Run(rules, reqs);
            var log := LogOf(trace.granted, rules[i]);
            && |trace.windows| == |rules|
            && expired <= |log|
            && trace.windows[i].entries == log[expired..]
            && trace.windows[i].used == TotalWeight(log[expired..])
            && forall k :: 0 <= k < expired ==> log[k].time <= Cutoff(rules[i], ClockAfter(reqs, log[k].time))
  {
    RunInvariant(rules, reqs, i);
    var trace := Run(rules, reqs);
    var log := LogOf(trace.granted, rules[i]);
    var now := ClockAfter(reqs, 0.0);
    assert Tracks(trace.windows[i], log, now);
    expired :| TracksFrom(trace.windows[i], log, now, expired);
    if reqs == [] {
      assert log == [];
    }
  }

  // --- Which rules are enforced ----------------------------------------

  /** Every usable entry of a payload gives its rule, in order, and no other entry gives one. */
  lemma {:induction false} EachUsableEntryIsARule(earlier: seq<RawLimit>, later: seq<RawLimit>, entry: RawLimit)
    ensures UsableRules([]) == []
    ensures UsableRules([entry])
            == match FromExchangeInfo(entry) case None => [] case Some(rule) => [rule]
    ensures UsableRules(earlier + later) == UsableRules(earlier) + UsableRules(later)
    decreases |later|
  {
    assert [entry][..0] == [];
    if later == [] {
      assert earlier + later == earlier;
    } else {
      var init, last := later[..|later| - 1], later[|later| - 1];
      EachUsableEntryIsARule(earlier, init, entry);
      assert (earlier + later)[..|earlier + later| - 1] == earlier + init;
      hide FromExchangeInfo;
    }
  }

  ghost predicate DistinctKeys(rules: seq<Rule>) {
    forall i, j :: 0 <= i < j < |rules| ==> !SameKey(rules[i], rules[j])
  }

  lemma {:induction false} PutRuleReplaces(rules: seq<Rule>, rule: Rule)
    requires DistinctKeys(rules)
    ensures DistinctKeys(PutRule(rules, rule))
    ensures forall r :: r in PutRule(rules, rule) <==> r == rule || (r in rules && !SameKey(r, rule))
  {
    if rules != [] {
      var rest := rules[1..];
      assert rules == [rules[0]] + rest;
      assert forall r <- rest :: !SameKey(rules[0], r);
      if !SameKey(rules[0], rule) {
        PutRuleReplaces(rest, rule);
        var put := PutRule(rest, rule);
        forall r <- put ensures !SameKey(rules[0], r) {
          assert r == rule || r in rest;
        }
      }
    }
  }

  ghost predicate LastOfItsKey(rules: seq<Rule>, i: int, rule: Rule) {
    0 <= i < |rules| && rules[i] == rule && forall j :: i < j < |rules| ==> !SameKey(rules[j], rule)
  }

  lemma {:induction false} LastAmongMore(init: seq<Rule>, last: Rule, rule: Rule)
    ensures (exists i :: LastOfItsKey(init + [last], i, rule))
            <==> rule == last || (!SameKey(last, rule) && exists i :: LastOfItsKey(init, i, rule))
  {
    var rules := init + [last];
    assert rules[|init|] == last && forall j :: 0 <= j < |init| ==> rules[j] == init[j];
    if rule == last {
      assert LastOfItsKey(rules, |init|, rule);
    } else {
      forall i ensures LastOfItsKey(rules, i, rule) <==> !SameKey(last, rule) && LastOfItsKey(init, i, rule) {
        if LastOfItsKey(rules, i, rule) {
          assert !SameKey(rules[|init|], rule);
          forall j | i < j < |init| ensures !SameKey(init[j], rule) {
            assert !SameKey(rules[j], rule);
          }
        }
      }
    }
  }

  /** One window a key: of several rules with one type and interval, the last one given is enforced. */
  lemma {:induction false} TheLastRuleOfAKeyIsEnforced(rules: seq<Rule>, rule: Rule)
    ensures DistinctKeys(Installed(rules))
    ensures rule in Installed(rules) <==> exists i :: LastOfItsKey(rules, i, rule)
    decreases |rules|
  {
    if rules != [] {
      var init, last := rules[..|rules| - 1], rules[|rules| - 1];
      TheLastRuleOfAKeyIsEnforced(init, rule);
      hide PutRule, DistinctKeys, LastOfItsKey;
      assert rules == init + [last];
      PutRuleReplaces(Installed(init), last);
      LastAmongMore(init, last, rule);
    }
  }
}
