/** The limiter itself: `backend/app/binance/rate_limiter.py`. */
module RateLimiter {
  import opened Wrappers
  import opened RateLimits
  import opened RateLimitProofs

  class Window {
    const rule: Rule
    var entries: seq<Entry>
    var used: int

    constructor (rule: Rule)
      ensures State() == WindowState(rule, [], 0)
    {
      this.rule, entries, used := rule, [], 0;
    }

    function State(): WindowState
      reads this
    {
      WindowState(rule, entries, used)
    }

    method Evict(now: real)
      modifies this
      ensures State() == Evicted(old(State()), now)
    {
      var cutoff := now - rule.intervalSeconds as real;
      while entries != [] && entries[0].time <= cutoff
        invariant Evicted(State(), now) == Evicted(old(State()), now)
        decreases |entries|
      {
        var weight := entries[0].weight;
        entries := entries[1..];
        used := used - weight;
      }
    }

    method WaitSeconds(now: real, weight: nat) returns (wait: Delay)
      modifies this
      ensures State() == Evicted(old(State()), now)
      ensures wait == WaitOf(State(), now, weight)
    {
      Evict(now);
      if used + weight <= rule.limit {
        return Seconds(0.0);
      }
      var needed := used + weight - rule.limit;
      var freed := 0;
      for i := 0 to |entries|
        invariant FreeingEntry(entries, needed) == FreeingEntry(entries[i..], needed - freed)
      {
        assert entries[i..][1..] == entries[i + 1..];
        freed := freed + entries[i].weight;
        if freed >= needed {
          var left := entries[i].time + rule.intervalSeconds as real - now;
          return Seconds(if left > 0.0 then left else 0.0);
        }
      }
      return Never;
    }

    method Record(now: real, weight: nat)
      modifies this
      ensures State() == Recorded(old(State()), now, weight)
    {
      entries := entries + [Entry(now, weight)];
      used := used + weight;
    }
  }

  class RateLimiter {
    var windows: seq<Window>

    ghost predicate Valid()
      reads this
    {
      forall i, j :: 0 <= i < j < |windows| ==> windows[i] != windows[j]
    }

    function States(): (s: seq<WindowState>)
      reads this, windows
      ensures |s| == |windows|
    {
      seq(|windows|, i requires 0 <= i < |windows| reads this, windows => windows[i].State())
    }

    constructor (rules: seq<Rule>)
      ensures Valid() && fresh(windows)
      ensures States() == Fresh(Installed(rules))
    {
      windows := [];
      new;
      Install(rules);
    }

    /** Replaces every window; what the old ones had recorded is forgotten. */
    method Install(rules: seq<Rule>)
      modifies this
      ensures Valid() && fresh(windows)
      ensures States() == Fresh(Installed(rules))
    {
      var table: seq<Rule> := [];
      for i := 0 to |rules|
        invariant table == Installed(rules[..i])
      {
        assert rules[..i + 1][..i] == rules[..i];
        table := PutRule(table, rules[i]);
      }
      assert rules[..|rules|] == rules;
      windows := [];
      for i := 0 to |table|
        invariant |windows| == i && Valid() && fresh(windows)
        invariant forall j :: 0 <= j < i ==> windows[j].State() == WindowState(table[j], [], 0)
      {
        var window := new Window(table[i]);
        windows := windows + [window];
      }
    }

    /** The first loop of a pass: evict and measure, stopping at a window that can never fit. */
    method Measure(req: Request) returns (outcome: Outcome)
      requires Valid()
      modifies windows
      ensures Valid() && windows == old(windows)
      ensures outcome == Verdict(old(States()), req)
      ensures States() == Measured(old(States()), req, Examined(old(States()), req))
    {
      hide WindowWait;
      ghost var before := States();
      var delay := 0.0;
      assert States() == Measured(before, req, 0);
      assert Verdict(before[..0], req) == Granted && Examined(before[..0], req) == 0;
      hide Verdict, Examined;
      for i := 0 to |windows|
        invariant Valid() && windows == old(windows)
        invariant Verdict(before[..i], req) == if delay <= 0.0 then Granted else Throttled(delay)
        invariant delay >= 0.0
        invariant Examined(before[..i], req) == i
        invariant States() == Measured(before, req, i)
      {
        MeasuringOneMore(before, req, i);
        var window := windows[i];
        assert window.State() == States()[i] == before[i];
        WaitIfItApplies(before[i], req);
        if Applies(window.rule, req.limitType) {
          var wait := window.WaitSeconds(req.now, Cost(window.rule, req.weight));
          MeasuredStep(before, States(), req, i);
          if wait.Never? {
            ImpossibleAt(before, req, i);
            return Impossible(window.rule);
          }
          delay := Max(delay, wait.value);
        } else {
          MeasuredStep(before, States(), req, i);
        }
      }
      assert before[..|windows|] == before;
      return if delay > 0.0 then Throttled(delay) else Granted;
    }

    /** One pass of `acquire` under its lock, at the clock reading in `req`. */
    method Pass(req: Request) returns (outcome: Outcome)
      requires Valid()
      modifies windows
      ensures Valid() && windows == old(windows)
      ensures outcome == Verdict(old(States()), req)
      ensures States() == AfterPass(old(States()), req)
    {
      outcome := Measure(req);
      if outcome.Granted? {
        ghost var measured := States();
        assert States() == ChargedUpTo(measured, req, 0);
        for i := 0 to |windows|
          invariant Valid() && windows == old(windows)
          invariant States() == ChargedUpTo(measured, req, i)
        {
          var window := windows[i];
          assert window.State() == States()[i] == measured[i];
          if Applies(window.rule, req.limitType) {
            window.Record(req.now, Cost(window.rule, req.weight));
          }
          ChargedStep(measured, States(), req, i);
        }
      }
    }

    /** Live limits replace the rules; an unusable payload leaves everything as it was. */
    method UpdateFromExchangeInfo(payload: Option<seq<RawLimit>>) returns (replaced: bool)
      requires Valid()
      modifies this
      ensures replaced <==> payload.Some? && UsableRules(payload.value) != []
      ensures replaced ==> Valid() && fresh(windows) && States() == Fresh(Installed(UsableRules(payload.value)))
      ensures !replaced ==> windows == old(windows) && States() == old(States())
    {
      if payload.None? {
        return false;
      }
      var rules: seq<Rule> := [];
      for i := 0 to |payload.value|
        invariant windows == old(windows) && States() == old(States())
        invariant rules == UsableRules(payload.value[..i])
      {
        assert payload.value[..i + 1][..i] == payload.value[..i];
        var rule := FromExchangeInfo(payload.value[i]);
        if rule.Some? {
          rules := rules + [rule.value];
        }
      }
      assert payload.value[..|payload.value|] == payload.value;
      if rules == [] {
        return false;
      }
      Install(rules);
      return true;
    }

    /** The passes of other callers, one after another. */
    method PassAll(reqs: seq<Request>)
      requires Valid()
      modifies windows
      ensures Valid() && windows == old(windows)
      ensures States() == RunPasses(old(States()), reqs)
    {
      hide AfterPass, Verdict;
      assert reqs[0..] == reqs;
      for i := 0 to |reqs|
        invariant Valid() && windows == old(windows)
        invariant RunPasses(States(), reqs[i..]) == RunPasses(old(States()), reqs)
      {
        assert reqs[i..][0] == reqs[i] && reqs[i..][1..] == reqs[i + 1..];
        var _ := Pass(reqs[i]);
      }
    }

    /**
     * The retry loop of `acquire` among other callers. It ends at the first try that is not throttled,
     * and there is one unless others are let in during every one of its sleeps: `free` is one they
     * are not. Every sleep before the last was contended.
     */
    method Acquire(a: Attempt, ghost free: nat) returns (outcome: Outcome, at: real, sleeps: nat)
      requires Valid() && AllOrderly(States(), a.start) && a.Valid()
      requires !Contended(States(), a, free)
      modifies windows
      ensures Valid() && windows == old(windows)
      ensures ThrottledUntil(old(States()), a, sleeps)
      ensures var last := TryOf(old(States()), a, sleeps);
              && outcome == VerdictOn(last, a) && !outcome.Throttled?
              && at == last.at && States() == AfterPass(last.ws, a.Ask(last.at))
      ensures outcome.Impossible? <==> exists w <- old(States()) :: TooHeavy(w, a.Ask(a.start))
      ensures outcome.Impossible? ==> sleeps == 0
      ensures sleeps <= free + 1 && forall k :: 0 <= k < sleeps - 1 ==> Contended(old(States()), a, k)
    {
      hide Verdict, AfterPass, RunPasses, Orderly, TooHeavy, SameRules, Contended, NoneGranted;
      ghost var before := States();
      at, sleeps := a.start, 0;
      while true
        invariant Valid() && windows == old(windows)
        invariant Moment(States(), at) == TryOf(before, a, sleeps)
        invariant ThrottledUntil(before, a, sleeps)
        invariant sleeps <= free + 1
        decreases free + 1 - sleeps
      {
        WeightIsJudgedAtOnce(before, a, sleeps);
        ghost var m := Moment(States(), at);
        outcome := Pass(a.Ask(at));
        if !outcome.Throttled? {
          SleepsAreContended(before, a, sleeps);
          WeightIsJudgedAtOnce(before, a, 0);
          return;
        }
        var wake := at + outcome.delay + a.late(sleeps);
        PassAll(a.others(sleeps, at, wake));
        assert Moment(States(), wake) == NextTry(m, a, sleeps);
        assert ThrottledUntil(before, a, sleeps + 1);
        if sleeps == free + 1 {
          EverySleepButOneIsContended(before, a, sleeps + 1, free);
        }
        at, sleeps := wake, sleeps + 1;
      }
    }
  }

  lemma {:induction false} SleepsAreContended(ws: seq<WindowState>, a: Attempt, n: nat)
    requires a.Valid() && AllOrderly(ws, a.start) && ThrottledUntil(ws, a, n)
    ensures forall k :: 0 <= k < n - 1 ==> Contended(ws, a, k)
  {
    forall k | 0 <= k < n - 1 ensures Contended(ws, a, k) {
      EverySleepButOneIsContended(ws, a, n, k);
    }
  }

  lemma {:induction false} WaitIfItApplies(w: WindowState, req: Request)
    ensures WindowWait(w, req) == if Applies(w.rule, req.limitType)
                                  then WaitOf(Evicted(w, req.now), req.now, Cost(w.rule, req.weight)) else Seconds(0.0)
  {
  }
}
