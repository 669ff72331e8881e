/** Weighted sliding windows as values: `backend/app/binance/rate_limiter.py`. */
module RateLimits {
  import opened Wrappers

  datatype Rule = Rule(limitType: string, intervalSeconds: int, limit: int)

  datatype Entry = Entry(time: real, weight: nat)

  /** How long to wait before retrying; `Never` is the source's infinity. */
  datatype Delay = Never | Seconds(value: real)

  datatype Outcome = Granted | Throttled(delay: real) | Impossible(rule: Rule)

  datatype Request = Request(now: real, weight: nat, limitType: string)

  const RAW_REQUESTS := "RAW_REQUESTS"

  // --- One window -----------------------------------------------------

  datatype WindowState = WindowState(rule: Rule, entries: seq<Entry>, used: int)

  function Cutoff(rule: Rule, now: real): real {
    now - rule.intervalSeconds as real
  }

  function TotalWeight(entries: seq<Entry>): nat {
    if entries == [] then 0 else entries[0].weight + TotalWeight(entries[1..])
  }

  /** The window once its expired head has been removed. */
  function Evicted(w: WindowState, now: real): WindowState
    decreases |w.entries|
  {
    if w.entries != [] && w.entries[0].time <= Cutoff(w.rule, now) then
      Evicted(w.(entries := w.entries[1..], used := w.used - w.entries[0].weight), now)
    else
      w
  }

  /** The first entry at which the running total of weights reaches `needed`. */
  function FreeingEntry(entries: seq<Entry>, needed: int): Option<Entry> {
    if entries == [] then None
    else if entries[0].weight >= needed then Some(entries[0])
    else FreeingEntry(entries[1..], needed - entries[0].weight)
  }

  /** The wait reported by an already evicted window. */
  function WaitOf(w: WindowState, now: real, weight: nat): Delay {
    if w.used + weight <= w.rule.limit then
      Seconds(0.0)
    else
      match FreeingEntry(w.entries, w.used + weight - w.rule.limit)
      case None => Never
      case Some(entry) =>
        var left := entry.time + w.rule.intervalSeconds as real - now;
        Seconds(if left > 0.0 then left else 0.0)
  }

  function Recorded(w: WindowState, now: real, weight: nat): WindowState {
    w.(entries := w.entries + [Entry(now, weight)], used := w.used + weight)
  }

  // --- All windows ----------------------------------------------------

  function Cost(rule: Rule, weight: nat): nat {
    if rule.limitType == RAW_REQUESTS then 1 else weight
  }

  predicate Applies(rule: Rule, limitType: string) {
    rule.limitType == limitType || rule.limitType == RAW_REQUESTS
  }

  /** The wait window `w` asks of a request, had it been evicted at that moment. */
  function WindowWait(w: WindowState, req: Request): Delay {
    if Applies(w.rule, req.limitType) then
      WaitOf(Evicted(w, req.now), req.now, Cost(w.rule, req.weight))
    else
      Seconds(0.0)
  }

  function Max(a: real, b: real): real {
    if a >= b then a else b
  }

  /** The longest wait over `ws`, or `Never` with the first window that cannot ever fit it. */
  function Verdict(ws: seq<WindowState>, req: Request): Outcome {
    if ws == [] then
      Granted
    else
      match Verdict(ws[..|ws| - 1], req)
      case Impossible(rule) => Impossible(rule)
      case earlier =>
        match WindowWait(ws[|ws| - 1], req)
        case Never => Impossible(ws[|ws| - 1].rule)
        case Seconds(d) =>
          var longest := Max(if earlier.Throttled? then earlier.delay else 0.0, d);
          if longest <= 0.0 then Granted else Throttled(longest)
  }

  /** How many windows were examined: all of them unless one can never fit the request. */
  function Examined(ws: seq<WindowState>, req: Request): (n: nat)
    ensures n <= |ws|
    ensures n == |ws| || Verdict(ws, req).Impossible?
  {
    if ws == [] then 0
    else if Verdict(ws[..|ws| - 1], req).Impossible? then Examined(ws[..|ws| - 1], req)
    else |ws|
  }

  /** The windows once the first `n` have been measured, which evicts the applicable ones. */
  function Measured(ws: seq<WindowState>, req: Request, n: nat): (after: seq<WindowState>)
    ensures |after| == |ws|
  {
    seq(|ws|, i requires 0 <= i < |ws| =>
      if i < n && Applies(ws[i].rule, req.limitType) then Evicted(ws[i], req.now) else ws[i])
  }

  function Charged(w: WindowState, req: Request): WindowState {
    if Applies(w.rule, req.limitType) then Recorded(w, req.now, Cost(w.rule, req.weight)) else w
  }

  /** The windows once the first `n` have been charged for a granted request. */
  function ChargedUpTo(ws: seq<WindowState>, req: Request, n: nat): (after: seq<WindowState>)
    ensures |after| == |ws|
  {
    seq(|ws|, i requires 0 <= i < |ws| => if i < n then Charged(ws[i], req) else ws[i])
  }

  /** One pass under the lock: evict and measure every applicable window, then record or refuse. */
  function AfterPass(ws: seq<WindowState>, req: Request): (after: seq<WindowState>)
    ensures |after| == |ws|
  {
    var measured := Measured(ws, req, Examined(ws, req));
    if Verdict(ws, req).Granted? then ChargedUpTo(measured, req, |ws|) else measured
  }

  // --- Rules ----------------------------------------------------------

  /** One `rateLimits` entry; a field is missing when absent or not of the expected kind. */
  datatype RawLimit = RawLimit(
    limitType: Option<string>, interval: Option<string>, intervalNum: Option<int>, limit: Option<int>)

  function IntervalSeconds(interval: string): Option<int> {
    match interval
    case "SECOND" => Some(1)
    case "MINUTE" => Some(60)
    case "HOUR" => Some(3600)
    case "DAY" => Some(86400)
    case _ => None
  }

  /** Builds a rule, or nothing when the entry is unusable: a limit is never guessed. */
  function FromExchangeInfo(entry: RawLimit): (rule: Option<Rule>)
    ensures rule.Some? ==> rule.value.intervalSeconds > 0 && rule.value.limit > 0
    ensures rule.Some? <==>
            && entry.limitType.Some? && entry.intervalNum.Some? && entry.limit.Some?
            && entry.interval.Some? && entry.interval.value in {"SECOND", "MINUTE", "HOUR", "DAY"}
            && entry.intervalNum.value > 0 && entry.limit.value > 0
    ensures rule.Some? ==>
              && rule.value.limitType == entry.limitType.value && rule.value.limit == entry.limit.value
              && rule.value.intervalSeconds
                 == entry.intervalNum.value * (match entry.interval.value
                                               case "SECOND" => 1
                                               case "MINUTE" => 60
                                               case "HOUR" => 3600
                                               case _ => 86400)
  {
    if entry.interval.None? || entry.intervalNum.None? || entry.limit.None? || entry.limitType.None? then
      None
    else
      match IntervalSeconds(entry.interval.value)
      case None => None
      case Some(seconds) =>
        if entry.intervalNum.value <= 0 || entry.limit.value <= 0 then
          None
        else
          Some(Rule(entry.limitType.value, seconds * entry.intervalNum.value, entry.limit.value))
  }

  function UsableRules(entries: seq<RawLimit>): (rules: seq<Rule>)
    ensures forall rule <- rules :: rule.intervalSeconds > 0 && rule.limit > 0
  {
    if entries == [] then []
    else
      var earlier := UsableRules(entries[..|entries| - 1]);
      match FromExchangeInfo(entries[|entries| - 1])
      case None => earlier
      case Some(rule) => earlier + [rule]
  }

  predicate SameKey(a: Rule, b: Rule) {
    a.limitType == b.limitType && a.intervalSeconds == b.intervalSeconds
  }

  /** A dictionary keyed by type and interval: a repeated key keeps its place, with the new rule. */
  function PutRule(rules: seq<Rule>, rule: Rule): (r: seq<Rule>)
    ensures |r| <= |rules| + 1
  {
    if rules == [] then [rule]
    else if SameKey(rules[0], rule) then [rule] + rules[1..]
    else [rules[0]] + PutRule(rules[1..], rule)
  }

  function Installed(rules: seq<Rule>): seq<Rule> {
    if rules == [] then [] else PutRule(Installed(rules[..|rules| - 1]), rules[|rules| - 1])
  }

  function Fresh(rules: seq<Rule>): seq<WindowState> {
    seq(|rules|, i requires 0 <= i < |rules| => WindowState(rules[i], [], 0))
  }
}
