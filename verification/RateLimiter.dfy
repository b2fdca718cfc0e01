/**
 The token-budget limiter. It keeps one counter per current UTC day and hour; the budget
 check and the recording of a call's tokens are separate critical sections.
 Time is nanoseconds; a window key is the number of the day or hour.
 */
module RateLimiter {
  import opened Prelude

  const HOUR := 3_600_000_000_000
  const DAY := 24 * HOUR

  /** A zero or negative budget means unlimited. */
  datatype Budgets = Budgets(daily: int, hourly: int)

  datatype Window = Window(tokens: int, key: Option<int>)

  datatype Limiter = Limiter(daily: Window, hourly: Window)

  const FRESH := Limiter(Window(0, None), Window(0, None))

  predicate WindowFull(w: Window, slot: int, budget: int) {
    0 < budget && w.key == Some(slot) && budget <= w.tokens
  }

  predicate OverBudget(cfg: Budgets, l: Limiter, now: int) {
    WindowFull(l.daily, now / DAY, cfg.daily) || WindowFull(l.hourly, now / HOUR, cfg.hourly)
  }

  function Bump(w: Window, slot: int, tokens: int): Window {
    if w.key == Some(slot) then w.(tokens := w.tokens + tokens) else Window(tokens, Some(slot))
  }

  function AfterRecord(l: Limiter, tokens: int, now: int): Limiter {
    if tokens <= 0 then l else Limiter(Bump(l.daily, now / DAY, tokens), Bump(l.hourly, now / HOUR, tokens))
  }

  function UsedNow(w: Window, slot: int): int {
    if w.key == Some(slot) then w.tokens else 0
  }

  /** The limiter's fields, and its methods as written. */
  class RateLimiter {
    const cfg: Budgets
    var daily: Window
    var hourly: Window

    function State(): Limiter
      reads this
    {
      Limiter(daily, hourly)
    }

    constructor (cfg: Budgets)
      ensures this.cfg == cfg && State() == FRESH
    {
      this.cfg := cfg;
      daily, hourly := Window(0, None), Window(0, None);
    }

    method IsOverBudget(now: int) returns (over: bool)
      ensures over == OverBudget(cfg, State(), now)
    {
      if cfg.daily > 0 {
        var dayKey := now / DAY;
        if daily.key == Some(dayKey) && daily.tokens >= cfg.daily {
          return true;
        }
      }
      if cfg.hourly > 0 {
        var hourKey := now / HOUR;
        if hourly.key == Some(hourKey) && hourly.tokens >= cfg.hourly {
          return true;
        }
      }
      return false;
    }

    method RecordTokens(tokens: int, now: int)
      modifies this
      ensures State() == AfterRecord(old(State()), tokens, now)
    {
      if tokens <= 0 {
        return;
      }
      var dayKey := now / DAY;
      if daily.key != Some(dayKey) {
        daily := Window(0, Some(dayKey));
      }
      daily := daily.(tokens := daily.tokens + tokens);
      var hourKey := now / HOUR;
      if hourly.key != Some(hourKey) {
        hourly := Window(0, Some(hourKey));
      }
      hourly := hourly.(tokens := hourly.tokens + tokens);
    }

    method TokenUsage(now: int) returns (dailyUsed: int, hourlyUsed: int)
      ensures dailyUsed == UsedNow(daily, now / DAY) && hourlyUsed == UsedNow(hourly, now / HOUR)
    {
      dailyUsed, hourlyUsed := 0, 0;
      if daily.key == Some(now / DAY) {
        dailyUsed := daily.tokens;
      }
      if hourly.key == Some(now / HOUR) {
        hourlyUsed := hourly.tokens;
      }
    }
  }

  /** In nanoseconds: an hour is 3600 seconds, and a day has 24 of them. */
  lemma ClockUnits(t: int)
    ensures t / HOUR == t / 3_600_000_000_000 && t / DAY == t / 86_400_000_000_000
    ensures t / DAY == t / HOUR / 24
  {
  }

  // ----- the full log -----

  datatype Entry = Entry(time: int, tokens: int)

  function SlotWeight(e: Entry, period: int, slot: int): int
    requires 0 < period
  {
    if e.time / period == slot && 0 < e.tokens then e.tokens else 0
  }

  /** The positive tokens recorded in one slot of the calendar. */
  function Used(log: seq<Entry>, period: int, slot: int): (n: int)
    requires 0 < period
    ensures 0 <= n
  {
    if log == [] then 0 else Used(log[..|log| - 1], period, slot) + SlotWeight(log[|log| - 1], period, slot)
  }

  ghost predicate Ordered(log: seq<Entry>, now: int) {
    && (forall i, j :: 0 <= i < j < |log| ==> log[i].time <= log[j].time)
    && (forall i :: 0 <= i < |log| ==> log[i].time <= now)
  }

  /** The limiter after recording a whole log. */
  function Replay(log: seq<Entry>): Limiter {
    if log == [] then FRESH
    else AfterRecord(Replay(log[..|log| - 1]), log[|log| - 1].tokens, log[|log| - 1].time)
  }

  /** A window counter holds the log's total for its slot, and no later slot has any tokens. */
  ghost predicate Tracks(w: Window, log: seq<Entry>, period: int)
    requires 0 < period
  {
    match w.key
    case None => w.tokens == 0 && forall slot :: Used(log, period, slot) == 0
    case Some(k) => w.tokens == Used(log, period, k) && forall slot :: k < slot ==> Used(log, period, slot) == 0
  }

  lemma SlotMonotone(a: int, b: int, period: int)
    requires 0 < period && a <= b
    ensures a / period <= b / period
  {
    var x, y := a / period, b / period;
    assert a == x * period + a % period && b == y * period + b % period;
    assert (y + 1) * period == y * period + period;
    if y < x {
      ScaleSlots(y + 1, x, period);
    }
  }

  lemma ScaleSlots(x: int, y: int, period: int)
    requires x <= y && 0 < period
    ensures x * period <= y * period
  {
  }

  lemma UsedSnoc(log: seq<Entry>, e: Entry, period: int, slot: int)
    requires 0 < period
    ensures Used(log + [e], period, slot) == Used(log, period, slot) + SlotWeight(e, period, slot)
  {
    assert (log + [e])[..|log|] == log;
  }

  /** The slot of a recorded window lies in the past. */
  ghost predicate KeyInPast(w: Window, now: int, period: int)
    requires 0 < period
  {
    w.key.Some? ==> w.key.value <= now / period
  }

  lemma BumpTracks(w: Window, log: seq<Entry>, e: Entry, period: int)
    requires 0 < period && 0 < e.tokens && Tracks(w, log, period) && KeyInPast(w, e.time, period)
    ensures Tracks(Bump(w, e.time / period, e.tokens), log + [e], period)
  {
    forall slot ensures Used(log + [e], period, slot) == Used(log, period, slot) + SlotWeight(e, period, slot) {
      UsedSnoc(log, e, period, slot);
    }
  }

  lemma SkipTracks(w: Window, log: seq<Entry>, e: Entry, period: int)
    requires 0 < period && e.tokens <= 0 && Tracks(w, log, period)
    ensures Tracks(w, log + [e], period)
  {
    forall slot ensures Used(log + [e], period, slot) == Used(log, period, slot) {
      UsedSnoc(log, e, period, slot);
    }
  }

  lemma {:induction false} ReplayTracks(log: seq<Entry>, now: int)
    requires Ordered(log, now)
    ensures Tracks(Replay(log).daily, log, DAY) && Tracks(Replay(log).hourly, log, HOUR)
    ensures KeyInPast(Replay(log).daily, now, DAY) && KeyInPast(Replay(log).hourly, now, HOUR)
  {
    if log != [] {
      var init, e := log[..|log| - 1], log[|log| - 1];
      ReplayTracks(init, e.time);
      assert log == init + [e];
      SlotMonotone(e.time, now, DAY);
      SlotMonotone(e.time, now, HOUR);
      if 0 < e.tokens {
        BumpTracks(Replay(init).daily, init, e, DAY);
        BumpTracks(Replay(init).hourly, init, e, HOUR);
      } else {
        SkipTracks(Replay(init).daily, init, e, DAY);
        SkipTracks(Replay(init).hourly, init, e, HOUR);
      }
    }
  }

  /** With a clock that never goes back, the two counters report the log's totals for the current day and hour. */
  lemma UsageMatchesLog(log: seq<Entry>, now: int)
    requires Ordered(log, now)
    ensures UsedNow(Replay(log).daily, now / DAY) == Used(log, DAY, now / DAY)
    ensures UsedNow(Replay(log).hourly, now / HOUR) == Used(log, HOUR, now / HOUR)
    ensures UsedNow(Replay(log).hourly, now / HOUR) <= UsedNow(Replay(log).daily, now / DAY)
  {
    ReplayTracks(log, now);
    HoursWithinDays(log, now / HOUR);
    HourInDay(now);
  }

  lemma HourInDay(t: int)
    ensures t / HOUR / 24 == t / DAY
  {
  }

  /** An hour belongs to one day, so it cannot have used more. */
  lemma {:induction false} HoursWithinDays(log: seq<Entry>, hour: int)
    ensures Used(log, HOUR, hour) <= Used(log, DAY, hour / 24)
  {
    if log != [] {
      HoursWithinDays(log[..|log| - 1], hour);
      HourInDay(log[|log| - 1].time);
    }
  }

  // ----- concurrent callers -----

  /** `inflight` callers passed the check and have not returned from the primary analyzer. */
  datatype State = State(log: seq<Entry>, clock: int, inflight: nat)

  datatype Step =
    | Admit(now: int)               // isOverBudget said no
    | Deny(now: int)                // isOverBudget said yes: the fallback runs
    | Finish(tokens: int, now: int) // the primary succeeded: recordTokens
    | Fail(now: int)                // the primary failed: nothing is recorded

  /** At most `callers` calls at once, each reporting at most `most` tokens. */
  datatype Load = Load(cfg: Budgets, callers: nat, most: nat)

  predicate Enabled(load: Load, s: State, step: Step) {
    && s.clock <= step.now
    && match step
       case Admit(now) => s.inflight < load.callers && !OverBudget(load.cfg, Replay(s.log), now)
       case Deny(now) => OverBudget(load.cfg, Replay(s.log), now)
       case Finish(tokens, _) => 0 < s.inflight && tokens <= load.most
       case Fail(_) => 0 < s.inflight
  }

  function Next(load: Load, s: State, step: Step): State
    requires Enabled(load, s, step)
  {
    match step
    case Admit(now) => s.(clock := now, inflight := s.inflight + 1)
    case Deny(now) => s.(clock := now)
    case Finish(tokens, now) => State(s.log + [Entry(now, tokens)], now, s.inflight - 1)
    case Fail(now) => s.(clock := now, inflight := s.inflight - 1)
  }

  function Run(load: Load, start: int, steps: seq<Step>): Option<State> {
    if steps == [] then Some(State([], start, 0))
    else
      var before, step := Run(load, start, steps[..|steps| - 1]), steps[|steps| - 1];
      if before.Some? && Enabled(load, before.value, step) then Some(Next(load, before.value, step)) else None
  }

  /** The most a slot can ever hold: the check lets calls in up to one token short of the budget. */
  function Ceiling(budget: int, load: Load): int {
    budget - 1 + load.callers * load.most
  }

  /** What the calls in flight may still add fits under the ceiling of the current slot. */
  ghost predicate UnderCeiling(load: Load, s: State, period: int, budget: int)
    requires 0 < period
  {
    && (forall slot :: Used(s.log, period, slot) <= Ceiling(budget, load))
    && Used(s.log, period, s.clock / period) + s.inflight * load.most <= Ceiling(budget, load)
  }

  ghost predicate Invariant(load: Load, s: State) {
    && Ordered(s.log, s.clock)
    && s.inflight <= load.callers
    && (0 < load.cfg.daily ==> UnderCeiling(load, s, DAY, load.cfg.daily))
    && (0 < load.cfg.hourly ==> UnderCeiling(load, s, HOUR, load.cfg.hourly))
  }

  lemma Scale(a: nat, b: nat, m: nat)
    requires a <= b
    ensures a * m <= b * m
  {
  }

  /** Time passing empties the current slot or leaves it alone. */
  lemma AdvanceKeepsCeiling(load: Load, s: State, now: int, w: Window, period: int, budget: int)
    requires 0 < period && 0 < budget && s.clock <= now && s.inflight <= load.callers
    requires Tracks(w, s.log, period) && KeyInPast(w, s.clock, period)
    requires UnderCeiling(load, s, period, budget)
    ensures UnderCeiling(load, s.(clock := now), period, budget)
  {
    SlotMonotone(s.clock, now, period);
    if now / period != s.clock / period {
      assert Used(s.log, period, now / period) == 0;
      Scale(s.inflight, load.callers, load.most);
    }
  }

  lemma StepKeepsCeiling(load: Load, s: State, step: Step, w: Window, period: int, budget: int)
    requires 0 < period && 0 < budget && Enabled(load, s, step) && s.inflight <= load.callers
    requires Tracks(w, s.log, period) && KeyInPast(w, s.clock, period)
    requires step.Admit? ==> !WindowFull(w, step.now / period, budget)
    requires UnderCeiling(load, s, period, budget)
    ensures UnderCeiling(load, Next(load, s, step), period, budget)
  {
    AdvanceKeepsCeiling(load, s, step.now, w, period, budget);
    var slot := step.now / period;
    SlotMonotone(s.clock, step.now, period);
    match step {
      case Admit(now) =>
        assert Used(s.log, period, slot) <= budget - 1;
        Scale(s.inflight + 1, load.callers, load.most);
      case Deny(now) =>
      case Finish(tokens, now) =>
        RemoveOne(s.inflight, load.most);
        forall d ensures Used(s.log + [Entry(now, tokens)], period, d)
                         == Used(s.log, period, d) + SlotWeight(Entry(now, tokens), period, d) {
          UsedSnoc(s.log, Entry(now, tokens), period, d);
        }
      case Fail(now) =>
        RemoveOne(s.inflight, load.most);
    }
  }

  lemma RemoveOne(n: nat, m: nat)
    requires 0 < n
    ensures (n - 1) * m + m == n * m
    ensures 0 <= (n - 1) * m
  {
  }

  lemma StepKeepsInvariant(load: Load, s: State, step: Step)
    requires Invariant(load, s) && Enabled(load, s, step)
    ensures Invariant(load, Next(load, s, step))
  {
    ReplayTracks(s.log, s.clock);
    if 0 < load.cfg.daily {
      StepKeepsCeiling(load, s, step, Replay(s.log).daily, DAY, load.cfg.daily);
    }
    if 0 < load.cfg.hourly {
      StepKeepsCeiling(load, s, step, Replay(s.log).hourly, HOUR, load.cfg.hourly);
    }
  }

  lemma {:induction false} RunKeepsInvariant(load: Load, start: int, steps: seq<Step>)
    ensures Run(load, start, steps).Some? ==> Invariant(load, Run(load, start, steps).value)
  {
    if steps == [] {
      Scale(0, load.callers, load.most);
    } else {
      RunKeepsInvariant(load, start, steps[..|steps| - 1]);
      if Run(load, start, steps).Some? {
        StepKeepsInvariant(load, Run(load, start, steps[..|steps| - 1]).value, steps[|steps| - 1]);
      }
    }
  }

  /** In every run, no day and no hour records more than its budget less one plus what the callers can overshoot. */
  lemma OvershootBounded(load: Load, start: int, steps: seq<Step>, slot: int)
    requires Run(load, start, steps).Some?
    ensures 0 < load.cfg.daily ==>
      Used(Run(load, start, steps).value.log, DAY, slot) <= load.cfg.daily - 1 + load.callers * load.most
    ensures 0 < load.cfg.hourly ==>
      Used(Run(load, start, steps).value.log, HOUR, slot) <= load.cfg.hourly - 1 + load.callers * load.most
  {
    RunKeepsInvariant(load, start, steps);
  }

  /** Steps of a run that let a call in, less those that end one. */
  function Outstanding(steps: seq<Step>): int {
    if steps == [] then 0
    else
      Outstanding(steps[..|steps| - 1]) +
      match steps[|steps| - 1]
      case Admit(_) => 1
      case Deny(_) => 0
      case Finish(_, _) => -1
      case Fail(_) => -1
  }

  lemma {:induction false} InflightIsOutstanding(load: Load, start: int, steps: seq<Step>)
    ensures Run(load, start, steps).Some? ==> Run(load, start, steps).value.inflight == Outstanding(steps)
  {
    if steps != [] {
      InflightIsOutstanding(load, start, steps[..|steps| - 1]);
    }
  }

  /** A budget is set and the log has reached it in the current day or hour. */
  predicate LogOverBudget(cfg: Budgets, log: seq<Entry>, now: int) {
    || (0 < cfg.daily && cfg.daily <= Used(log, DAY, now / DAY))
    || (0 < cfg.hourly && cfg.hourly <= Used(log, HOUR, now / HOUR))
  }

  /** In every run a call is admitted exactly when the full log is below both budgets, and denied exactly when it is not. */
  lemma CheckMatchesLog(load: Load, start: int, steps: seq<Step>, now: int)
    requires Run(load, start, steps).Some? && Run(load, start, steps).value.clock <= now
    ensures var s := Run(load, start, steps).value;
      && (Enabled(load, s, Deny(now)) <==> LogOverBudget(load.cfg, s.log, now))
      && (Enabled(load, s, Admit(now)) <==> !LogOverBudget(load.cfg, s.log, now) && Outstanding(steps) < load.callers)
  {
    RunKeepsInvariant(load, start, steps);
    InflightIsOutstanding(load, start, steps);
    var s := Run(load, start, steps).value;
    assert Ordered(s.log, now);
    UsageMatchesLog(s.log, now);
    assert forall slot :: 0 <= Used(s.log, DAY, slot) && 0 <= Used(s.log, HOUR, slot);
  }

  // ----- the bound is attained -----

  lemma Extend(load: Load, steps: seq<Step>, step: Step, s: State)
    requires Run(load, 0, steps) == Some(s) && Enabled(load, s, step)
    ensures Run(load, 0, steps + [step]) == Some(Next(load, s, step))
  {
    assert (steps + [step])[..|steps|] == steps;
  }

  /** The smaller of the budgets that are set, or nothing positive when none is. */
  function Tightest(cfg: Budgets): int {
    if cfg.hourly <= 0 || (0 < cfg.daily < cfg.hourly) then cfg.daily else cfg.hourly
  }

  /** All entries are at time zero, so the first day and its first hour have used the same. */
  ghost predicate UsedAtZero(log: seq<Entry>, n: int) {
    Ordered(log, 0) && Used(log, DAY, 0) == n && Used(log, HOUR, 0) == n
  }

  lemma UsedOneMore(log: seq<Entry>, period: int, tokens: nat)
    requires 0 < period
    ensures Used(log + [Entry(0, tokens)], period, 0) == Used(log, period, 0) + tokens
  {
    UsedSnoc(log, Entry(0, tokens), period, 0);
    assert 0 / period == 0;
  }

  lemma OrderedSnoc(log: seq<Entry>, tokens: nat)
    requires Ordered(log, 0)
    ensures Ordered(log + [Entry(0, tokens)], 0)
  {
  }

  lemma UsedAtZeroSnoc(log: seq<Entry>, n: int, tokens: nat)
    requires UsedAtZero(log, n)
    ensures UsedAtZero(log + [Entry(0, tokens)], n + tokens)
  {
    UsedOneMore(log, DAY, tokens);
    UsedOneMore(log, HOUR, tokens);
    OrderedSnoc(log, tokens);
  }

  lemma NotYetOver(cfg: Budgets, log: seq<Entry>, n: int)
    requires UsedAtZero(log, n) && n < Tightest(cfg)
    ensures !OverBudget(cfg, Replay(log), 0)
  {
    UsageMatchesLog(log, 0);
  }

  lemma {:induction false} FillToOneShort(load: Load, n: nat) returns (steps: seq<Step>, s: State)
    requires 0 < load.callers && 0 < load.most && n < Tightest(load.cfg)
    ensures Run(load, 0, steps) == Some(s) && s.clock == 0 && s.inflight == 0 && UsedAtZero(s.log, n)
  {
    if n == 0 {
      steps, s := [], State([], 0, 0);
    } else {
      steps, s := FillToOneShort(load, n - 1);
      NotYetOver(load.cfg, s.log, n - 1);
      Extend(load, steps, Admit(0), s);
      var s1 := Next(load, s, Admit(0));
      Extend(load, steps + [Admit(0)], Finish(1, 0), s1);
      UsedAtZeroSnoc(s.log, n - 1, 1);
      steps, s := steps + [Admit(0)] + [Finish(1, 0)], Next(load, s1, Finish(1, 0));
    }
  }

  lemma {:induction false} AdmitAll(load: Load, steps: seq<Step>, s: State, n: int, k: nat)
    returns (steps': seq<Step>, s': State)
    requires k <= load.callers && n < Tightest(load.cfg)
    requires Run(load, 0, steps) == Some(s) && s.clock == 0 && s.inflight == 0 && UsedAtZero(s.log, n)
    ensures Run(load, 0, steps') == Some(s') && s' == s.(inflight := k)
  {
    if k == 0 {
      steps', s' := steps, s;
    } else {
      steps', s' := AdmitAll(load, steps, s, n, k - 1);
      NotYetOver(load.cfg, s.log, n);
      Extend(load, steps', Admit(0), s');
      steps', s' := steps' + [Admit(0)], Next(load, s', Admit(0));
    }
  }

  /** One call in flight finishes with the most tokens. */
  lemma FinishOne(load: Load, steps: seq<Step>, s: State, n: int) returns (steps': seq<Step>, s': State)
    requires Run(load, 0, steps) == Some(s) && s.clock == 0 && UsedAtZero(s.log, n) && 0 < s.inflight
    ensures Run(load, 0, steps') == Some(s') && s'.clock == 0 && UsedAtZero(s'.log, n + load.most)
    ensures s'.inflight == s.inflight - 1
  {
    Extend(load, steps, Finish(load.most, 0), s);
    UsedAtZeroSnoc(s.log, n, load.most);
    steps', s' := steps + [Finish(load.most, 0)], Next(load, s, Finish(load.most, 0));
  }

  /** What `k` calls record when each reports the most. */
  function Most(load: Load, k: nat): nat {
    if k == 0 then 0 else Most(load, k - 1) + load.most
  }

  lemma {:induction false} MostMultiplies(load: Load, k: nat)
    ensures Most(load, k) == k * load.most
  {
    if k > 0 {
      MostMultiplies(load, k - 1);
      RemoveOne(k, load.most);
    }
  }

  lemma {:induction false} FinishSome(load: Load, steps: seq<Step>, s: State, n: int, k: nat)
    returns (steps': seq<Step>, s': State)
    requires Run(load, 0, steps) == Some(s) && s.clock == 0 && UsedAtZero(s.log, n) && k <= s.inflight
    ensures Run(load, 0, steps') == Some(s') && s'.clock == 0 && UsedAtZero(s'.log, n + Most(load, k))
    ensures s'.inflight == s.inflight - k
    decreases k
  {
    if k == 0 {
      steps', s' := steps, s;
    } else {
      steps', s' := FinishSome(load, steps, s, n, k - 1);
      steps', s' := FinishOne(load, steps', s', n + Most(load, k - 1));
    }
  }

  /** The overshoot is real: some run records exactly the ceiling of the tightest budget, in one day and in one hour. */
  lemma OvershootAttained(load: Load) returns (steps: seq<Step>)
    requires 0 < Tightest(load.cfg) && 0 < load.callers && 0 < load.most
    ensures Run(load, 0, steps).Some?
    ensures Used(Run(load, 0, steps).value.log, DAY, 0) == Ceiling(Tightest(load.cfg), load)
    ensures Used(Run(load, 0, steps).value.log, HOUR, 0) == Ceiling(Tightest(load.cfg), load)
  {
    var s, s';
    var n := Tightest(load.cfg) - 1;
    steps, s := FillToOneShort(load, n);
    steps, s' := AdmitAll(load, steps, s, n, load.callers);
    steps, s := FinishSome(load, steps, s', n, load.callers);
    MostMultiplies(load, load.callers);
  }
}
