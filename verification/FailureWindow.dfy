/** Sliding-window failure counting: the bus launcher and the per-device restart guard. */
module FailureWindow {
  import opened Outcomes

  datatype Config = Config(window: real, maxFailures: int)

  /** The entries that are not older than the cutoff. */
  function Since(times: seq<real>, cutoff: real): seq<real> {
    if times == [] then []
    else
      var n := |times| - 1;
      Since(times[..n], cutoff) + if times[n] >= cutoff then [times[n]] else []
  }

  /** The list comprehension of the program. */
  method FilterSince(times: seq<real>, cutoff: real) returns (r: seq<real>)
    ensures r == Since(times, cutoff)
  {
    r := [];
    for i := 0 to |times|
      invariant r == Since(times[..i], cutoff)
    {
      assert times[..i + 1][..i] == times[..i];
      if times[i] >= cutoff { r := r + [times[i]]; }
    }
    assert times[..|times|] == times;
  }

  function Recorded(times: seq<real>, now: real, config: Config): seq<real> {
    Since(times + [now], now - config.window)
  }

  /** The failures that lie in the window at the given time. */
  function InWindow(times: seq<real>, now: real, config: Config): seq<real> {
    Since(times, now - config.window)
  }

  predicate TooMany(times: seq<real>, now: real, config: Config) {
    |InWindow(times, now, config)| >= config.maxFailures
  }

  /** The positions of the entries that are not older than the cutoff. */
  function Positions(times: seq<real>, cutoff: real): set<nat> {
    set p: nat | p < |times| && times[p] >= cutoff
  }

  lemma NothingSince(cutoff: real)
    ensures Since([], cutoff) == [] && Positions([], cutoff) == {}
  {}

  lemma PositionsSnoc(times: seq<real>, t: real, cutoff: real)
    ensures Positions(times + [t], cutoff) == Positions(times, cutoff) + if t >= cutoff then {|times|} else {}
    ensures |times| !in Positions(times, cutoff)
  {}

  lemma {:induction false} SinceSize(times: seq<real>, cutoff: real)
    ensures |Since(times, cutoff)| == |Positions(times, cutoff)|
    ensures forall x :: x in Since(times, cutoff) <==> x in times && x >= cutoff
  {
    hide Since, Positions;
    if times == [] {
      NothingSince(cutoff);
    } else {
      var n := |times| - 1;
      var front, t := times[..n], times[n];
      SinceSize(front, cutoff);
      assert times == front + [t];
      SinceSnoc(front, t, cutoff);
      PositionsSnoc(front, t, cutoff);
    }
  }

  /** There are too many failures exactly when at least as many as the limit lie in the
    * window, one at its very start among them. */
  lemma TooManyIff(times: seq<real>, now: real, config: Config)
    ensures TooMany(times, now, config) <==>
      |set p: nat | p < |times| && times[p] >= now - config.window| >= config.maxFailures
  {
    SinceSize(times, now - config.window);
  }

  lemma {:induction false} SinceTwice(times: seq<real>, c1: real, c2: real)
    requires c1 <= c2
    ensures Since(Since(times, c1), c2) == Since(times, c2)
  {
    if times != [] {
      var n := |times| - 1;
      SinceTwice(times[..n], c1, c2);
      var front := Since(times[..n], c1);
      if times[n] >= c1 {
        assert (front + [times[n]])[..|front|] == front;
      } else {
        assert front + [] == front;
      }
    }
  }

  lemma SinceSnoc(times: seq<real>, t: real, cutoff: real)
    ensures Since(times + [t], cutoff) == Since(times, cutoff) + if t >= cutoff then [t] else []
  {
    assert (times + [t])[..|times|] == times;
  }

  lemma {:induction false} SinceShrinks(times: seq<real>, c1: real, c2: real)
    requires c1 <= c2
    ensures |Since(times, c2)| <= |Since(times, c1)|
  {
    if times != [] { SinceShrinks(times[..|times| - 1], c1, c2); }
  }

  // ---------- One failure list ----------

  datatype Event = Failure(at: real) | Clear

  /** The pruned list next to the full log since the last clear. */
  datatype Lists = Lists(pruned: seq<real>, log: seq<real>, clock: real)

  function Happened(l: Lists, e: Event, config: Config): Lists {
    match e
    case Failure(t) =>
      if t < l.clock then l
      else Lists(Recorded(l.pruned, t, config), l.log + [t], t)
    case Clear => l.(pruned := [], log := [])
  }

  function History(events: seq<Event>, start: real, config: Config): Lists {
    if events == [] then Lists([], [], start)
    else Happened(History(events[..|events| - 1], start, config), events[|events| - 1], config)
  }

  /** Pruning loses nothing: with a clock that never runs backwards, the pruned list
    * answers every later question as the full log since the last clear would. */
  lemma {:induction false} PruningIsLossless(events: seq<Event>, start: real, config: Config, now: real)
    requires now >= History(events, start, config).clock
    ensures
      var l := History(events, start, config);
      InWindow(l.pruned, now, config) == InWindow(l.log, now, config)
      && (TooMany(l.pruned, now, config) <==> TooMany(l.log, now, config))
  {
    if events != [] {
      var before := History(events[..|events| - 1], start, config);
      match events[|events| - 1]
      case Failure(t) =>
        if t < before.clock {
          PruningIsLossless(events[..|events| - 1], start, config, now);
        } else {
          PruningIsLossless(events[..|events| - 1], start, config, now);
          SinceTwice(before.pruned + [t], t - config.window, now - config.window);
          SinceSnoc(before.pruned, t, now - config.window);
          SinceSnoc(before.log, t, now - config.window);
        }
      case Clear =>
    }
  }

  // ---------- The restart guard ----------

  class RestartGuard {
    var failures: map<string, seq<real>>

    constructor ()
      ensures failures == map[]
    {
      failures := map[];
    }

    function TimesOf(device: string): seq<real>
      reads this
    {
      if device in failures then failures[device] else []
    }

    method RecordFailure(device: string, now: real, config: Config)
      modifies this
      ensures failures == old(failures)[device := Recorded(old(TimesOf(device)), now, config)]
    {
      if device !in failures { failures := failures[device := []]; }
      failures := failures[device := failures[device] + [now]];
      var kept := FilterSince(failures[device], now - config.window);
      failures := failures[device := kept];
    }

    method ShouldAutoBlock(device: string, now: real, config: Config) returns (r: bool)
      modifies this
      ensures r <==> TooMany(old(TimesOf(device)), now, config)
      ensures failures == old(failures)[device := old(TimesOf(device))]
    {
      if device !in failures { failures := failures[device := []]; }
      var inWindow := FilterSince(failures[device], now - config.window);
      r := |inWindow| >= config.maxFailures;
    }

    method Clear(device: string)
      modifies this
      ensures failures == old(failures) - {device}
      ensures TimesOf(device) == []
    {
      failures := failures - {device};
    }
  }

  // ---------- The bus launcher ----------

  datatype Bus = Bus(blocked: bool, times: seq<real>)
  datatype RelaunchError = BusBlocked

  function Relaunched(bus: Bus, config: Config, responds: bool, t1: real, t2: real): Bus {
    if bus.blocked || responds then bus
    else
      var times := Recorded(bus.times, t1, config);
      Bus(TooMany(times, t2, config), times)
  }

  /** The launcher with its module-level flag and failure list. Whether the restarted bus
    * answers, and the two clock readings after a failure, come from outside. */
  class BusLauncher {
    const config: Config
    var blockFlag: bool
    var failureTimes: seq<real>

    constructor (config: Config)
      ensures this.config == config && State() == Bus(false, [])
    {
      this.config := config;
      blockFlag, failureTimes := false, [];
    }

    function State(): Bus
      reads this
    {
      Bus(blockFlag, failureTimes)
    }

    method RecordFailure(now: real)
      modifies this
      ensures State() == old(State()).(times := Recorded(old(failureTimes), now, config))
    {
      failureTimes := failureTimes + [now];
      failureTimes := FilterSince(failureTimes, now - config.window);
    }

    method ShouldAutoBlock(now: real) returns (r: bool)
      ensures r <==> TooMany(failureTimes, now, config)
    {
      var inWindow := FilterSince(failureTimes, now - config.window);
      r := |inWindow| >= config.maxFailures;
    }

    method Relaunch(spawned: bool, responds: bool, t1: real, t2: real) returns (r: Result<bool, RelaunchError>)
      modifies this
      ensures r == if old(blockFlag) then Err(BusBlocked) else Ok(spawned && responds)
      ensures State() == Relaunched(old(State()), config, spawned && responds, t1, t2)
    {
      if blockFlag { return Err(BusBlocked); }
      if spawned && responds { return Ok(true); }
      RecordFailure(t1);
      var tooMany := ShouldAutoBlock(t2);
      if tooMany { blockFlag := true; }
      return Ok(false);
    }

    method ClearBlock()
      modifies this
      ensures State() == Bus(false, [])
    {
      blockFlag, failureTimes := false, [];
    }
  }

  datatype BusOp = Relaunch(responds: bool, t1: real, t2: real) | ClearBlock

  /** The bus, the full log of failures since the last clear, the clock, and when it was blocked. */
  datatype BusRun = BusRun(bus: Bus, log: seq<real>, clock: real, blockedAt: real)

  function BusStep(s: BusRun, op: BusOp, config: Config): BusRun {
    match op
    case ClearBlock => s.(bus := Bus(false, []), log := [])
    case Relaunch(responds, t1, t2) =>
      if s.bus.blocked || responds || !(s.clock <= t1 <= t2) then s
      else BusRun(Relaunched(s.bus, config, responds, t1, t2), s.log + [t1], t2, t2)
  }

  function RunBus(ops: seq<BusOp>, start: real, config: Config): BusRun {
    if ops == [] then BusRun(Bus(false, []), [], start, start)
    else BusStep(RunBus(ops[..|ops| - 1], start, config), ops[|ops| - 1], config)
  }

  ghost predicate BusSound(s: BusRun, config: Config) {
    && (forall now :: now >= s.clock ==> InWindow(s.bus.times, now, config) == InWindow(s.log, now, config))
    && (!s.bus.blocked && config.maxFailures >= 1 ==>
          forall now :: now >= s.clock ==> |InWindow(s.log, now, config)| < config.maxFailures)
    && (s.bus.blocked ==> |InWindow(s.log, s.blockedAt, config)| >= config.maxFailures)
  }

  lemma BusStepSound(s: BusRun, op: BusOp, config: Config)
    requires BusSound(s, config)
    ensures BusSound(BusStep(s, op, config), config)
  {
    var z := BusStep(s, op, config);
    if op.Relaunch? && !s.bus.blocked && !op.responds && s.clock <= op.t1 <= op.t2 {
      forall now | now >= op.t2 ensures InWindow(z.bus.times, now, config) == InWindow(z.log, now, config) {
        assert InWindow(s.bus.times, now, config) == InWindow(s.log, now, config);
        SinceTwice(s.bus.times + [op.t1], op.t1 - config.window, now - config.window);
        SinceSnoc(s.bus.times, op.t1, now - config.window);
        SinceSnoc(s.log, op.t1, now - config.window);
      }
      forall now | now >= op.t2 ensures |InWindow(z.log, now, config)| <= |InWindow(z.log, op.t2, config)| {
        SinceShrinks(z.log, op.t2 - config.window, now - config.window);
      }
    }
  }

  lemma {:induction false} BusAlwaysSound(ops: seq<BusOp>, start: real, config: Config)
    ensures BusSound(RunBus(ops, start, config), config)
  {
    if ops != [] {
      BusAlwaysSound(ops[..|ops| - 1], start, config);
      BusStepSound(RunBus(ops[..|ops| - 1], start, config), ops[|ops| - 1], config);
    }
  }

  /** An unblocked bus always has fewer failures in the window than the threshold, over
    * every run and at every later time, exactly when the threshold is at least one. */
  lemma UnblockedMeansFewFailures(start: real, config: Config)
    ensures config.maxFailures >= 1 <==>
      forall ops, now :: now >= RunBus(ops, start, config).clock && !RunBus(ops, start, config).bus.blocked ==>
        |InWindow(RunBus(ops, start, config).log, now, config)| < config.maxFailures
  {
    if config.maxFailures >= 1 {
      forall ops, now | now >= RunBus(ops, start, config).clock && !RunBus(ops, start, config).bus.blocked
        ensures |InWindow(RunBus(ops, start, config).log, now, config)| < config.maxFailures
      {
        BusAlwaysSound(ops, start, config);
      }
    } else {
      var ops: seq<BusOp> := [];
      assert start >= RunBus(ops, start, config).clock && !RunBus(ops, start, config).bus.blocked;
      assert |InWindow(RunBus(ops, start, config).log, start, config)| >= config.maxFailures;
    }
  }

  /** A blocked bus was blocked by a window that was full, whatever the threshold. */
  lemma BlockedMeansFullWindow(ops: seq<BusOp>, start: real, config: Config)
    requires RunBus(ops, start, config).bus.blocked
    ensures
      var s := RunBus(ops, start, config);
      |InWindow(s.log, s.blockedAt, config)| >= config.maxFailures
  {
    BusAlwaysSound(ops, start, config);
  }

  /** A block lasts until it is cleared; until then nothing is recorded either. */
  lemma {:induction false} BlockPersists(ops: seq<BusOp>, more: seq<BusOp>, start: real, config: Config)
    requires RunBus(ops, start, config).bus.blocked && ClearBlock !in more
    ensures RunBus(ops + more, start, config) == RunBus(ops, start, config)
  {
    hide Since, Relaunched;
    if more == [] {
      assert ops + more == ops;
    } else {
      var rest := more[..|more| - 1];
      BlockPersists(ops, rest, start, config);
      assert (ops + more)[..|ops + more| - 1] == ops + rest;
      assert more[|more| - 1] in more;
    }
  }
}
