/** The memory guard of an agent: a sustained breach interrupts it, a breach that
    outlives the grace period pauses it (`ResourceGuard`). */
module Guard {
  import opened Text

  datatype Config = Config(limit: Option<nat>, pollInterval: nat, breachSamples: nat, grace: nat)

  datatype Phase = Watching(over: nat) | Grace(deadline: nat) | Paused

  datatype Action = Interrupt | Pause

  datatype Observed = Observed(phase: Phase, action: Option<Action>)

  function Observe(config: Config, phase: Phase, now: nat, rss: nat): Observed {
    if config.limit.None? then Observed(phase, None)
    else
      var limit := config.limit.value;
      match phase
      case Watching(over) =>
        var count := if rss > limit then over + 1 else 0;
        if count >= config.breachSamples then Observed(Grace(now + config.grace), Some(Interrupt))
        else Observed(Watching(count), None)
      case Grace(deadline) =>
        if now >= deadline && rss > limit then Observed(Paused, Some(Pause))
        else if now >= deadline then Observed(Watching(0), None)
        else Observed(phase, None)
      case Paused => Observed(phase, None)
  }

  class ResourceGuard {
    const config: Config
    var phase: Phase
    var lastSample: Option<nat>

    constructor (config: Config)
      ensures this.config == config && phase == Watching(0) && lastSample == None
    {
      this.config, phase, lastSample := config, Watching(0), None;
    }

    /** Whether a sample is wanted now; asking for one marks it taken. */
    method Due(now: nat) returns (due: bool)
      modifies this`lastSample
      ensures due <==>
                && config.limit.Some? && !phase.Paused?
                && (old(lastSample).Some? ==> SaturatingSub(now, old(lastSample).value) >= config.pollInterval)
      ensures lastSample == if due then Some(now) else old(lastSample)
    {
      if config.limit.None? || phase.Paused? {
        return false;
      }
      if lastSample.Some? {
        if SaturatingSub(now, lastSample.value) < config.pollInterval {
          return false;
        }
      }
      lastSample := Some(now);
      return true;
    }

    method Sample(now: nat, rss: nat) returns (action: Option<Action>)
      modifies this`phase
      ensures Observed(phase, action) == Observe(config, old(phase), now, rss)
    {
      if config.limit.None? {
        return None;
      }
      var limit := config.limit.value;
      match phase {
        case Watching(over) =>
          var count := if rss > limit then over + 1 else 0;
          if count >= config.breachSamples {
            phase := Grace(now + config.grace);
            return Some(Interrupt);
          }
          phase := Watching(count);
          return None;
        case Grace(deadline) =>
          if now >= deadline && rss > limit {
            phase := Paused;
            return Some(Pause);
          }
          if now >= deadline {
            phase := Watching(0);
          }
          return None;
        case Paused =>
          return None;
      }
    }

    method MarkResumed()
      modifies this
      ensures phase == Watching(0) && lastSample == None
    {
      phase, lastSample := Watching(0), None;
    }
  }

  // ------------------------------------------------------------------ history

  datatype Event = Sampled(now: nat, rss: nat) | Resumed

  /** What was emitted at each event so far, and the phase left behind. */
  datatype Trail = Trail(phase: Phase, actions: seq<Option<Action>>)

  function Run(config: Config, events: seq<Event>): (t: Trail)
    ensures |t.actions| == |events|
  {
    if events == [] then Trail(Watching(0), [])
    else
      var before := Run(config, events[..|events| - 1]);
      match events[|events| - 1]
      case Resumed => Trail(Watching(0), before.actions + [None])
      case Sampled(now, rss) =>
        var o := Observe(config, before.phase, now, rss);
        Trail(o.phase, before.actions + [o.action])
  }

  predicate OverLimit(config: Config, e: Event) {
    e.Sampled? && config.limit.Some? && e.rss > config.limit.value
  }

  // The three readings below look only at what came in and what was emitted.

  /** A pause was emitted and nothing resumed since. */
  predicate Halted(events: seq<Event>, actions: seq<Option<Action>>, i: nat)
    requires i <= |events| == |actions|
  {
    i > 0 && !events[i - 1].Resumed? && (actions[i - 1] == Some(Pause) || Halted(events, actions, i - 1))
  }

  /** The interrupt whose grace period no sample has yet outlived. */
  function Undecided(config: Config, events: seq<Event>, actions: seq<Option<Action>>, i: nat): (r: Option<nat>)
    requires i <= |events| == |actions|
    ensures r.Some? ==> r.value < i && events[r.value].Sampled? && actions[r.value] == Some(Interrupt)
  {
    if i == 0 || events[i - 1].Resumed? then None
    else if actions[i - 1] == Some(Interrupt) then Some(i - 1)
    else
      var open := Undecided(config, events, actions, i - 1);
      if open.Some? && events[i - 1].now >= events[open.value].now + config.grace then None else open
  }

  /** How many samples in a row, ending at event `i`, were over the limit while
      nothing was undecided or halted and nothing was emitted. */
  function Streak(config: Config, events: seq<Event>, actions: seq<Option<Action>>, i: nat): (n: nat)
    requires i <= |events| == |actions|
    ensures n <= i
  {
    if i == 0 || !Breach(config, events, actions, i - 1) || actions[i - 1].Some? then 0
    else Streak(config, events, actions, i - 1) + 1
  }

  /** Event `i` is a sample over the limit, taken while the guard was watching. */
  predicate Breach(config: Config, events: seq<Event>, actions: seq<Option<Action>>, i: nat)
    requires i < |events| == |actions|
  {
    OverLimit(config, events[i]) && !Halted(events, actions, i) && Undecided(config, events, actions, i).None?
  }

  ghost predicate PhaseTells(config: Config, events: seq<Event>, t: Trail)
    requires |t.actions| == |events|
  {
    var n := |events|;
    if Halted(events, t.actions, n) then t.phase == Paused
    else
      var open := Undecided(config, events, t.actions, n);
      if open.Some? then t.phase == Grace(events[open.value].now + config.grace)
      else t.phase == Watching(Streak(config, events, t.actions, n)) && t.phase.over < config.breachSamples
  }

  /** The readings of a prefix do not change when more events come in. */
  lemma {:induction false} PrefixReadings(config: Config, events: seq<Event>, actions: seq<Option<Action>>,
                                          e: Event, a: Option<Action>, i: nat)
    requires i <= |events| == |actions|
    ensures Halted(events + [e], actions + [a], i) == Halted(events, actions, i)
    ensures Undecided(config, events + [e], actions + [a], i) == Undecided(config, events, actions, i)
    ensures Streak(config, events + [e], actions + [a], i) == Streak(config, events, actions, i)
  {
    if i > 0 {
      PrefixReadings(config, events, actions, e, a, i - 1);
    }
  }

  lemma PhaseStep(config: Config, events: seq<Event>, t: Trail, e: Event, next: Trail)
    requires config.limit.Some? && config.breachSamples >= 1
    requires |t.actions| == |events| && PhaseTells(config, events, t)
    requires next == match e
                     case Resumed => Trail(Watching(0), t.actions + [None])
                     case Sampled(now, rss) =>
                       var o := Observe(config, t.phase, now, rss);
                       Trail(o.phase, t.actions + [o.action])
    ensures PhaseTells(config, events + [e], next)
  {
    var n := |events|;
    var a := next.actions[n];
    assert next.actions == t.actions + [a];
    PrefixReadings(config, events, t.actions, e, a, n);
    assert (events + [e])[n] == e;
    var open := Undecided(config, events, t.actions, n);
    assert open.Some? ==> (events + [e])[open.value] == events[open.value];
  }

  /** On every history the phase is what the inputs and outputs say it is. */
  lemma {:induction false} PhaseIsHistory(config: Config, events: seq<Event>)
    requires config.limit.Some? && config.breachSamples >= 1
    ensures PhaseTells(config, events, Run(config, events))
  {
    if events != [] {
      var init, e := events[..|events| - 1], events[|events| - 1];
      PhaseIsHistory(config, init);
      assert events == init + [e];
      PhaseStep(config, init, Run(config, init), e, Run(config, events));
    }
  }

  /** Emissions of a prefix are the emissions of the whole. */
  lemma {:induction false} RunPrefix(config: Config, events: seq<Event>, i: nat)
    requires i <= |events|
    ensures Run(config, events[..i]).actions == Run(config, events).actions[..i]
    decreases |events|
  {
    if i < |events| {
      RunPrefix(config, events[..|events| - 1], i);
      assert events[..|events| - 1][..i] == events[..i];
    } else {
      assert events[..i] == events;
    }
  }

  lemma {:induction false} ReadingsOfPrefix(config: Config, events: seq<Event>, actions: seq<Option<Action>>, n: nat, i: nat)
    requires i <= n <= |events| == |actions|
    ensures Halted(events[..n], actions[..n], i) == Halted(events, actions, i)
    ensures Undecided(config, events[..n], actions[..n], i) == Undecided(config, events, actions, i)
    ensures Streak(config, events[..n], actions[..n], i) == Streak(config, events, actions, i)
  {
    if i > 0 {
      ReadingsOfPrefix(config, events, actions, n, i - 1);
    }
  }

  /** What is emitted at one event, told by the history before it. */
  lemma EmittedAt(config: Config, events: seq<Event>, i: nat)
    requires config.limit.Some? && config.breachSamples >= 1 && i < |events|
    ensures var actions := Run(config, events).actions;
            var open := Undecided(config, events, actions, i);
            actions[i] ==
              if !events[i].Sampled? || Halted(events, actions, i) then None
              else if open.Some? then
                if events[i].now >= events[open.value].now + config.grace && OverLimit(config, events[i]) then Some(Pause)
                else None
              else if OverLimit(config, events[i]) && Streak(config, events, actions, i) + 1 >= config.breachSamples
              then Some(Interrupt)
              else None
    ensures !Halted(events, Run(config, events).actions, i) && Undecided(config, events, Run(config, events).actions, i).None?
        ==> Streak(config, events, Run(config, events).actions, i) < config.breachSamples
  {
    var actions := Run(config, events).actions;
    var prefix, upto := events[..i], events[..i + 1];
    RunPrefix(config, events, i);
    RunPrefix(config, events, i + 1);
    PhaseIsHistory(config, prefix);
    ReadingsOfPrefix(config, events, actions, i, i);
    assert upto[..i] == prefix && upto[i] == events[i];
    assert actions[i] == actions[..i + 1][i];
    assert Run(config, upto).actions[i] == actions[i];
  }

  /** The last `n` events up to and including `i` are breaches, none but possibly
      the last acted upon. */
  ghost predicate LastAreBreaches(config: Config, events: seq<Event>, actions: seq<Option<Action>>, i: nat, n: nat)
    requires i < |events| == |actions|
  {
    n <= i + 1
    && (forall j :: i + 1 - n <= j <= i ==> Breach(config, events, actions, j))
    && (forall j :: i + 1 - n <= j < i ==> actions[j].None?)
  }

  lemma {:induction false} StreakIsBreaches(config: Config, events: seq<Event>, actions: seq<Option<Action>>, i: nat, n: nat)
    requires i < |events| == |actions| && n >= 1
    ensures LastAreBreaches(config, events, actions, i, n)
       <==> Breach(config, events, actions, i) && Streak(config, events, actions, i) + 1 >= n
    decreases i
  {
    if n > 1 && i > 0 {
      StreakIsBreaches(config, events, actions, i - 1, n - 1);
    }
  }

  /** An interrupt is emitted exactly when the last `breachSamples` samples since
      the last reset were all over the limit. */
  lemma InterruptIff(config: Config, events: seq<Event>, i: nat)
    requires config.limit.Some? && config.breachSamples >= 1 && i < |events|
    ensures var actions := Run(config, events).actions;
            actions[i] == Some(Interrupt) <==> LastAreBreaches(config, events, actions, i, config.breachSamples)
  {
    EmittedAt(config, events, i);
    StreakIsBreaches(config, events, Run(config, events).actions, i, config.breachSamples);
  }

  /** Between an interrupt and the sample that outlives its grace, nothing is
      emitted and nothing resumes. */
  lemma {:induction false} NothingSince(config: Config, events: seq<Event>, actions: seq<Option<Action>>, k: nat, i: nat)
    requires i <= |events| == |actions| && Undecided(config, events, actions, i) == Some(k)
    requires actions == Run(config, events).actions
    requires config.limit.Some? && config.breachSamples >= 1
    ensures forall j :: k < j < i ==>
              events[j].Sampled? && actions[j] == None && events[j].now < events[k].now + config.grace
    decreases i
  {
    if k < i - 1 {
      NothingSince(config, events, actions, k, i - 1);
      EmittedAt(config, events, i - 1);
    }
  }

  /** A pause follows an interrupt by at least the grace period, with a sample
      over the limit, and with no emission, resume or late sample between. */
  lemma PauseFollowsInterrupt(config: Config, events: seq<Event>, i: nat) returns (k: nat)
    requires config.limit.Some? && config.breachSamples >= 1 && i < |events|
    requires Run(config, events).actions[i] == Some(Pause)
    ensures k < i && events[k].Sampled? && events[i].Sampled?
    ensures var actions := Run(config, events).actions;
            && actions[k] == Some(Interrupt) && OverLimit(config, events[i])
            && events[i].now >= events[k].now + config.grace
            && forall j :: k < j < i ==>
                 events[j].Sampled? && actions[j] == None && events[j].now < events[k].now + config.grace
  {
    var actions := Run(config, events).actions;
    EmittedAt(config, events, i);
    k := Undecided(config, events, actions, i).value;
    NothingSince(config, events, actions, k, i);
  }

  /** Nothing is emitted after a pause until something resumes. */
  lemma {:induction false} SilentWhilePaused(config: Config, events: seq<Event>, p: nat, i: nat)
    requires config.limit.Some? && config.breachSamples >= 1 && p < i <= |events|
    requires Run(config, events).actions[p] == Some(Pause)
    requires forall j :: p < j < i ==> events[j].Sampled?
    ensures Halted(events, Run(config, events).actions, i)
    ensures forall j :: p < j < i ==> Run(config, events).actions[j] == None
    decreases i
  {
    var actions := Run(config, events).actions;
    if i - 1 > p {
      SilentWhilePaused(config, events, p, i - 1);
      EmittedAt(config, events, i - 1);
    } else {
      EmittedAt(config, events, p);
    }
  }

  /** Without a limit the guard never acts. */
  lemma {:induction false} DisabledIsSilent(config: Config, events: seq<Event>)
    requires config.limit.None?
    ensures forall i :: 0 <= i < |events| ==> Run(config, events).actions[i] == None
  {
    if events != [] {
      DisabledIsSilent(config, events[..|events| - 1]);
    }
  }
}
