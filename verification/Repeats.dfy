/** Runs that repeat an effect: a body pushed again for a head already delivered, and
    a line typed again, with the exact condition under which the first happens. */
module Repeats {
  import opened Text
  import opened Ladder
  import opened Admission
  import opened AdmissionTheorems
  import opened CommitPushTheorems
  import opened Delivery
  import CommitRow

  // --------------------------------------------------------------- runs, joined

  lemma {:induction false} ReachesSnoc(s: System, steps: seq<Step>, t: System, e: Step)
    requires Reaches(s, steps, t) && Allowed(t, e)
    ensures Reaches(s, steps + [e], Next(t, e))
    decreases |steps|
  {
    hide Next;
    hide Allowed;
    if steps == [] {
      assert steps + [e] == [e] && [e][1..] == [];
    } else {
      assert (steps + [e])[0] == steps[0] && (steps + [e])[1..] == steps[1..] + [e];
      ReachesSnoc(Next(s, steps[0]), steps[1..], t, e);
    }
  }

  lemma {:induction false} ReachesJoin(s: System, steps: seq<Step>, t: System, more: seq<Step>, u: System)
    requires Reaches(s, steps, t) && Reaches(t, more, u)
    ensures Reaches(s, steps + more, u)
    decreases |more|
  {
    hide Next;
    hide Allowed;
    if more == [] {
      assert steps + more == steps;
    } else {
      ReachesSnoc(s, steps, t, more[0]);
      ReachesJoin(s, steps + [more[0]], Next(t, more[0]), more[1..], u);
      assert steps + [more[0]] + more[1..] == steps + more;
    }
  }

  /** The next n actions of one attempt, nobody else moving. */
  function Turns(p: nat, n: nat): seq<Step> {
    seq(n, _ => Run(p))
  }

  lemma {:induction false} RunTimesSnoc(s: System, p: nat, n: nat)
    requires p < |s.procs|
    ensures RunTimes(s, p, n + 1) == RunStep(RunTimes(s, p, n), p)
    decreases n
  {
    assert |RunStep(s, p).procs| == |s.procs|;
    hide RunStep;
    if n > 0 {
      RunTimesSnoc(RunStep(s, p), p, n - 1);
    }
  }

  // ------------------------------------------------------- one attempt moving on

  /** What an attempt's actions are about: the tables, the locks, the attempt itself
      and the history of effects. */
  datatype View = View(db: Db, locks: map<string, nat>, proc: Proc, entries: seq<Entry>)

  /** After n actions of the attempt, nobody else moving, this is the state. */
  ghost predicate Shows(s: System, p: nat, n: nat, v: View) {
    && p < |s.procs|
    && var t := RunTimes(s, p, n);
    && Reaches(s, Turns(p, n), t)
    && t.db == v.db && t.locks == v.locks && t.procs == s.procs[p := v.proc] && t.entries == v.entries
  }

  lemma OneMore(s: System, p: nat, n: nat, v: View)
    requires Shows(s, p, n, v) && !v.proc.pc.Done? && !v.proc.pc.Crashed?
    ensures RunTimes(s, p, n + 1) == RunStep(RunTimes(s, p, n), p)
    ensures Reaches(s, Turns(p, n + 1), RunTimes(s, p, n + 1))
  {
    RunTimesSnoc(s, p, n);
    ReachesSnoc(s, Turns(p, n), RunTimes(s, p, n), Run(p));
    assert Turns(p, n) + [Run(p)] == Turns(p, n + 1);
    hide RunStep;
    hide Reaches;
    hide RunTimes;
  }

  /** An action without an effect, away from the lock. */
  lemma Quietly(s: System, p: nat, n: nat, v: View, db: Db, pc: Pc)
    requires Shows(s, p, n, v)
    requires var a, was := v.proc.attempt, v.proc.pc;
             var mv := Act(v.db, a, was, a.message.recipient !in v.locks);
             && mv.db == db && mv.pc == pc && !HoldsEffect(was) && !HoldsEffect(pc)
             && !was.Lock? && !was.Release? && !was.Done? && !was.Crashed?
    ensures Shows(s, p, n + 1, View(db, v.locks, Proc(v.proc.attempt, pc, v.proc.entry), v.entries))
  {
    var a, was := v.proc.attempt, v.proc.pc;
    OneMore(s, p, n, v);
    RunStepped(RunTimes(s, p, n), p);
    ActEffect(v.db, a, was, a.message.recipient !in v.locks);
    hide Act;
    hide RunStep;
    hide Reaches;
    hide RunTimes;
  }

  lemma TakesLock(s: System, p: nat, n: nat, v: View)
    requires Shows(s, p, n, v) && v.proc.pc == Lock && v.proc.attempt.message.recipient !in v.locks
    ensures Shows(s, p, n + 1, View(v.db, v.locks[v.proc.attempt.message.recipient := p],
                                    Proc(v.proc.attempt, CheckAccepted, v.proc.entry), v.entries))
  {
    OneMore(s, p, n, v);
    RunStepped(RunTimes(s, p, n), p);
    hide RunStep;
    hide Reaches;
    hide RunTimes;
  }

  lemma Releases(s: System, p: nat, n: nat, v: View)
    requires Shows(s, p, n, v) && v.proc.pc == Release
    ensures Shows(s, p, n + 1, View(v.db, Without(v.locks, v.proc.attempt.message.recipient),
                                    Proc(v.proc.attempt, Done, v.proc.entry), v.entries))
  {
    OneMore(s, p, n, v);
    RunStepped(RunTimes(s, p, n), p);
    hide RunStep;
    hide Reaches;
    hide RunTimes;
  }

  /** The entry an effect of this attempt leaves. */
  function EntryOf(a: Attempt, effect: Effect, fate: Fate): Entry {
    Entry(a.message.id, a.message.recipient, effect, PushOf(a.message), fate)
  }

  /** The action that has an effect. */
  lemma Effective(s: System, p: nat, n: nat, v: View, pc: Pc)
    requires Shows(s, p, n, v) && HoldsEffect(pc) && (v.proc.pc.Decide? || v.proc.pc.PushNow?)
    requires var a := v.proc.attempt;
             Act(v.db, a, v.proc.pc, a.message.recipient !in v.locks).pc == pc
    ensures Shows(s, p, n + 1, View(v.db, v.locks, Proc(v.proc.attempt, pc, |v.entries|),
                                    v.entries + [EntryOf(v.proc.attempt, pc.effect, InHand)]))
  {
    var a, was := v.proc.attempt, v.proc.pc;
    OneMore(s, p, n, v);
    RunStepped(RunTimes(s, p, n), p);
    ActEffect(v.db, a, was, a.message.recipient !in v.locks);
    hide Act;
    hide RunStep;
    hide Reaches;
    hide RunTimes;
  }

  /** The receipt of an effect. */
  lemma Receipts(s: System, p: nat, n: nat, v: View)
    requires Shows(s, p, n, v) && HoldsEffect(v.proc.pc)
    ensures var a, landing := v.proc.attempt, v.proc.pc.landing;
            Shows(s, p, n + 1, View(Logged(v.db, landing.Receipt(a.message.id, a.message.recipient, a.world.recordAt)),
                                    v.locks, Proc(a, if landing.carried then Ack else Release, v.proc.entry),
                                    Marked(v.entries, v.proc.entry, Receipted)))
  {
    OneMore(s, p, n, v);
    RunStepped(RunTimes(s, p, n), p);
    hide RunStep;
    hide Reaches;
    hide RunTimes;
  }

  // ------------------------------------------------------------ up to the ladder

  /** An attempt about to begin that nothing in admission will stop. */
  ghost predicate Unhindered(s: System, p: nat) {
    && p < |s.procs| && s.procs[p].pc == Start
    && var a := s.procs[p].attempt;
    && a.world.reminderActive && a.message.recipient !in s.locks
    && !DeliveryAccepted(s.db.rows, a.message.id, a.message.recipient)
    && !NoticePasted(s.db.rows, a.message.id, a.message.recipient)
  }

  /** The tables with the opening row of an attempt's message. */
  function Begun(db: Db, a: Attempt): Db {
    db.(rows := db.rows + Opening(db, a))
  }

  /** The attempt has the lock of its route and stands here. */
  function Inside(s: System, p: nat, pc: Pc): View
    requires p < |s.procs|
  {
    var a := s.procs[p].attempt;
    View(Begun(s.db, a), s.locks[a.message.recipient := p], Proc(a, pc, s.procs[p].entry), s.entries)
  }

  lemma ToTheLadder(s: System, p: nat)
    requires Unhindered(s, p)
    ensures Shows(s, p, 5, Inside(s, p, Decide))
  {
    var a, k := s.procs[p].attempt, s.procs[p].entry;
    EarlyActs(s.db, a, true);
    EarlyActs(s.db, a, false);
    assert Turns(p, 0) == [];
    assert Shows(s, p, 0, View(s.db, s.locks, Proc(a, Start, k), s.entries));
    hide Act;
    hide Opening;
    hide DeliveryAccepted;
    hide NoticePasted;
    hide Shows;
    var locks := s.locks[a.message.recipient := p];
    Quietly(s, p, 0, View(s.db, s.locks, Proc(a, Start, k), s.entries), s.db, Lock);
    TakesLock(s, p, 1, View(s.db, s.locks, Proc(a, Lock, k), s.entries));
    Quietly(s, p, 2, View(s.db, locks, Proc(a, CheckAccepted, k), s.entries), s.db, CheckPasted);
    Quietly(s, p, 3, View(s.db, locks, Proc(a, CheckPasted, k), s.entries), s.db, Append);
    Quietly(s, p, 4, View(s.db, locks, Proc(a, Append, k), s.entries), Begun(s.db, a), Decide);
  }

  // ------------------------------------------------------------ through the door

  /** An attempt whose message would reach this door, open, if its head were not on
      file. */
  ghost predicate Welcome(s: System, p: nat, door: Option<string>)
    requires p < |s.procs|
  {
    var a, db := s.procs[p].attempt, Begun(s.db, s.procs[p].attempt);
    var m, w := a.message, a.world;
    && Walk({}, a.routes, m, w) == AtDoor(door)
    && DoorVerdict(db, m.recipient, a.routes, m.body, a.budget, w.gateAt).Open?
  }

  predicate OnFile(db: Db, m: Message) {
    PushOf(m).Some? && PushOf(m).value in db.pushes
  }

  /** The state in which the body has just gone over and landed. */
  function Delivered(s: System, p: nat, landing: Landing): View
    requires p < |s.procs|
  {
    var a := s.procs[p].attempt;
    View(Begun(s.db, a), s.locks[a.message.recipient := p], Proc(a, Record(landing, Body, Some(GateOf(a))), |s.entries|),
         s.entries + [EntryOf(a, Body, InHand)])
  }

  /** Apart from the check of the commit ledger the ladder does not look at it. */
  lemma WalkLooksOnce(db: Db, routes: map<string, Route>, m: Message, w: World, door: Option<string>)
    requires Walk({}, routes, m, w) == AtDoor(door)
    ensures OnFile(db, m) ==> var s := Walk(db.pushes, routes, m, w); s.Lands? && s.effect == Nothing && !s.landing.carried
    ensures !OnFile(db, m) ==> Walk(db.pushes, routes, m, w) == AtDoor(door)
  {
    hide RouteWalk;
    hide CommitByDoor;
    hide CommitRow.CommitHead;
  }

  /** The ladder, the gate and the door, one after the other. */
  lemma PastTheDoor(s: System, p: nat, n: nat, v: View, door: Option<string>, gate: Gate, record: Pc)
    requires Shows(s, p, n, v) && v.proc.pc == Decide && HoldsEffect(record)
    requires var db, a := v.db, v.proc.attempt;
             && Act(db, a, Decide, true).db == db && Act(db, a, Decide, true).pc == AtGate(door)
             && Act(db, a, AtGate(door), true).db == db && Act(db, a, AtGate(door), true).pc == PushNow(door, gate)
             && Act(db, a, PushNow(door, gate), true).pc == record
    ensures Shows(s, p, n + 3, View(v.db, v.locks, Proc(v.proc.attempt, record, |v.entries|),
                                    v.entries + [EntryOf(v.proc.attempt, record.effect, InHand)]))
  {
    var a, k := v.proc.attempt, v.proc.entry;
    hide PushOf;
    hide Shows;
    ActIgnoresLock(v.db, a, Decide, true, false);
    ActIgnoresLock(v.db, a, AtGate(door), true, false);
    ActIgnoresLock(v.db, a, PushNow(door, gate), true, false);
    hide Act;
    Quietly(s, p, n, v, v.db, AtGate(door));
    Quietly(s, p, n + 1, View(v.db, v.locks, Proc(a, AtGate(door), k), v.entries), v.db, PushNow(door, gate));
    Effective(s, p, n + 2, View(v.db, v.locks, Proc(a, PushNow(door, gate), k), v.entries), record);
  }

  /** Inside the lock an attempt at an open door gets to its push, and this is where the
      answer leaves it. */
  lemma DoorReady(s: System, p: nat, door: Option<string>)
    requires Unhindered(s, p) && Welcome(s, p, door) && !OnFile(s.db, s.procs[p].attempt.message)
    ensures var v, a := Inside(s, p, Decide), s.procs[p].attempt;
            && Shows(s, p, 5, v) && v.proc.attempt == a
            && Act(v.db, a, Decide, true).db == v.db && Act(v.db, a, Decide, true).pc == AtGate(door)
            && Act(v.db, a, AtGate(door), true).db == v.db && Act(v.db, a, AtGate(door), true).pc == PushNow(door, GateOf(a))
            && Act(v.db, a, PushNow(door, GateOf(a)), true).pc == AfterPush(PushAtDoor(door, a.message, a.world), GateOf(a))
  {
    var a := s.procs[p].attempt;
    WalkLooksOnce(s.db, a.routes, a.message, a.world, door);
    ToTheLadder(s, p);
    hide Opening;
    hide OnFile;
    hide Shows;
    hide Walk;
    hide DoorVerdict;
    hide PushAtDoor;
    hide GateOf;
    hide AfterPush;
    DoorActs(Begun(s.db, a), a, door);
    hide Act;
  }

  lemma ThroughTheDoor(s: System, p: nat, door: Option<string>)
    requires Unhindered(s, p) && Welcome(s, p, door) && !OnFile(s.db, s.procs[p].attempt.message)
    requires Takes(door, s.procs[p].attempt.world)
    ensures var a := s.procs[p].attempt;
            Shows(s, p, 8, Delivered(s, p, PushAtDoor(door, a.message, a.world).landing))
  {
    var a := s.procs[p].attempt;
    var landing, gate := PushAtDoor(door, a.message, a.world).landing, GateOf(a);
    TakesIff(door, a.message, a.world);
    DoorReady(s, p, door);
    hide Shows;
    hide Unhindered;
    hide Welcome;
    hide OnFile;
    hide PushAtDoor;
    hide GateOf;
    hide EntryOf;
    hide Begun;
    hide Act;
    hide Takes;
    PastTheDoor(s, p, 5, Inside(s, p, Decide), door, gate, Record(landing, Body, Some(gate)));
  }

  /** A door that does not take the body: as many actions, and no effect. */
  lemma TurnedAtTheDoor(s: System, p: nat, door: Option<string>) returns (v: View)
    requires Unhindered(s, p) && Welcome(s, p, door) && !OnFile(s.db, s.procs[p].attempt.message)
    requires !Takes(door, s.procs[p].attempt.world)
    ensures Shows(s, p, 8, v) && v.entries == s.entries
  {
    var a := s.procs[p].attempt;
    TakesIff(door, a.message, a.world);
    DoorReady(s, p, door);
    hide Shows;
    hide Unhindered;
    hide Welcome;
    hide OnFile;
    hide PushAtDoor;
    hide GateOf;
    hide Begun;
    hide Act;
    hide Takes;
    v := PastUntaken(s, p, 5, Inside(s, p, Decide), door, GateOf(a));
  }

  lemma PastUntaken(s: System, p: nat, n: nat, v: View, door: Option<string>, gate: Gate) returns (u: View)
    requires Shows(s, p, n, v) && v.proc.pc == Decide
    requires var db, a := v.db, v.proc.attempt;
             && Act(db, a, Decide, true).db == db && Act(db, a, Decide, true).pc == AtGate(door)
             && Act(db, a, AtGate(door), true).db == db && Act(db, a, AtGate(door), true).pc == PushNow(door, gate)
             && !HoldsEffect(Act(db, a, PushNow(door, gate), true).pc)
    ensures Shows(s, p, n + 3, u) && u.entries == v.entries
  {
    var a, k := v.proc.attempt, v.proc.entry;
    hide Shows;
    ActIgnoresLock(v.db, a, Decide, true, false);
    ActIgnoresLock(v.db, a, AtGate(door), true, false);
    ActIgnoresLock(v.db, a, PushNow(door, gate), true, false);
    hide Act;
    Quietly(s, p, n, v, v.db, AtGate(door));
    Quietly(s, p, n + 1, View(v.db, v.locks, Proc(a, AtGate(door), k), v.entries), v.db, PushNow(door, gate));
    var mv := Act(v.db, a, PushNow(door, gate), true);
    Quietly(s, p, n + 2, View(v.db, v.locks, Proc(a, PushNow(door, gate), k), v.entries), mv.db, mv.pc);
    u := View(mv.db, v.locks, Proc(a, mv.pc, k), v.entries);
  }

  /** With its head on file the attempt is over after as many actions, without effect. */
  lemma KeptFromTheDoor(s: System, p: nat, door: Option<string>) returns (v: View)
    requires Unhindered(s, p) && Welcome(s, p, door) && OnFile(s.db, s.procs[p].attempt.message)
    ensures Shows(s, p, 8, v) && v.entries == s.entries
  {
    var a := s.procs[p].attempt;
    WalkLooksOnce(s.db, a.routes, a.message, a.world, door);
    ToTheLadder(s, p);
    hide Opening;
    hide OnFile;
    hide Shows;
    hide Unhindered;
    hide Welcome;
    hide Walk;
    v := LandedQuietly(s, p, 5, Inside(s, p, Decide), Walk(s.db.pushes, a.routes, a.message, a.world).landing);
  }

  lemma LandedQuietly(s: System, p: nat, n: nat, v: View, landing: Landing) returns (u: View)
    requires Shows(s, p, n, v) && v.proc.pc == Decide && !landing.carried
    requires var a := v.proc.attempt; Walk(v.db.pushes, a.routes, a.message, a.world) == Lands(landing, Nothing)
    ensures Shows(s, p, n + 3, u) && u.entries == v.entries
  {
    var a, k := v.proc.attempt, v.proc.entry;
    var m := a.message;
    hide Shows;
    hide Walk;
    Quietly(s, p, n, v, v.db, Record(landing, Nothing, None));
    var next := Logged(v.db, landing.Receipt(m.id, m.recipient, a.world.recordAt));
    Quietly(s, p, n + 1, View(v.db, v.locks, Proc(a, Record(landing, Nothing, None), k), v.entries), next, Release);
    Releases(s, p, n + 2, View(next, v.locks, Proc(a, Release, k), v.entries));
    u := View(next, Without(v.locks, m.recipient), Proc(a, Done, k), v.entries);
  }

  lemma ShownJoin(origin: System, steps: seq<Step>, s: System, p: nat, n: nat, v: View)
    requires Reaches(origin, steps, s) && Shows(s, p, n, v)
    ensures Reaches(origin, steps + Turns(p, n), RunTimes(s, p, n)) && RunTimes(s, p, n).entries == v.entries
  {
    ReachesJoin(origin, steps, s, Turns(p, n), RunTimes(s, p, n));
    hide Reaches;
    hide RunTimes;
  }

  /** An attempt that nothing in admission stops, at an open door, puts the body in front
      of the recipient if and only if the transport's answer takes it and, of a commit,
      its head is not on file. */
  lemma BodyGoesOverIff(origin: System, steps: seq<Step>, s: System, p: nat, door: Option<string>)
    requires Reaches(origin, steps, s) && Unhindered(s, p) && Welcome(s, p, door)
    ensures var a, n := s.procs[p].attempt, RunTimes(s, p, 8);
            && Reaches(origin, steps + Turns(p, 8), n)
            && n.entries == if Takes(door, a.world) && !OnFile(s.db, a.message) then s.entries + [EntryOf(a, Body, InHand)]
                            else s.entries
  {
    var a := s.procs[p].attempt;
    TakesIff(door, a.message, a.world);
    hide Reaches;
    hide Shows;
    hide Walk;
    hide DoorVerdict;
    hide PushAtDoor;
    hide OnFile;
    hide Takes;
    hide Unhindered;
    hide Welcome;
    hide Begun;
    hide GateOf;
    hide EntryOf;
    hide RunTimes;
    if OnFile(s.db, a.message) {
      var v := KeptFromTheDoor(s, p, door);
      ShownJoin(origin, steps, s, p, 8, v);
    } else if Takes(door, a.world) {
      ThroughTheDoor(s, p, door);
      ShownJoin(origin, steps, s, p, 8, Delivered(s, p, PushAtDoor(door, a.message, a.world).landing));
    } else {
      var v := TurnedAtTheDoor(s, p, door);
      ShownJoin(origin, steps, s, p, 8, v);
    }
  }

  /** The exact condition of a repeat: in any reachable state an attempt of a commit
      that nothing else stops, at a door that takes it, puts the body in front of the
      subscriber if and only if no effect stands for its head, whatever went over
      before. */
  lemma PushesAgainIff(mail: seq<Message>, steps: seq<Step>, s: System, p: nat, door: Option<string>)
    requires Reaches(Initial(mail), steps, s) && Unhindered(s, p) && Welcome(s, p, door)
    requires s.procs[p].attempt.message.kind.Commit?
    ensures var a, n := s.procs[p].attempt, RunTimes(s, p, 8);
            && Reaches(Initial(mail), steps + Turns(p, 8), n)
            && n.entries == if Takes(door, a.world) && !Backed(s.entries, PushOf(a.message).value)
                            then s.entries + [EntryOf(a, Body, InHand)] else s.entries
  {
    OnFileIff(mail, steps, s, PushOf(s.procs[p].attempt.message).value);
    BodyGoesOverIff(Initial(mail), steps, s, p, door);
    hide Reaches;
    hide Walk;
    hide DoorVerdict;
    hide Backed;
    hide RunTimes;
  }

  // ------------------------------------------------------------- a body pushed again

  function CommitMail(id: string, sender: string, recipient: string, body: string): Message {
    Message(id, sender, recipient, Commit, None, body, None)
  }

  /** A live native session takes the body at this instant; the budget is the default. */
  function NativeAttempt(m: Message, at: nat): Attempt {
    Attempt(m, map[m.recipient := Route("native", None, Some(Harness("claude", false, false)), None)],
            Budget(60000, 300000, 32),
            World(true, at, at, at, at, None, false, None, false, false, Found, Injected, None, 120000))
  }

  lemma {:induction false} NoPushes(rows: seq<Row>, route: string, since: nat)
    requires forall i :: 0 <= i < |rows| ==> !PushAt(rows[i], route, since)
    ensures PushesSince(rows, route, since) == 0
  {
    hide PushAt;
    if rows != [] {
      NoPushes(rows[..|rows| - 1], route, since);
    }
  }

  lemma NativeTakes(s: System, p: nat, m: Message, at: nat)
    requires p < |s.procs| && s.procs[p].attempt == NativeAttempt(m, at) && m.kind.Commit? && m.detail.None?
    requires s.db.trips == []
    requires forall i :: 0 <= i < |s.db.rows| ==> !PushAt(s.db.rows[i], m.recipient, Since(at, 60000))
    ensures Welcome(s, p, Some("claude")) && Takes(Some("claude"), NativeAttempt(m, at).world)
    ensures PushAtDoor(Some("claude"), m, NativeAttempt(m, at).world) == Took(Land(Door, "door"))
  {
    var a := NativeAttempt(m, at);
    var db := Begun(s.db, a);
    hide CommitRow.CommitHead;
    forall i | 0 <= i < |db.rows|
      ensures !PushAt(db.rows[i], m.recipient, Since(at, 60000))
    {
    }
    NoPushes(db.rows, m.recipient, Since(at, 60000));
    hide PushesSince;
    hide PushAt;
    hide HasTransition;
    hide HasBody;
    assert LatestTrip(db.trips, m.recipient).None?;
    assert DoorVerdict(db, m.recipient, a.routes, m.body, a.budget, at).Open?;
  }

  /** The state in which the receipt has just been written. */
  function Received(s: System, p: nat, landing: Landing): View
    requires p < |s.procs|
  {
    var a := s.procs[p].attempt;
    View(Logged(Begun(s.db, a), landing.Receipt(a.message.id, a.message.recipient, a.world.recordAt)),
         s.locks[a.message.recipient := p], Proc(a, Ack, |s.entries|), s.entries + [EntryOf(a, Body, Receipted)])
  }

  lemma ToTheReceipt(s: System, p: nat, door: Option<string>, landing: Landing)
    requires Unhindered(s, p) && Welcome(s, p, door) && !OnFile(s.db, s.procs[p].attempt.message)
    requires var a := s.procs[p].attempt;
             Takes(door, a.world) && PushAtDoor(door, a.message, a.world) == Took(landing) && landing.carried
    ensures Shows(s, p, 9, Received(s, p, landing))
  {
    assert p < |s.procs|;
    hide *;
    ThroughTheDoor(s, p, door);
    DeliveredReceipts(s, p, landing);
  }

  lemma DeliveredReceipts(s: System, p: nat, landing: Landing)
    requires p < |s.procs| && Shows(s, p, 8, Delivered(s, p, landing)) && landing.carried
    ensures Shows(s, p, 9, Received(s, p, landing))
  {
    hide Shows;
    hide PushOf;
    hide GateOf;
    hide Begun;
    Receipts(s, p, 8, Delivered(s, p, landing));
    assert Marked(s.entries + [EntryOf(s.procs[p].attempt, Body, InHand)], |s.entries|, Receipted)
        == s.entries + [EntryOf(s.procs[p].attempt, Body, Receipted)];
  }

  lemma ReachesAfter(s: System, first: Step, steps: seq<Step>, t: System)
    requires Allowed(s, first) && Reaches(Next(s, first), steps, t)
    ensures Reaches(s, [first] + steps, t)
  {
    assert ([first] + steps)[1..] == steps;
  }

  /** The tables after one receipt, and the effect it is for. */
  predicate ReceiptedOnce(t: System, mail: seq<Message>, m: Message) {
    && t.db == Db(mail, {}, [Row(m.id, m.recipient, Appended, "mailbox", 0),
                             Row(m.id, m.recipient, AcceptedByHarness, "door", 0)], [], {})
    && t.locks == map[m.recipient := 0] && t.procs == [Proc(NativeAttempt(m, 0), Ack, 0)]
    && t.entries == [EntryOf(NativeAttempt(m, 0), Body, Receipted)]
  }

  /** A first attempt that has just begun. */
  function FirstBegun(mail: seq<Message>, m: Message): System {
    System(Db(mail, {}, [], [], {}), map[], [Proc(NativeAttempt(m, 0), Start, 0)], [], [], {})
  }

  lemma FirstMeets(mail: seq<Message>, m: Message)
    requires m.kind.Commit? && m.detail.None?
    ensures var s := FirstBegun(mail, m);
            && Unhindered(s, 0) && Welcome(s, 0, Some("claude")) && !OnFile(s.db, m)
            && Takes(Some("claude"), NativeAttempt(m, 0).world)
            && PushAtDoor(Some("claude"), m, NativeAttempt(m, 0).world) == Took(Land(Door, "door"))
  {
    NativeTakes(FirstBegun(mail, m), 0, m, 0);
    hide Welcome;
    hide PushAtDoor;
  }

  lemma FirstShows(mail: seq<Message>, m: Message, t: System)
    requires Shows(FirstBegun(mail, m), 0, 9, Received(FirstBegun(mail, m), 0, Land(Door, "door")))
    requires t == RunTimes(FirstBegun(mail, m), 0, 9)
    ensures Reaches(FirstBegun(mail, m), Turns(0, 9), t) && ReceiptedOnce(t, mail, m)
  {
    hide PushOf;
    hide Reaches;
    hide RunTimes;
  }

  lemma FirstRun(mail: seq<Message>, m: Message) returns (t: System)
    requires m.kind.Commit? && m.detail.None?
    ensures Reaches(FirstBegun(mail, m), Turns(0, 9), t) && ReceiptedOnce(t, mail, m)
  {
    var s, landing := FirstBegun(mail, m), Land(Door, "door");
    assert |s.procs| == 1 && s.procs[0].attempt == NativeAttempt(m, 0) && NativeAttempt(m, 0).message == m && landing.carried;
    hide *;
    FirstMeets(mail, m);
    ToTheReceipt(s, 0, Some("claude"), landing);
    t := RunTimes(s, 0, 9);
    FirstShows(mail, m, t);
  }

  /** The first attempt of a run, up to the receipt of a body that the door took. */
  lemma FirstReceipt(mail: seq<Message>, m: Message) returns (steps: seq<Step>, t: System)
    requires m in mail && m.kind.Commit? && m.detail.None?
    ensures Reaches(Initial(mail), steps, t) && ReceiptedOnce(t, mail, m)
  {
    var a, s := NativeAttempt(m, 0), FirstBegun(mail, m);
    assert Allowed(Initial(mail), Spawn(a)) && Next(Initial(mail), Spawn(a)) == s;
    hide *;
    t := FirstRun(mail, m);
    ReachesAfter(Initial(mail), Spawn(a), Turns(0, 9), t);
    steps := [Spawn(a)] + Turns(0, 9);
  }

  /** A crash before the filing, and a second attempt that has just begun. */
  predicate SecondBegun(t: System, mail: seq<Message>, first: Message, second: Message) {
    && t.db == Db(mail, {}, [Row(first.id, first.recipient, Appended, "mailbox", 0),
                             Row(first.id, first.recipient, AcceptedByHarness, "door", 0)], [], {})
    && t.locks == map[]
    && t.procs == [Proc(NativeAttempt(first, 0), Crashed, 0), Proc(NativeAttempt(second, 60001), Start, 0)]
    && t.entries == [EntryOf(NativeAttempt(first, 0), Body, Unfiled)]
  }

  lemma CrashAndRetry(t: System, mail: seq<Message>, first: Message, second: Message) returns (n: System)
    requires ReceiptedOnce(t, mail, first) && first.kind.Commit? && second in mail
    ensures Reaches(t, [Crash(0), Spawn(NativeAttempt(second, 60001))], n) && SecondBegun(n, mail, first, second)
  {
    hide PushOf;
    var crashed := Next(t, Crash(0));
    assert crashed.locks == map[];
    n := Next(crashed, Spawn(NativeAttempt(second, 60001)));
    assert Reaches(n, [], n);
    ReachesAfter(crashed, Spawn(NativeAttempt(second, 60001)), [], n);
    ReachesAfter(t, Crash(0), [Spawn(NativeAttempt(second, 60001))] + [], n);
    assert [Crash(0)] + ([Spawn(NativeAttempt(second, 60001))] + []) == [Crash(0), Spawn(NativeAttempt(second, 60001))];
  }

  predicate DeliveredTwice(s: System, first: Message, second: Message) {
    s.entries == [EntryOf(NativeAttempt(first, 0), Body, Unfiled), EntryOf(NativeAttempt(second, 60001), Body, InHand)]
  }

  lemma SecondMeets(t: System, mail: seq<Message>, first: Message, second: Message)
    requires SecondBegun(t, mail, first, second)
    requires first.id != second.id && second.kind.Commit? && second.detail.None?
    ensures Unhindered(t, 1) && Welcome(t, 1, Some("claude")) && !OnFile(t.db, second)
    ensures t.procs[1].attempt.message == second && Takes(Some("claude"), t.procs[1].attempt.world)
  {
    NativeTakes(t, 1, second, 60001);
    hide Welcome;
  }

  lemma SecondShows(t: System, mail: seq<Message>, first: Message, second: Message, n: System, landing: Landing)
    requires SecondBegun(t, mail, first, second)
    requires Shows(t, 1, 8, Delivered(t, 1, landing)) && n == RunTimes(t, 1, 8)
    ensures Reaches(t, Turns(1, 8), n) && DeliveredTwice(n, first, second)
  {
    hide PushOf;
    hide Reaches;
    hide RunTimes;
    hide Begun;
  }

  lemma SecondRun(t: System, mail: seq<Message>, first: Message, second: Message) returns (n: System)
    requires SecondBegun(t, mail, first, second)
    requires first.id != second.id && second.kind.Commit? && second.detail.None?
    ensures Reaches(t, Turns(1, 8), n) && DeliveredTwice(n, first, second)
  {
    SecondMeets(t, mail, first, second);
    hide *;
    ThroughTheDoor(t, 1, Some("claude"));
    n := RunTimes(t, 1, 8);
    SecondShows(t, mail, first, second, n, PushAtDoor(Some("claude"), second, t.procs[1].attempt.world).landing);
  }

  lemma DeliverTwice(mail: seq<Message>, first: Message, second: Message) returns (steps: seq<Step>, s: System)
    requires first in mail && second in mail && first.id != second.id
    requires first.kind.Commit? && first.detail.None? && second.kind.Commit? && second.detail.None?
    ensures Reaches(Initial(mail), steps, s) && DeliveredTwice(s, first, second)
  {
    hide *;
    var begun, t := FirstReceipt(mail, first);
    var n := CrashAndRetry(t, mail, first, second);
    var crash := [Crash(0), Spawn(NativeAttempt(second, 60001))];
    ReachesJoin(Initial(mail), begun, t, crash, n);
    s := SecondRun(n, mail, first, second);
    ReachesJoin(Initial(mail), begun + crash, n, Turns(1, 8), s);
    steps := begun + crash + Turns(1, 8);
  }

  lemma TwoBodies(s: System, first: Message, second: Message)
    requires DeliveredTwice(s, first, second) && PushOf(first) == PushOf(second)
    ensures |s.entries| == 2 && s.entries[0].fate == Unfiled && s.entries[1].fate == InHand
    ensures forall i :: 0 <= i < 2 ==> s.entries[i].effect == Body && s.entries[i].push == PushOf(first)
  {
    hide PushOf;
  }

  /** One push per head is false of the ladder: for every lane, subscriber and body, a
      run in which the process dies between the receipt and the filing, and the same
      head, mailed again, goes over a second time with no receipt lost. */
  lemma CrashRepeatsPush(sender: string, recipient: string, body: string)
      returns (mail: seq<Message>, steps: seq<Step>, s: System)
    ensures mail == [CommitMail("m-1", sender, recipient, body), CommitMail("m-2", sender, recipient, body)]
    ensures Reaches(Initial(mail), steps, s) && |s.entries| == 2
    ensures forall i :: 0 <= i < 2 ==>
              s.entries[i].effect == Body && s.entries[i].push.Some? && s.entries[i].push == PushOf(mail[0])
    ensures s.entries[0].fate == Unfiled && s.entries[1].fate == InHand
  {
    var first, second := CommitMail("m-1", sender, recipient, body), CommitMail("m-2", sender, recipient, body);
    mail := [first, second];
    assert first.id[2] != second.id[2];
    assert PushOf(first).Some? && PushOf(first) == PushOf(second) by {
      hide CommitRow.CommitHead;
    }
    assert first.kind.Commit? && first.detail.None? && second.kind.Commit? && second.detail.None?;
    assert mail[0] == first && mail[1] == second;
    hide *;
    steps, s := DeliverTwice(mail, first, second);
    TwoBodies(s, first, second);
  }

  // ------------------------------------------------------------------ typed again

  /** The ladder would leave this attempt's text typed at a prompt. */
  predicate LeavesTyped(s: System, p: nat, landing: Landing)
    requires p < |s.procs|
  {
    var a := s.procs[p].attempt;
    Walk(s.db.pushes, a.routes, a.message, a.world) == Lands(landing, Typed)
  }

  /** The line has just been typed. */
  function TypedView(s: System, p: nat, landing: Landing): View
    requires p < |s.procs|
  {
    var a := s.procs[p].attempt;
    View(Begun(s.db, a), s.locks[a.message.recipient := p], Proc(a, Record(landing, Typed, None), |s.entries|),
         s.entries + [EntryOf(a, Typed, InHand)])
  }

  lemma TypesALine(s: System, p: nat, landing: Landing)
    requires Unhindered(s, p) && LeavesTyped(s, p, landing)
    ensures Shows(s, p, 6, TypedView(s, p, landing))
  {
    var a := s.procs[p].attempt;
    ToTheLadder(s, p);
    hide Opening;
    hide PushOf;
    hide Walk;
    hide Unhindered;
    hide Shows;
    assert Act(Begun(s.db, a), a, Decide, false).pc == Record(landing, Typed, None);
    hide Act;
    Effective(s, p, 5, Inside(s, p, Decide), Record(landing, Typed, None));
  }

  /** The tables once the attempt that typed is over. */
  function TypedDb(db: Db, a: Attempt, landing: Landing): Db {
    Logged(Begun(db, a), landing.Receipt(a.message.id, a.message.recipient, a.world.recordAt))
  }

  /** The attempt that typed is over. */
  function TypedOver(s: System, p: nat, landing: Landing): View
    requires p < |s.procs|
  {
    var a := s.procs[p].attempt;
    View(TypedDb(s.db, a, landing), Without(s.locks[a.message.recipient := p], a.message.recipient),
         Proc(a, Done, |s.entries|), s.entries + [EntryOf(a, Typed, Receipted)])
  }

  lemma TypedReceipts(s: System, p: nat, landing: Landing)
    requires p < |s.procs| && Shows(s, p, 6, TypedView(s, p, landing)) && !landing.carried
    ensures Shows(s, p, 8, TypedOver(s, p, landing))
  {
    hide Shows;
    hide Begun;
    hide EntryOf;
    var a := s.procs[p].attempt;
    var locks, entries := s.locks[a.message.recipient := p], s.entries + [EntryOf(a, Typed, Receipted)];
    Receipts(s, p, 6, TypedView(s, p, landing));
    MarkedLast(s.entries, a);
    Releases(s, p, 7, View(TypedDb(s.db, a, landing), locks, Proc(a, Release, |s.entries|), entries));
  }

  lemma MarkedLast(entries: seq<Entry>, a: Attempt)
    ensures Marked(entries + [EntryOf(a, Typed, InHand)], |entries|, Receipted) == entries + [EntryOf(a, Typed, Receipted)]
  {
    hide PushOf;
  }

  lemma TypedEnds(s: System, p: nat, landing: Landing)
    requires Unhindered(s, p) && LeavesTyped(s, p, landing) && !landing.carried
    ensures Shows(s, p, 8, TypedOver(s, p, landing))
  {
    assert p < |s.procs|;
    hide *;
    TypesALine(s, p, landing);
    TypedReceipts(s, p, landing);
  }

  /** A line left typed leaves no row that would stop the next attempt. */
  lemma NothingStops(db: Db, a: Attempt, landing: Landing)
    requires !DeliveryAccepted(db.rows, a.message.id, a.message.recipient)
    requires !NoticePasted(db.rows, a.message.id, a.message.recipient)
    requires Walk(db.pushes, a.routes, a.message, a.world) == Lands(landing, Typed)
    ensures !landing.carried
    ensures var m, rows := a.message, TypedDb(db, a, landing).rows;
            !DeliveryAccepted(rows, m.id, m.recipient) && !NoticePasted(rows, m.id, m.recipient)
  {
    var m := a.message;
    var opening := Row(m.id, m.recipient, Appended, "mailbox", a.world.appendedAt);
    WalkTells(db.pushes, a.routes, m, a.world);
    AcceptedLogged(db.rows, opening, m.id, m.recipient);
    AcceptedLogged(Begun(db, a).rows, landing.Receipt(m.id, m.recipient, a.world.recordAt), m.id, m.recipient);
    hide DeliveryAccepted;
    hide NoticePasted;
    hide HasTransition;
    hide Walk;
    assert Begun(db, a).rows == db.rows || Begun(db, a).rows == db.rows + [opening];
  }

  predicate NoCrash(steps: seq<Step>) {
    forall i :: 0 <= i < |steps| ==> !steps[i].Crash?
  }

  /** Once the attempt that typed is over, the same attempt may begin and type again. */
  lemma TypesOn(s: System, p: nat, landing: Landing) returns (t: System, u: System)
    requires Unhindered(s, p) && LeavesTyped(s, p, landing) && Allowed(s, Spawn(s.procs[p].attempt))
    ensures Reaches(s, Turns(p, 8), t) && Allowed(t, Spawn(s.procs[p].attempt)) && u == Next(t, Spawn(s.procs[p].attempt))
    ensures |u.procs| == |s.procs| + 1 && u.procs[|s.procs|] == Proc(s.procs[p].attempt, Start, 0)
    ensures Unhindered(u, |s.procs|) && LeavesTyped(u, |s.procs|, landing)
    ensures u.entries == s.entries + [EntryOf(s.procs[p].attempt, Typed, Receipted)]
  {
    var a := s.procs[p].attempt;
    NothingStops(s.db, a, landing);
    TypedEnds(s, p, landing);
    hide DeliveryAccepted;
    hide NoticePasted;
    hide Walk;
    hide Opening;
    hide PushOf;
    hide RunTimes;
    hide Reaches;
    t := RunTimes(s, p, 8);
    u := Next(t, Spawn(a));
  }

  lemma TypedRuns(s: System, p: nat, landing: Landing, once: System, again: System) returns (steps: seq<Step>, t: System)
    requires p < |s.procs| < |again.procs|
    requires Reaches(s, Turns(p, 8), once)
    requires Allowed(once, Spawn(s.procs[p].attempt)) && again == Next(once, Spawn(s.procs[p].attempt))
    requires again.procs[|s.procs|] == Proc(s.procs[p].attempt, Start, 0)
    requires again.entries == s.entries + [EntryOf(s.procs[p].attempt, Typed, Receipted)]
    requires Shows(again, |s.procs|, 6, TypedView(again, |s.procs|, landing))
    ensures Reaches(s, steps, t) && NoCrash(steps)
    ensures var a := s.procs[p].attempt;
            t.entries == s.entries + [EntryOf(a, Typed, Receipted), EntryOf(a, Typed, InHand)]
  {
    hide Allowed;
    hide Next;
    hide Reaches;
    hide RunTimes;
    hide PushOf;
    hide Begun;
    var a, q := s.procs[p].attempt, |s.procs|;
    t := RunTimes(again, q, 6);
    ReachesSnoc(s, Turns(p, 8), once, Spawn(a));
    ReachesJoin(s, Turns(p, 8) + [Spawn(a)], again, Turns(q, 6), t);
    steps := Turns(p, 8) + [Spawn(a)] + Turns(q, 6);
  }

  /** A line left typed at a prompt is typed there again by the next attempt in the same
      circumstances: no crash, and no receipt lost. */
  lemma TypesAgain(s: System, p: nat, landing: Landing) returns (steps: seq<Step>, t: System)
    requires Unhindered(s, p) && LeavesTyped(s, p, landing) && Allowed(s, Spawn(s.procs[p].attempt))
    ensures Reaches(s, steps, t) && NoCrash(steps)
    ensures var a := s.procs[p].attempt;
            t.entries == s.entries + [EntryOf(a, Typed, Receipted), EntryOf(a, Typed, InHand)]
  {
    assert p < |s.procs|;
    hide *;
    var once, again := TypesOn(s, p, landing);
    TypesALine(again, |s.procs|, landing);
    steps, t := TypedRuns(s, p, landing, once, again);
  }

  /** A pane of a harness with a submit key takes the text and not the key. */
  function StuckAttempt(m: Message): Attempt {
    Attempt(m, map[m.recipient := Route("native", None, Some(Harness("kimi", true, true)), None)],
            Budget(60000, 300000, 32),
            World(true, 0, 0, 0, 0, None, false, Some("%1"), true, false, Absent, Injected, None, 120000))
  }

  /** From the start of a run: every hail to such a pane can be typed twice. */
  lemma TypedTwice(m: Message) returns (steps: seq<Step>, t: System)
    requires m.kind.Plain?
    ensures Reaches(Initial([m]), steps, t) && NoCrash(steps)
    ensures t.entries == [EntryOf(StuckAttempt(m), Typed, Receipted), EntryOf(StuckAttempt(m), Typed, InHand)]
  {
    var a := StuckAttempt(m);
    var s := Next(Initial([m]), Spawn(a));
    var landing := Land(Mailbox, KEYSTROKES);
    assert Unhindered(s, 0) && LeavesTyped(s, 0, landing) && Allowed(s, Spawn(a));
    var more;
    more, t := TypesAgain(s, 0, landing);
    ReachesAfter(Initial([m]), Spawn(a), more, t);
    steps := [Spawn(a)] + more;
    hide Reaches;
    hide Unhindered;
    hide LeavesTyped;
  }
}
