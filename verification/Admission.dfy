/** Many senders and drains over one ledger: every interleaving of delivery attempts
    that honour the per-route lock, with crashes anywhere. */
module Admission {
  import opened Text
  import opened Ladder
  import CommitRow

  datatype Attempt = Attempt(message: Message, routes: map<string, Route>, budget: Budget, world: World)

  /** What an open gate saw: its clock, its window and allowance, and the body. */
  datatype Gate = Gate(now: nat, window: nat, allowed: nat, body: string)

  /** The gate of an attempt, by its own clock, budget and registry. */
  function GateOf(a: Attempt): Gate {
    Gate(a.world.gateAt, a.budget.window, Allowance(a.budget, a.message.recipient, a.routes), a.message.body)
  }

  /** Where one attempt stands; each value is one indivisible action away from the
      next. */
  datatype Pc =
    | Start
    | Unlocked(held: Landing)
    | Lock
    | CheckAccepted
    | AckAgain
    | CheckPasted
    | Append
    | Decide
    | AtGate(door: Option<string>)
    | PushNow(door: Option<string>, gate: Gate)
    | TripNow(trip: Trip, landing: Landing)
    | Record(landing: Landing, effect: Effect, open: Option<Gate>)
    | Ack
    | CommitNow
    | Release
    | Done
    | Crashed

  predicate Locked(pc: Pc) {
    !(pc.Start? || pc.Unlocked? || pc.Lock? || pc.Done? || pc.Crashed?)
  }

  // ------------------------------------------------------------------ one action

  datatype Move = Move(db: Db, pc: Pc, effect: Effect)

  function Logged(db: Db, row: Row): Db {
    db.(rows := db.rows + [row])
  }

  /** Admission: the reminder, the lock, what the ledger already says. */
  function Admitting(db: Db, a: Attempt, pc: Pc, lockFree: bool): Move {
    var m, w := a.message, a.world;
    match pc
    case Start =>
      Move(db, if w.reminderActive then Lock else Unlocked(ReminderGone()), Nothing)
    case Unlocked(held) => Move(Logged(db, held.Receipt(m.id, m.recipient, w.heldAt)), Done, Nothing)
    case Lock =>
      Move(db, if lockFree then CheckAccepted else Unlocked(LockTaken()), Nothing)
    case CheckAccepted =>
      Move(db, if DeliveryAccepted(db.rows, m.id, m.recipient) then AckAgain else CheckPasted, Nothing)
    case AckAgain => Move(db.(acked := db.acked + {m.id}), Release, Nothing)
    case CheckPasted => Move(db, if NoticePasted(db.rows, m.id, m.recipient) then Release else Append, Nothing)
    case Append =>
      Move(if HasTransition(db.rows, m.id) then db
           else Logged(db, Row(m.id, m.recipient, Appended, "mailbox", w.appendedAt)), Decide, Nothing)
    case _ => Move(db, pc, Nothing)
  }

  /** The ladder, the door, the receipt, and what follows it. */
  function Delivering(db: Db, a: Attempt, pc: Pc): Move {
    var m, w := a.message, a.world;
    match pc
    case Decide =>
      (match Walk(db.pushes, a.routes, m, w)
       case Lands(landing, effect) => Move(db, Record(landing, effect, None), effect)
       case AtDoor(door) => Move(db, AtGate(door), Nothing)
       case Errs => Move(db, Release, Nothing))
    case AtGate(door) =>
      var verdict := DoorVerdict(db, m.recipient, a.routes, m.body, a.budget, w.gateAt);
      var held := Gated(verdict, w.gateAt);
      Move(db.(trips := GateTrips(db.trips, m.recipient, verdict, a.budget, w.gateAt)),
           if held.Some? then Record(held.value, Nothing, None)
           else PushNow(door, GateOf(a)),
           Nothing)
    case PushNow(door, gate) =>
      (match PushAtDoor(door, m, w)
       case Took(landing) => Move(db, Record(landing, Body, Some(gate)), Body)
       case Declined(landing, trip) =>
         Move(db, if trip.Some? then TripNow(trip.value, landing) else Record(landing, Nothing, None), Nothing)
       case PushErrs => Move(db, Release, Nothing))
    case TripNow(trip, landing) => Move(db.(trips := db.trips + [trip]), Record(landing, Nothing, None), Nothing)
    case Record(landing, effect, open) =>
      Move(Logged(db, landing.Receipt(m.id, m.recipient, w.recordAt)), if landing.carried then Ack else Release, Nothing)
    case Ack => Move(db.(acked := db.acked + {m.id}), if m.kind.Commit? then CommitNow else Release, Nothing)
    case CommitNow =>
      Move(db.(pushes := db.pushes + {Push(m.sender, m.recipient, CommitRow.CommitHead(m.body))}), Release, Nothing)
    case Release => Move(db, Done, Nothing)
    case _ => Move(db, pc, Nothing)
  }

  predicate Admits(pc: Pc) {
    pc.Start? || pc.Unlocked? || pc.Lock? || pc.CheckAccepted? || pc.AckAgain? || pc.CheckPasted? || pc.Append?
  }

  /** The next action of an attempt, on the shared tables as it finds them. */
  function Act(db: Db, a: Attempt, pc: Pc, lockFree: bool): Move {
    if Admits(pc) then Admitting(db, a, pc, lockFree) else Delivering(db, a, pc)
  }

  // ----------------------------------------------------------------- the system

  datatype Proc = Proc(attempt: Attempt, pc: Pc, entry: nat)

  /** What became of an effect: its receipt is still to be written, was written, or
      was lost to a crash in between; or the receipt was written and a crash came
      before the commit push was filed. */
  datatype Fate = InHand | Receipted | Lost | Unfiled

  /** One effect: whose, where, of which commit head if any, and its fate. */
  datatype Entry = Entry(id: string, route: string, effect: Effect, push: Option<Push>, fate: Fate)

  function PushOf(m: Message): Option<Push> {
    if m.kind.Commit? then Some(Push(m.sender, m.recipient, CommitRow.CommitHead(m.body))) else None
  }

  /** Which attempt wrote a push row, the gate it went through, and how many trips
      were on record when it was written. */
  datatype Stamp = Stamp(writer: nat, gate: Gate, trips: nat)

  /** The tables, the lock files, every attempt ever started, and three histories:
      the effects, the gate of each ledger row, and the rows the ladder acked. */
  datatype System = System(db: Db, locks: map<string, nat>, procs: seq<Proc>, entries: seq<Entry>,
                           stamps: seq<Option<Stamp>>, acks: set<(string, string)>)

  datatype Step =
    | Spawn(attempt: Attempt)
    | Run(p: nat)
    | Crash(p: nat)
    | Read(id: string)
    | Note(row: Row)

  predicate Neutral(r: Row) {
    !Accepts(r) && !Pastes(r) && !PushDetail(r.detail)
  }

  /** An attempt's message is in the mail, and its clock does not run backwards;
      other writers append rows that neither accept, paste nor push. */
  predicate Allowed(s: System, e: Step) {
    match e
    case Spawn(a) => a.message in s.db.mail && a.world.gateAt <= a.world.recordAt
    case Run(p) => p < |s.procs| && !s.procs[p].pc.Done? && !s.procs[p].pc.Crashed?
    case Crash(p) => p < |s.procs| && !s.procs[p].pc.Done? && !s.procs[p].pc.Crashed?
    case Read(_) => true
    case Note(row) => Neutral(row)
  }

  function Without(locks: map<string, nat>, route: string): map<string, nat> {
    map r | r in locks && r != route :: locks[r]
  }

  function Marked(entries: seq<Entry>, i: nat, fate: Fate): seq<Entry> {
    if i < |entries| then entries[i := entries[i].(fate := fate)] else entries
  }

  predicate HoldsEffect(pc: Pc) {
    pc.Record? && pc.effect != Nothing
  }

  /** Between the receipt of a body and the filing of its commit push. */
  predicate HoldsFiling(a: Attempt, pc: Pc) {
    a.message.kind.Commit? && (pc.Ack? || pc.CommitNow?)
  }

  function RunStep(s: System, p: nat): System
    requires p < |s.procs|
  {
    var proc := s.procs[p];
    var a, pc := proc.attempt, proc.pc;
    var m := a.message;
    var mv := Act(s.db, a, pc, m.recipient !in s.locks);
    System(
      mv.db,
      if pc.Lock? && mv.pc.CheckAccepted? then s.locks[m.recipient := p]
      else if pc.Release? then Without(s.locks, m.recipient)
      else s.locks,
      s.procs[p := Proc(a, mv.pc, if mv.effect != Nothing then |s.entries| else proc.entry)],
      if mv.effect != Nothing then s.entries + [Entry(m.id, m.recipient, mv.effect, PushOf(m), InHand)]
      else if HoldsEffect(pc) then Marked(s.entries, proc.entry, Receipted)
      else s.entries,
      if |mv.db.rows| > |s.db.rows|
      then s.stamps + [if pc.Record? && pc.open.Some? then Some(Stamp(p, pc.open.value, |s.db.trips|)) else None]
      else s.stamps,
      if pc.AckAgain? || pc.Ack? then s.acks + {(m.id, m.recipient)} else s.acks)
  }

  function CrashStep(s: System, p: nat): System
    requires p < |s.procs|
  {
    var proc := s.procs[p];
    s.(procs := s.procs[p := proc.(pc := Crashed)],
       locks := if Locked(proc.pc) then Without(s.locks, proc.attempt.message.recipient) else s.locks,
       entries := if HoldsEffect(proc.pc) then Marked(s.entries, proc.entry, Lost)
                  else if HoldsFiling(proc.attempt, proc.pc) then Marked(s.entries, proc.entry, Unfiled)
                  else s.entries)
  }

  function Next(s: System, e: Step): System
    requires Allowed(s, e)
  {
    match e
    case Spawn(a) => s.(procs := s.procs + [Proc(a, Start, 0)])
    case Run(p) => RunStep(s, p)
    case Crash(p) => CrashStep(s, p)
    case Read(id) => s.(db := s.db.(acked := s.db.acked + {id}))
    case Note(row) => s.(db := Logged(s.db, row), stamps := s.stamps + [None])
  }

  function Initial(mail: seq<Message>): System {
    System(Db(mail, {}, [], [], {}), map[], [], [], [], {})
  }

  /** Every state a run can reach. */
  ghost predicate Reaches(s: System, steps: seq<Step>, t: System)
    decreases |steps|
  {
    if steps == [] then s == t else Allowed(s, steps[0]) && Reaches(Next(s, steps[0]), steps[1..], t)
  }
}
