/** One delivery, start to end: the ladder's own code on the store, shown to be what
    an attempt of the interleaved system does when nobody else moves. */
module Delivery {
  import opened Text
  import opened Ladder
  import opened Admission
  import AdmissionTheorems
  import CommitRow

  /** The tables after a delivery, and the landing it reports; none for an error. */
  datatype Outcome = Outcome(db: Db, landing: Option<Landing>)

  function Rank(pc: Pc): nat {
    match pc
    case Start => 15
    case Lock => 14
    case Unlocked(_) => 13
    case CheckAccepted => 12
    case AckAgain => 11
    case CheckPasted => 10
    case Append => 9
    case Decide => 8
    case AtGate(_) => 7
    case PushNow(_, _) => 6
    case TripNow(_, _) => 5
    case Record(_, _, _) => 4
    case Ack => 3
    case CommitNow => 2
    case Release => 1
    case Done => 0
    case Crashed => 0
  }

  /** The landing an action decides on, if it is the one that does. */
  function Reported(pc: Pc, next: Pc): Option<Landing> {
    match pc
    case Unlocked(held) => Some(held)
    case AckAgain => Some(AcceptedBefore())
    case CheckPasted => if next.Release? then Some(NoticedBefore()) else None
    case Record(landing, _, _) => Some(landing)
    case _ => None
  }

  /** An attempt's actions one after the other, nobody else moving. */
  function Alone(db: Db, a: Attempt, pc: Pc, lockFree: bool): Outcome
    decreases Rank(pc)
  {
    if Rank(pc) == 0 then Outcome(db, None)
    else
      var mv := Act(db, a, pc, lockFree);
      ActDescends(db, a, pc, lockFree);
      var rest := Alone(mv.db, a, mv.pc, lockFree);
      Outcome(rest.db, if Reported(pc, mv.pc).Some? then Reported(pc, mv.pc) else rest.landing)
  }

  lemma ActDescends(db: Db, a: Attempt, pc: Pc, lockFree: bool)
    ensures Rank(pc) > 0 ==> Rank(Act(db, a, pc, lockFree).pc) < Rank(pc)
  {
    hide ReminderGone;
    hide LockTaken;
    hide AcceptedBefore;
    hide NoticedBefore;
    hide Walk;
    hide DoorVerdict;
    hide PushAtDoor;
    hide Gated;
  }

  /** One action that decides nothing yet. */
  lemma Onward(db: Db, a: Attempt, pc: Pc, lockFree: bool, next: Db, nextPc: Pc)
    requires Rank(pc) > 0
    requires Act(db, a, pc, lockFree).db == next && Act(db, a, pc, lockFree).pc == nextPc && Reported(pc, nextPc).None?
    ensures Alone(db, a, pc, lockFree) == Alone(next, a, nextPc, lockFree)
  {
    hide ReminderGone;
    hide LockTaken;
    hide AcceptedBefore;
    hide NoticedBefore;
    hide Act;
    hide Rank;
  }

  lemma Released(db: Db, a: Attempt, lockFree: bool)
    ensures Alone(db, a, Release, lockFree) == Outcome(db, None)
  {
    hide ReminderGone;
    hide LockTaken;
    hide AcceptedBefore;
    hide NoticedBefore;
  }

  /** The action that decides on a landing and leaves only the lock to release, if any. */
  lemma Decided(db: Db, a: Attempt, pc: Pc, lockFree: bool, next: Db, landing: Landing)
    requires Rank(pc) > 0 && Act(db, a, pc, lockFree).db == next
    requires Act(db, a, pc, lockFree).pc == Release || Act(db, a, pc, lockFree).pc == Done
    requires Reported(pc, Act(db, a, pc, lockFree).pc) == Some(landing)
    ensures Alone(db, a, pc, lockFree) == Outcome(next, Some(landing))
  {
    hide ReminderGone;
    hide LockTaken;
    hide AcceptedBefore;
    hide NoticedBefore;
    Released(next, a, lockFree);
    hide Act;
    hide Reported;
  }

  /** The `appended` row a delivery writes for a message without any. */
  function Opening(db: Db, a: Attempt): seq<Row> {
    var m := a.message;
    if HasTransition(db.rows, m.id) then [] else [Row(m.id, m.recipient, Appended, "mailbox", a.world.appendedAt)]
  }

  /** The actions of admission, each on the tables it found. */
  lemma EarlyActs(db: Db, a: Attempt, lockFree: bool)
    ensures var m := a.message;
            && Act(db, a, Start, lockFree).db == db
            && Act(db, a, Start, lockFree).pc == (if a.world.reminderActive then Lock
                                                  else Unlocked(ReminderGone()))
            && Act(db, a, Lock, lockFree).db == db
            && Act(db, a, Lock, lockFree).pc == (if lockFree then CheckAccepted
                                                 else Unlocked(LockTaken()))
            && Act(db, a, CheckAccepted, lockFree).db == db
            && Act(db, a, CheckAccepted, lockFree).pc
               == (if DeliveryAccepted(db.rows, m.id, m.recipient) then AckAgain else CheckPasted)
            && Act(db, a, AckAgain, lockFree).db == db.(acked := db.acked + {m.id})
            && Act(db, a, AckAgain, lockFree).pc == Release
            && Act(db, a, CheckPasted, lockFree).db == db
            && Act(db, a, CheckPasted, lockFree).pc == (if NoticePasted(db.rows, m.id, m.recipient) then Release else Append)
            && Act(db, a, Append, lockFree).db == db.(rows := db.rows + Opening(db, a))
            && Act(db, a, Append, lockFree).pc == Decide
  {
    hide ReminderGone;
    hide LockTaken;
    hide AcceptedBefore;
    hide NoticedBefore;
    hide HasTransition;
    hide DeliveryAccepted;
    hide NoticePasted;
    hide Delivering;
    assert db.rows + [] == db.rows;
  }

  /** An attempt that ends before the lock records its hold. */
  lemma HeldActs(db: Db, a: Attempt, held: Landing, lockFree: bool)
    ensures var mv := Act(db, a, Unlocked(held), lockFree);
            mv.db == Logged(db, held.Receipt(a.message.id, a.message.recipient, a.world.heldAt)) && mv.pc == Done
  {
    hide Delivering;
  }

  // ------------------------------------------------------------------- the store

  class Store {
    var mail: seq<Message>
    var acked: set<string>
    var rows: seq<Row>
    var trips: seq<Trip>
    var pushes: set<Push>

    ghost function State(): Db
      reads this
    {
      Db(mail, acked, rows, trips, pushes)
    }

    constructor (mail: seq<Message>)
      ensures State() == Db(mail, {}, [], [], {})
    {
      this.mail, acked, rows, trips, pushes := mail, {}, [], [], {};
    }

    /** `Landing::record`. */
    method RecordLanding(landing: Landing, m: Message, at: nat)
      modifies this`rows
      ensures rows == old(rows) + [landing.Receipt(m.id, m.recipient, at)]
    {
      rows := rows + [landing.Receipt(m.id, m.recipient, at)];
    }

    /** The budget check with its bookkeeping; none means push. */
    method DoorGate(m: Message, routes: map<string, Route>, budget: Budget, now: nat) returns (held: Option<Landing>)
      modifies this`trips
      ensures var v := DoorVerdict(old(State()), m.recipient, routes, m.body, budget, now);
              held == Gated(v, now) && trips == GateTrips(old(trips), m.recipient, v, budget, now)
      ensures held.None? <==>
                var since := Since(now, budget.window);
                && !CoolingOff(old(trips), m.recipient, now)
                && PushesSince(rows, m.recipient, since) < Allowance(budget, m.recipient, routes)
                && !PushedBodySince(rows, mail, m.recipient, m.body, since)
      ensures held.Some? && !CoolingOff(old(trips), m.recipient, now) && now < U64_MAX ==>
                forall t: nat :: CoolingOff(trips, m.recipient, t) <==> t < now + budget.cooldown && t < U64_MAX
    {
      GateOpensIff(State(), m.recipient, routes, m.body, budget, now);
      ghost var db := State();
      var verdict := DoorVerdict(Db(mail, acked, rows, trips, pushes), m.recipient, routes, m.body, budget, now);
      match verdict {
        case Open => held := None;
        case Cooling(until) =>
          held := Some(Land(CoolOff, "cooling off for " + Decimal(SaturatingSub(until, now) / 1000) + "s more"));
        case Blowout(_, _, why) =>
          trips := trips + [Trip(m.recipient, now, budget.cooldown, why)];
          held := Some(Land(CoolOff, why));
          if now < U64_MAX {
            forall t: nat {
              BlowoutCools(db, m.recipient, routes, m.body, budget, now, t);
            }
          }
      }
    }

    /** The ladder itself: where this message lands, trips written on the way. */
    method WalkAndPush(a: Attempt) returns (landing: Option<Landing>)
      modifies this`trips
      ensures Alone(old(State()), a, Decide, true)
           == if landing.Some? then Alone(State(), a, Record(landing.value, Nothing, None), true) else Outcome(State(), None)
    {
      hide Alone;
      hide Walk;
      hide DoorVerdict;
      hide PushAtDoor;
      hide Gated;
      hide GateTrips;
      var m, w := a.message, a.world;
      var stop := Walk(pushes, a.routes, m, w);
      ghost var db := State();
      match stop {
        case Lands(landed, effect) =>
          Onward(db, a, Decide, true, db, Record(landed, effect, None));
          RecordAlike(db, a, landed, effect, None);
          return Some(landed);
        case Errs =>
          Onward(db, a, Decide, true, db, Release);
          Released(db, a, true);
          return None;
        case AtDoor(door) =>
          var held := DoorGate(m, a.routes, a.budget, w.gateAt);
          ghost var gated := State();
          Onward(db, a, Decide, true, db, AtGate(door));
          if held.Some? {
            Onward(db, a, AtGate(door), true, gated, Record(held.value, Nothing, None));
            return held;
          }
          ghost var gate := GateOf(a);
          Onward(db, a, AtGate(door), true, gated, PushNow(door, gate));
          var pushed := PushAtDoor(door, m, w);
          match pushed {
            case Took(landed) =>
              Onward(gated, a, PushNow(door, gate), true, gated, Record(landed, Body, Some(gate)));
              RecordAlike(gated, a, landed, Body, Some(gate));
              return Some(landed);
            case PushErrs =>
              Onward(gated, a, PushNow(door, gate), true, gated, Release);
              Released(gated, a, true);
              return None;
            case Declined(landed, trip) =>
              if trip.Some? {
                trips := trips + [trip.value];
                Onward(gated, a, PushNow(door, gate), true, gated, TripNow(trip.value, landed));
                Onward(gated, a, TripNow(trip.value, landed), true, State(), Record(landed, Nothing, None));
              } else {
                Onward(gated, a, PushNow(door, gate), true, gated, Record(landed, Nothing, None));
              }
              return Some(landed);
          }
      }
    }

    /** Admission: the attempt ends here, or goes on to the ladder with the lock. */
    method Admit(a: Attempt, lockFree: bool) returns (landing: Option<Landing>)
      modifies this`rows, this`acked
      ensures landing.Some? ==> Outcome(State(), landing) == Alone(old(State()), a, Start, lockFree)
      ensures landing.None? ==> Alone(old(State()), a, Start, lockFree) == Alone(State(), a, Decide, true)
    {
      hide ReminderGone;
      hide LockTaken;
      hide AcceptedBefore;
      hide NoticedBefore;
      hide Alone;
      hide Act;
      hide HasTransition;
      hide DeliveryAccepted;
      hide NoticePasted;
      var m, w := a.message, a.world;
      ghost var db := State();
      EarlyActs(db, a, lockFree);
      EarlyActs(db, a, true);
      if !w.reminderActive {
        var held := ReminderGone();
        RecordLanding(held, m, w.heldAt);
        Onward(db, a, Start, lockFree, db, Unlocked(held));
        HeldActs(db, a, held, lockFree);
        Decided(db, a, Unlocked(held), lockFree, State(), held);
        return Some(held);
      }
      Onward(db, a, Start, lockFree, db, Lock);
      if !lockFree {
        var held := LockTaken();
        RecordLanding(held, m, w.heldAt);
        Onward(db, a, Lock, lockFree, db, Unlocked(held));
        HeldActs(db, a, held, lockFree);
        Decided(db, a, Unlocked(held), lockFree, State(), held);
        return Some(held);
      }
      Onward(db, a, Lock, true, db, CheckAccepted);
      if DeliveryAccepted(rows, m.id, m.recipient) {
        acked := acked + {m.id};
        Onward(db, a, CheckAccepted, true, db, AckAgain);
        landing := Some(AcceptedBefore());
        Decided(db, a, AckAgain, true, State(), landing.value);
        return;
      }
      Onward(db, a, CheckAccepted, true, db, CheckPasted);
      if NoticePasted(rows, m.id, m.recipient) {
        landing := Some(NoticedBefore());
        Decided(db, a, CheckPasted, true, db, landing.value);
        return;
      }
      Onward(db, a, CheckPasted, true, db, Append);
      if !HasTransition(rows, m.id) {
        rows := rows + [Row(m.id, m.recipient, Appended, "mailbox", w.appendedAt)];
      }
      Onward(db, a, Append, true, State(), Decide);
      return None;
    }

    /** `deliver_hail_budgeted`: the same tables and the same answer as the attempt's
        own actions, run from the start with the lock free or taken. */
    method DeliverHail(a: Attempt, lockFree: bool) returns (landing: Option<Landing>)
      modifies this
      ensures Outcome(State(), landing) == Alone(old(State()), a, Start, lockFree)
      ensures !Admitted(old(State()), a, lockFree) ==> StoppedEarly(old(State()), a, lockFree, Outcome(State(), landing))
      ensures Admitted(old(State()), a, lockFree) ==> LandedShort(old(State()), a, Outcome(State(), landing))
      ensures lockFree ==> forall door :: AtOpenDoor(old(State()), a, door)
                                     ==> Answered(old(State()), a, door, Outcome(State(), landing))
    {
      hide Alone;
      if !Admitted(State(), a, lockFree) {
        EarlyAlone(State(), a, lockFree);
      } else {
        ShortAlone(State(), a);
      }
      hide Admitted;
      hide StoppedEarly;
      hide LandedShort;
      forall door | lockFree && AtOpenDoor(State(), a, door)
        ensures Answered(State(), a, door, Alone(State(), a, Start, true))
      {
        DoorAnswers(State(), a, door);
      }
      hide AtOpenDoor;
      hide Answered;
      landing := Admit(a, lockFree);
      if landing.Some? {
        return;
      }
      landing := WalkAndPush(a);
      if landing.None? {
        return;
      }
      ghost var walked := State();
      var m := a.message;
      RecordLanding(landing.value, m, a.world.recordAt);
      if landing.value.carried {
        acked := acked + {m.id};
        if m.kind.Commit? {
          pushes := pushes + {Push(m.sender, m.recipient, CommitRow.CommitHead(m.body))};
        }
      }
      RecordEnds(walked, a, landing.value);
    }
  }

  /** What follows a landing does not depend on its effect or its gate. */
  lemma RecordAlike(db: Db, a: Attempt, landing: Landing, effect: Effect, open: Option<Gate>)
    ensures Alone(db, a, Record(landing, effect, open), true) == Alone(db, a, Record(landing, Nothing, None), true)
  {
    hide Admitting;
    hide ReminderGone;
    hide LockTaken;
    hide AcceptedBefore;
    hide NoticedBefore;
    ghost var mv := Act(db, a, Record(landing, Nothing, None), true);
    assert Act(db, a, Record(landing, effect, open), true) == mv;
  }

  /** The receipt, then the ack, then the commit push. */
  function Settled(db: Db, a: Attempt, landing: Landing): Db {
    var m := a.message;
    var logged := Logged(db, landing.Receipt(m.id, m.recipient, a.world.recordAt));
    if !landing.carried then logged
    else if m.kind.Commit? then
      logged.(acked := db.acked + {m.id},
              pushes := db.pushes + {Push(m.sender, m.recipient, CommitRow.CommitHead(m.body))})
    else logged.(acked := db.acked + {m.id})
  }

  lemma RecordEnds(db: Db, a: Attempt, landing: Landing)
    ensures Alone(db, a, Record(landing, Nothing, None), true) == Outcome(Settled(db, a, landing), Some(landing))
  {
    hide Admitting;
    hide ReminderGone;
    hide LockTaken;
    hide AcceptedBefore;
    hide NoticedBefore;
    var m := a.message;
    var logged := Logged(db, landing.Receipt(m.id, m.recipient, a.world.recordAt));
    if landing.carried {
      var acked := logged.(acked := db.acked + {m.id});
      assert Act(logged, a, Ack, true).db == acked;
      if m.kind.Commit? {
        var filed := acked.(pushes := db.pushes + {Push(m.sender, m.recipient, CommitRow.CommitHead(m.body))});
        assert Alone(filed, a, Release, true) == Outcome(filed, None);
        assert Alone(acked, a, CommitNow, true) == Outcome(filed, None);
        assert Alone(logged, a, Ack, true) == Outcome(filed, None);
      } else {
        assert Alone(acked, a, Release, true) == Outcome(acked, None);
        assert Alone(logged, a, Ack, true) == Outcome(acked, None);
      }
    } else {
      assert Alone(logged, a, Release, true) == Outcome(logged, None);
    }
  }

  // ------------------------------------------------- the shape of a delivery

  /** A landing the ladder makes: only a carried body reads as a push, and only a
      pane that took the body overrides its rung's state. */
  predicate WellMade(l: Landing) {
    && (PushDetail(l.detail) ==> l.carried)
    && ByItsRung(l)
  }

  predicate ByItsRung(l: Landing) {
    if l.state.Some? then l.rung.PanePaste? && l.state == Some(AcceptedByHarness) && l.carried
    else l.carried <==> l.rung.CarriedTheBody()
  }

  /** From the ladder on: trips at most, then the landing settled. */
  lemma DecideAlone(db: Db, a: Attempt) returns (landing: Option<Landing>, trips: seq<Trip>)
    ensures landing.None? ==> Alone(db, a, Decide, true) == Outcome(db.(trips := trips), None)
    ensures landing.Some? ==> WellMade(landing.value)
                              && Alone(db, a, Decide, true) == Outcome(Settled(db.(trips := trips), a, landing.value), landing)
  {
    hide ReminderGone;
    hide LockTaken;
    hide AcceptedBefore;
    hide NoticedBefore;
    hide Alone;
    hide Walk;
    hide DoorVerdict;
    hide PushAtDoor;
    hide PushDetail;
    hide Settled;
    var m, w := a.message, a.world;
    WalkTells(db.pushes, a.routes, m, w);
    WalkStates(db.pushes, a.routes, m, w);
    trips := db.trips;
    match Walk(db.pushes, a.routes, m, w)
    case Lands(landed, effect) =>
      landing := Some(landed);
      Onward(db, a, Decide, true, db, Record(landed, effect, None));
      RecordAlike(db, a, landed, effect, None);
      RecordEnds(db, a, landed);
    case Errs =>
      landing := None;
      Onward(db, a, Decide, true, db, Release);
      Released(db, a, true);
    case AtDoor(door) =>
      Onward(db, a, Decide, true, db, AtGate(door));
      landing, trips := GateAlone(db, a, door);
  }

  lemma GateAlone(db: Db, a: Attempt, door: Option<string>) returns (landing: Option<Landing>, trips: seq<Trip>)
    ensures landing.None? ==> Alone(db, a, AtGate(door), true) == Outcome(db.(trips := trips), None)
    ensures landing.Some? ==> WellMade(landing.value)
                              && Alone(db, a, AtGate(door), true) == Outcome(Settled(db.(trips := trips), a, landing.value), landing)
  {
    hide Admitting;
    hide TransportFailure;
    hide GateOf;
    hide ReminderGone;
    hide LockTaken;
    hide AcceptedBefore;
    hide NoticedBefore;
    hide Alone;
    hide DoorVerdict;
    hide PushAtDoor;
    hide PushDetail;
    hide Settled;
    var m, w := a.message, a.world;
    var verdict := DoorVerdict(db, m.recipient, a.routes, m.body, a.budget, w.gateAt);
    var held := Gated(verdict, w.gateAt);
    trips := GateTrips(db.trips, m.recipient, verdict, a.budget, w.gateAt);
    var gated := db.(trips := trips);
    if held.Some? {
      GateTells(db, m.recipient, a.routes, m.body, a.budget, w.gateAt);
      landing := held;
      Onward(db, a, AtGate(door), true, gated, Record(held.value, Nothing, None));
      RecordEnds(gated, a, held.value);
    } else {
      var gate := GateOf(a);
      Onward(db, a, AtGate(door), true, gated, PushNow(door, gate));
      PushTells(door, m, w);
      PushStates(door, m, w);
      match PushAtDoor(door, m, w)
      case Took(landed) =>
        landing := Some(landed);
        Onward(gated, a, PushNow(door, gate), true, gated, Record(landed, Body, Some(gate)));
        RecordAlike(gated, a, landed, Body, Some(gate));
        RecordEnds(gated, a, landed);
      case PushErrs =>
        landing := None;
        Onward(gated, a, PushNow(door, gate), true, gated, Release);
        Released(gated, a, true);
      case Declined(landed, trip) =>
        landing := Some(landed);
        if trip.Some? {
          Onward(gated, a, PushNow(door, gate), true, gated, TripNow(trip.value, landed));
          trips := trips + [trip.value];
          Onward(gated, a, TripNow(trip.value, landed), true, db.(trips := trips), Record(landed, Nothing, None));
        } else {
          Onward(gated, a, PushNow(door, gate), true, gated, Record(landed, Nothing, None));
        }
        RecordEnds(db.(trips := trips), a, landed);
    }
  }

  lemma WalkStates(pushes: set<Push>, routes: map<string, Route>, m: Message, w: World)
    ensures var s := Walk(pushes, routes, m, w);
            s.Lands? ==> ByItsRung(s.landing)
  {
    hide CommitByDoor;
    hide CommitRow.CommitHead;
  }

  lemma PushStates(door: Option<string>, m: Message, w: World)
    ensures var p := PushAtDoor(door, m, w);
            (p.Took? || p.Declined?) ==> ByItsRung(p.landing)
  {
    hide TransportFailure;
  }

  /** What a delivery can do to the mailbox and the ledger. */
  datatype Shape =
    | Refused(at: nat)   // a row for a lost reminder or a taken lock
    | Repeated           // nothing but, perhaps, the ack
    | Failed             // an error, after the opening row
    | Landed             // the opening row and the receipt

  ghost predicate Shaped(db: Db, a: Attempt, o: Outcome, shape: Shape) {
    var m := a.message;
    && o.db.mail == db.mail
    && (shape.Failed? <==> o.landing.None?)
    && (o.landing.Some? ==> WellMade(o.landing.value))
    && match shape
       case Refused(at) =>
         && !o.landing.value.carried && o.db.acked == db.acked
         && o.db.rows == db.rows + [o.landing.value.Receipt(m.id, m.recipient, at)]
       case Repeated =>
         && o.db.rows == db.rows && (o.landing.value.rung == AlreadyAccepted || o.landing.value.rung == PanePaste)
         && o.db.acked == if o.landing.value.carried then db.acked + {m.id} else db.acked
       case Failed => o.db.rows == db.rows + Opening(db, a) && o.db.acked == db.acked
       case Landed =>
         && o.db.rows == db.rows + Opening(db, a) + [o.landing.value.Receipt(m.id, m.recipient, a.world.recordAt)]
         && o.db.acked == if o.landing.value.carried then db.acked + {m.id} else db.acked
  }

  lemma HeldAlone(db: Db, a: Attempt, pc: Pc, held: Landing, lockFree: bool)
    requires Rank(pc) > 0 && Reported(pc, Unlocked(held)).None?
    requires Act(db, a, pc, lockFree).db == db && Act(db, a, pc, lockFree).pc == Unlocked(held)
    ensures Alone(db, a, pc, lockFree)
         == Outcome(Logged(db, held.Receipt(a.message.id, a.message.recipient, a.world.heldAt)), Some(held))
  {
    HeldActs(db, a, held, lockFree);
    hide Alone;
    hide Act;
    Onward(db, a, pc, lockFree, db, Unlocked(held));
    Decided(db, a, Unlocked(held), lockFree, Logged(db, held.Receipt(a.message.id, a.message.recipient, a.world.heldAt)), held);
  }

  lemma HeldShape(db: Db, a: Attempt, held: Landing)
    requires WellMade(held) && !held.carried
    ensures Shaped(db, a, Outcome(Logged(db, held.Receipt(a.message.id, a.message.recipient, a.world.heldAt)), Some(held)),
                   Refused(a.world.heldAt))
  {
    hide WellMade;
  }

  lemma LockedAlone(db: Db, a: Attempt)
    requires a.world.reminderActive
    ensures Alone(db, a, Start, true) == Alone(db, a, CheckAccepted, true)
  {
    EarlyActs(db, a, true);
    hide Alone;
    hide Act;
    hide Opening;
    hide DeliveryAccepted;
    hide NoticePasted;
    Onward(db, a, Start, true, db, Lock);
    Onward(db, a, Lock, true, db, CheckAccepted);
  }

  /** The hold of an attempt that does not get the lock. */
  function EarlyHold(a: Attempt): Landing {
    if a.world.reminderActive then LockTaken() else ReminderGone()
  }

  lemma UnlockedAlone(db: Db, a: Attempt, lockFree: bool)
    requires !(a.world.reminderActive && lockFree)
    ensures Alone(db, a, Start, lockFree)
         == Outcome(Logged(db, EarlyHold(a).Receipt(a.message.id, a.message.recipient, a.world.heldAt)), Some(EarlyHold(a)))
  {
    EarlyActs(db, a, lockFree);
    hide Alone;
    hide Act;
    hide DeliveryAccepted;
    hide NoticePasted;
    hide Opening;
    hide ReminderGone;
    hide LockTaken;
    if !a.world.reminderActive {
      HeldAlone(db, a, Start, ReminderGone(), lockFree);
    } else {
      Onward(db, a, Start, lockFree, db, Lock);
      HeldAlone(db, a, Lock, LockTaken(), lockFree);
    }
  }

  lemma EarlyHoldIsMade(a: Attempt)
    ensures WellMade(EarlyHold(a)) && !EarlyHold(a).carried
  {
    HeldDetails();
    hide PushDetail;
  }

  lemma DeliveryShape(db: Db, a: Attempt, lockFree: bool) returns (shape: Shape)
    ensures Shaped(db, a, Alone(db, a, Start, lockFree), shape)
  {
    hide Alone;
    hide Shaped;
    hide WellMade;
    hide EarlyHold;
    if a.world.reminderActive && lockFree {
      LockedAlone(db, a);
      shape := LockedShape(db, a);
    } else {
      UnlockedAlone(db, a, lockFree);
      EarlyHoldIsMade(a);
      HeldShape(db, a, EarlyHold(a));
      shape := Refused(a.world.heldAt);
    }
  }

  lemma LockedShape(db: Db, a: Attempt) returns (shape: Shape)
    ensures Shaped(db, a, Alone(db, a, CheckAccepted, true), shape)
  {
    hide ReminderGone;
    hide LockTaken;
    hide AcceptedBefore;
    hide NoticedBefore;
    hide Alone;
    hide Act;
    hide PushDetail;
    hide HasTransition;
    hide DeliveryAccepted;
    hide NoticePasted;
    EarlyActs(db, a, true);
    var m := a.message;
    if DeliveryAccepted(db.rows, m.id, m.recipient) {
      Onward(db, a, CheckAccepted, true, db, AckAgain);
      Decided(db, a, AckAgain, true, db.(acked := db.acked + {m.id}),
              AcceptedBefore());
      RepeatedDetails();
      return Repeated;
    }
    Onward(db, a, CheckAccepted, true, db, CheckPasted);
    if NoticePasted(db.rows, m.id, m.recipient) {
      Decided(db, a, CheckPasted, true, db, NoticedBefore());
      RepeatedDetails();
      return Repeated;
    }
    Onward(db, a, CheckPasted, true, db, Append);
    var begun := db.(rows := db.rows + Opening(db, a));
    Onward(db, a, Append, true, begun, Decide);
    var landing, trips := DecideAlone(begun, a);
    return if landing.Some? then Landed else Failed;
  }

  lemma RepeatedDetails()
    ensures WellMade(AcceptedBefore())
    ensures WellMade(NoticedBefore())
    ensures AcceptedBefore().rung == AlreadyAccepted && NoticedBefore().rung == PanePaste
    ensures AcceptedBefore().carried && !NoticedBefore().carried
  {
    assert NoticedBefore().detail[0] == 'p';
  }

  /** Where an attempt stands once its push is answered. */
  function AfterPush(pushed: Pushed, gate: Gate): Pc {
    match pushed
    case Took(landing) => Record(landing, Body, Some(gate))
    case Declined(landing, trip) => if trip.Some? then TripNow(trip.value, landing) else Record(landing, Nothing, None)
    case PushErrs => Release
  }

  /** The actions from the ladder to the answer of a push at an open door. */
  lemma DoorActs(db: Db, a: Attempt, door: Option<string>)
    requires var m, w := a.message, a.world;
             && Walk(db.pushes, a.routes, m, w) == AtDoor(door)
             && DoorVerdict(db, m.recipient, a.routes, m.body, a.budget, w.gateAt).Open?
    ensures Act(db, a, Decide, true).db == db && Act(db, a, Decide, true).pc == AtGate(door)
    ensures Act(db, a, AtGate(door), true).db == db && Act(db, a, AtGate(door), true).pc == PushNow(door, GateOf(a))
    ensures var mv := Act(db, a, PushNow(door, GateOf(a)), true);
            mv.db == db && mv.pc == AfterPush(PushAtDoor(door, a.message, a.world), GateOf(a))
  {
    hide Admitting;
    hide Walk;
    hide DoorVerdict;
    hide PushAtDoor;
    hide GateOf;
    hide CommitRow.CommitHead;
  }

  lemma TripActs(db: Db, a: Attempt, trip: Trip, landing: Landing)
    ensures var mv := Act(db, a, TripNow(trip, landing), true);
            mv.db == db.(trips := db.trips + [trip]) && mv.pc == Record(landing, Nothing, None)
  {
    hide Admitting;
    hide Walk;
    hide DoorVerdict;
    hide PushAtDoor;
  }

  lemma AdmittedAlone(db: Db, a: Attempt)
    requires var m := a.message;
             a.world.reminderActive && !DeliveryAccepted(db.rows, m.id, m.recipient) && !NoticePasted(db.rows, m.id, m.recipient)
    ensures Alone(db, a, Start, true) == Alone(db.(rows := db.rows + Opening(db, a)), a, Decide, true)
  {
    LockedAlone(db, a);
    EarlyActs(db, a, true);
    hide Alone;
    hide Act;
    hide Opening;
    hide DeliveryAccepted;
    hide NoticePasted;
    hide ReminderGone;
    hide LockTaken;
    hide AcceptedBefore;
    hide NoticedBefore;
    Onward(db, a, CheckAccepted, true, db, CheckPasted);
    Onward(db, a, CheckPasted, true, db, Append);
    Onward(db, a, Append, true, db.(rows := db.rows + Opening(db, a)), Decide);
  }

  lemma ReachesPush(db: Db, a: Attempt, door: Option<string>)
    requires var m, w := a.message, a.world;
             && Walk(db.pushes, a.routes, m, w) == AtDoor(door)
             && DoorVerdict(db, m.recipient, a.routes, m.body, a.budget, w.gateAt).Open?
    ensures Alone(db, a, Decide, true) == Alone(db, a, AfterPush(PushAtDoor(door, a.message, a.world), GateOf(a)), true)
  {
    DoorActs(db, a, door);
    hide Alone;
    hide Act;
    hide Walk;
    hide DoorVerdict;
    hide PushAtDoor;
    hide GateOf;
    hide AfterPush;
    Onward(db, a, Decide, true, db, AtGate(door));
    Onward(db, a, AtGate(door), true, db, PushNow(door, GateOf(a)));
    Onward(db, a, PushNow(door, GateOf(a)), true, db, AfterPush(PushAtDoor(door, a.message, a.world), GateOf(a)));
  }

  /** From the answer on: a failure's trip, then the landing settled. */
  function PushOutcome(db: Db, a: Attempt, pushed: Pushed): Outcome {
    match pushed
    case Took(landing) => Outcome(Settled(db, a, landing), Some(landing))
    case Declined(landing, trip) =>
      Outcome(Settled(db.(trips := db.trips + if trip.Some? then [trip.value] else []), a, landing), Some(landing))
    case PushErrs => Outcome(db, None)
  }

  lemma AfterPushAlone(db: Db, a: Attempt, pushed: Pushed, gate: Gate)
    ensures Alone(db, a, AfterPush(pushed, gate), true) == PushOutcome(db, a, pushed)
  {
    hide Alone;
    hide Settled;
    hide Act;
    match pushed
    case Took(landing) =>
      RecordAlike(db, a, landing, Body, Some(gate));
      RecordEnds(db, a, landing);
    case Declined(landing, trip) =>
      assert db.trips + [] == db.trips;
      if trip.Some? {
        TripActs(db, a, trip.value, landing);
        var tripped := db.(trips := db.trips + [trip.value]);
        Onward(db, a, TripNow(trip.value, landing), true, tripped, Record(landing, Nothing, None));
        RecordEnds(tripped, a, landing);
      } else {
        RecordEnds(db, a, landing);
      }
    case PushErrs => Released(db, a, true);
  }

  /** What admission alone comes to: a lost reminder or a taken lock is a hold, written
      at once; an earlier receipt is acked again and an earlier notice is left alone. */
  ghost predicate StoppedEarly(db: Db, a: Attempt, lockFree: bool, o: Outcome) {
    var m, w := a.message, a.world;
    && o.landing.Some?
    && if !w.reminderActive then
         o.landing.value.rung.MailboxOnly? && !o.landing.value.carried
         && o.db == Logged(db, Row(m.id, m.recipient, HeldInMailbox, "reminder cancelled or expired", w.heldAt))
       else if !lockFree then
         o.landing.value.rung.Mailbox? && !o.landing.value.carried
         && o.db == Logged(db, Row(m.id, m.recipient, HeldInMailbox, "another delivery attempt is in flight", w.heldAt))
       else if DeliveryAccepted(db.rows, m.id, m.recipient) then
         o.landing.value.rung.AlreadyAccepted? && o.landing.value.carried && o.db == db.(acked := db.acked + {m.id})
       else o.landing.value.rung.PanePaste? && !o.landing.value.carried && o.db == db
  }

  /** Admission lets the attempt through to the ladder. */
  predicate Admitted(db: Db, a: Attempt, lockFree: bool) {
    && a.world.reminderActive && lockFree
    && !DeliveryAccepted(db.rows, a.message.id, a.message.recipient) && !NoticePasted(db.rows, a.message.id, a.message.recipient)
  }

  lemma RepeatedAlone(db: Db, a: Attempt)
    requires var m := a.message; DeliveryAccepted(db.rows, m.id, m.recipient) || NoticePasted(db.rows, m.id, m.recipient)
    ensures Alone(db, a, CheckAccepted, true)
         == if DeliveryAccepted(db.rows, a.message.id, a.message.recipient)
            then Outcome(db.(acked := db.acked + {a.message.id}), Some(AcceptedBefore()))
            else Outcome(db, Some(NoticedBefore()))
  {
    var m := a.message;
    EarlyActs(db, a, true);
    hide Alone;
    hide Act;
    hide DeliveryAccepted;
    hide NoticePasted;
    hide Opening;
    hide AcceptedBefore;
    hide NoticedBefore;
    if DeliveryAccepted(db.rows, m.id, m.recipient) {
      Onward(db, a, CheckAccepted, true, db, AckAgain);
      Decided(db, a, AckAgain, true, db.(acked := db.acked + {m.id}), AcceptedBefore());
    } else {
      Onward(db, a, CheckAccepted, true, db, CheckPasted);
      Decided(db, a, CheckPasted, true, db, NoticedBefore());
    }
  }

  lemma EarlyAlone(db: Db, a: Attempt, lockFree: bool)
    requires !Admitted(db, a, lockFree)
    ensures StoppedEarly(db, a, lockFree, Alone(db, a, Start, lockFree))
  {
    hide Alone;
    hide DeliveryAccepted;
    hide NoticePasted;
    if a.world.reminderActive && lockFree {
      LockedAlone(db, a);
      RepeatedAlone(db, a);
    } else {
      UnlockedAlone(db, a, lockFree);
    }
  }

  /** What the ladder comes to short of a push: its landing or its error on the opened
      tables, or the cool-off of a gate that does not open, with its trip if fresh. */
  ghost predicate LandedShort(db: Db, a: Attempt, o: Outcome) {
    var m, w, begun := a.message, a.world, db.(rows := db.rows + Opening(db, a));
    match Walk(db.pushes, a.routes, m, w)
    case Lands(landing, _) => o == Outcome(Settled(begun, a, landing), Some(landing))
    case Errs => o == Outcome(begun, None)
    case AtDoor(_) =>
      var verdict := DoorVerdict(begun, m.recipient, a.routes, m.body, a.budget, w.gateAt);
      verdict.Open?
      || (o.landing == Gated(verdict, w.gateAt) && o.landing.Some? && o.landing.value.rung.CoolOff?
          && o.db == Settled(begun.(trips := GateTrips(db.trips, m.recipient, verdict, a.budget, w.gateAt)), a, o.landing.value))
  }

  lemma ShortAlone(db: Db, a: Attempt)
    requires Admitted(db, a, true)
    ensures LandedShort(db, a, Alone(db, a, Start, true))
  {
    var m, w, begun := a.message, a.world, db.(rows := db.rows + Opening(db, a));
    AdmittedAlone(db, a);
    hide Alone;
    hide Walk;
    hide DoorVerdict;
    hide PushAtDoor;
    hide Opening;
    hide Settled;
    hide Admitted;
    match Walk(db.pushes, a.routes, m, w)
    case Lands(landing, effect) =>
      Onward(begun, a, Decide, true, begun, Record(landing, effect, None));
      RecordAlike(begun, a, landing, effect, None);
      RecordEnds(begun, a, landing);
    case Errs =>
      Onward(begun, a, Decide, true, begun, Release);
      Released(begun, a, true);
    case AtDoor(door) =>
      if !DoorVerdict(begun, m.recipient, a.routes, m.body, a.budget, w.gateAt).Open? {
        GatedAlone(begun, a, door);
      }
  }

  lemma GatedAlone(db: Db, a: Attempt, door: Option<string>)
    requires var m, w := a.message, a.world;
             && Walk(db.pushes, a.routes, m, w) == AtDoor(door)
             && !DoorVerdict(db, m.recipient, a.routes, m.body, a.budget, w.gateAt).Open?
    ensures var m, w := a.message, a.world;
            var verdict := DoorVerdict(db, m.recipient, a.routes, m.body, a.budget, w.gateAt);
            var held := Gated(verdict, w.gateAt);
            var gated := db.(trips := GateTrips(db.trips, m.recipient, verdict, a.budget, w.gateAt));
            && held.Some? && held.value.rung.CoolOff?
            && Alone(db, a, Decide, true) == Outcome(Settled(gated, a, held.value), held)
  {
    var m, w := a.message, a.world;
    var verdict := DoorVerdict(db, m.recipient, a.routes, m.body, a.budget, w.gateAt);
    var held := Gated(verdict, w.gateAt);
    var gated := db.(trips := GateTrips(db.trips, m.recipient, verdict, a.budget, w.gateAt));
    assert held.Some? && held.value.rung.CoolOff?;
    hide Alone;
    hide Walk;
    hide DoorVerdict;
    hide Gated;
    hide GateTrips;
    hide Settled;
    Onward(db, a, Decide, true, db, AtGate(door));
    Onward(db, a, AtGate(door), true, gated, Record(held.value, Nothing, None));
    RecordEnds(gated, a, held.value);
  }

  /** The delivery of a message that nothing in admission stops, at this door, open. */
  ghost predicate AtOpenDoor(db: Db, a: Attempt, door: Option<string>) {
    var m, w, begun := a.message, a.world, db.(rows := db.rows + Opening(db, a));
    && Admitted(db, a, true)
    && Walk(db.pushes, a.routes, m, w) == AtDoor(door)
    && DoorVerdict(begun, m.recipient, a.routes, m.body, a.budget, w.gateAt).Open?
  }

  /** The body went over: the opening row, this receipt, the ack and, of a commit, its
      filing, and nothing else. */
  ghost predicate WentOver(db: Db, a: Attempt, o: Outcome, outcome: DeliveryState, detail: string) {
    var m := a.message;
    && o.landing.Some? && o.landing.value.carried
    && o.db == Db(db.mail, db.acked + {m.id},
                  db.rows + (if HasTransition(db.rows, m.id) then []
                             else [Row(m.id, m.recipient, Appended, "mailbox", a.world.appendedAt)])
                          + [Row(m.id, m.recipient, outcome, detail, a.world.recordAt)], db.trips,
                  db.pushes + if m.kind.Commit? then {Push(m.sender, m.recipient, CommitRow.CommitHead(m.body))} else {})
  }

  /** The body was turned away: the opening row, this hold and these trips. */
  ghost predicate TurnedAway(db: Db, a: Attempt, o: Outcome, outcome: DeliveryState, detail: string, trips: seq<Trip>) {
    var m := a.message;
    && o.landing.Some? && !o.landing.value.carried
    && o.db == Db(db.mail, db.acked,
                  db.rows + (if HasTransition(db.rows, m.id) then []
                             else [Row(m.id, m.recipient, Appended, "mailbox", a.world.appendedAt)])
                          + [Row(m.id, m.recipient, outcome, detail, a.world.recordAt)],
                  db.trips + trips, db.pushes)
  }

  /** What each answer of a transport comes to. */
  ghost predicate Answered(db: Db, a: Attempt, door: Option<string>, o: Outcome) {
    var m, w := a.message, a.world;
    if door.None? then
      if w.acpxReply.Some? then
        WentOver(db, a, o, AcceptedByHarness, "acpx queue") && o.landing.value.reply == w.acpxReply
      else o == Outcome(db.(rows := db.rows + Opening(db, a)), None)
    else
      match w.answer
      case Injected => WentOver(db, a, o, AcceptedByHarness, "door")
      case QueuedForTurnBoundary => WentOver(db, a, o, HeldForTurnBoundary, "door queue")
      case _ =>
        var why := door.value + " door for " + m.recipient + ": " + w.answer.why;
        && o.landing == Some(Land(if w.hook then HookInbox else Mailbox, why))
        && TurnedAway(db, a, o, if w.hook then QueuedInHookInbox else HeldInMailbox, why,
                   if TransportFailure(why) then [Trip(m.recipient, w.gateAt, w.failureCooldown, "door-unreachable: " + why)]
                   else [])
  }

  lemma SettledOver(db: Db, a: Attempt, landing: Landing)
    requires landing.carried
    ensures WentOver(db, a, Outcome(Settled(db.(rows := db.rows + Opening(db, a)), a, landing), Some(landing)),
                     landing.Outcome(), landing.detail)
  {
    hide HasTransition;
    hide CommitRow.CommitHead;
  }

  lemma SettledAway(db: Db, a: Attempt, landing: Landing, trips: seq<Trip>)
    requires !landing.carried
    ensures TurnedAway(db, a, Outcome(Settled(db.(rows := db.rows + Opening(db, a), trips := db.trips + trips), a, landing),
                                      Some(landing)),
                       landing.Outcome(), landing.detail, trips)
  {
    hide HasTransition;
  }

  /** At an open door the transport's answer decides: an injected or queued body and an
      acpx reply go over, acked and filed; a refusal is a hold, with a cool-off if it
      reads as a dead transport; acpx without a reply is an error. */
  lemma DoorAnswers(db: Db, a: Attempt, door: Option<string>)
    requires AtOpenDoor(db, a, door)
    ensures Answered(db, a, door, Alone(db, a, Start, true))
  {
    var m, w, begun := a.message, a.world, db.(rows := db.rows + Opening(db, a));
    var pushed := PushAtDoor(door, m, w);
    AdmittedAlone(db, a);
    ReachesPush(begun, a, door);
    AfterPushAlone(begun, a, pushed, GateOf(a));
    hide Alone;
    hide AfterPush;
    hide Settled;
    hide AtOpenDoor;
    match pushed
    case Took(landing) => TookAnswers(db, a, door, landing);
    case Declined(landing, trip) => DeclinedAnswers(db, a, door, landing, trip);
    case PushErrs => TakesIff(door, m, w);
  }

  lemma TookAnswers(db: Db, a: Attempt, door: Option<string>, landing: Landing)
    requires PushAtDoor(door, a.message, a.world) == Took(landing)
    ensures Answered(db, a, door, Outcome(Settled(db.(rows := db.rows + Opening(db, a)), a, landing), Some(landing)))
  {
    hide TransportFailure;
    hide Opening;
    SettledOver(db, a, landing);
    hide WentOver;
    hide Settled;
  }

  lemma DeclinedAnswers(db: Db, a: Attempt, door: Option<string>, landing: Landing, trip: Option<Trip>)
    requires PushAtDoor(door, a.message, a.world) == Declined(landing, trip)
    ensures var begun := db.(rows := db.rows + Opening(db, a));
            var tripped := begun.(trips := begun.trips + if trip.Some? then [trip.value] else []);
            Answered(db, a, door, Outcome(Settled(tripped, a, landing), Some(landing)))
  {
    hide TransportFailure;
    hide Opening;
    SettledAway(db, a, landing, if trip.Some? then [trip.value] else []);
    hide TurnedAway;
    hide Settled;
  }

  lemma OpeningAccepts(db: Db, a: Attempt)
    ensures DeliveryAccepted(db.rows + Opening(db, a), a.message.id, a.message.recipient)
       <==> DeliveryAccepted(db.rows, a.message.id, a.message.recipient)
  {
    var m := a.message;
    if HasTransition(db.rows, m.id) {
      assert db.rows + [] == db.rows;
    } else {
      AdmissionTheorems.AcceptedLogged(db.rows, Opening(db, a)[0], m.id, m.recipient);
    }
    hide HasTransition;
    hide DeliveryAccepted;
  }

  lemma AnsweredAccepts(db: Db, a: Attempt, door: Option<string>, o: Outcome)
    requires Answered(db, a, door, o) && !DeliveryAccepted(db.rows, a.message.id, a.message.recipient)
    ensures var m := a.message;
            && (o.landing.Some? && o.landing.value.carried <==> Takes(door, a.world))
            && (o.db.acked == if Takes(door, a.world) then db.acked + {m.id} else db.acked)
            && (DeliveryAccepted(o.db.rows, m.id, m.recipient) <==> Takes(door, a.world))
            && (o.landing.None? <==> door.None? && a.world.acpxReply.None?)
  {
    var m, w := a.message, a.world;
    OpeningAccepts(db, a);
    if Takes(door, w) {
      var r := Row(m.id, m.recipient, if door.Some? && w.answer.QueuedForTurnBoundary? then HeldForTurnBoundary else AcceptedByHarness,
                   if door.None? then "acpx queue" else if w.answer.Injected? then "door" else "door queue", w.recordAt);
      AdmissionTheorems.AcceptedLogged(db.rows + Opening(db, a), r, m.id, m.recipient);
    } else if door.Some? {
      var head := door.value + " door for " + m.recipient;
      var why := head + ": " + w.answer.why;
      var r := Row(m.id, m.recipient, if w.hook then QueuedInHookInbox else HeldInMailbox, why, w.recordAt);
      assert why[|head|] == ':';
      ColonDecides(why, |head|);
      AdmissionTheorems.AcceptedLogged(db.rows + Opening(db, a), r, m.id, m.recipient);
    }
    hide Opening;
    hide DeliveryAccepted;
    hide TransportFailure;
  }

  /** A fresh message whose door is open and takes it is delivered: its receipt is
      written, its mailbox row acked, its commit push filed, and nothing else; one that
      the door does not take is neither acked nor filed. */
  lemma OpenDoorDelivers(db: Db, a: Attempt, door: Option<string>)
    requires AtOpenDoor(db, a, door)
    ensures var m, o := a.message, Alone(db, a, Start, true);
            && (o.landing.Some? && o.landing.value.carried <==> Takes(door, a.world))
            && (o.db.acked == if Takes(door, a.world) then db.acked + {m.id} else db.acked)
            && (DeliveryAccepted(o.db.rows, m.id, m.recipient) <==> Takes(door, a.world))
            && (o.landing.None? <==> door.None? && a.world.acpxReply.None?)
  {
    DoorAnswers(db, a, door);
    hide Alone;
    hide Walk;
    hide DoorVerdict;
    hide TransportFailure;
    AnsweredAccepts(db, a, door, Alone(db, a, Start, true));
  }

  // ------------------------------------------------ the system, nobody else moving

  function RunTimes(s: System, p: nat, n: nat): System
    requires p < |s.procs|
    ensures |RunTimes(s, p, n).procs| == |s.procs|
    decreases n
  {
    if n == 0 then s else RunTimes(RunStep(s, p), p, n - 1)
  }

  lemma ActIgnoresLock(db: Db, a: Attempt, pc: Pc, x: bool, y: bool)
    requires !pc.Lock?
    ensures Act(db, a, pc, x) == Act(db, a, pc, y)
  {
  }

  /** Only the start leads to the lock, and nothing leads to the start or a crash. */
  lemma ActOrder(db: Db, a: Attempt, pc: Pc, lockFree: bool)
    ensures var next := Act(db, a, pc, lockFree).pc;
            && (next.Lock? ==> pc.Start? || pc.Lock?)
            && (next.Start? ==> pc.Start?) && (next.Crashed? ==> pc.Crashed?)
  {
    hide ReminderGone;
    hide LockTaken;
    hide Walk;
    hide DoorVerdict;
    hide PushAtDoor;
    hide Gated;
    hide GateOf;
  }

  lemma AloneStep(db: Db, a: Attempt, pc: Pc, lockFree: bool)
    requires Rank(pc) > 0
    ensures var mv := Act(db, a, pc, lockFree); Alone(db, a, pc, lockFree).db == Alone(mv.db, a, mv.pc, lockFree).db
  {
    hide Act;
    hide Rank;
    hide Reported;
  }

  lemma MoverAfter(s: System, p: nat)
    requires p < |s.procs|
    ensures var a, pc, n := s.procs[p].attempt, s.procs[p].pc, RunStep(s, p);
            var mv := Act(s.db, a, pc, a.message.recipient !in s.locks);
            && n.db == mv.db && |n.procs| == |s.procs| && n.procs[p].attempt == a && n.procs[p].pc == mv.pc
            && (pc.Start? ==> n.locks == s.locks)
  {
    hide Act;
  }

  /** An attempt still before the lock finds it free or taken, as said. */
  predicate SeesLock(s: System, p: nat, lockFree: bool)
    requires p < |s.procs|
  {
    s.procs[p].pc.Start? || s.procs[p].pc.Lock? ==> lockFree == (s.procs[p].attempt.message.recipient !in s.locks)
  }

  /** The attempt is done and these are the tables. */
  predicate EndsWith(s: System, p: nat, db: Db) {
    p < |s.procs| && s.procs[p].pc.Done? && s.db == db
  }

  /** One action of the system is one action alone. */
  lemma RunIsAct(s: System, p: nat, lockFree: bool)
    requires p < |s.procs| && Rank(s.procs[p].pc) > 0 && SeesLock(s, p, lockFree)
    ensures var a, pc, n := s.procs[p].attempt, s.procs[p].pc, RunStep(s, p);
            && |n.procs| == |s.procs| && n.procs[p].attempt == a && !n.procs[p].pc.Crashed? && SeesLock(n, p, lockFree)
            && Rank(n.procs[p].pc) < Rank(pc)
            && Alone(s.db, a, pc, lockFree).db == Alone(n.db, a, n.procs[p].pc, lockFree).db
  {
    var a, pc := s.procs[p].attempt, s.procs[p].pc;
    var free := a.message.recipient !in s.locks;
    assert !pc.Crashed?;
    AloneStep(s.db, a, pc, lockFree);
    if !pc.Lock? {
      ActIgnoresLock(s.db, a, pc, lockFree, free);
    }
    ActDescends(s.db, a, pc, lockFree);
    ActOrder(s.db, a, pc, lockFree);
    MoverAfter(s, p);
    hide Act;
    hide RunStep;
    hide Alone;
    hide Rank;
  }

  lemma DoneEnds(s: System, p: nat, lockFree: bool)
    requires p < |s.procs| && s.procs[p].pc.Done?
    ensures EndsWith(RunTimes(s, p, 0), p, Alone(s.db, s.procs[p].attempt, s.procs[p].pc, lockFree).db)
  {
  }

  lemma NotDoneRanks(pc: Pc)
    ensures Rank(pc) > 0 <==> !pc.Done? && !pc.Crashed?
  {
  }

  lemma RunTimesCons(s: System, p: nat, n: nat)
    requires p < |s.procs|
    ensures p < |RunStep(s, p).procs| && RunTimes(s, p, n + 1) == RunTimes(RunStep(s, p), p, n)
  {
    assert |RunStep(s, p).procs| == |s.procs|;
    hide RunStep;
  }

  /** An attempt of the system that runs to its end undisturbed leaves the tables a
      single delivery leaves. */
  lemma {:induction false} SystemRefinesDelivery(s: System, p: nat, lockFree: bool) returns (n: nat)
    requires p < |s.procs| && !s.procs[p].pc.Crashed? && SeesLock(s, p, lockFree)
    ensures EndsWith(RunTimes(s, p, n), p, Alone(s.db, s.procs[p].attempt, s.procs[p].pc, lockFree).db)
    decreases Rank(s.procs[p].pc)
  {
    hide *;
    if s.procs[p].pc.Done? {
      n := 0;
      DoneEnds(s, p, lockFree);
    } else {
      NotDoneRanks(s.procs[p].pc);
      RunIsAct(s, p, lockFree);
      var k := SystemRefinesDelivery(RunStep(s, p), p, lockFree);
      RunTimesCons(s, p, k);
      n := k + 1;
    }
  }
}
