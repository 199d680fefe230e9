/** What every interleaving of deliveries keeps: one effect a message, acks only after
    a receipt, the push budget over every window, cool-offs that never overlap. */
module AdmissionTheorems {
  import opened Text
  import opened Ladder
  import opened Admission
  import CommitRow

  // ------------------------------------------------------------------ the invariant

  ghost predicate TripsOver(trips: seq<Trip>, route: string, now: nat) {
    forall t :: 0 <= t < |trips| && trips[t].route == route ==> trips[t].Until() <= now
  }

  /** What an open gate saw still holds. */
  ghost predicate GateHolds(db: Db, route: string, g: Gate) {
    && PushesSince(db.rows, route, Since(g.now, g.window)) < g.allowed
    && !PushedBodySince(db.rows, db.mail, route, g.body, Since(g.now, g.window))
    && TripsOver(db.trips, route, g.now)
  }

  predicate PastAccepted(pc: Pc) {
    pc.CheckPasted? || PastPasted(pc)
  }

  predicate PastPasted(pc: Pc) {
    pc.Append? || pc.Decide? || pc.AtGate? || pc.PushNow? || pc.TripNow? || pc.Record?
  }

  /** What an attempt has seen of the tables and may still rely on. */
  ghost predicate Seen(db: Db, a: Attempt, pc: Pc) {
    var id, route := a.message.id, a.message.recipient;
    && (PastAccepted(pc) ==> !DeliveryAccepted(db.rows, id, route))
    && (PastPasted(pc) ==> !NoticePasted(db.rows, id, route))
    && (pc.AckAgain? || pc.Ack? || pc.CommitNow? ==> DeliveryAccepted(db.rows, id, route))
    && (pc.PushNow? ==> GateHolds(db, route, pc.gate))
    && (pc.TripNow? ==> TripsOver(db.trips, route, pc.trip.at))
    && (pc.Record? && pc.open.Some? ==> GateHolds(db, route, pc.open.value))
  }

  /** What an attempt carries is in order, whatever the tables hold. */
  ghost predicate Sane(mail: seq<Message>, a: Attempt, pc: Pc) {
    var g := if pc.PushNow? then Some(pc.gate) else if pc.Record? then pc.open else None;
    && a.message in mail && a.world.gateAt <= a.world.recordAt
    && (g.Some? ==> g.value == GateOf(a))
    && (pc.Unlocked? ==> Tells(pc.held, Nothing) && !PushDetail(pc.held.detail))
    && (pc.CommitNow? ==> a.message.kind.Commit?)
    && (pc.TripNow? ==> Tells(pc.landing, Nothing) && !PushDetail(pc.landing.detail)
                        && pc.trip.route == a.message.recipient)
    && (pc.Record? ==> Tells(pc.landing, pc.effect) && (PushDetail(pc.landing.detail) <==> pc.open.Some?))
  }

  ghost predicate ProcsOk(s: System) {
    forall p :: 0 <= p < |s.procs| ==>
      Sane(s.db.mail, s.procs[p].attempt, s.procs[p].pc) && Seen(s.db, s.procs[p].attempt, s.procs[p].pc)
  }

  /** A lock file is held by exactly the attempt that is past it. */
  ghost predicate LocksOk(s: System) {
    && (forall p :: 0 <= p < |s.procs| && Locked(s.procs[p].pc) ==>
          var r := s.procs[p].attempt.message.recipient; r in s.locks && s.locks[r] == p)
    && (forall r :: r in s.locks ==>
          s.locks[r] < |s.procs| && Locked(s.procs[s.locks[r]].pc)
          && s.procs[s.locks[r]].attempt.message.recipient == r)
  }

  /** The row an effect's receipt must leave; for a line left typed there is none, the
      ledger takes it for a mailbox hold. */
  ghost predicate Receipt(rows: seq<Row>, e: Entry) {
    match e.effect
    case Body => DeliveryAccepted(rows, e.id, e.route)
    case Notice => NoticePasted(rows, e.id, e.route)
    case _ => true
  }

  /** Which attempt has the receipt of an effect still to write. */
  ghost predicate Holds(s: System, i: nat, e: Entry) {
    && e.route in s.locks && s.locks[e.route] < |s.procs|
    && var p := s.procs[s.locks[e.route]];
    HoldsEffect(p.pc) && p.entry == i && p.attempt.message.id == e.id && p.pc.effect == e.effect
  }

  ghost predicate EntryOk(s: System, i: nat)
    requires i < |s.entries|
  {
    var e := s.entries[i];
    && e.effect != Nothing
    && (e.fate == Receipted || e.fate == Unfiled ==> Receipt(s.db.rows, e))
    && (e.fate == InHand ==> Holds(s, i, e))
  }

  predicate SameDelivery(a: Entry, b: Entry) {
    a.id == b.id && a.route == b.route
  }

  /** An attempt past its receipt has the entry it wrote it for. */
  ghost predicate Filing(s: System, p: nat)
    requires p < |s.procs|
  {
    var m, k := s.procs[p].attempt.message, s.procs[p].entry;
    && k < |s.entries| && s.entries[k].fate == Receipted && s.entries[k].effect == Body
    && s.entries[k].id == m.id && s.entries[k].route == m.recipient && s.entries[k].push == PushOf(m)
  }

  /** Nothing on record keeps the ladder from trying this effect's message again: its
      receipt was lost to a crash, or it was a line left typed. */
  predicate Repeatable(e: Entry) {
    e.fate == Lost || e.effect == Typed
  }

  /** An effect of a message at a route is followed by another only if it was open. */
  ghost predicate OneEffect(entries: seq<Entry>) {
    forall i, j :: 0 <= i < j < |entries| && SameDelivery(entries[i], entries[j]) ==> Repeatable(entries[i])
  }

  /** An attempt with a receipt, or a commit push, still to write has the entry of the
      effect it writes it for. */
  ghost predicate HolderOk(s: System, p: nat)
    requires p < |s.procs|
  {
    var m, pc, k := s.procs[p].attempt.message, s.procs[p].pc, s.procs[p].entry;
    && (HoldsEffect(pc) ==>
          && k < |s.entries| && s.entries[k].fate == InHand && s.entries[k].effect == pc.effect
          && s.entries[k].id == m.id && s.entries[k].route == m.recipient && s.entries[k].push == PushOf(m))
    && (HoldsFiling(s.procs[p].attempt, pc) ==> Filing(s, p))
  }

  ghost predicate EntriesOk(s: System) {
    && (forall i :: 0 <= i < |s.entries| ==> EntryOk(s, i))
    && OneEffect(s.entries)
    && (forall p :: 0 <= p < |s.procs| ==> HolderOk(s, p))
  }

  /** A push row kept to its gate: in the window that ends with it there are no more
      pushes than the gate allowed and no other push of its body, and every trip on
      record was over when it was gated. */
  ghost predicate Kept(rows: seq<Row>, mail: seq<Message>, trips: seq<Trip>, i: nat, st: Stamp)
    requires i < |rows|
  {
    var r, g := rows[i], st.gate;
    && g.now <= r.at
    && PushesSince(rows[..i + 1], r.route, Since(r.at, g.window)) <= g.allowed
    && HasBody(mail, r.message, g.body)
    && !PushedBodySince(rows[..i], mail, r.route, g.body, Since(r.at, g.window))
    && st.trips <= |trips| && TripsOver(trips[..st.trips], r.route, g.now)
  }

  ghost predicate LedgerOk(db: Db, stamps: seq<Option<Stamp>>) {
    && |stamps| == |db.rows|
    && (forall i :: 0 <= i < |db.rows| ==> (PushDetail(db.rows[i].detail) <==> stamps[i].Some?))
    && (forall i :: 0 <= i < |db.rows| && stamps[i].Some? ==> Kept(db.rows, db.mail, db.trips, i, stamps[i].value))
  }

  /** A push row and its gate are those of the attempt that wrote it. */
  ghost predicate StampOk(s: System, i: nat)
    requires i < |s.stamps|
  {
    s.stamps[i].Some? ==>
      var st := s.stamps[i].value;
      && i < |s.db.rows| && st.writer < |s.procs|
      && var a := s.procs[st.writer].attempt;
      st.gate == GateOf(a) && Of(s.db.rows[i], a.message.id, a.message.recipient)
  }

  ghost predicate StampsOk(s: System) {
    forall i :: 0 <= i < |s.stamps| ==> StampOk(s, i)
  }

  /** Each cool-off of a route begins no earlier than the one before it ends. */
  ghost predicate TripsApart(trips: seq<Trip>) {
    forall i, j :: 0 <= i < j < |trips| && trips[i].route == trips[j].route ==> trips[i].Until() <= trips[j].at
  }

  ghost predicate AcksOk(s: System) {
    forall id, route :: (id, route) in s.acks ==> DeliveryAccepted(s.db.rows, id, route)
  }

  ghost predicate Inv(s: System) {
    ProcsOk(s) && LocksOk(s) && EntriesOk(s) && LedgerOk(s.db, s.stamps) && TripsApart(s.db.trips) && AcksOk(s)
    && StampsOk(s)
  }

  // ----------------------------------------------------------- queries and appends

  lemma AcceptedLogged(rows: seq<Row>, r: Row, id: string, route: string)
    ensures DeliveryAccepted(rows + [r], id, route) <==> DeliveryAccepted(rows, id, route) || (Of(r, id, route) && Accepts(r))
    ensures NoticePasted(rows + [r], id, route) <==> NoticePasted(rows, id, route) || (Of(r, id, route) && Pastes(r))
  {
    hide Accepts;
    var all := rows + [r];
    assert all[|rows|] == r;
    assert forall i :: 0 <= i < |rows| ==> all[i] == rows[i];
  }

  lemma PushesLogged(rows: seq<Row>, r: Row, route: string, since: nat)
    ensures PushesSince(rows + [r], route, since)
         == PushesSince(rows, route, since) + if PushAt(r, route, since) then 1 else 0
  {
    assert (rows + [r])[..|rows|] == rows;
  }

  lemma BodyLogged(rows: seq<Row>, mail: seq<Message>, r: Row, route: string, body: string, since: nat)
    ensures PushedBodySince(rows + [r], mail, route, body, since)
       <==> PushedBodySince(rows, mail, route, body, since) || (PushAt(r, route, since) && HasBody(mail, r.message, body))
  {
    hide PushAt;
    hide HasBody;
    var all := rows + [r];
    assert all[|rows|] == r;
    assert forall i :: 0 <= i < |rows| ==> all[i] == rows[i];
  }

  /** A later start of the window counts fewer pushes. */
  lemma {:induction false} LaterCountsFewer(rows: seq<Row>, route: string, since: nat, later: nat)
    requires since <= later
    ensures PushesSince(rows, route, later) <= PushesSince(rows, route, since)
  {
    hide PushDetail;
    if rows != [] {
      LaterCountsFewer(rows[..|rows| - 1], route, since, later);
    }
  }

  lemma LaterFindsLess(rows: seq<Row>, mail: seq<Message>, route: string, body: string, since: nat, later: nat)
    requires since <= later && !PushedBodySince(rows, mail, route, body, since)
    ensures !PushedBodySince(rows, mail, route, body, later)
  {
    hide PushDetail;
    hide HasBody;
    assert forall i :: 0 <= i < |rows| && PushAt(rows[i], route, later) ==> PushAt(rows[i], route, since);
  }

  lemma TripsOverSnoc(trips: seq<Trip>, t: Trip, route: string, now: nat)
    ensures TripsOver(trips + [t], route, now) <==> TripsOver(trips, route, now) && (t.route == route ==> t.Until() <= now)
  {
    assert (trips + [t])[|trips|] == t;
    assert forall i :: 0 <= i < |trips| ==> (trips + [t])[i] == trips[i];
  }

  lemma BeforeLast(init: seq<Trip>, t: Trip)
    requires TripsApart(init + [t])
    ensures TripsApart(init) && TripsOver(init, t.route, t.at) && TripsOver(init, t.route, t.Until())
  {
    var trips := init + [t];
    assert trips[|init|] == t;
    assert forall i :: 0 <= i < |init| ==> trips[i] == init[i];
  }

  /** The newest trip is on record, and every trip of the route ends no later than it. */
  lemma {:induction false} NewestCovers(trips: seq<Trip>, route: string)
    requires TripsApart(trips)
    ensures var newest := LatestTrip(trips, route);
            if newest.Some? then newest.value in trips && TripsOver(trips, route, newest.value.Until())
            else TripsOver(trips, route, 0)
  {
    if trips != [] {
      var init, t := trips[..|trips| - 1], trips[|trips| - 1];
      assert trips == init + [t];
      BeforeLast(init, t);
      NewestCovers(init, route);
      var newest, before := LatestTrip(trips, route), LatestTrip(init, route);
      TripsOverSnoc(init, t, route, if newest.Some? then newest.value.Until() else 0);
      if t.route == route && before.Some? {
        assert before.value.Until() <= t.at;
      }
      hide TripsOver;
      hide TripsApart;
    }
  }

  /** A trip written once the earlier ones are over cools its route off for exactly
      its own term. */
  lemma FreshTripCools(trips: seq<Trip>, t: Trip, now: nat)
    requires TripsApart(trips) && TripsOver(trips, t.route, t.at) && t.at <= U64_MAX
    ensures CoolingOff(trips + [t], t.route, now) <==> now < t.at + t.cooldown && now < U64_MAX
  {
    NewestCovers(trips, t.route);
    assert (trips + [t])[..|trips|] == trips;
    var before := LatestTrip(trips, t.route);
    if before.Some? {
      var b :| 0 <= b < |trips| && trips[b] == before.value;
      assert before.value.Until() <= t.at;
    }
  }

  lemma OpenGateSaw(db: Db, a: Attempt)
    requires TripsApart(db.trips)
    requires var m := a.message;
             DoorVerdict(db, m.recipient, a.routes, m.body, a.budget, a.world.gateAt).Open?
    ensures var m := a.message;
            GateHolds(db, m.recipient, GateOf(a))
  {
    hide PushesSince;
    hide PushedBodySince;
    hide Allowance;
    NewestCovers(db.trips, a.message.recipient);
  }

  lemma ClosedGateSaw(db: Db, a: Attempt)
    requires TripsApart(db.trips)
    requires var m := a.message;
             !DoorVerdict(db, m.recipient, a.routes, m.body, a.budget, a.world.gateAt).Cooling?
    ensures TripsOver(db.trips, a.message.recipient, a.world.gateAt)
  {
    hide PushesSince;
    hide PushedBodySince;
    hide Allowance;
    NewestCovers(db.trips, a.message.recipient);
  }

  // -------------------------------------------------------- what others rely on

  /** A change of the tables that cannot disturb what an attempt at this route saw. */
  ghost predicate Undisturbed(db: Db, next: Db, route: string) {
    && next.mail == db.mail
    && (next.rows == db.rows
        || exists r :: next.rows == db.rows + [r] && (Neutral(r) || r.route != route))
    && (next.trips == db.trips || exists t: Trip :: next.trips == db.trips + [t] && t.route != route)
  }

  lemma GateUndisturbed(db: Db, next: Db, route: string, g: Gate)
    requires Undisturbed(db, next, route) && GateHolds(db, route, g)
    ensures GateHolds(next, route, g)
  {
    hide PushDetail;
    hide HasBody;
    if next.rows != db.rows {
      var r :| next.rows == db.rows + [r] && (Neutral(r) || r.route != route);
      PushesLogged(db.rows, r, route, Since(g.now, g.window));
      BodyLogged(db.rows, db.mail, r, route, g.body, Since(g.now, g.window));
    }
    hide PushesSince;
    hide PushedBodySince;
    TripsUndisturbed(db, next, route, g.now);
  }

  lemma TripsUndisturbed(db: Db, next: Db, route: string, now: nat)
    requires Undisturbed(db, next, route) && TripsOver(db.trips, route, now)
    ensures TripsOver(next.trips, route, now)
  {
  }

  lemma SeenUndisturbed(db: Db, next: Db, a: Attempt, pc: Pc)
    requires Undisturbed(db, next, a.message.recipient) && Seen(db, a, pc)
    ensures Seen(next, a, pc)
  {
    var id, route := a.message.id, a.message.recipient;
    if next.rows != db.rows {
      var r :| next.rows == db.rows + [r] && (Neutral(r) || r.route != route);
      AcceptedLogged(db.rows, r, id, route);
    }
    hide DeliveryAccepted;
    hide NoticePasted;
    if pc.PushNow? {
      GateUndisturbed(db, next, route, pc.gate);
    } else if pc.Record? && pc.open.Some? {
      GateUndisturbed(db, next, route, pc.open.value);
    } else if pc.TripNow? {
      TripsUndisturbed(db, next, route, pc.trip.at);
    }
  }

  // ----------------------------------------------------------------- the mover

  lemma QuietIsNeutral(l: Landing, id: string, route: string, at: nat)
    requires Tells(l, Nothing) && !PushDetail(l.detail)
    ensures Neutral(l.Receipt(id, route, at))
  {
  }

  lemma AppendedIsNeutral(id: string, route: string, at: nat)
    ensures Neutral(Row(id, route, Appended, "mailbox", at))
  {
  }

  /** How one action changes the tables: at most one row and one trip, at its own
      route, and outside the lock nothing but a neutral row. */
  ghost predicate Steps(db: Db, a: Attempt, pc: Pc, next: Db) {
    var route := a.message.recipient;
    && next.mail == db.mail
    && (next.rows == db.rows
        || (exists r :: next.rows == db.rows + [r] && r.route == route
              && if pc.Record? then r == pc.landing.Receipt(a.message.id, route, a.world.recordAt) else Neutral(r)))
    && (next.trips == db.trips
        || (exists t: Trip :: next.trips == db.trips + [t] && t.route == route && TripsOver(db.trips, route, t.at)))
    && (!Locked(pc) ==> next.trips == db.trips)
  }

  lemma ActSteps(db: Db, a: Attempt, pc: Pc, lockFree: bool)
    requires Sane(db.mail, a, pc) && Seen(db, a, pc) && TripsApart(db.trips)
    ensures Steps(db, a, pc, Act(db, a, pc, lockFree).db)
  {
    hide ReminderGone;
    hide LockTaken;
    hide AcceptedBefore;
    hide NoticedBefore;
    hide Walk;
    hide PushAtDoor;
    hide HasTransition;
    hide DeliveryAccepted;
    hide NoticePasted;
    hide GateHolds;
    var m := a.message;
    if pc.Unlocked? {
      QuietIsNeutral(pc.held, m.id, m.recipient, a.world.heldAt);
    } else if pc.Append? {
      AppendedIsNeutral(m.id, m.recipient, a.world.appendedAt);
    } else if pc.AtGate? {
      if !DoorVerdict(db, m.recipient, a.routes, m.body, a.budget, a.world.gateAt).Cooling? {
        ClosedGateSaw(db, a);
      }
      hide DoorVerdict;
      hide Neutral;
    }
    hide Tells;
    hide Neutral;
    hide DoorVerdict;
  }

  lemma ActSane(db: Db, a: Attempt, pc: Pc, lockFree: bool)
    requires Sane(db.mail, a, pc)
    ensures var mv := Act(db, a, pc, lockFree); mv.db.mail == db.mail && Sane(db.mail, a, mv.pc)
  {
    hide ReminderGone;
    hide LockTaken;
    hide AcceptedBefore;
    hide NoticedBefore;
    var m, w := a.message, a.world;
    hide PushDetail;
    hide Tells;
    HeldDetails();
    if pc.Decide? {
      WalkTells(db.pushes, a.routes, m, w);
    } else if pc.AtGate? {
      GateTells(db, m.recipient, a.routes, m.body, a.budget, w.gateAt);
    } else if pc.PushNow? {
      PushTells(pc.door, m, w);
    }
    hide Walk;
    hide DoorVerdict;
    hide PushAtDoor;
    hide Gated;
    hide Land;
    hide Allowance;
  }

  lemma ActSeen(db: Db, a: Attempt, pc: Pc, lockFree: bool)
    requires Sane(db.mail, a, pc) && Seen(db, a, pc) && TripsApart(db.trips)
    ensures Seen(Act(db, a, pc, lockFree).db, a, Act(db, a, pc, lockFree).pc)
  {
    hide Act;
    hide Seen;
    hide Sane;
    hide TripsApart;
    if pc.Append? || pc.Record? {
      WriterSeen(db, a, pc, lockFree);
    } else if pc.AtGate? || pc.PushNow? {
      DoorSeen(db, a, pc, lockFree);
    } else {
      OtherSeen(db, a, pc, lockFree);
    }
  }

  lemma OtherSeen(db: Db, a: Attempt, pc: Pc, lockFree: bool)
    requires Seen(db, a, pc) && !(pc.Append? || pc.Record? || pc.AtGate? || pc.PushNow?)
    ensures Seen(Act(db, a, pc, lockFree).db, a, Act(db, a, pc, lockFree).pc)
  {
    hide ReminderGone;
    hide LockTaken;
    hide Walk;
    hide DeliveryAccepted;
    hide NoticePasted;
    hide GateHolds;
    hide TripsOver;
  }

  lemma WriterSeen(db: Db, a: Attempt, pc: Pc, lockFree: bool)
    requires Sane(db.mail, a, pc) && Seen(db, a, pc) && (pc.Append? || pc.Record?)
    ensures Seen(Act(db, a, pc, lockFree).db, a, Act(db, a, pc, lockFree).pc)
  {
    var m, w := a.message, a.world;
    if pc.Append? {
      AppendedIsNeutral(m.id, m.recipient, w.appendedAt);
      AcceptedLogged(db.rows, Row(m.id, m.recipient, Appended, "mailbox", w.appendedAt), m.id, m.recipient);
    } else {
      AcceptedLogged(db.rows, pc.landing.Receipt(m.id, m.recipient, w.recordAt), m.id, m.recipient);
    }
    hide DeliveryAccepted;
    hide NoticePasted;
    hide HasTransition;
    hide PushDetail;
    hide GateHolds;
  }

  lemma DoorSeen(db: Db, a: Attempt, pc: Pc, lockFree: bool)
    requires Sane(db.mail, a, pc) && Seen(db, a, pc) && TripsApart(db.trips) && (pc.AtGate? || pc.PushNow?)
    ensures Seen(Act(db, a, pc, lockFree).db, a, Act(db, a, pc, lockFree).pc)
  {
    var m, w := a.message, a.world;
    if pc.PushNow? {
      PushTells(pc.door, m, w);
    } else if DoorVerdict(db, m.recipient, a.routes, m.body, a.budget, w.gateAt).Open? {
      OpenGateSaw(db, a);
    }
    hide DeliveryAccepted;
    hide NoticePasted;
    hide PushesSince;
    hide PushedBodySince;
    hide PushDetail;
    hide DoorVerdict;
    hide PushAtDoor;
    hide Allowance;
  }

  // ----------------------------------------------------------------- the ledger

  lemma KeptGrows(rows: seq<Row>, r: Row, mail: seq<Message>, trips: seq<Trip>, more: seq<Trip>, i: nat, st: Stamp)
    requires i < |rows| && Kept(rows, mail, trips, i, st)
    ensures Kept(rows + [r], mail, trips + more, i, st)
    ensures Kept(rows, mail, trips + more, i, st)
  {
    assert (rows + [r])[..i + 1] == rows[..i + 1] && (rows + [r])[..i] == rows[..i];
    assert (trips + more)[..st.trips] == trips[..st.trips];
    hide PushesSince;
    hide PushedBodySince;
    hide HasBody;
  }

  /** A push whose gate still holds when its receipt is written is kept. */
  lemma PushKept(db: Db, g: Gate, r: Row, writer: nat)
    requires GateHolds(db, r.route, g) && g.now <= r.at && HasBody(db.mail, r.message, g.body)
    ensures Kept(db.rows + [r], db.mail, db.trips, |db.rows|, Stamp(writer, g, |db.trips|))
  {
    var since, later := Since(g.now, g.window), Since(r.at, g.window);
    assert since <= later;
    LaterCountsFewer(db.rows, r.route, since, later);
    LaterFindsLess(db.rows, db.mail, r.route, g.body, since, later);
    PushesLogged(db.rows, r, r.route, later);
    assert (db.rows + [r])[..|db.rows| + 1] == db.rows + [r] && (db.rows + [r])[..|db.rows|] == db.rows;
    assert db.trips[..|db.trips|] == db.trips;
    hide PushesSince;
    hide PushedBodySince;
    hide HasBody;
    hide PushDetail;
  }

  lemma LedgerRow(db: Db, stamps: seq<Option<Stamp>>, r: Row, st: Option<Stamp>)
    requires LedgerOk(db, stamps) && (PushDetail(r.detail) <==> st.Some?)
    requires st.Some? ==> Kept(db.rows + [r], db.mail, db.trips, |db.rows|, st.value)
    ensures LedgerOk(Logged(db, r), stamps + [st])
  {
    forall i | 0 <= i < |db.rows| && stamps[i].Some?
      ensures Kept(db.rows + [r], db.mail, db.trips, i, stamps[i].value)
    {
      KeptGrows(db.rows, r, db.mail, db.trips, [], i, stamps[i].value);
      assert db.trips + [] == db.trips;
    }
    hide Kept;
    hide PushDetail;
  }

  lemma LedgerTrip(db: Db, stamps: seq<Option<Stamp>>, t: Trip)
    requires LedgerOk(db, stamps) && TripsApart(db.trips) && TripsOver(db.trips, t.route, t.at)
    ensures LedgerOk(db.(trips := db.trips + [t]), stamps) && TripsApart(db.trips + [t])
  {
    forall i | 0 <= i < |db.rows| && stamps[i].Some?
      ensures Kept(db.rows, db.mail, db.trips + [t], i, stamps[i].value)
    {
      KeptGrows(db.rows, db.rows[i], db.mail, db.trips, [t], i, stamps[i].value);
    }
    hide Kept;
    hide PushDetail;
  }

  /** What the ledger says does not depend on acks or commit pushes. */
  lemma LedgerSame(db: Db, next: Db, stamps: seq<Option<Stamp>>)
    requires LedgerOk(db, stamps) && next.rows == db.rows && next.mail == db.mail && next.trips == db.trips
    ensures LedgerOk(next, stamps)
  {
    hide Kept;
    hide PushDetail;
  }

  lemma ActLedger(s: System, p: nat)
    requires p < |s.procs| && LedgerOk(s.db, s.stamps) && TripsApart(s.db.trips)
    requires Sane(s.db.mail, s.procs[p].attempt, s.procs[p].pc) && Seen(s.db, s.procs[p].attempt, s.procs[p].pc)
    ensures var n := RunStep(s, p); LedgerOk(n.db, n.stamps) && TripsApart(n.db.trips)
  {
    var a, pc := s.procs[p].attempt, s.procs[p].pc;
    var m := a.message;
    var n := RunStep(s, p);
    ActSteps(s.db, a, pc, m.recipient !in s.locks);
    if pc.Record? {
      var r := pc.landing.Receipt(m.id, m.recipient, a.world.recordAt);
      var st := if pc.open.Some? then Some(Stamp(p, pc.open.value, |s.db.trips|)) else None;
      assert n.db == Logged(s.db, r) && n.stamps == s.stamps + [st];
      if pc.open.Some? {
        assert HasBody(s.db.mail, m.id, m.body) by {
          var j :| 0 <= j < |s.db.mail| && s.db.mail[j] == m;
        }
        PushKept(s.db, pc.open.value, r, p);
      }
      LedgerRow(s.db, s.stamps, r, st);
    } else {
      QuietLedger(s, p);
    }
  }

  lemma QuietLedger(s: System, p: nat)
    requires p < |s.procs| && LedgerOk(s.db, s.stamps) && TripsApart(s.db.trips) && !s.procs[p].pc.Record?
    requires var a, pc := s.procs[p].attempt, s.procs[p].pc;
             Steps(s.db, a, pc, Act(s.db, a, pc, a.message.recipient !in s.locks).db)
    ensures var n := RunStep(s, p); LedgerOk(n.db, n.stamps) && TripsApart(n.db.trips)
  {
    var a, pc := s.procs[p].attempt, s.procs[p].pc;
    var mv := Act(s.db, a, pc, a.message.recipient !in s.locks);
    var n := RunStep(s, p);
    assert n.db == mv.db && n.stamps == if |mv.db.rows| > |s.db.rows| then s.stamps + [None] else s.stamps;
    assert mv.db.rows == s.db.rows || mv.db.trips == s.db.trips by {
      hide Walk;
      hide DoorVerdict;
      hide PushAtDoor;
      hide HasTransition;
      hide DeliveryAccepted;
      hide NoticePasted;
    }
    hide Act;
    hide RunStep;
    hide LedgerOk;
    if mv.db.rows != s.db.rows {
      var r :| mv.db.rows == s.db.rows + [r] && r.route == a.message.recipient && Neutral(r);
      LedgerRow(s.db, s.stamps, r, None);
      LedgerSame(Logged(s.db, r), mv.db, s.stamps + [None]);
    } else if mv.db.trips != s.db.trips {
      var t: Trip :| mv.db.trips == s.db.trips + [t] && TripsOver(s.db.trips, t.route, t.at);
      LedgerTrip(s.db, s.stamps, t);
      LedgerSame(s.db.(trips := s.db.trips + [t]), mv.db, s.stamps);
    } else {
      LedgerSame(s.db, mv.db, s.stamps);
    }
  }

  // ---------------------------------------------------------------- locks, procs

  /** The step of an attempt, spelled out over its action. */
  ghost predicate Stepped(s: System, p: nat, mv: Move, n: System)
    requires p < |s.procs|
  {
    var a, pc, k := s.procs[p].attempt, s.procs[p].pc, s.procs[p].entry;
    var m := a.message;
    && n.db == mv.db
    && n.procs == s.procs[p := Proc(a, mv.pc, if mv.effect != Nothing then |s.entries| else k)]
    && n.locks == (if pc.Lock? && mv.pc.CheckAccepted? then s.locks[m.recipient := p]
                   else if pc.Release? then Without(s.locks, m.recipient) else s.locks)
    && n.entries == (if mv.effect != Nothing then s.entries + [Entry(m.id, m.recipient, mv.effect, PushOf(m), InHand)]
                     else if HoldsEffect(pc) then Marked(s.entries, k, Receipted) else s.entries)
    && (pc.Lock? && mv.pc.CheckAccepted? ==> m.recipient !in s.locks)
  }

  lemma RunStepped(s: System, p: nat)
    requires p < |s.procs|
    ensures var a, pc := s.procs[p].attempt, s.procs[p].pc;
            Stepped(s, p, Act(s.db, a, pc, a.message.recipient !in s.locks), RunStep(s, p))
  {
    var a, pc := s.procs[p].attempt, s.procs[p].pc;
    var free := a.message.recipient !in s.locks;
    assert pc.Lock? && Act(s.db, a, pc, free).pc.CheckAccepted? ==> free;
    hide Act;
  }

  /** How an action moves an attempt in and out of the lock. */
  lemma ActLock(db: Db, a: Attempt, pc: Pc, lockFree: bool)
    ensures var mv := Act(db, a, pc, lockFree);
            && (Locked(pc) && !pc.Release? ==> Locked(mv.pc))
            && (!Locked(pc) && Locked(mv.pc) ==> pc.Lock? && mv.pc.CheckAccepted? && lockFree)
            && (pc.Lock? && mv.pc.CheckAccepted? ==> lockFree)
            && (pc.Release? ==> mv.pc.Done?)
  {
    hide ReminderGone;
    hide LockTaken;
    hide AcceptedBefore;
    hide NoticedBefore;
    hide Walk;
    hide DoorVerdict;
    hide PushAtDoor;
    hide Gated;
  }

  lemma RunLocks(s: System, p: nat)
    requires p < |s.procs| && LocksOk(s)
    ensures LocksOk(RunStep(s, p))
  {
    var a, pc := s.procs[p].attempt, s.procs[p].pc;
    RunStepped(s, p);
    ActLock(s.db, a, pc, a.message.recipient !in s.locks);
    hide Act;
    hide RunStep;
    LocksMove(s, RunStep(s, p), p, Act(s.db, a, pc, a.message.recipient !in s.locks).pc);
  }

  /** A lock is taken or let go by the attempt that moves, and by nobody else. */
  lemma LocksMove(s: System, n: System, p: nat, next: Pc)
    requires p < |s.procs| && LocksOk(s) && |n.procs| == |s.procs|
    requires n.procs[p].pc == next && n.procs[p].attempt == s.procs[p].attempt
    requires forall q :: 0 <= q < |s.procs| && q != p ==> n.procs[q] == s.procs[q]
    requires var pc, m := s.procs[p].pc, s.procs[p].attempt.message;
             && (pc.Lock? && next.CheckAccepted? ==> m.recipient !in s.locks)
             && n.locks == (if pc.Lock? && next.CheckAccepted? then s.locks[m.recipient := p]
                            else if pc.Release? then Without(s.locks, m.recipient) else s.locks)
             && (Locked(pc) && !pc.Release? ==> Locked(next))
             && (!Locked(pc) && Locked(next) ==> pc.Lock? && next.CheckAccepted?)
             && (pc.Release? ==> next.Done?)
    ensures LocksOk(n)
  {
  }

  lemma CrashLocks(s: System, p: nat)
    requires p < |s.procs| && LocksOk(s)
    ensures LocksOk(CrashStep(s, p))
  {
  }

  /** Attempts past the lock are at different routes. */
  lemma OtherRoute(s: System, p: nat, q: nat)
    requires LocksOk(s) && p < |s.procs| && q < |s.procs| && p != q
    requires Locked(s.procs[p].pc) && Locked(s.procs[q].pc)
    ensures s.procs[p].attempt.message.recipient != s.procs[q].attempt.message.recipient
  {
  }

  lemma UnlockedSees(db: Db, next: Db, a: Attempt, pc: Pc)
    requires !Locked(pc) && Seen(db, a, pc)
    ensures Seen(next, a, pc)
  {
  }

  lemma StepsUndisturbed(db: Db, a: Attempt, pc: Pc, next: Db, route: string)
    requires Steps(db, a, pc, next) && (Locked(pc) ==> route != a.message.recipient)
    ensures Undisturbed(db, next, route)
  {
    hide Neutral;
    hide TripsOver;
  }

  lemma RunProcs(s: System, p: nat)
    requires p < |s.procs| && ProcsOk(s) && LocksOk(s) && TripsApart(s.db.trips)
    ensures ProcsOk(RunStep(s, p))
  {
    var a, pc := s.procs[p].attempt, s.procs[p].pc;
    var lockFree := a.message.recipient !in s.locks;
    var n := RunStep(s, p);
    ActSane(s.db, a, pc, lockFree);
    ActSeen(s.db, a, pc, lockFree);
    ActSteps(s.db, a, pc, lockFree);
    var mv := Act(s.db, a, pc, lockFree);
    assert n.db == mv.db && |n.procs| == |s.procs| && n.procs[p].attempt == a && n.procs[p].pc == mv.pc;
    assert forall q :: 0 <= q < |s.procs| && q != p ==> n.procs[q] == s.procs[q];
    hide Act;
    hide RunStep;
    hide Sane;
    hide Seen;
    forall q | 0 <= q < |s.procs| && q != p
      ensures Seen(mv.db, s.procs[q].attempt, s.procs[q].pc)
    {
      var b, qc := s.procs[q].attempt, s.procs[q].pc;
      if !Locked(qc) {
        UnlockedSees(s.db, mv.db, b, qc);
      } else {
        if Locked(pc) {
          OtherRoute(s, p, q);
        }
        StepsUndisturbed(s.db, a, pc, mv.db, b.message.recipient);
        SeenUndisturbed(s.db, mv.db, b, qc);
      }
    }
  }

  // -------------------------------------------------------------------- effects

  /** An attempt has a receipt to write exactly from the action that had the effect. */
  lemma ActEffect(db: Db, a: Attempt, pc: Pc, lockFree: bool)
    ensures var mv := Act(db, a, pc, lockFree);
            && (HoldsEffect(mv.pc) <==> mv.effect != Nothing)
            && (mv.effect != Nothing ==> (pc.Decide? || pc.PushNow?) && mv.db == db && mv.pc.effect == mv.effect)
            && (HoldsEffect(pc) ==> mv.effect == Nothing && Locked(mv.pc))
  {
    hide ReminderGone;
    hide LockTaken;
    hide AcceptedBefore;
    hide NoticedBefore;
    hide Walk;
    hide DoorVerdict;
    hide PushAtDoor;
    hide Gated;
  }

  /** Only the receipt of a body leads to a filing. */
  lemma ActFiling(db: Db, a: Attempt, pc: Pc, lockFree: bool)
    requires Sane(db.mail, a, pc)
    ensures HoldsFiling(a, Act(db, a, pc, lockFree).pc) ==> HoldsFiling(a, pc) || (HoldsEffect(pc) && pc.effect == Body)
  {
    hide ReminderGone;
    hide LockTaken;
    hide AcceptedBefore;
    hide NoticedBefore;
    hide Walk;
    hide DoorVerdict;
    hide PushAtDoor;
    hide Gated;
    hide PushDetail;
  }

  lemma ReceiptKept(rows: seq<Row>, next: seq<Row>, e: Entry)
    requires Receipt(rows, e) && |rows| <= |next| && next[..|rows|] == rows
    ensures Receipt(next, e)
  {
    hide Accepts;
    hide Pastes;
    assert forall i :: 0 <= i < |rows| ==> next[i] == rows[i];
  }

  lemma RunRows(s: System, p: nat)
    requires p < |s.procs|
    requires var a, pc := s.procs[p].attempt, s.procs[p].pc;
             Steps(s.db, a, pc, Act(s.db, a, pc, a.message.recipient !in s.locks).db)
    ensures var n := RunStep(s, p); |s.db.rows| <= |n.db.rows| && n.db.rows[..|s.db.rows|] == s.db.rows
  {
    hide Act;
    hide Neutral;
    hide TripsOver;
  }

  /** No effect of this message stands when an attempt that saw no receipt is about
      to have one. */
  lemma NoneBefore(s: System, p: nat, i: nat)
    requires p < |s.procs| && i < |s.entries| && EntryOk(s, i) && LocksOk(s)
    requires var a, pc := s.procs[p].attempt, s.procs[p].pc;
             Locked(pc) && PastPasted(pc) && !pc.Record? && Seen(s.db, a, pc)
             && s.entries[i].id == a.message.id && s.entries[i].route == a.message.recipient
    ensures Repeatable(s.entries[i])
  {
    hide DeliveryAccepted;
    hide NoticePasted;
  }

  lemma NewEntry(s: System, p: nat)
    requires p < |s.procs| && EntriesOk(s) && LocksOk(s)
    requires var a, pc := s.procs[p].attempt, s.procs[p].pc;
             Sane(s.db.mail, a, pc) && Seen(s.db, a, pc)
             && Act(s.db, a, pc, a.message.recipient !in s.locks).effect != Nothing
    ensures EntriesOk(RunStep(s, p))
  {
    var a, pc := s.procs[p].attempt, s.procs[p].pc;
    var m := a.message;
    ActEffect(s.db, a, pc, m.recipient !in s.locks);
    var mv := Act(s.db, a, pc, m.recipient !in s.locks);
    var n := RunStep(s, p);
    var e := Entry(m.id, m.recipient, mv.effect, PushOf(m), InHand);
    RunStepped(s, p);
    ActFiling(s.db, a, pc, m.recipient !in s.locks);
    hide Act;
    hide RunStep;
    hide Receipt;
    hide Seen;
    hide Sane;
    forall i | 0 <= i < |s.entries| && SameDelivery(s.entries[i], e)
      ensures Repeatable(s.entries[i])
    {
      NoneBefore(s, p, i);
    }
    forall i | 0 <= i < |n.entries|
      ensures EntryOk(n, i)
    {
      if i < |s.entries| {
        assert EntryOk(s, i);
      }
    }
    hide EntryOk;
    hide CommitRow.CommitHead;
    forall q | 0 <= q < |n.procs|
      ensures HolderOk(n, q)
    {
      assert HolderOk(s, q);
    }
  }

  /** The step that writes a receipt: its entry is receipted, and the row is there. */
  lemma ReceiptStep(s: System, p: nat)
    requires p < |s.procs| && EntriesOk(s) && LocksOk(s) && HoldsEffect(s.procs[p].pc)
    requires Sane(s.db.mail, s.procs[p].attempt, s.procs[p].pc)
    ensures var k, n := s.procs[p].entry, RunStep(s, p);
            && HolderOk(s, p) && k < |s.entries| && n.entries == s.entries[k := s.entries[k].(fate := Receipted)]
            && n.procs == s.procs[p := n.procs[p]] && n.procs[p].attempt == s.procs[p].attempt && n.procs[p].entry == k
            && !HoldsEffect(n.procs[p].pc) && n.locks == s.locks
            && (HoldsFiling(n.procs[p].attempt, n.procs[p].pc) ==> s.entries[k].effect == Body)
            && |s.db.rows| <= |n.db.rows| && n.db.rows[..|s.db.rows|] == s.db.rows
            && Receipt(n.db.rows, n.entries[k])
  {
    var a, pc := s.procs[p].attempt, s.procs[p].pc;
    var m := a.message;
    var r := pc.landing.Receipt(m.id, m.recipient, a.world.recordAt);
    var free := m.recipient !in s.locks;
    ActEffect(s.db, a, pc, free);
    ActFiling(s.db, a, pc, free);
    AcceptedLogged(s.db.rows, r, m.id, m.recipient);
    assert Act(s.db, a, pc, free).db.rows == s.db.rows + [r];
    RunStepped(s, p);
    hide Act;
    hide RunStep;
    assert HolderOk(s, p);
    hide PushDetail;
    hide DeliveryAccepted;
    hide NoticePasted;
  }

  lemma ReceiptEntry(s: System, p: nat)
    requires p < |s.procs| && EntriesOk(s) && LocksOk(s) && HoldsEffect(s.procs[p].pc)
    requires Sane(s.db.mail, s.procs[p].attempt, s.procs[p].pc)
    ensures EntriesOk(RunStep(s, p))
  {
    var k, n := s.procs[p].entry, RunStep(s, p);
    ReceiptStep(s, p);
    hide RunStep;
    hide Sane;
    hide CommitRow.CommitHead;
    forall i | 0 <= i < |n.entries|
      ensures EntryOk(n, i)
    {
      assert EntryOk(s, i);
      if i != k && (s.entries[i].fate == Receipted || s.entries[i].fate == Unfiled) {
        ReceiptKept(s.db.rows, n.db.rows, s.entries[i]);
      }
      hide Receipt;
    }
    hide Receipt;
    hide EntryOk;
    forall q | 0 <= q < |n.procs|
      ensures HolderOk(n, q)
    {
      assert HolderOk(s, q);
      if q != p && Locked(s.procs[q].pc) {
        OtherRoute(s, p, q);
      }
    }
  }

  lemma OtherEntries(s: System, p: nat)
    requires p < |s.procs| && EntriesOk(s) && LocksOk(s) && !HoldsEffect(s.procs[p].pc)
    requires Sane(s.db.mail, s.procs[p].attempt, s.procs[p].pc)
    requires var a, pc := s.procs[p].attempt, s.procs[p].pc;
             var mv := Act(s.db, a, pc, a.message.recipient !in s.locks);
             mv.effect == Nothing && Steps(s.db, a, pc, mv.db)
    ensures EntriesOk(RunStep(s, p))
  {
    var a, pc := s.procs[p].attempt, s.procs[p].pc;
    var m := a.message;
    var mv := Act(s.db, a, pc, m.recipient !in s.locks);
    ActFiling(s.db, a, pc, m.recipient !in s.locks);
    ActEffect(s.db, a, pc, m.recipient !in s.locks);
    var n := RunStep(s, p);
    RunRows(s, p);
    RunStepped(s, p);
    hide Act;
    hide RunStep;
    hide Steps;
    hide Sane;
    forall i | 0 <= i < |n.entries|
      ensures EntryOk(n, i)
    {
      assert EntryOk(s, i);
      if (s.entries[i].fate == Receipted || s.entries[i].fate == Unfiled) {
        ReceiptKept(s.db.rows, n.db.rows, s.entries[i]);
      }
      hide Receipt;
    }
    hide Receipt;
    hide EntryOk;
    hide CommitRow.CommitHead;
    forall q | 0 <= q < |n.procs|
      ensures HolderOk(n, q)
    {
      assert HolderOk(s, q);
    }
  }

  lemma RunEntries(s: System, p: nat)
    requires p < |s.procs| && ProcsOk(s) && EntriesOk(s) && LocksOk(s) && TripsApart(s.db.trips)
    ensures EntriesOk(RunStep(s, p))
  {
    var a, pc := s.procs[p].attempt, s.procs[p].pc;
    var lockFree := a.message.recipient !in s.locks;
    ActSteps(s.db, a, pc, lockFree);
    ActEffect(s.db, a, pc, lockFree);
    hide Act;
    hide RunStep;
    hide Steps;
    if Act(s.db, a, pc, lockFree).effect != Nothing {
      NewEntry(s, p);
    } else if HoldsEffect(pc) {
      ReceiptEntry(s, p);
    } else {
      OtherEntries(s, p);
    }
  }

  lemma RunAcks(s: System, p: nat)
    requires p < |s.procs| && ProcsOk(s) && AcksOk(s) && TripsApart(s.db.trips)
    ensures AcksOk(RunStep(s, p))
  {
    var a, pc := s.procs[p].attempt, s.procs[p].pc;
    var lockFree := a.message.recipient !in s.locks;
    ActSteps(s.db, a, pc, lockFree);
    RunRows(s, p);
    var n := RunStep(s, p);
    hide Act;
    forall id, route | (id, route) in n.acks
      ensures DeliveryAccepted(n.db.rows, id, route)
    {
      assert DeliveryAccepted(s.db.rows, id, route);
      ReceiptKept(s.db.rows, n.db.rows, Entry(id, route, Body, None, Receipted));
    }
  }

  /** Attempts never change and rows stay where they are. */
  lemma StampsStay(s: System, n: System)
    requires StampsOk(s) && LedgerOk(s.db, s.stamps)
    requires |s.procs| <= |n.procs| && forall q :: 0 <= q < |s.procs| ==> n.procs[q].attempt == s.procs[q].attempt
    requires |s.db.rows| <= |n.db.rows| && n.db.rows[..|s.db.rows|] == s.db.rows
    requires n.stamps == s.stamps || n.stamps == s.stamps + [None]
    ensures StampsOk(n)
  {
    hide LedgerOk;
    hide GateOf;
    forall i | 0 <= i < |n.stamps|
      ensures StampOk(n, i)
    {
      if i < |s.stamps| {
        assert StampOk(s, i);
        assert i < |s.db.rows| ==> n.db.rows[i] == n.db.rows[..|s.db.rows|][i];
      }
    }
  }

  lemma RunStamps(s: System, p: nat)
    requires p < |s.procs| && StampsOk(s) && ProcsOk(s) && LedgerOk(s.db, s.stamps) && TripsApart(s.db.trips)
    ensures StampsOk(RunStep(s, p))
  {
    var a, pc := s.procs[p].attempt, s.procs[p].pc;
    var n := RunStep(s, p);
    assert Sane(s.db.mail, a, pc);
    ActSteps(s.db, a, pc, a.message.recipient !in s.locks);
    RunRows(s, p);
    assert |s.stamps| == |s.db.rows|;
    if pc.Record? && pc.open.Some? {
      var r := pc.landing.Receipt(a.message.id, a.message.recipient, a.world.recordAt);
      var st := Stamp(p, pc.open.value, |s.db.trips|);
      assert n.db.rows == s.db.rows + [r] && n.stamps == s.stamps + [Some(st)] && n.procs[p].attempt == a;
      hide Act;
      StampsStay(s, n.(stamps := s.stamps));
      hide GateOf;
      forall i | 0 <= i < |n.stamps|
        ensures StampOk(n, i)
      {
        if i < |s.stamps| {
          assert StampOk(n.(stamps := s.stamps), i);
        }
      }
    } else {
      hide Act;
      StampsStay(s, n);
    }
  }

  // ------------------------------------------------------------- the other steps

  lemma CrashKeeps(s: System, p: nat)
    requires p < |s.procs| && Inv(s)
    ensures Inv(CrashStep(s, p))
  {
    CrashLocks(s, p);
    var n := CrashStep(s, p);
    var a, pc := s.procs[p].attempt, s.procs[p].pc;
    assert n.db == s.db && n.procs == s.procs[p := s.procs[p].(pc := Crashed)];
    forall q | 0 <= q < |n.procs|
      ensures Sane(n.db.mail, n.procs[q].attempt, n.procs[q].pc) && Seen(n.db, n.procs[q].attempt, n.procs[q].pc)
    {
      assert Sane(s.db.mail, s.procs[q].attempt, s.procs[q].pc) && Seen(s.db, s.procs[q].attempt, s.procs[q].pc);
    }
    CrashEntries(s, p);
    StampsStay(s, n);
  }

  lemma CrashEntries(s: System, p: nat)
    requires p < |s.procs| && EntriesOk(s) && LocksOk(s)
    ensures EntriesOk(CrashStep(s, p))
  {
    var n := CrashStep(s, p);
    hide Receipt;
    hide CommitRow.CommitHead;
    assert HolderOk(s, p);
    forall i | 0 <= i < |n.entries|
      ensures EntryOk(n, i)
    {
      assert EntryOk(s, i);
    }
    hide EntryOk;
    forall q | 0 <= q < |n.procs|
      ensures HolderOk(n, q)
    {
      assert HolderOk(s, q);
      if q != p && Locked(s.procs[q].pc) && Locked(s.procs[p].pc) {
        OtherRoute(s, p, q);
      }
    }
  }

  lemma SpawnKeeps(s: System, a: Attempt)
    requires Inv(s) && Allowed(s, Spawn(a))
    ensures Inv(Next(s, Spawn(a)))
  {
    var n := Next(s, Spawn(a));
    assert forall q :: 0 <= q < |s.procs| ==> n.procs[q] == s.procs[q];
    assert Sane(s.db.mail, a, Start) && Seen(s.db, a, Start);
    hide Sane;
    hide Seen;
    hide Receipt;
    hide LedgerOk;
    StampsStay(s, n);
    forall q | 0 <= q < |s.procs|
      ensures HolderOk(n, q)
    {
      assert HolderOk(s, q);
    }
    forall i | 0 <= i < |n.entries|
      ensures EntryOk(n, i)
    {
      assert EntryOk(s, i);
    }
  }

  lemma ReadKeeps(s: System, id: string)
    requires Inv(s)
    ensures Inv(Next(s, Read(id)))
  {
    var n := Next(s, Read(id));
    forall q | 0 <= q < |s.procs|
      ensures Seen(n.db, s.procs[q].attempt, s.procs[q].pc)
    {
      assert Undisturbed(s.db, n.db, s.procs[q].attempt.message.recipient);
      SeenUndisturbed(s.db, n.db, s.procs[q].attempt, s.procs[q].pc);
    }
    hide Sane;
    hide Seen;
    LedgerSame(s.db, n.db, s.stamps);
    StampsStay(s, n);
    forall q | 0 <= q < |s.procs|
      ensures HolderOk(n, q)
    {
      assert HolderOk(s, q);
    }
    forall i | 0 <= i < |n.entries|
      ensures EntryOk(n, i)
    {
      assert EntryOk(s, i);
    }
    hide Receipt;
    hide LedgerOk;
  }

  lemma NoteKeeps(s: System, row: Row)
    requires Inv(s) && Neutral(row)
    ensures Inv(Next(s, Note(row)))
  {
    var n := Next(s, Note(row));
    assert n.db == Logged(s.db, row) && n.procs == s.procs && n.entries == s.entries && n.locks == s.locks;
    LedgerRow(s.db, s.stamps, row, None);
    forall q | 0 <= q < |s.procs|
      ensures Seen(n.db, s.procs[q].attempt, s.procs[q].pc)
    {
      assert Undisturbed(s.db, n.db, s.procs[q].attempt.message.recipient);
      SeenUndisturbed(s.db, n.db, s.procs[q].attempt, s.procs[q].pc);
    }
    StampsStay(s, n);
    forall q | 0 <= q < |s.procs|
      ensures HolderOk(n, q)
    {
      assert HolderOk(s, q);
    }
    forall i | 0 <= i < |n.entries|
      ensures EntryOk(n, i)
    {
      assert EntryOk(s, i);
      if (s.entries[i].fate == Receipted || s.entries[i].fate == Unfiled) {
        ReceiptKept(s.db.rows, n.db.rows, s.entries[i]);
      }
      hide Receipt;
    }
    forall id, route | (id, route) in n.acks
      ensures DeliveryAccepted(n.db.rows, id, route)
    {
      AcceptedLogged(s.db.rows, row, id, route);
    }
    hide Sane;
    hide Seen;
    hide Receipt;
    hide LedgerOk;
    hide DeliveryAccepted;
  }

  lemma RunKeeps(s: System, p: nat)
    requires p < |s.procs| && Inv(s)
    ensures Inv(RunStep(s, p))
  {
    hide RunStep;
    RunProcs(s, p);
    RunLocks(s, p);
    RunEntries(s, p);
    RunAcks(s, p);
    RunStamps(s, p);
    assert Sane(s.db.mail, s.procs[p].attempt, s.procs[p].pc) && Seen(s.db, s.procs[p].attempt, s.procs[p].pc);
    ActLedger(s, p);
  }

  lemma NextKeeps(s: System, e: Step)
    requires Inv(s) && Allowed(s, e)
    ensures Inv(Next(s, e))
  {
    hide Inv;
    match e
    case Spawn(a) => SpawnKeeps(s, a);
    case Run(p) => RunKeeps(s, p);
    case Crash(p) => CrashKeeps(s, p);
    case Read(id) => ReadKeeps(s, id);
    case Note(row) => NoteKeeps(s, row);
  }

  lemma {:induction false} RunsKeep(s: System, steps: seq<Step>, t: System)
    requires Inv(s) && Reaches(s, steps, t)
    ensures Inv(t)
    decreases |steps|
  {
    hide Inv;
    hide Next;
    if steps != [] {
      NextKeeps(s, steps[0]);
      RunsKeep(Next(s, steps[0]), steps[1..], t);
    }
  }

  lemma Reachable(mail: seq<Message>, steps: seq<Step>, s: System)
    requires Reaches(Initial(mail), steps, s)
    ensures Inv(s)
  {
    RunsKeep(Initial(mail), steps, s);
  }

  // ------------------------------------------------------------------- theorems

  /** Over every interleaving, a message has a second effect at its route only after a
      crash between a transport's answer and its receipt, or after a line left typed:
      without either, each delivery has at most one effect, a body or a pane notice. */
  lemma AtMostOneEffect(mail: seq<Message>, steps: seq<Step>, s: System)
    requires Reaches(Initial(mail), steps, s)
    ensures OneEffect(s.entries)
    ensures (forall i :: 0 <= i < |s.entries| ==> !Repeatable(s.entries[i]))
        ==> forall i, j :: 0 <= i < j < |s.entries| ==> !SameDelivery(s.entries[i], s.entries[j])
  {
    Reachable(mail, steps, s);
  }

  /** The ladder stamps a mailbox row only once a row in the ledger says the body
      went over, and an effect with a receipt left that row. */
  lemma AckNeedsReceipt(mail: seq<Message>, steps: seq<Step>, s: System)
    requires Reaches(Initial(mail), steps, s)
    ensures forall id, route :: (id, route) in s.acks ==> DeliveryAccepted(s.db.rows, id, route)
    ensures forall i :: 0 <= i < |s.entries| && s.entries[i].fate == Receipted ==> Receipt(s.db.rows, s.entries[i])
  {
    Reachable(mail, steps, s);
    forall i | 0 <= i < |s.entries| && s.entries[i].fate == Receipted
      ensures Receipt(s.db.rows, s.entries[i])
    {
      assert EntryOk(s, i);
    }
  }

  /** Every push row kept the budget: in the window ending at it, itself included,
      the pushes of its route never exceed the allowance of its gate, and no push of
      the same body is among the others. */
  lemma WindowBound(mail: seq<Message>, steps: seq<Step>, s: System, i: nat)
    requires Reaches(Initial(mail), steps, s)
    requires i < |s.db.rows| && PushDetail(s.db.rows[i].detail)
    ensures |s.stamps| == |s.db.rows| && s.stamps[i].Some? && s.stamps[i].value.writer < |s.procs|
    ensures var r, a := s.db.rows[i], s.procs[s.stamps[i].value.writer].attempt;
            var since := Since(r.at, a.budget.window);
            && Of(r, a.message.id, a.message.recipient)
            && PushesSince(s.db.rows[..i + 1], r.route, since) <= Allowance(a.budget, a.message.recipient, a.routes)
            && forall j :: 0 <= j < i && PushAt(s.db.rows[j], r.route, since)
                 ==> !HasBody(s.db.mail, s.db.rows[j].message, a.message.body)
  {
    Reachable(mail, steps, s);
    assert Kept(s.db.rows, s.db.mail, s.db.trips, i, s.stamps[i].value) && StampOk(s, i);
    hide Inv;
    hide LedgerOk;
    hide Allowance;
    hide PushesSince;
    hide PushAt;
    hide HasBody;
    assert forall j :: 0 <= j < i ==> s.db.rows[..i][j] == s.db.rows[j];
  }

  /** Cool-offs of one route never overlap, whether a budget or a dead door tripped
      them, and every push was gated after each trip then on record had ended. */
  lemma CoolOffsApart(mail: seq<Message>, steps: seq<Step>, s: System)
    requires Reaches(Initial(mail), steps, s)
    ensures TripsApart(s.db.trips)
    ensures |s.stamps| == |s.db.rows|
    ensures forall i :: 0 <= i < |s.stamps| && s.stamps[i].Some? ==>
              s.stamps[i].value.trips <= |s.db.trips|
              && TripsOver(s.db.trips[..s.stamps[i].value.trips], s.db.rows[i].route, s.stamps[i].value.gate.now)
  {
    Reachable(mail, steps, s);
    forall i | 0 <= i < |s.stamps| && s.stamps[i].Some?
      ensures s.stamps[i].value.trips <= |s.db.trips|
      ensures TripsOver(s.db.trips[..s.stamps[i].value.trips], s.db.rows[i].route, s.stamps[i].value.gate.now)
    {
      assert Kept(s.db.rows, s.db.mail, s.db.trips, i, s.stamps[i].value);
    }
  }

  /** Once the ledger says a message was accepted, no action of any attempt puts it
      in front of the recipient again. */
  lemma NoSecondCall(mail: seq<Message>, steps: seq<Step>, s: System, e: Step, i: nat)
    requires Reaches(Initial(mail), steps, s) && Allowed(s, e)
    requires |s.entries| <= i < |Next(s, e).entries|
    ensures var n := Next(s, e).entries[i];
            !DeliveryAccepted(s.db.rows, n.id, n.route) && !NoticePasted(s.db.rows, n.id, n.route)
  {
    Reachable(mail, steps, s);
    assert e.Run? && i == |s.entries|;
    var a, pc := s.procs[e.p].attempt, s.procs[e.p].pc;
    ActEffect(s.db, a, pc, a.message.recipient !in s.locks);
    assert Seen(s.db, a, pc);
    hide Act;
  }

  /** A crash between receipt and ack is repaired by the next attempt that gets the
      lock: four actions, the mailbox row stamped, no effect, no ledger row and no
      commit push. */
  lemma NextAttemptRepairs(s: System, p: nat)
    requires p < |s.procs| && s.procs[p].pc == Start
    requires var a := s.procs[p].attempt;
             && a.world.reminderActive && a.message.recipient !in s.locks
             && DeliveryAccepted(s.db.rows, a.message.id, a.message.recipient)
    ensures var m := s.procs[p].attempt.message;
            var n := RunStep(RunStep(RunStep(RunStep(s, p), p), p), p);
            && n.db == s.db.(acked := s.db.acked + {m.id}) && n.entries == s.entries && n.stamps == s.stamps
            && n.procs[p].pc == Release && (m.id, m.recipient) in n.acks
  {
    hide Walk;
    hide DoorVerdict;
    hide PushAtDoor;
    hide DeliveryAccepted;
    var one := RunStep(s, p);
    assert one.db == s.db && one.procs[p].pc == Lock && one.locks == s.locks;
    var two := RunStep(one, p);
    assert two.db == s.db && two.procs[p].pc == CheckAccepted;
    var three := RunStep(two, p);
    assert three.db == s.db && three.procs[p].pc == AckAgain;
  }
}
