/** What draining keeps: which rows are pushed, one cooled-off row a pass, the count, and
    a dead route given up after its bounded number of holds. */
module DrainTheorems {
  import opened Text
  import opened Ladder
  import opened Admission
  import opened Delivery
  import opened Drain

  // ------------------------------------------------------------------ cool-offs

  function CooledRows(rows: seq<Row>): nat {
    if rows == [] then 0 else CooledRows(rows[..|rows| - 1]) + if rows[|rows| - 1].outcome.CooledOff? then 1 else 0
  }

  lemma CooledSnoc(rows: seq<Row>, r: Row)
    ensures CooledRows(rows + [r]) == CooledRows(rows) + if r.outcome.CooledOff? then 1 else 0
  {
    assert (rows + [r])[..|rows|] == rows;
  }

  /** A delivery writes one cooled-off row exactly when it lands in the cool-off. */
  lemma DeliveryCools(db: Db, a: Attempt, lockFree: bool)
    ensures var o := Alone(db, a, Start, lockFree);
            CooledRows(o.db.rows) == CooledRows(db.rows)
              + if o.landing.Some? && o.landing.value.rung.CoolOff? then 1 else 0
  {
    hide Alone;
    hide PushDetail;
    hide CooledRows;
    var shape := DeliveryShape(db, a, lockFree);
    var o := Alone(db, a, Start, lockFree);
    if o.landing.Some? {
      LandingCools(o.landing.value);
    }
    CooledOpening(db, a);
    hide Opening;
    match shape
    case Refused(at) => CooledSnoc(db.rows, o.landing.value.Receipt(a.message.id, a.message.recipient, at));
    case Repeated =>
    case Failed =>
    case Landed =>
      CooledSnoc(db.rows + Opening(db, a), o.landing.value.Receipt(a.message.id, a.message.recipient, a.world.recordAt));
  }

  lemma LandingCools(l: Landing)
    requires WellMade(l)
    ensures l.Outcome().CooledOff? <==> l.rung.CoolOff?
  {
  }

  lemma CooledOpening(db: Db, a: Attempt)
    ensures CooledRows(db.rows + Opening(db, a)) == CooledRows(db.rows)
  {
    if HasTransition(db.rows, a.message.id) {
      assert db.rows + [] == db.rows;
    } else {
      CooledSnoc(db.rows, Opening(db, a)[0]);
    }
    hide HasTransition;
  }

  lemma {:induction false} RetiredNotCooled(rows: seq<Row>, rest: seq<Message>, route: string, attempts: nat, why: string, at: nat)
    ensures CooledRows(rows + RetiredRows(rest, route, attempts, why, at)) == CooledRows(rows)
    decreases |rest|
  {
    var all := RetiredRows(rest, route, attempts, why, at);
    if rest == [] {
      assert rows + all == rows;
    } else {
      var init := RetiredRows(rest[..|rest| - 1], route, attempts, why, at);
      RetiredNotCooled(rows, rest[..|rest| - 1], route, attempts, why, at);
      assert all == init + [all[|rest| - 1]];
      assert rows + all == (rows + init) + [all[|rest| - 1]];
      CooledSnoc(rows + init, all[|rest| - 1]);
    }
  }

  lemma {:induction false} PassCools(db: Db, inp: Input, route: string, rows: seq<Message>)
    ensures CooledRows(Pass(db, inp, route, rows).db.rows) <= CooledRows(db.rows) + 1
    decreases |rows|
  {
    hide Alone;
    hide NamesDeadSession;
    hide DeadHolds;
    if rows != [] {
      var a := AttemptOf(inp, rows[0]);
      var o := Alone(db, a, Start, inp.lockFree(rows[0].id));
      DeliveryCools(db, a, inp.lockFree(rows[0].id));
      if o.landing.Some? && o.landing.value.rung.Mailbox? {
        RetiredNotCooled(o.db.rows, rows, route, inp.attempts, o.landing.value.detail, inp.retireAt);
      } else if o.landing.Some? && o.landing.value.rung.CoolOff? {
      } else {
        PassCools(o.db, inp, route, rows[1..]);
      }
    }
  }

  /** One pass writes at most one cooled-off row, however many rows it pushes. */
  lemma OneCooledRowPerPass(db: Db, inp: Input, route: string)
    ensures CooledRows(DrainRoute(db, inp, route).db.rows) <= CooledRows(db.rows) + 1
  {
    hide Pushable;
    hide Pass;
    if Walks(db, inp, route) {
      PassCools(db, inp, route, Pushable(db, inp, route));
    }
  }

  // -------------------------------------------------------------------- the count

  /** Distinct unread messages. */
  ghost predicate Fresh(rows: seq<Message>, acked: set<string>) {
    && (forall i :: 0 <= i < |rows| ==> rows[i].id !in acked)
    && (forall i, j :: 0 <= i < j < |rows| ==> rows[i].id != rows[j].id)
  }

  lemma DeliveryAcks(db: Db, a: Attempt, lockFree: bool)
    ensures var o := Alone(db, a, Start, lockFree);
            o.db.acked == if o.landing.Some? && o.landing.value.carried then db.acked + {a.message.id} else db.acked
  {
    hide Alone;
    hide WellMade;
    hide Opening;
    var shape := DeliveryShape(db, a, lockFree);
  }

  /** A pass reports exactly the number of mailbox rows it stamped. */
  lemma {:induction false} PassCounts(db: Db, inp: Input, route: string, rows: seq<Message>)
    requires Fresh(rows, db.acked)
    ensures var d := Pass(db, inp, route, rows);
            db.acked <= d.db.acked && |d.db.acked| == |db.acked| + d.pushed
    decreases |rows|
  {
    hide Alone;
    hide NamesDeadSession;
    hide DeadHolds;
    if rows != [] {
      var a := AttemptOf(inp, rows[0]);
      DeliveryAcks(db, a, inp.lockFree(rows[0].id));
      var o := Alone(db, a, Start, inp.lockFree(rows[0].id));
      if o.landing.Some? && (o.landing.value.rung.Mailbox? || o.landing.value.rung.CoolOff?) {
        HoldsCarryNothing(db, a, inp.lockFree(rows[0].id));
      } else {
        assert forall i :: 0 <= i < |rows[1..]| ==> rows[1..][i] == rows[i + 1];
        PassCounts(o.db, inp, route, rows[1..]);
      }
    }
  }

  lemma HoldsCarryNothing(db: Db, a: Attempt, lockFree: bool)
    ensures var o := Alone(db, a, Start, lockFree);
            o.landing.Some? && (o.landing.value.rung.Mailbox? || o.landing.value.rung.CoolOff?) ==> !o.landing.value.carried
  {
    hide Alone;
    hide Opening;
    hide PushDetail;
    var shape := DeliveryShape(db, a, lockFree);
  }

  // ------------------------------------------------------------ every door takes

  /** Each row in turn finds its lock free and its door open, and the door takes it. */
  ghost predicate AllTaken(db: Db, inp: Input, rows: seq<Message>, doors: seq<Option<string>>) {
    |doors| == |rows| && forall i :: 0 <= i < |rows| ==> TakenAt(db, inp, rows, i, doors[i])
  }

  ghost predicate TakenAt(db: Db, inp: Input, rows: seq<Message>, i: nat, door: Option<string>)
    requires i < |rows|
  {
    && inp.lockFree(rows[i].id) && Takes(door, AttemptOf(inp, rows[i]).world)
    && AtOpenDoor(TablesAfter(db, inp, rows, i), AttemptOf(inp, rows[i]), door)
  }

  lemma TakenCarries(db: Db, inp: Input, rows: seq<Message>, i: nat, door: Option<string>)
    requires i < |rows| && TakenAt(db, inp, rows, i, door)
    ensures Carries(LandingAt(db, inp, rows, i)) && !Halts(LandingAt(db, inp, rows, i))
    ensures TablesAfter(db, inp, rows, i + 1).acked == TablesAfter(db, inp, rows, i).acked + {rows[i].id}
  {
    var before, a := TablesAfter(db, inp, rows, i), AttemptOf(inp, rows[i]);
    OpenDoorDelivers(before, a, door);
    HoldsCarryNothing(before, a, true);
    hide Alone;
    hide AtOpenDoor;
    hide Takes;
  }

  lemma {:induction false} TakenSoFar(db: Db, inp: Input, rows: seq<Message>, doors: seq<Option<string>>, n: nat)
    requires AllTaken(db, inp, rows, doors) && n <= |rows|
    ensures CarriedOf(db, inp, rows, n) == n
    ensures forall i :: 0 <= i < n ==> rows[i].id in TablesAfter(db, inp, rows, n).acked
  {
    hide TakenAt;
    hide AttemptedOn;
    hide Carries;
    if n > 0 {
      assert TakenAt(db, inp, rows, n - 1, doors[n - 1]);
      TakenSoFar(db, inp, rows, doors, n - 1);
      TakenCarries(db, inp, rows, n - 1, doors[n - 1]);
    }
  }

  /** A pass in which every door takes attempts every row and leaves each acked, and
      counts them all. */
  lemma EveryDoorTakes(db: Db, inp: Input, route: string, rows: seq<Message>, doors: seq<Option<string>>)
    requires AllTaken(db, inp, rows, doors)
    ensures var d := Pass(db, inp, route, rows);
            && d.pushed == |rows| && d.db == TablesAfter(db, inp, rows, |rows|)
            && forall i :: 0 <= i < |rows| ==> rows[i].id in d.db.acked
  {
    var k := PassIs(db, inp, route, rows);
    hide Pass;
    hide TakenAt;
    hide Halts;
    hide TablesAfter;
    hide NamesDeadSession;
    hide DeadHolds;
    TakenSoFar(db, inp, rows, doors, |rows|);
    if k < |rows| {
      TakenCarries(db, inp, rows, k, doors[k]);
      assert false;
    }
  }

  // ----------------------------------------------------------------- dead routes

  lemma HoldsSnoc(rows: seq<Row>, r: Row, id: string, route: string)
    ensures DeadHolds(rows + [r], id, route) == DeadHolds(rows, id, route) + if DeadHold(r, id, route) then 1 else 0
  {
    assert (rows + [r])[..|rows|] == rows;
  }

  lemma EndedSnoc(rows: seq<Row>, r: Row, id: string, route: string)
    ensures Ended(rows + [r], id, route) <==> Ended(rows, id, route) || (Of(r, id, route) && Ends(r))
  {
    hide Ends;
    var all := rows + [r];
    assert all[|rows|] == r;
    assert forall i :: 0 <= i < |rows| ==> all[i] == rows[i];
  }

  /** The attempt lands as a mailbox hold that names a dead session. */
  predicate LandsDead(db: Db, inp: Input, m: Message) {
    var o := Alone(db, AttemptOf(inp, m), Start, inp.lockFree(m.id));
    o.landing.Some? && o.landing.value.rung.Mailbox? && NamesDeadSession(o.landing.value.detail)
  }

  /** The tables after one dead hold of a message: exactly one hold more for it, its
      row neither acked nor ended, and nobody else's ended either. */
  ghost predicate OneHoldMore(db: Db, next: Db, m: Message, route: string) {
    && next.mail == db.mail && next.acked == db.acked
    && DeadHolds(next.rows, m.id, route) == DeadHolds(db.rows, m.id, route) + 1
    && (forall id :: Ended(next.rows, id, route) <==> Ended(db.rows, id, route))
    && (forall id :: id != m.id ==> DeadHolds(next.rows, id, route) == DeadHolds(db.rows, id, route))
  }

  /** The one row a hold writes, after the opening row. */
  lemma HoldRow(rows: seq<Row>, hold: Row, id: string, m: Message, route: string)
    requires hold.message == m.id && hold.route == route && hold.outcome == HeldInMailbox
    requires !PushDetail(hold.detail) && NamesDeadSession(hold.detail)
    ensures DeadHolds(rows + [hold], id, route) == DeadHolds(rows, id, route) + if id == m.id then 1 else 0
    ensures Ended(rows + [hold], id, route) <==> Ended(rows, id, route)
  {
    HoldsSnoc(rows, hold, id, route);
    EndedSnoc(rows, hold, id, route);
    hide NamesDeadSession;
    hide DeadHolds;
    hide Ended;
  }

  lemma OpeningRow(db: Db, a: Attempt, id: string)
    ensures DeadHolds(db.rows + Opening(db, a), id, a.message.recipient) == DeadHolds(db.rows, id, a.message.recipient)
    ensures Ended(db.rows + Opening(db, a), id, a.message.recipient) <==> Ended(db.rows, id, a.message.recipient)
  {
    if HasTransition(db.rows, a.message.id) {
      assert db.rows + [] == db.rows;
    } else {
      var r := Opening(db, a)[0];
      HoldsSnoc(db.rows, r, id, a.message.recipient);
      EndedSnoc(db.rows, r, id, a.message.recipient);
      assert r.outcome == Appended && "mailbox"[0] == 'm';
    }
    hide HasTransition;
    hide DeadHolds;
    hide Ended;
  }


  /** A dead hold leaves the mailbox alone and counts once. */
  lemma DeadHoldCounts(db: Db, inp: Input, m: Message)
    requires LandsDead(db, inp, m)
    ensures OneHoldMore(db, Alone(db, AttemptOf(inp, m), Start, inp.lockFree(m.id)).db, m, m.recipient)
  {
    hide Alone;
    hide NamesDeadSession;
    hide PushDetail;
    var a := AttemptOf(inp, m);
    var shape := DeliveryShape(db, a, inp.lockFree(m.id));
    var o := Alone(db, a, Start, inp.lockFree(m.id));
    var l := o.landing.value;
    var begun := if shape.Refused? then db.rows else db.rows + Opening(db, a);
    var at := if shape.Refused? then shape.at else a.world.recordAt;
    var hold := l.Receipt(m.id, m.recipient, at);
    assert o.db.rows == begun + [hold];
    assert !l.carried && hold.outcome == HeldInMailbox;
    forall id
      ensures DeadHolds(o.db.rows, id, m.recipient) == DeadHolds(db.rows, id, m.recipient) + if id == m.id then 1 else 0
      ensures Ended(o.db.rows, id, m.recipient) <==> Ended(db.rows, id, m.recipient)
    {
      if !shape.Refused? {
        OpeningRow(db, a, id);
      }
      HoldRow(begun, hold, id, m, m.recipient);
    }
  }

  // ------------------------------------------------- the oldest pushable row stays

  lemma {:induction false} PushableSame(db: Db, next: Db, inp: Input, later: Input, route: string, mail: seq<Message>)
    requires forall m :: m in mail ==> (CanPush(db, inp, route, m) <==> CanPush(next, later, route, m))
    ensures PushableAmong(db, inp, route, mail) == PushableAmong(next, later, route, mail)
  {
    hide CanPush;
    if mail != [] {
      assert forall m :: m in mail[..|mail| - 1] ==> m in mail;
      assert mail[|mail| - 1] in mail;
      PushableSame(db, next, inp, later, route, mail[..|mail| - 1]);
    }
  }

  lemma {:induction false} PushableJoin(db: Db, inp: Input, route: string, a: seq<Message>, b: seq<Message>)
    ensures PushableAmong(db, inp, route, a + b) == PushableAmong(db, inp, route, a) + PushableAmong(db, inp, route, b)
  {
    hide CanPush;
    if b == [] {
      assert a + b == a;
    } else {
      PushableJoin(db, inp, route, a, b[..|b| - 1]);
      assert (a + b)[..|a + b| - 1] == a + b[..|b| - 1];
    }
  }

  lemma {:induction false} PushableIn(db: Db, inp: Input, route: string, mail: seq<Message>, m: Message)
    ensures m in PushableAmong(db, inp, route, mail) <==> m in mail && CanPush(db, inp, route, m)
  {
    hide CanPush;
    if mail != [] {
      PushableIn(db, inp, route, mail[..|mail| - 1], m);
      assert mail == mail[..|mail| - 1] + [mail[|mail| - 1]];
    }
  }

  /** A row is pushed exactly when it is the route's, unread, neither accepted, pasted,
      pushed nor given up there, no reminder's, and no progress row but an unfinished
      commit for a subscriber in door mode. */
  lemma PushableIff(db: Db, inp: Input, route: string, m: Message)
    ensures m in Pushable(db, inp, route) <==>
              && m in db.mail && m.recipient == route && m.id !in db.acked
              && (forall i :: 0 <= i < |db.rows| && db.rows[i].message == m.id && db.rows[i].route == route ==>
                    db.rows[i].outcome !in {AcceptedByHarness, PastedIntoPane, RouteDead}
                    && db.rows[i].detail != "door" && db.rows[i].detail != "door queue")
              && !(m.reference.Some? && HasPrefix(m.reference.value, "reminder:"))
              && m.kind !in {Yield, Reparented, Retrying, HeadRewound}
              && (m.kind == Commit ==> m.detail != Some("done") && WantsCommits(inp.mode(m.sender), inp.routes, route))
  {
    PushableIn(db, inp, route, db.mail, m);
    hide PushableAmong;
  }

  // --------------------------------------------------------------- what reads as dead

  lemma LockedIsAdmitted(db: Db, inp: Input, m: Message)
    requires Admitted(db, AttemptOf(inp, m), inp.lockFree(m.id))
    ensures inp.lockFree(m.id) && Admitted(db, AttemptOf(inp, m), true)
  {
  }

  /** A route whose harness has no live session lands a hail dead, if no hook takes it. */
  lemma AbsentLandsDead(db: Db, inp: Input, m: Message)
    requires var a := AttemptOf(inp, m);
             && Admitted(db, a, inp.lockFree(m.id)) && a.world.live.Absent? && !a.world.hook
             && m.recipient in inp.routes && !KeptByKind(db.pushes, inp.routes, m, a.world)
             && var route := inp.routes[m.recipient];
             route.kind != "lane" && route.mode != Some("acpx") && route.harness.Some? && !route.harness.value.keystrokes
    ensures LandsDead(db, inp, m)
  {
    var a := AttemptOf(inp, m);
    LockedIsAdmitted(db, inp, m);
    ShortAlone(db, a);
    AbsentSession(db.pushes, inp.routes, m, a.world);
    var detail := "no live " + inp.routes[m.recipient].harness.value.id + " session for " + m.recipient;
    assert HasPrefix(detail, "no live ");
    hide Alone;
    hide Walk;
    hide TransportFailure;
    hide KeptByKind;
    hide Settled;
    hide DoorVerdict;
  }

  /** A door whose refusal reads as a dead transport lands a hail dead, if no hook takes
      it. */
  lemma DeadDoorLandsDead(db: Db, inp: Input, m: Message, door: string)
    requires var a := AttemptOf(inp, m);
             && inp.lockFree(m.id) && AtOpenDoor(db, a, Some(door)) && !a.world.hook
             && (a.world.answer.Unreachable? || a.world.answer.DoorError?)
             && TransportFailure(door + " door for " + m.recipient + ": " + a.world.answer.why)
    ensures LandsDead(db, inp, m)
  {
    var a := AttemptOf(inp, m);
    DoorAnswers(db, a, Some(door));
    hide Alone;
    hide AtOpenDoor;
    hide TransportFailure;
    hide TurnedAway;
  }

  // ------------------------------------------------------------ passes over a route

  /** Mail that arrives between two passes, and what the next pass reads. */
  datatype Tick = Tick(arrived: seq<Message>, input: Input)

  function Arrive(db: Db, arrived: seq<Message>): Db {
    db.(mail := db.mail + arrived)
  }

  /** The tables when a tick's pass begins, and when it ends. */
  function Before(db: Db, t: Tick): Db {
    Arrive(db, t.arrived)
  }

  function After(db: Db, t: Tick, route: string): Db {
    DrainRoute(Before(db, t), t.input, route).db
  }

  function Ticked(db: Db, ticks: seq<Tick>, route: string): Db
    decreases |ticks|
  {
    if ticks == [] then db else Ticked(After(db, ticks[0], route), ticks[1..], route)
  }

  /** The registry, the commit subscriptions and the bound do not change. */
  ghost predicate SameSettings(a: Input, b: Input) {
    a.routes == b.routes && a.mode == b.mode && a.attempts == b.attempts
  }

  /** Every pass is outside a cool-off and the first row it pushes lands dead. */
  predicate AllDead(db: Db, ticks: seq<Tick>, route: string)
    decreases |ticks|
  {
    ticks == []
    || (var begun := Before(db, ticks[0]);
        && Walks(begun, ticks[0].input, route)
        && Pushable(begun, ticks[0].input, route) != []
        && LandsDead(begun, ticks[0].input, Pushable(begun, ticks[0].input, route)[0])
        && AllDead(After(db, ticks[0], route), ticks[1..], route))
  }

  predicate RouteDeadAt(rows: seq<Row>, id: string, route: string) {
    exists i :: 0 <= i < |rows| && Of(rows[i], id, route) && rows[i].outcome == RouteDead
  }

  /** Rows retired are the rows of the pass, each with its own. */
  lemma RetiredAll(rows: seq<Row>, rest: seq<Message>, route: string, attempts: nat, why: string, at: nat, m: Message)
    requires m in rest
    ensures var all := rows + RetiredRows(rest, route, attempts, why, at);
            RouteDeadAt(all, m.id, route) && Ended(all, m.id, route)
  {
    var i :| 0 <= i < |rest| && rest[i] == m;
    var retired := RetiredRows(rest, route, attempts, why, at);
    assert (rows + retired)[|rows| + i] == retired[i];
  }

  lemma EndedGrows(rows: seq<Row>, more: seq<Row>, id: string, route: string)
    requires Ended(rows, id, route)
    ensures Ended(rows + more, id, route)
  {
    hide Ends;
    assert forall i :: 0 <= i < |rows| ==> (rows + more)[i] == rows[i];
  }

  lemma FirstIsPushable(db: Db, inp: Input, route: string, m: Message)
    requires m in Pushable(db, inp, route)
    ensures m.recipient == route && m in db.mail && CanPush(db, inp, route, m)
  {
    PushableIn(db, inp, route, db.mail, m);
  }

  /** A pass whose first row lands dead short of the bound: one hold more, nothing
      else pushed, every row still there. */
  lemma TickHoldsOnce(db: Db, inp: Input, route: string)
    requires Walks(db, inp, route) && Pushable(db, inp, route) != []
    requires var first := Pushable(db, inp, route)[0];
             LandsDead(db, inp, first) && DeadHolds(db.rows, first.id, route) + 1 < inp.attempts
    ensures OneHoldMore(db, DrainRoute(db, inp, route).db, Pushable(db, inp, route)[0], route)
  {
    hide Alone;
    hide NamesDeadSession;
    hide DeadHolds;
    var first := Pushable(db, inp, route)[0];
    FirstIsPushable(db, inp, route, first);
    hide Pushable;
    DeadHoldCounts(db, inp, first);
  }

  /** A pass whose first row reaches the bound retires every row it would push. */
  lemma TickRetires(db: Db, inp: Input, route: string)
    requires Walks(db, inp, route) && Pushable(db, inp, route) != []
    requires var first := Pushable(db, inp, route)[0];
             LandsDead(db, inp, first) && DeadHolds(db.rows, first.id, route) + 1 >= inp.attempts
    ensures var next := DrainRoute(db, inp, route).db;
            && (forall m :: m in Pushable(db, inp, route) ==> RouteDeadAt(next.rows, m.id, route))
            && next.mail == db.mail && Pushable(next, inp, route) == []
  {
    hide NamesDeadSession;
    hide DeadHolds;
    var rows := Pushable(db, inp, route);
    var first := rows[0];
    FirstIsPushable(db, inp, route, first);
    var o := Alone(db, AttemptOf(inp, first), Start, inp.lockFree(first.id));
    DeadHoldCounts(db, inp, first);
    var why := o.landing.value.detail;
    var next := DrainRoute(db, inp, route).db;
    hide Alone;
    assert next.rows == o.db.rows + RetiredRows(rows, route, inp.attempts, why, inp.retireAt)
        && next.mail == db.mail && next.acked == db.acked;
    forall m | m in rows
      ensures RouteDeadAt(next.rows, m.id, route) && Ended(next.rows, m.id, route)
    {
      RetiredAll(o.db.rows, rows, route, inp.attempts, why, inp.retireAt, m);
    }
    hide DrainRoute;
    hide Pass;
    hide Walks;
    hide LandsDead;
    NothingLeft(db, next, o.db.rows, RetiredRows(rows, route, inp.attempts, why, inp.retireAt), inp, route);
  }

  lemma NothingLeft(db: Db, next: Db, held: seq<Row>, retired: seq<Row>, inp: Input, route: string)
    requires next.rows == held + retired && next.mail == db.mail && next.acked == db.acked
    requires forall id :: Ended(held, id, route) <==> Ended(db.rows, id, route)
    requires forall m :: m in Pushable(db, inp, route) ==> Ended(next.rows, m.id, route)
    ensures Pushable(next, inp, route) == []
  {
    var left := Pushable(next, inp, route);
    if left != [] {
      var m := left[0];
      FirstIsPushable(next, inp, route, m);
      PushableIn(db, inp, route, db.mail, m);
      if Ended(db.rows, m.id, route) {
        EndedGrows(held, retired, m.id, route);
      }
      assert false;
    }
  }

  /** Mail arriving behind it does not move the oldest pushable row. */
  lemma OldestStays(db: Db, next: Db, inp: Input, later: Input, route: string, arrived: seq<Message>)
    requires Pushable(db, inp, route) != [] && SameSettings(inp, later)
    requires OneHoldMore(db, next, Pushable(db, inp, route)[0], route)
    ensures var now := Pushable(Arrive(next, arrived), later, route);
            now != [] && now[0] == Pushable(db, inp, route)[0]
            && forall m :: m in Pushable(db, inp, route) ==> m in now
  {
    var begun := Arrive(next, arrived);
    assert begun.rows == next.rows && begun.acked == db.acked && begun.mail == db.mail + arrived;
    forall m | m in db.mail
      ensures CanPush(db, inp, route, m) <==> CanPush(begun, later, route, m)
    {
    }
    PushableSame(db, begun, inp, later, route, db.mail);
    PushableJoin(begun, later, route, db.mail, arrived);
    hide PushableAmong;
    hide CanPush;
  }

  /** How many passes a dead route still gets. */
  function PassesLeft(attempts: nat, holds: nat): nat {
    if attempts > holds + 1 then attempts - holds else 1
  }

  ghost predicate SameThroughout(ticks: seq<Tick>) {
    forall i, j :: 0 <= i < j < |ticks| ==> SameSettings(ticks[i].input, ticks[j].input)
  }

  /** When every pass's first row lands dead, the pass that brings the oldest row's
      holds to the bound leaves every row pushable then, or pushable at the start,
      route-dead, and nothing left to push. */
  lemma {:induction false} DeadRouteRetires(db: Db, ticks: seq<Tick>, route: string)
    requires ticks != [] && AllDead(db, ticks, route) && SameThroughout(ticks)
    requires var inp := ticks[0].input;
             var oldest := Pushable(Before(db, ticks[0]), inp, route)[0];
             |ticks| == PassesLeft(inp.attempts, DeadHolds(db.rows, oldest.id, route))
    ensures var inp, after := ticks[0].input, Ticked(db, ticks, route);
            && (forall m :: m in Pushable(Before(db, ticks[0]), inp, route) ==> RouteDeadAt(after.rows, m.id, route))
            && Pushable(after, ticks[|ticks| - 1].input, route) == []
    decreases |ticks|
  {
    hide Alone;
    hide NamesDeadSession;
    hide DeadHolds;
    hide Pushable;
    hide RouteDeadAt;
    hide LandsDead;
    hide Walks;
    hide DrainRoute;
    var t := ticks[0];
    var begun := Before(db, t);
    assert begun.rows == db.rows;
    if |ticks| == 1 {
      TickRetires(begun, t.input, route);
      assert ticks[1..] == [];
    } else {
      TickHoldsOnce(begun, t.input, route);
      var next, u := After(db, t, route), ticks[1];
      assert SameSettings(t.input, u.input);
      OldestStays(begun, next, t.input, u.input, route, u.arrived);
      var tail := ticks[1..];
      assert tail[0] == u && tail[|tail| - 1] == ticks[|ticks| - 1];
      assert forall i, j :: 0 <= i < j < |tail| ==> SameSettings(tail[i].input, tail[j].input) by {
        assert forall i :: 0 <= i < |tail| ==> tail[i] == ticks[i + 1];
      }
      DeadRouteRetires(next, tail, route);
    }
  }
}
