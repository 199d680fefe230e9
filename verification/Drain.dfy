/** Draining one route's held mail, and giving a dead route up after a bounded number
    of holds (`drain_route_held_mail_budgeted`, `1_dead_route.rs`). */
module Drain {
  import opened Text
  import opened Ladder
  import opened Admission
  import opened Delivery

  /** What one pass over one route reads from outside the store. `mode` is the commit
      subscription of each sender; `worlds` answers each message's attempt. */
  datatype Input = Input(routes: map<string, Route>, mode: string -> Option<string>, budget: Budget,
                         now: nat, worlds: string -> World, lockFree: string -> bool,
                         attempts: nat, retireAt: nat)

  function AttemptOf(inp: Input, m: Message): Attempt {
    Attempt(m, inp.routes, inp.budget, inp.worlds(m.id).(subscription := inp.mode(m.sender)))
  }

  // -------------------------------------------------------------------- held mail

  /** A row after which the drain no longer pushes the message. */
  predicate Ends(r: Row) {
    r.outcome == AcceptedByHarness || r.outcome == PastedIntoPane || r.outcome == RouteDead
    || r.detail == "door" || r.detail == "door queue"
  }

  predicate Ended(rows: seq<Row>, id: string, route: string) {
    exists i :: 0 <= i < |rows| && Of(rows[i], id, route) && Ends(rows[i])
  }

  predicate Held(db: Db, route: string, m: Message) {
    m.recipient == route && m.id !in db.acked && !Ended(db.rows, m.id, route)
  }

  const REMINDER: string := "reminder:"

  /** A progress row never retries, save a commit row in door mode; a reminder's row
      is its schedule's to retry. */
  predicate Retries(inp: Input, m: Message) {
    var commitRetry := m.kind.Commit? && m.detail != Some("done") && CommitByDoor(inp.mode(m.sender), inp.routes, m.recipient);
    !((m.kind.LaneProgressRow() && !commitRetry)
      || (m.reference.Some? && HasPrefix(m.reference.value, REMINDER)))
  }

  predicate CanPush(db: Db, inp: Input, route: string, m: Message) {
    Held(db, route, m) && Retries(inp, m)
  }

  function PushableAmong(db: Db, inp: Input, route: string, mail: seq<Message>): seq<Message> {
    if mail == [] then []
    else
      var m := mail[|mail| - 1];
      PushableAmong(db, inp, route, mail[..|mail| - 1]) + if CanPush(db, inp, route, m) then [m] else []
  }

  /** The rows a pass pushes, oldest first. */
  function Pushable(db: Db, inp: Input, route: string): seq<Message> {
    PushableAmong(db, inp, route, db.mail)
  }

  // ------------------------------------------------------------------- dead routes

  predicate NamesDeadSession(detail: string) {
    HasPrefix(detail, "no live ") || TransportFailure(detail)
  }

  predicate DeadHold(r: Row, id: string, route: string) {
    Of(r, id, route) && r.outcome == HeldInMailbox && NamesDeadSession(r.detail)
  }

  function DeadHolds(rows: seq<Row>, id: string, route: string): nat {
    if rows == [] then 0
    else DeadHolds(rows[..|rows| - 1], id, route) + if DeadHold(rows[|rows| - 1], id, route) then 1 else 0
  }

  function RouteDeadRow(m: Message, route: string, attempts: nat, why: string, at: nat): Row {
    Row(m.id, route, RouteDead, "route dead after " + Decimal(attempts) + " holds: " + why, at)
  }

  function RetiredRows(rest: seq<Message>, route: string, attempts: nat, why: string, at: nat): (rows: seq<Row>)
    ensures |rows| == |rest|
    ensures forall i :: 0 <= i < |rest| ==> rows[i] == RouteDeadRow(rest[i], route, attempts, why, at)
  {
    seq(|rest|, i requires 0 <= i < |rest| => RouteDeadRow(rest[i], route, attempts, why, at))
  }

  predicate Retires(db: Db, inp: Input, route: string, rest: seq<Message>, detail: string) {
    rest != [] && NamesDeadSession(detail) && DeadHolds(db.rows, rest[0].id, route) >= inp.attempts
  }

  function RetireIfDead(db: Db, inp: Input, route: string, rest: seq<Message>, detail: string): Db {
    if Retires(db, inp, route, rest, detail)
    then db.(rows := db.rows + RetiredRows(rest, route, inp.attempts, detail, inp.retireAt))
    else db
  }

  // ---------------------------------------------------------------------- the pass

  datatype Drained = Drained(db: Db, pushed: nat)

  /** Push the rows in order; the first cool-off or the first mailbox hold ends it. */
  function Pass(db: Db, inp: Input, route: string, rows: seq<Message>): Drained
    decreases |rows|
  {
    if rows == [] then Drained(db, 0)
    else
      var o := Alone(db, AttemptOf(inp, rows[0]), Start, inp.lockFree(rows[0].id));
      if o.landing.None? then Pass(o.db, inp, route, rows[1..])
      else if o.landing.value.rung.CoolOff? then Drained(o.db, 0)
      else if o.landing.value.rung.Mailbox? then
        Drained(RetireIfDead(o.db, inp, route, rows, o.landing.value.detail), 0)
      else
        var rest := Pass(o.db, inp, route, rows[1..]);
        Drained(rest.db, rest.pushed + if o.landing.value.carried then 1 else 0)
  }

  /** One row's attempt, on the tables as it finds them. */
  function AttemptedOn(db: Db, inp: Input, m: Message): Outcome {
    Alone(db, AttemptOf(inp, m), Start, inp.lockFree(m.id))
  }

  /** The tables once the first n rows have each been attempted once, in order. */
  function TablesAfter(db: Db, inp: Input, rows: seq<Message>, n: nat): Db
    requires n <= |rows|
  {
    if n == 0 then db else AttemptedOn(TablesAfter(db, inp, rows, n - 1), inp, rows[n - 1]).db
  }

  /** Where the i-th row's attempt lands, on what the rows before it left. */
  function LandingAt(db: Db, inp: Input, rows: seq<Message>, i: nat): Option<Landing>
    requires i < |rows|
  {
    AttemptedOn(TablesAfter(db, inp, rows, i), inp, rows[i]).landing
  }

  /** A cool-off or a mailbox hold: nothing after it is tried. */
  predicate Halts(landing: Option<Landing>) {
    landing.Some? && (landing.value.rung.CoolOff? || landing.value.rung.Mailbox?)
  }

  predicate Carries(landing: Option<Landing>) {
    landing.Some? && landing.value.carried
  }

  /** How many of the first n attempts carried their body. */
  function CarriedOf(db: Db, inp: Input, rows: seq<Message>, n: nat): nat
    requires n <= |rows|
  {
    if n == 0 then 0
    else CarriedOf(db, inp, rows, n - 1) + if Carries(LandingAt(db, inp, rows, n - 1)) then 1 else 0
  }

  /** A hold that names a dead session has now been repeated up to the bound. */
  predicate GivenUp(after: Db, inp: Input, route: string, m: Message, landing: Landing) {
    landing.rung.Mailbox? && NamesDeadSession(landing.detail) && DeadHolds(after.rows, m.id, route) >= inp.attempts
  }

  /** The pass attempted the rows before k and none of them halted it, then k, which
      did, unless there was none; nothing after. */
  ghost predicate Passed(db: Db, inp: Input, route: string, rows: seq<Message>, k: nat, d: Drained) {
    && k <= |rows|
    && (forall i :: 0 <= i < k ==> !Halts(LandingAt(db, inp, rows, i)))
    && d.pushed == CarriedOf(db, inp, rows, k)
    && if k == |rows| then d.db == TablesAfter(db, inp, rows, k)
       else
         && Halts(LandingAt(db, inp, rows, k))
         && var after, landing := TablesAfter(db, inp, rows, k + 1), LandingAt(db, inp, rows, k).value;
         if GivenUp(after, inp, route, rows[k], landing)
         then d.db == after.(rows := after.rows + RetiredRows(rows[k..], route, inp.attempts, landing.detail, inp.retireAt))
         else d.db == after
  }

  lemma {:induction false} TablesShift(db: Db, inp: Input, rows: seq<Message>, n: nat)
    requires n < |rows|
    ensures TablesAfter(db, inp, rows, n + 1) == TablesAfter(AttemptedOn(db, inp, rows[0]).db, inp, rows[1..], n)
  {
    hide AttemptedOn;
    if n == 0 {
      assert TablesAfter(db, inp, rows, 0) == db;
    } else {
      TablesShift(db, inp, rows, n - 1);
    }
  }

  lemma LandingShift(db: Db, inp: Input, rows: seq<Message>, i: nat)
    requires i + 1 < |rows|
    ensures LandingAt(db, inp, rows, i + 1) == LandingAt(AttemptedOn(db, inp, rows[0]).db, inp, rows[1..], i)
  {
    hide AttemptedOn;
    TablesShift(db, inp, rows, i);
  }

  lemma {:induction false} CarriedShift(db: Db, inp: Input, rows: seq<Message>, n: nat)
    requires n < |rows|
    ensures CarriedOf(db, inp, rows, n + 1)
         == CarriedOf(AttemptedOn(db, inp, rows[0]).db, inp, rows[1..], n)
            + if Carries(AttemptedOn(db, inp, rows[0]).landing) then 1 else 0
  {
    hide AttemptedOn;
    hide Carries;
    assert TablesAfter(db, inp, rows, 0) == db;
    if n > 0 {
      CarriedShift(db, inp, rows, n - 1);
      LandingShift(db, inp, rows, n - 1);
    } else {
      assert CarriedOf(db, inp, rows, 0) == 0;
    }
  }

  lemma PassedShift(db: Db, inp: Input, route: string, rows: seq<Message>, k: nat, d: Drained)
    requires rows != [] && !Halts(AttemptedOn(db, inp, rows[0]).landing)
    requires Passed(AttemptedOn(db, inp, rows[0]).db, inp, route, rows[1..], k, d)
    ensures Passed(db, inp, route, rows, k + 1,
                   Drained(d.db, d.pushed + if Carries(AttemptedOn(db, inp, rows[0]).landing) then 1 else 0))
  {
    hide AttemptedOn;
    hide NamesDeadSession;
    hide DeadHolds;
    hide Halts;
    assert TablesAfter(db, inp, rows, 0) == db;
    TablesShift(db, inp, rows, k);
    CarriedShift(db, inp, rows, k);
    forall i | 0 <= i < k + 1
      ensures !Halts(LandingAt(db, inp, rows, i))
    {
      if i > 0 {
        LandingShift(db, inp, rows, i - 1);
      }
    }
    if k < |rows| - 1 {
      TablesShift(db, inp, rows, k + 1);
      LandingShift(db, inp, rows, k);
      assert rows[1..][k] == rows[k + 1] && rows[1..][k..] == rows[k + 1..];
    }
  }

  /** What a pass does: each row attempted once, in order, on what the one before left,
      up to the first that lands as a cool-off or a mailbox hold. */
  lemma {:induction false} PassIs(db: Db, inp: Input, route: string, rows: seq<Message>) returns (k: nat)
    ensures Passed(db, inp, route, rows, k, Pass(db, inp, route, rows))
    decreases |rows|
  {
    hide Alone;
    hide NamesDeadSession;
    hide DeadHolds;
    if rows == [] {
      k := 0;
    } else {
      var o := AttemptedOn(db, inp, rows[0]);
      if Halts(o.landing) {
        k := 0;
        assert TablesAfter(db, inp, rows, 0) == db && TablesAfter(db, inp, rows, 1) == o.db;
        assert rows[0..] == rows;
      } else {
        k := PassIs(o.db, inp, route, rows[1..]);
        hide Passed;
        PassedShift(db, inp, route, rows, k, Pass(o.db, inp, route, rows[1..]));
        k := k + 1;
      }
    }
  }

  predicate Walks(db: Db, inp: Input, route: string) {
    route in inp.routes && inp.routes[route].kind != "lane" && !CoolingOff(db.trips, route, inp.now)
  }

  function DrainRoute(db: Db, inp: Input, route: string): Drained {
    if Walks(db, inp, route) then Pass(db, inp, route, Pushable(db, inp, route)) else Drained(db, 0)
  }

  /** A pass over the pushable rows of a route that is registered, no lane's and outside
      a cool-off; any other route is left alone. */
  ghost predicate Drains(db: Db, inp: Input, route: string, d: Drained) {
    if route in inp.routes && inp.routes[route].kind != "lane" && !CoolingOff(db.trips, route, inp.now)
    then exists k :: Passed(db, inp, route, Pushable(db, inp, route), k, d)
    else d == Drained(db, 0)
  }

  lemma DrainRouteIs(db: Db, inp: Input, route: string)
    ensures Drains(db, inp, route, DrainRoute(db, inp, route))
  {
    var k := PassIs(db, inp, route, Pushable(db, inp, route));
    hide Passed;
    hide Pushable;
    hide Pass;
  }

  method HeldRows(store: Store, inp: Input, route: string) returns (pushable: seq<Message>)
    ensures pushable == Pushable(store.State(), inp, route)
  {
    pushable := [];
    var i := 0;
    while i < |store.mail|
      invariant 0 <= i <= |store.mail|
      invariant pushable == PushableAmong(store.State(), inp, route, store.mail[..i])
    {
      var m := store.mail[i];
      assert store.mail[..i + 1][..i] == store.mail[..i];
      if CanPush(Db(store.mail, store.acked, store.rows, store.trips, store.pushes), inp, route, m) {
        pushable := pushable + [m];
      }
      i := i + 1;
    }
    assert store.mail[..i] == store.mail;
  }

  method RetireHeld(store: Store, route: string, rest: seq<Message>, why: string, attempts: nat, now: nat)
    modifies store`rows
    ensures store.rows == old(store.rows) + RetiredRows(rest, route, attempts, why, now)
  {
    var detail := "route dead after " + Decimal(attempts) + " holds: " + why;
    var i := 0;
    while i < |rest|
      invariant 0 <= i <= |rest|
      invariant store.rows == old(store.rows) + RetiredRows(rest, route, attempts, why, now)[..i]
    {
      store.rows := store.rows + [Row(rest[i].id, route, RouteDead, detail, now)];
      i := i + 1;
    }
    assert RetiredRows(rest, route, attempts, why, now)[..i] == RetiredRows(rest, route, attempts, why, now);
  }

  /** One pass over one route, as the drain's own loop. */
  method DrainRouteHeldMail(store: Store, inp: Input, route: string) returns (pushed: nat)
    modifies store
    ensures Drained(store.State(), pushed) == DrainRoute(old(store.State()), inp, route)
    ensures Drains(old(store.State()), inp, route, Drained(store.State(), pushed))
  {
    hide Alone;
    hide Pushable;
    hide Drains;
    DrainRouteIs(store.State(), inp, route);
    pushed := 0;
    if route !in inp.routes || inp.routes[route].kind == "lane" || CoolingOff(store.trips, route, inp.now) {
      return;
    }
    var pushable := HeldRows(store, inp, route);
    var i := 0;
    while i < |pushable|
      invariant 0 <= i <= |pushable|
      invariant Walks(old(store.State()), inp, route) && pushable == Pushable(old(store.State()), inp, route)
      invariant var rest := Pass(store.State(), inp, route, pushable[i..]);
                DrainRoute(old(store.State()), inp, route) == Drained(rest.db, rest.pushed + pushed)
    {
      var m := pushable[i];
      assert pushable[i..][0] == m && pushable[i..][1..] == pushable[i + 1..];
      var landing := store.DeliverHail(AttemptOf(inp, m), inp.lockFree(m.id));
      if landing.Some? {
        if landing.value.rung.CoolOff? {
          return;
        }
        if landing.value.rung.Mailbox? {
          if NamesDeadSession(landing.value.detail) && DeadHolds(store.rows, m.id, route) >= inp.attempts {
            RetireHeld(store, route, pushable[i..], landing.value.detail, inp.attempts, inp.retireAt);
          }
          return;
        }
        if landing.value.carried {
          pushed := pushed + 1;
        }
      }
      i := i + 1;
    }
  }
}
