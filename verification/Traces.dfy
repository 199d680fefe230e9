/** Joining observed sessions into traces (`derive_traces`): a work-list search
    over the undirected multigraph of session relations, under input budgets,
    refusing a graph whose continuations are ambiguous. */
module Traces {
  import opened Order
  import opened Text

  type Millis = x: int | 0 <= x <= 0xFFFF_FFFF_FFFF_FFFF

  datatype Observation = Observation(key: string, session: string, at: Millis)

  datatype Kind = ContinuedIn | SameProcess | ParentChild | SamePane | SameTui

  datatype Relation = Relation(key: string, from: string, to: string, kind: Kind, at: Millis)

  datatype Limits = Limits(observations: nat, relations: nat, sessions: nat)

  datatype Trace = Trace(sessions: seq<string>, root: string, evidence: seq<Relation>)

  datatype Diagnostic =
    | ObservationBudgetExceeded(limit: nat, observed: nat)
    | RelationBudgetExceeded(limit: nat, observed: nat)
    | SessionBudgetExceeded(limit: nat, observed: nat)
    | AmbiguousRelation(session: string, kind: Kind)

  // ---------------------------------------------------------------- the graph

  /** Every session an observation or a relation names. */
  function Sessions(observations: seq<Observation>, relations: seq<Relation>): set<string> {
    (set o | o in observations :: o.session)
    + (set r | r in relations :: r.from)
    + (set r | r in relations :: r.to)
  }

  predicate Joins(r: Relation, s: string, t: string) {
    (r.from == s && r.to == t) || (r.from == t && r.to == s)
  }

  ghost predicate Linked(relations: seq<Relation>, s: string, t: string) {
    exists r :: r in relations && Joins(r, s, t)
  }

  ghost predicate IsPath(relations: seq<Relation>, path: seq<string>) {
    path != [] && forall i :: 0 <= i < |path| - 1 ==> Linked(relations, path[i], path[i + 1])
  }

  /** Some undirected path of relations joins the two sessions. */
  ghost predicate Connected(relations: seq<Relation>, s: string, t: string) {
    exists path :: IsPath(relations, path) && path[0] == s && path[|path| - 1] == t
  }

  lemma ConnectedSelf(relations: seq<Relation>, s: string)
    ensures Connected(relations, s, s)
  {
    assert IsPath(relations, [s]);
  }

  lemma ConnectedStep(relations: seq<Relation>, s: string, t: string, u: string)
    requires Connected(relations, s, t) && Linked(relations, t, u)
    ensures Connected(relations, s, u)
  {
    var path :| IsPath(relations, path) && path[0] == s && path[|path| - 1] == t;
    assert IsPath(relations, path + [u]);
  }

  lemma {:induction false} ConnectedAlong(relations: seq<Relation>, s: string, path: seq<string>)
    requires IsPath(relations, path) && Connected(relations, s, path[0])
    ensures Connected(relations, s, path[|path| - 1])
    decreases |path|
  {
    if |path| > 1 {
      ConnectedStep(relations, s, path[0], path[1]);
      assert IsPath(relations, path[1..]);
      ConnectedAlong(relations, s, path[1..]);
    }
  }

  lemma ConnectedTransitive(relations: seq<Relation>, s: string, t: string, u: string)
    requires Connected(relations, s, t) && Connected(relations, t, u)
    ensures Connected(relations, s, u)
  {
    var path :| IsPath(relations, path) && path[0] == t && path[|path| - 1] == u;
    ConnectedAlong(relations, s, path);
  }

  lemma {:induction false} ConnectedBack(relations: seq<Relation>, path: seq<string>)
    requires IsPath(relations, path)
    ensures Connected(relations, path[|path| - 1], path[0])
    decreases |path|
  {
    if |path| == 1 {
      ConnectedSelf(relations, path[0]);
    } else {
      assert Linked(relations, path[0], path[1]);
      assert Linked(relations, path[1], path[0]);
      assert IsPath(relations, path[1..]);
      ConnectedBack(relations, path[1..]);
      ConnectedStep(relations, path[|path| - 1], path[1], path[0]);
    }
  }

  lemma ConnectedSymmetric(relations: seq<Relation>, s: string, t: string)
    requires Connected(relations, s, t)
    ensures Connected(relations, t, s)
  {
    var path :| IsPath(relations, path) && path[0] == s && path[|path| - 1] == t;
    ConnectedBack(relations, path);
  }

  ghost predicate ClosedUnderLinks(relations: seq<Relation>, c: set<string>) {
    forall r :: r in relations ==> (r.from in c <==> r.to in c)
  }

  /** A set that no relation leaves holds everything connected to its members. */
  lemma {:induction false} ClosedHoldsPath(relations: seq<Relation>, c: set<string>, path: seq<string>)
    requires ClosedUnderLinks(relations, c)
    requires IsPath(relations, path) && path[0] in c
    ensures path[|path| - 1] in c
    decreases |path|
  {
    if |path| > 1 {
      assert Linked(relations, path[0], path[1]);
      assert IsPath(relations, path[1..]);
      ClosedHoldsPath(relations, c, path[1..]);
    }
  }

  lemma ClosedHolds(relations: seq<Relation>, c: set<string>, s: string, t: string)
    requires ClosedUnderLinks(relations, c)
    requires s in c && Connected(relations, s, t)
    ensures t in c
  {
    var path :| IsPath(relations, path) && path[0] == s && path[|path| - 1] == t;
    ClosedHoldsPath(relations, c, path);
  }

  // ------------------------------------------------------------ specification

  /** The earliest observation of one session, the top of the clock without one. */
  function Earliest(observations: seq<Observation>, session: string): Millis {
    if observations == [] then U64_MAX
    else
      var before := Earliest(observations[..|observations| - 1], session);
      var last := observations[|observations| - 1];
      if last.session == session && last.at < before then last.at else before
  }

  /** Root order: the earlier observed session, the lesser name on a tie. */
  predicate Precedes(observations: seq<Observation>, a: string, b: string) {
    Earliest(observations, a) < Earliest(observations, b)
    || (Earliest(observations, a) == Earliest(observations, b) && Less(a, b))
  }

  /** The relations with both ends in `c`, in input order. */
  function Within(relations: seq<Relation>, c: set<string>): seq<Relation> {
    if relations == [] then []
    else
      var last := relations[|relations| - 1];
      Within(relations[..|relations| - 1], c)
      + if last.from in c && last.to in c then [last] else []
  }

  function Names(sessions: seq<string>): set<string> {
    set s | s in sessions
  }

  /** One trace: a whole connected component, its root and its evidence. */
  ghost predicate IsTrace(observations: seq<Observation>, relations: seq<Relation>, t: Trace) {
    && StrictlyAscending(t.sessions)
    && Names(t.sessions) <= Sessions(observations, relations)
    && (forall s, u {:trigger Connected(relations, s, u)} :: s in t.sessions ==> (u in t.sessions <==> Connected(relations, s, u)))
    && t.root in t.sessions
    && (forall s :: s in t.sessions && s != t.root ==> Precedes(observations, t.root, s))
    && t.evidence == Within(relations, Names(t.sessions))
  }

  predicate RootsAscend(traces: seq<Trace>) {
    forall i, j :: 0 <= i < j < |traces| ==> Less(traces[i].root, traces[j].root)
  }

  /** The traces of an input: every session is in one, and roots ascend. */
  ghost predicate IsDerivation(observations: seq<Observation>, relations: seq<Relation>, traces: seq<Trace>) {
    && (forall i :: 0 <= i < |traces| ==> IsTrace(observations, relations, traces[i]))
    && RootsAscend(traces)
    && (forall s :: s in Sessions(observations, relations) ==>
          exists i :: 0 <= i < |traces| && s in traces[i].sessions)
  }

  function Sources(relations: seq<Relation>, session: string, kind: Kind): set<string> {
    set r | r in relations && r.to == session && r.kind == kind :: r.from
  }

  function Targets(relations: seq<Relation>, session: string, kind: Kind): set<string> {
    set r | r in relations && r.from == session && r.kind == kind :: r.to
  }

  predicate ManySources(relations: seq<Relation>, session: string) {
    |Sources(relations, session, ContinuedIn)| > 1
  }

  predicate ManyTargets(relations: seq<Relation>, session: string) {
    |Targets(relations, session, ContinuedIn)| > 1
  }

  /** What `DeriveTraces` answers, budgets first and in this order. */
  ghost predicate Derives(observations: seq<Observation>, relations: seq<Relation>, limits: Limits,
                          result: Result<seq<Trace>, Diagnostic>)
  {
    var sessions := Sessions(observations, relations);
    if |observations| > limits.observations then
      result == Err(ObservationBudgetExceeded(limits.observations, |observations|))
    else if |relations| > limits.relations then
      result == Err(RelationBudgetExceeded(limits.relations, |relations|))
    else if |sessions| > limits.sessions then
      result == Err(SessionBudgetExceeded(limits.sessions, |sessions|))
    else if exists s :: ManySources(relations, s) then
      result.Err? && result.error.AmbiguousRelation? && result.error.kind == ContinuedIn
      && ManySources(relations, result.error.session)
      && (forall s :: ManySources(relations, s) && s != result.error.session ==> Less(result.error.session, s))
    else if exists s :: ManyTargets(relations, s) then
      result.Err? && result.error.AmbiguousRelation? && result.error.kind == ContinuedIn
      && ManyTargets(relations, result.error.session)
      && (forall s :: ManyTargets(relations, s) && s != result.error.session ==> Less(result.error.session, s))
    else
      result.Ok? && IsDerivation(observations, relations, result.value)
  }

  // ------------------------------------------------------- the program's loops

  type Ends = map<(string, Kind), set<string>>

  function Rank(kind: Kind): nat {
    match kind
    case ContinuedIn => 0
    case SameProcess => 1
    case ParentChild => 2
    case SamePane => 3
    case SameTui => 4
  }

  predicate KeyLess(a: (string, Kind), b: (string, Kind)) {
    Less(a.0, b.0) || (a.0 == b.0 && Rank(a.1) < Rank(b.1))
  }

  lemma KeyTransitive(a: (string, Kind), b: (string, Kind), c: (string, Kind))
    requires KeyLess(a, b) && KeyLess(b, c)
    ensures KeyLess(a, c)
  {
    if Less(a.0, b.0) && Less(b.0, c.0) {
      Transitive(a.0, b.0, c.0);
    }
  }

  lemma LeastKeyExists(keys: set<(string, Kind)>) returns (x: (string, Kind))
    requires keys != {}
    ensures x in keys && forall y :: y in keys && y != x ==> KeyLess(x, y)
    decreases |keys|
  {
    var y :| y in keys;
    if keys == {y} {
      x := y;
    } else {
      var z := LeastKeyExists(keys - {y});
      Trichotomy(y.0, z.0);
      if KeyLess(y, z) {
        x := y;
        forall w | w in keys && w != x ensures KeyLess(x, w) {
          if w != z {
            KeyTransitive(y, z, w);
          }
        }
      } else {
        x := z;
      }
    }
  }

  ghost predicate SourcesOf(relations: seq<Relation>, incoming: Ends) {
    && (forall key :: key in incoming <==> Sources(relations, key.0, key.1) != {})
    && (forall key :: key in incoming ==> incoming[key] == Sources(relations, key.0, key.1))
  }

  ghost predicate TargetsOf(relations: seq<Relation>, outgoing: Ends) {
    && (forall key :: key in outgoing <==> Targets(relations, key.0, key.1) != {})
    && (forall key :: key in outgoing ==> outgoing[key] == Targets(relations, key.0, key.1))
  }

  function Insert(ends: Ends, key: (string, Kind), session: string): Ends {
    ends[key := (if key in ends then ends[key] else {}) + {session}]
  }

  lemma SourcesGrow(before: seq<Relation>, r: Relation, incoming: Ends)
    requires SourcesOf(before, incoming)
    ensures SourcesOf(before + [r], Insert(incoming, (r.to, r.kind), r.from))
  {
    forall key: (string, Kind)
      ensures Sources(before + [r], key.0, key.1)
           == Sources(before, key.0, key.1) + (if r.to == key.0 && r.kind == key.1 then {r.from} else {})
    {
    }
  }

  lemma TargetsGrow(before: seq<Relation>, r: Relation, outgoing: Ends)
    requires TargetsOf(before, outgoing)
    ensures TargetsOf(before + [r], Insert(outgoing, (r.from, r.kind), r.to))
  {
    forall key: (string, Kind)
      ensures Targets(before + [r], key.0, key.1)
           == Targets(before, key.0, key.1) + (if r.from == key.0 && r.kind == key.1 then {r.to} else {})
    {
    }
  }

  /** Endpoints by session and kind, filled one relation at a time. */
  method CollectEnds(relations: seq<Relation>) returns (incoming: Ends, outgoing: Ends)
    ensures SourcesOf(relations, incoming) && TargetsOf(relations, outgoing)
  {
    incoming, outgoing := map[], map[];
    for i := 0 to |relations|
      invariant SourcesOf(relations[..i], incoming) && TargetsOf(relations[..i], outgoing)
    {
      var r := relations[i];
      assert relations[..i + 1] == relations[..i] + [r];
      SourcesGrow(relations[..i], r, incoming);
      TargetsGrow(relations[..i], r, outgoing);
      incoming := Insert(incoming, (r.to, r.kind), r.from);
      outgoing := Insert(outgoing, (r.from, r.kind), r.to);
    }
    assert relations[..|relations|] == relations;
  }

  predicate AmbiguousAt(ends: Ends, session: string) {
    (session, ContinuedIn) in ends && |ends[(session, ContinuedIn)]| > 1
  }

  /** The first key, in map order, whose continuation has several endpoints. */
  method FirstAmbiguous(ends: Ends) returns (found: Option<string>)
    ensures found.None? ==> forall s :: !AmbiguousAt(ends, s)
    ensures found.Some? ==> AmbiguousAt(ends, found.value)
    ensures found.Some? ==> forall s :: AmbiguousAt(ends, s) && s != found.value ==> Less(found.value, s)
  {
    var rest := ends.Keys;
    while rest != {}
      invariant rest <= ends.Keys
      invariant forall s :: AmbiguousAt(ends, s) ==> (s, ContinuedIn) in rest
      decreases |rest|
    {
      ghost var least := LeastKeyExists(rest);
      var key :| key in rest && forall y :: y in rest && y != key ==> KeyLess(key, y);
      if key.1 == ContinuedIn && |ends[key]| > 1 {
        forall s | AmbiguousAt(ends, s) && s != key.0 ensures Less(key.0, s) {
          assert KeyLess(key, (s, ContinuedIn));
        }
        return Some(key.0);
      }
      rest := rest - {key};
    }
    found := None;
  }

  type Adjacency = map<string, seq<(string, nat)>>

  /** Each relation is listed at both of its ends. */
  ghost predicate ListsAll(relations: seq<Relation>, adjacency: Adjacency) {
    forall i :: 0 <= i < |relations| ==>
      && relations[i].from in adjacency && (relations[i].to, i) in adjacency[relations[i].from]
      && relations[i].to in adjacency && (relations[i].from, i) in adjacency[relations[i].to]
  }

  /** Every listed neighbour comes from the relation it names. */
  ghost predicate ListsOnly(relations: seq<Relation>, adjacency: Adjacency) {
    forall s, e :: s in adjacency && e in adjacency[s] ==>
      e.1 < |relations| && Joins(relations[e.1], s, e.0)
  }

  function Push(adjacency: Adjacency, s: string, e: (string, nat)): (r: Adjacency)
    ensures r.Keys == adjacency.Keys + {s}
    ensures e in r[s]
    ensures forall t, x :: t in adjacency && x in adjacency[t] ==> x in r[t]
    ensures forall t, x :: t in r && x in r[t] ==> (t == s && x == e) || (t in adjacency && x in adjacency[t])
  {
    adjacency[s := (if s in adjacency then adjacency[s] else []) + [e]]
  }

  method BuildAdjacency(relations: seq<Relation>) returns (adjacency: Adjacency)
    ensures ListsAll(relations, adjacency) && ListsOnly(relations, adjacency)
  {
    adjacency := map[];
    for i := 0 to |relations|
      invariant ListsAll(relations[..i], adjacency) && ListsOnly(relations[..i], adjacency)
    {
      adjacency := List(relations, i, adjacency);
    }
    assert relations[..|relations|] == relations;
  }

  method List(relations: seq<Relation>, i: nat, before: Adjacency) returns (adjacency: Adjacency)
    requires i < |relations|
    requires ListsAll(relations[..i], before) && ListsOnly(relations[..i], before)
    ensures ListsAll(relations[..i + 1], adjacency) && ListsOnly(relations[..i + 1], adjacency)
  {
    var r := relations[i];
    var half := Push(before, r.from, (r.to, i));
    adjacency := Push(half, r.to, (r.from, i));
    forall s, e | s in adjacency && e in adjacency[s]
      ensures e.1 < i + 1 && Joins(relations[..i + 1][e.1], s, e.0)
    {
      if !(s == r.to && e == (r.from, i)) && !(s == r.from && e == (r.to, i)) {
        assert Joins(relations[..i][e.1], s, e.0);
      }
    }
    forall j | 0 <= j < i + 1
      ensures relations[j].from in adjacency && (relations[j].to, j) in adjacency[relations[j].from]
      ensures relations[j].to in adjacency && (relations[j].from, j) in adjacency[relations[j].to]
    {
      if j < i {
        assert relations[..i][j] == relations[j];
      }
    }
  }

  ghost predicate EarliestOf(observations: seq<Observation>, earliest: map<string, Millis>) {
    forall s :: Earliest(observations, s) == if s in earliest then earliest[s] else U64_MAX
  }

  /** The least observation time of each observed session. */
  method CollectEarliest(observations: seq<Observation>) returns (earliest: map<string, Millis>)
    ensures EarliestOf(observations, earliest)
  {
    earliest := map[];
    for i := 0 to |observations|
      invariant EarliestOf(observations[..i], earliest)
    {
      var o := observations[i];
      assert observations[..i + 1][..i] == observations[..i];
      earliest := earliest[o.session :=
        if o.session in earliest && earliest[o.session] <= o.at then earliest[o.session] else o.at];
    }
    assert observations[..|observations|] == observations;
  }

  /** What the search keeps: only reachable sessions, the seed among them, and
      nothing linked to a taken session left out of the queue. */
  ghost predicate Reached(relations: seq<Relation>, seed: string, all: set<string>,
                          component: set<string>, queue: seq<string>)
  {
    && component <= all
    && (forall s :: s in queue ==> s in all && Connected(relations, seed, s))
    && (forall s :: s in component ==> Connected(relations, seed, s))
    && (seed in component || seed in queue)
  }

  ghost predicate Frontier(relations: seq<Relation>, component: set<string>, queue: seq<string>) {
    forall r :: r in relations ==>
      && (r.from in component ==> r.to in component || r.to in queue)
      && (r.to in component ==> r.from in component || r.from in queue)
  }

  ghost predicate Touched(relations: seq<Relation>, component: set<string>, evidence: set<nat>) {
    forall i :: i in evidence <==>
      0 <= i < |relations| && (relations[i].from in component || relations[i].to in component)
  }

  /** What one expansion of `session` changes. */
  ghost predicate Expanded(neighbors: seq<(string, nat)>, component: set<string>,
                           queue0: seq<string>, queue: seq<string>, evidence0: set<nat>, evidence: set<nat>)
  {
    && (forall i :: i in evidence <==> i in evidence0 || exists e :: e in neighbors && e.1 == i)
    && (forall s :: s in queue0 ==> s in queue)
    && (forall e :: e in neighbors ==> e.0 in component || e.0 in queue)
    && (forall s :: s in queue ==> s in queue0 || exists e :: e in neighbors && e.0 == s)
  }

  function Neighbors(adjacency: Adjacency, session: string): seq<(string, nat)> {
    if session in adjacency then adjacency[session] else []
  }

  lemma StepReached(relations: seq<Relation>, seed: string, all: set<string>, adjacency: Adjacency,
                    component: set<string>, session: string, rest: seq<string>, queue: seq<string>,
                    evidence0: set<nat>, evidence: set<nat>)
    requires ListsOnly(relations, adjacency)
    requires forall r :: r in relations ==> r.from in all && r.to in all
    requires Reached(relations, seed, all, component, [session] + rest)
    requires Expanded(Neighbors(adjacency, session), component + {session}, rest, queue, evidence0, evidence)
    ensures Reached(relations, seed, all, component + {session}, queue)
  {
    assert session in [session] + rest;
    forall s | s in queue ensures s in all && Connected(relations, seed, s) {
      if s in rest {
        assert s in [session] + rest;
      } else {
        var e :| e in Neighbors(adjacency, session) && e.0 == s;
        assert Joins(relations[e.1], session, s) && relations[e.1] in relations;
        assert Linked(relations, session, s);
        ConnectedStep(relations, seed, session, s);
      }
    }
  }

  lemma StepFrontier(relations: seq<Relation>, adjacency: Adjacency, component: set<string>, session: string,
                     rest: seq<string>, queue: seq<string>, evidence0: set<nat>, evidence: set<nat>)
    requires ListsAll(relations, adjacency)
    requires Frontier(relations, component, [session] + rest)
    requires Expanded(Neighbors(adjacency, session), component + {session}, rest, queue, evidence0, evidence)
    ensures Frontier(relations, component + {session}, queue)
  {
    var grown := component + {session};
    forall r | r in relations
      ensures r.from in grown ==> r.to in grown || r.to in queue
      ensures r.to in grown ==> r.from in grown || r.from in queue
    {
      var i :| 0 <= i < |relations| && relations[i] == r;
      if r.from == session {
        assert (r.to, i) in Neighbors(adjacency, session);
      }
      if r.to == session {
        assert (r.from, i) in Neighbors(adjacency, session);
      }
    }
  }

  lemma StepTouched(relations: seq<Relation>, adjacency: Adjacency, component: set<string>, session: string,
                    rest: seq<string>, queue: seq<string>, evidence0: set<nat>, evidence: set<nat>)
    requires ListsAll(relations, adjacency) && ListsOnly(relations, adjacency)
    requires Touched(relations, component, evidence0)
    requires Expanded(Neighbors(adjacency, session), component + {session}, rest, queue, evidence0, evidence)
    ensures Touched(relations, component + {session}, evidence)
  {
    var grown := component + {session};
    forall i
      ensures i in evidence <==> 0 <= i < |relations| && (relations[i].from in grown || relations[i].to in grown)
    {
      if 0 <= i < |relations| && relations[i].from == session {
        assert (relations[i].to, i) in Neighbors(adjacency, session);
      }
      if 0 <= i < |relations| && relations[i].to == session {
        assert (relations[i].from, i) in Neighbors(adjacency, session);
      }
      if i in evidence && i !in evidence0 {
        var e :| e in Neighbors(adjacency, session) && e.1 == i;
        assert Joins(relations[e.1], session, e.0);
      }
    }
  }

  /** The search from one seed: every session a path reaches, and the index of
      every relation that touches one. The queue may hold a session twice. */
  method Search(ghost all: set<string>, relations: seq<Relation>, limits: Limits,
                adjacency: Adjacency, seed: string)
    returns (component: set<string>, evidence: set<nat>)
    requires ListsAll(relations, adjacency) && ListsOnly(relations, adjacency)
    requires forall r :: r in relations ==> r.from in all && r.to in all
    requires seed in all && |all| <= limits.sessions
    ensures component <= all
    ensures forall s :: s in component <==> Connected(relations, seed, s)
    ensures ClosedUnderLinks(relations, component) && Touched(relations, component, evidence)
  {
    var queue := [seed];
    component, evidence := {}, {};
    ConnectedSelf(relations, seed);
    while queue != []
      invariant Reached(relations, seed, all, component, queue)
      invariant Frontier(relations, component, queue)
      invariant Touched(relations, component, evidence)
      decreases |all - component|, |queue|
    {
      var session, rest := queue[0], queue[1..];
      assert queue == [session] + rest;
      if session !in component {
        ghost var taken := component;
        assert session in queue;
        CardinalityDrops(all - (component + {session}), all - component);
        component := component + {session};
        if |component| > limits.sessions {
          // The inner session budget: no reachable state spends it.
          CardinalityBound(component, all);
          assert false;
        }
        ghost var evidence0 := evidence;
        queue, evidence := Expand(if session in adjacency then adjacency[session] else [], component, rest, evidence);
        StepReached(relations, seed, all, adjacency, taken, session, rest, queue, evidence0, evidence);
        StepFrontier(relations, adjacency, taken, session, rest, queue, evidence0, evidence);
        StepTouched(relations, adjacency, taken, session, rest, queue, evidence0, evidence);
      } else {
        queue := rest;
        DropTaken(relations, component, session, rest);
      }
    }
    forall s | Connected(relations, seed, s) ensures s in component {
      ClosedHolds(relations, component, seed, s);
    }
  }

  /** A session the queue holds a second time is dropped without effect. */
  lemma DropTaken(relations: seq<Relation>, component: set<string>, session: string, rest: seq<string>)
    requires session in component && Frontier(relations, component, [session] + rest)
    ensures Frontier(relations, component, rest)
  {
  }

  /** One session's neighbours: all its relations become evidence, and every
      neighbour not yet taken is queued. */
  method Expand(neighbors: seq<(string, nat)>, component: set<string>, queue0: seq<string>, evidence0: set<nat>)
    returns (queue: seq<string>, evidence: set<nat>)
    ensures Expanded(neighbors, component, queue0, queue, evidence0, evidence)
  {
    queue, evidence := queue0, evidence0;
    for i := 0 to |neighbors|
      invariant Expanded(neighbors[..i], component, queue0, queue, evidence0, evidence)
    {
      var e := neighbors[i];
      ghost var queue1, evidence1 := queue, evidence;
      evidence := evidence + {e.1};
      if e.0 !in component {
        queue := queue + [e.0];
      }
      ExpandOne(neighbors[..i], e, component, queue0, queue1, queue, evidence0, evidence1, evidence);
      assert neighbors[..i + 1] == neighbors[..i] + [e];
    }
    assert neighbors[..|neighbors|] == neighbors;
  }

  lemma ExpandOne(done: seq<(string, nat)>, e: (string, nat), component: set<string>, queue0: seq<string>,
                  queue1: seq<string>, queue: seq<string>,
                  evidence0: set<nat>, evidence1: set<nat>, evidence: set<nat>)
    requires Expanded(done, component, queue0, queue1, evidence0, evidence1)
    requires evidence == evidence1 + {e.1}
    requires queue == if e.0 in component then queue1 else queue1 + [e.0]
    ensures Expanded(done + [e], component, queue0, queue, evidence0, evidence)
  {
    forall i ensures i in evidence <==> i in evidence0 || exists x :: x in done + [e] && x.1 == i {
      if i in evidence && i !in evidence0 {
        if i == e.1 {
          assert e in done + [e];
        } else {
          var x :| x in done && x.1 == i;
          assert x in done + [e];
        }
      }
    }
    forall s | s in queue ensures s in queue0 || exists x :: x in done + [e] && x.0 == s {
      if s in queue1 && s !in queue0 {
        var x :| x in done && x.0 == s;
        assert x in done + [e];
      } else if s !in queue1 {
        assert e in done + [e];
      }
    }
  }

  /** The evidence list: the marked relations in index order. */
  method EvidenceList(relations: seq<Relation>, component: set<string>, evidence: set<nat>)
    returns (list: seq<Relation>)
    requires ClosedUnderLinks(relations, component) && Touched(relations, component, evidence)
    ensures list == Within(relations, component)
  {
    list := [];
    for i := 0 to |relations|
      invariant list == Within(relations[..i], component)
    {
      assert relations[..i + 1][..i] == relations[..i];
      assert relations[i] in relations;
      if i in evidence {
        list := list + [relations[i]];
      }
    }
    assert relations[..|relations|] == relations;
  }

  lemma PrecedesTransitive(observations: seq<Observation>, a: string, b: string, c: string)
    requires Precedes(observations, a, b) && Precedes(observations, b, c)
    ensures Precedes(observations, a, c)
  {
    if Less(a, b) && Less(b, c) {
      Transitive(a, b, c);
    }
  }

  lemma PrecedesTotal(observations: seq<Observation>, a: string, b: string)
    requires a != b
    ensures Precedes(observations, a, b) || Precedes(observations, b, a)
    ensures !(Precedes(observations, a, b) && Precedes(observations, b, a))
  {
    Trichotomy(a, b);
    if Less(a, b) {
      Asymmetric(a, b);
    } else {
      Asymmetric(b, a);
    }
  }

  ghost predicate IsRoot(observations: seq<Observation>, root: string, sessions: seq<string>) {
    root in sessions && forall s :: s in sessions && s != root ==> Precedes(observations, root, s)
  }

  /** The first member with the least (earliest observation, name). */
  method RootOf(ghost observations: seq<Observation>, earliest: map<string, Millis>, sessions: seq<string>)
    returns (root: string)
    requires sessions != [] && StrictlyAscending(sessions)
    requires EarliestOf(observations, earliest)
    ensures IsRoot(observations, root, sessions)
  {
    root := sessions[0];
    for i := 1 to |sessions|
      invariant IsRoot(observations, root, sessions[..i])
    {
      var s := sessions[i];
      assert sessions[..i + 1] == sessions[..i] + [s];
      assert s != root by {
        var j :| 0 <= j < i && sessions[j] == root;
        Asymmetric(sessions[j], s);
      }
      var rootAt := if root in earliest then earliest[root] else U64_MAX;
      var at := if s in earliest then earliest[s] else U64_MAX;
      if at < rootAt || (at == rootAt && Less(s, root)) {
        forall t | t in sessions[..i + 1] && t != s ensures Precedes(observations, s, t) {
          if t != root {
            PrecedesTransitive(observations, s, root, t);
          }
        }
        root := s;
      } else {
        PrecedesTotal(observations, root, s);
      }
    }
    assert sessions[..|sessions|] == sessions;
  }

  function InsertByRoot(sorted: seq<Trace>, t: Trace): seq<Trace> {
    if sorted == [] || Less(t.root, sorted[0].root) then [t] + sorted
    else [sorted[0]] + InsertByRoot(sorted[1..], t)
  }

  lemma {:induction false} InsertHolds(sorted: seq<Trace>, t: Trace)
    ensures forall u :: u in InsertByRoot(sorted, t) <==> u in sorted || u == t
  {
    if sorted != [] && !Less(t.root, sorted[0].root) {
      InsertHolds(sorted[1..], t);
      assert sorted == [sorted[0]] + sorted[1..];
    }
  }

  lemma {:induction false} InsertAscends(sorted: seq<Trace>, t: Trace)
    requires RootsAscend(sorted) && forall u :: u in sorted ==> u.root != t.root
    ensures RootsAscend(InsertByRoot(sorted, t))
  {
    if sorted != [] {
      var head, tail := sorted[0], sorted[1..];
      Trichotomy(t.root, head.root);
      assert head in sorted;
      if Less(t.root, head.root) {
        forall i | 0 < i < |sorted| ensures Less(t.root, sorted[i].root) {
          Transitive(t.root, head.root, sorted[i].root);
        }
      } else {
        var rest := InsertByRoot(tail, t);
        InsertAscends(tail, t);
        InsertHolds(tail, t);
        forall j | 0 <= j < |rest| ensures Less(head.root, rest[j].root) {
          if rest[j] != t {
            assert rest[j] in tail;
          }
        }
      }
    }
  }

  ghost predicate DistinctRoots(traces: seq<Trace>) {
    forall i, j :: 0 <= i < j < |traces| ==> traces[i].root != traces[j].root
  }

  method SortByRoot(traces: seq<Trace>) returns (sorted: seq<Trace>)
    requires DistinctRoots(traces)
    ensures RootsAscend(sorted)
    ensures forall t :: t in sorted <==> t in traces
  {
    sorted := [];
    for i := 0 to |traces|
      invariant RootsAscend(sorted)
      invariant forall t :: t in sorted <==> t in traces[..i]
    {
      assert traces[..i + 1] == traces[..i] + [traces[i]];
      InsertHolds(sorted, traces[i]);
      InsertAscends(sorted, traces[i]);
      sorted := InsertByRoot(sorted, traces[i]);
    }
    assert traces[..|traces|] == traces;
  }

  method CollectSessions(observations: seq<Observation>, relations: seq<Relation>) returns (sessions: set<string>)
    ensures sessions == Sessions(observations, relations)
  {
    sessions := set o | o in observations :: o.session;
    for i := 0 to |relations|
      invariant sessions == Sessions(observations, relations[..i])
    {
      assert relations[..i + 1] == relations[..i] + [relations[i]];
      sessions := sessions + {relations[i].from, relations[i].to};
    }
    assert relations[..|relations|] == relations;
  }

  /** The traces taken so far are whole components of the sessions taken so far. */
  ghost predicate Taken(observations: seq<Observation>, relations: seq<Relation>, traces: seq<Trace>, taken: set<string>) {
    && (forall t :: t in traces ==> IsTrace(observations, relations, t) && Names(t.sessions) <= taken)
    && (forall s :: s in taken ==> exists t :: t in traces && s in t.sessions)
    && DistinctRoots(traces)
  }

  lemma TakeOne(observations: seq<Observation>, relations: seq<Relation>, traces: seq<Trace>, taken: set<string>, t: Trace)
    requires Taken(observations, relations, traces, taken)
    requires IsTrace(observations, relations, t) && Names(t.sessions) !! taken
    ensures Taken(observations, relations, traces + [t], taken + Names(t.sessions))
  {
    forall s | s in taken + Names(t.sessions) ensures exists u :: u in traces + [t] && s in u.sessions {
      if s in taken {
        var u :| u in traces && s in u.sessions;
        assert u in traces + [t];
      } else {
        assert t in traces + [t];
      }
    }
    forall i | 0 <= i < |traces| ensures traces[i].root != t.root {
      assert traces[i] in traces && traces[i].root in Names(traces[i].sessions);
    }
  }

  lemma ComponentIsTrace(observations: seq<Observation>, relations: seq<Relation>, seed: string, t: Trace)
    requires forall s :: s in t.sessions <==> Connected(relations, seed, s)
    requires StrictlyAscending(t.sessions) && Names(t.sessions) <= Sessions(observations, relations)
    requires IsRoot(observations, t.root, t.sessions)
    requires t.evidence == Within(relations, Names(t.sessions))
    ensures IsTrace(observations, relations, t)
  {
    forall s, u | s in t.sessions ensures u in t.sessions <==> Connected(relations, s, u) {
      if Connected(relations, s, u) {
        ConnectedTransitive(relations, seed, s, u);
      }
      if u in t.sessions {
        ConnectedSymmetric(relations, seed, s);
        ConnectedTransitive(relations, s, seed, u);
      }
    }
  }

  /** The trace one seed grows into. */
  method TraceFrom(observations: seq<Observation>, relations: seq<Relation>, limits: Limits, ghost sessions: set<string>,
                   adjacency: Adjacency, earliest: map<string, Millis>, seed: string)
    returns (trace: Trace, component: set<string>)
    requires sessions == Sessions(observations, relations) && |sessions| <= limits.sessions && seed in sessions
    requires ListsAll(relations, adjacency) && ListsOnly(relations, adjacency)
    requires EarliestOf(observations, earliest)
    ensures IsTrace(observations, relations, trace) && Names(trace.sessions) == component
    ensures forall s :: s in component <==> Connected(relations, seed, s)
    ensures ClosedUnderLinks(relations, component)
  {
    var indexes;
    component, indexes := Search(sessions, relations, limits, adjacency, seed);
    ConnectedSelf(relations, seed);
    var list := Ascending(component);
    assert Names(list) == component;
    assert seed in list;
    var root := RootOf(observations, earliest, list);
    var evidence := EvidenceList(relations, component, indexes);
    trace := Trace(list, root, evidence);
    ComponentIsTrace(observations, relations, seed, trace);
  }

  /** A component grown inside a closed set stays inside it, and leaves it closed. */
  lemma RestStaysClosed(relations: seq<Relation>, open: set<string>, seed: string, component: set<string>)
    requires ClosedUnderLinks(relations, open) && ClosedUnderLinks(relations, component) && seed in open
    requires forall s :: s in component <==> Connected(relations, seed, s)
    ensures seed in component && component <= open && ClosedUnderLinks(relations, open - component)
  {
    ConnectedSelf(relations, seed);
    forall s | s in component ensures s in open {
      ClosedHolds(relations, open, seed, s);
    }
  }

  /** Where the outer loop stands: the unseen sessions are closed under links, and
      the traces so far cover the rest. */
  ghost predicate Partitioned(observations: seq<Observation>, relations: seq<Relation>, sessions: set<string>,
                              unseen: set<string>, traces: seq<Trace>)
  {
    && unseen <= sessions
    && ClosedUnderLinks(relations, unseen)
    && Taken(observations, relations, traces, sessions - unseen)
  }

  lemma NothingTaken(observations: seq<Observation>, relations: seq<Relation>, sessions: set<string>)
    requires sessions == Sessions(observations, relations)
    ensures Partitioned(observations, relations, sessions, sessions, [])
  {
    assert sessions - sessions == {};
  }

  lemma AllTaken(observations: seq<Observation>, relations: seq<Relation>, sessions: set<string>, traces: seq<Trace>)
    requires Partitioned(observations, relations, sessions, {}, traces)
    ensures Taken(observations, relations, traces, sessions)
  {
    assert sessions - {} == sessions;
  }

  lemma TakeComponent(observations: seq<Observation>, relations: seq<Relation>, traces: seq<Trace>, sessions: set<string>,
                      open: set<string>, seed: string, trace: Trace, unseen: set<string>)
    requires Partitioned(observations, relations, sessions, open, traces) && seed in open
    requires IsTrace(observations, relations, trace)
    requires forall s :: s in Names(trace.sessions) <==> Connected(relations, seed, s)
    requires ClosedUnderLinks(relations, Names(trace.sessions))
    requires unseen == open - {seed} - Names(trace.sessions)
    ensures unseen < open
    ensures Partitioned(observations, relations, sessions, unseen, traces + [trace])
  {
    RestStaysClosed(relations, open, seed, Names(trace.sessions));
    TakeOne(observations, relations, traces, sessions - open, trace);
    assert unseen == open - Names(trace.sessions);
    assert sessions - unseen == (sessions - open) + Names(trace.sessions);
  }

  /** Search out one component after another until no session is unseen. */
  method Partition(observations: seq<Observation>, relations: seq<Relation>, limits: Limits, sessions: set<string>)
    returns (traces: seq<Trace>)
    requires sessions == Sessions(observations, relations) && |sessions| <= limits.sessions
    ensures Taken(observations, relations, traces, sessions)
  {
    var adjacency := BuildAdjacency(relations);
    var earliest := CollectEarliest(observations);
    var unseen := sessions;
    traces := [];
    NothingTaken(observations, relations, sessions);
    while unseen != {}
      invariant Partitioned(observations, relations, sessions, unseen, traces)
      decreases unseen
    {
      ghost var open := unseen;
      var seed;
      seed, unseen := PopFirst(unseen);
      var trace, component := TraceFrom(observations, relations, limits, sessions, adjacency, earliest, seed);
      unseen := unseen - component;
      TakeComponent(observations, relations, traces, sessions, open, seed, trace, unseen);
      traces := traces + [trace];
    }
    AllTaken(observations, relations, sessions, traces);
  }

  lemma SortedIsDerivation(observations: seq<Observation>, relations: seq<Relation>, traces: seq<Trace>, sorted: seq<Trace>)
    requires Taken(observations, relations, traces, Sessions(observations, relations))
    requires RootsAscend(sorted) && forall t :: t in sorted <==> t in traces
    ensures IsDerivation(observations, relations, sorted)
  {
    forall i | 0 <= i < |sorted| ensures IsTrace(observations, relations, sorted[i]) {
      assert sorted[i] in sorted;
    }
    forall s | s in Sessions(observations, relations) ensures exists i :: 0 <= i < |sorted| && s in sorted[i].sessions {
      var t :| t in traces && s in t.sessions;
      assert t in sorted;
    }
  }

  lemma AmbiguitySources(relations: seq<Relation>, incoming: Ends)
    requires SourcesOf(relations, incoming)
    ensures forall s :: AmbiguousAt(incoming, s) <==> ManySources(relations, s)
  {
    forall s ensures AmbiguousAt(incoming, s) <==> ManySources(relations, s) {
      var key := (s, ContinuedIn);
      assert key in incoming <==> Sources(relations, key.0, key.1) != {};
    }
  }

  lemma AmbiguityTargets(relations: seq<Relation>, outgoing: Ends)
    requires TargetsOf(relations, outgoing)
    ensures forall s :: AmbiguousAt(outgoing, s) <==> ManyTargets(relations, s)
  {
    forall s ensures AmbiguousAt(outgoing, s) <==> ManyTargets(relations, s) {
      var key := (s, ContinuedIn);
      assert key in outgoing <==> Targets(relations, key.0, key.1) != {};
    }
  }

  /** The whole derivation. */
  method DeriveTraces(observations: seq<Observation>, relations: seq<Relation>, limits: Limits)
    returns (result: Result<seq<Trace>, Diagnostic>)
    ensures Derives(observations, relations, limits, result)
  {
    if |observations| > limits.observations {
      return Err(ObservationBudgetExceeded(limits.observations, |observations|));
    }
    if |relations| > limits.relations {
      return Err(RelationBudgetExceeded(limits.relations, |relations|));
    }
    var sessions := CollectSessions(observations, relations);
    if |sessions| > limits.sessions {
      return Err(SessionBudgetExceeded(limits.sessions, |sessions|));
    }
    var incoming, outgoing := CollectEnds(relations);
    AmbiguitySources(relations, incoming);
    AmbiguityTargets(relations, outgoing);
    var ambiguous := FirstAmbiguous(incoming);
    if ambiguous.None? {
      ambiguous := FirstAmbiguous(outgoing);
    }
    if ambiguous.Some? {
      return Err(AmbiguousRelation(ambiguous.value, ContinuedIn));
    }
    var traces := Partition(observations, relations, limits, sessions);
    var sorted := SortByRoot(traces);
    SortedIsDerivation(observations, relations, traces, sorted);
    return Ok(sorted);
  }
}
