/** What a derivation of traces guarantees, for every input. */
module TraceTheorems {
  import opened Order
  import opened Text
  import opened Traces

  // ---------------------------------------------------------------- partition

  lemma OverlapSameRoot(observations: seq<Observation>, relations: seq<Relation>, a: Trace, b: Trace, s: string)
    requires IsTrace(observations, relations, a) && IsTrace(observations, relations, b)
    requires s in a.sessions && s in b.sessions
    ensures a.root == b.root
  {
    assert Connected(relations, s, a.root) && Connected(relations, s, b.root);
    assert b.root in a.sessions && a.root in b.sessions;
    if a.root != b.root {
      PrecedesTotal(observations, a.root, b.root);
    }
  }

  /** No session is in two traces. */
  lemma AtMostOneTrace(observations: seq<Observation>, relations: seq<Relation>, traces: seq<Trace>, s: string, i: nat, j: nat)
    requires IsDerivation(observations, relations, traces)
    requires i < |traces| && j < |traces| && s in traces[i].sessions && s in traces[j].sessions
    ensures i == j
  {
    if i != j {
      OverlapSameRoot(observations, relations, traces[i], traces[j], s);
      Irreflexive(traces[i].root);
    }
  }

  /** The traces partition exactly the named sessions, and two sessions share a
      trace if and only if an undirected path of relations joins them. */
  lemma SameTraceIffConnected(observations: seq<Observation>, relations: seq<Relation>, traces: seq<Trace>, s: string, t: string)
    requires IsDerivation(observations, relations, traces)
    ensures s in Sessions(observations, relations) <==> exists i :: 0 <= i < |traces| && s in traces[i].sessions
    ensures s in Sessions(observations, relations) ==>
      ((exists i :: 0 <= i < |traces| && s in traces[i].sessions && t in traces[i].sessions) <==> Connected(relations, s, t))
  {
    forall i | 0 <= i < |traces| && s in traces[i].sessions ensures s in Sessions(observations, relations) {
      assert IsTrace(observations, relations, traces[i]);
      assert s in Names(traces[i].sessions);
    }
    if s in Sessions(observations, relations) {
      var i :| 0 <= i < |traces| && s in traces[i].sessions;
      assert IsTrace(observations, relations, traces[i]);
      forall j | 0 <= j < |traces| && s in traces[j].sessions && t in traces[j].sessions
        ensures Connected(relations, s, t)
      {
        assert IsTrace(observations, relations, traces[j]);
      }
    }
  }

  // ----------------------------------------------------------------- evidence

  function AllEvidence(traces: seq<Trace>): seq<Relation> {
    if traces == [] then [] else AllEvidence(traces[..|traces| - 1]) + traces[|traces| - 1].evidence
  }

  lemma {:induction false} WithinCount(relations: seq<Relation>, c: set<string>, r: Relation)
    ensures multiset(Within(relations, c))[r] == if r.from in c && r.to in c then multiset(relations)[r] else 0
  {
    if relations != [] {
      var init, last := relations[..|relations| - 1], relations[|relations| - 1];
      assert relations == init + [last];
      WithinCount(init, c, r);
    }
  }

  ghost predicate HeldBy(traces: seq<Trace>, r: Relation) {
    exists i :: 0 <= i < |traces| && Holds(traces[i], r)
  }

  predicate Holds(t: Trace, r: Relation) {
    r.from in t.sessions && r.to in t.sessions
  }

  lemma EvidenceOfOne(observations: seq<Observation>, relations: seq<Relation>, t: Trace, r: Relation)
    requires IsTrace(observations, relations, t)
    ensures multiset(t.evidence)[r] == if Holds(t, r) then multiset(relations)[r] else 0
  {
    WithinCount(relations, Names(t.sessions), r);
  }

  lemma HeldByPrefix(traces: seq<Trace>, n: nat, r: Relation)
    requires 0 < n <= |traces|
    ensures HeldBy(traces[..n], r) <==> HeldBy(traces[..n - 1], r) || Holds(traces[n - 1], r)
  {
    if HeldBy(traces[..n - 1], r) {
      var i :| 0 <= i < n - 1 && Holds(traces[..n - 1][i], r);
      assert Holds(traces[..n][i], r);
    }
    if Holds(traces[n - 1], r) {
      assert Holds(traces[..n][n - 1], r);
    }
    if HeldBy(traces[..n], r) && !Holds(traces[n - 1], r) {
      var i :| 0 <= i < n && Holds(traces[..n][i], r);
      assert Holds(traces[..n - 1][i], r);
    }
  }

  /** How the citations of one relation are spread: `count` of them in each trace
      that holds it, and at most one trace does. */
  ghost predicate CitedWhereHeld(traces: seq<Trace>, r: Relation, count: nat) {
    && (forall i :: 0 <= i < |traces| ==> multiset(traces[i].evidence)[r] == if Holds(traces[i], r) then count else 0)
    && (forall i, j :: 0 <= i < |traces| && 0 <= j < |traces| && Holds(traces[i], r) && Holds(traces[j], r) ==> i == j)
  }

  lemma DerivationCites(observations: seq<Observation>, relations: seq<Relation>, traces: seq<Trace>, r: Relation)
    requires IsDerivation(observations, relations, traces)
    ensures CitedWhereHeld(traces, r, multiset(relations)[r])
  {
    forall i | 0 <= i < |traces|
      ensures multiset(traces[i].evidence)[r] == if Holds(traces[i], r) then multiset(relations)[r] else 0
    {
      EvidenceOfOne(observations, relations, traces[i], r);
    }
    forall i, j | 0 <= i < |traces| && 0 <= j < |traces| && Holds(traces[i], r) && Holds(traces[j], r) ensures i == j {
      AtMostOneTrace(observations, relations, traces, r.from, i, j);
    }
  }

  lemma {:induction false} CitationsOfPrefix(traces: seq<Trace>, n: nat, r: Relation, count: nat)
    requires CitedWhereHeld(traces, r, count) && n <= |traces|
    ensures multiset(AllEvidence(traces[..n]))[r] == if HeldBy(traces[..n], r) then count else 0
    decreases n
  {
    if n > 0 {
      CitationsOfPrefix(traces, n - 1, r, count);
      HeldByPrefix(traces, n, r);
      if HeldBy(traces[..n - 1], r) {
        var i :| 0 <= i < n - 1 && Holds(traces[..n - 1][i], r);
        assert Holds(traces[i], r);
      }
      assert traces[..n][..n - 1] == traces[..n - 1];
    }
  }

  lemma EveryRelationHeld(observations: seq<Observation>, relations: seq<Relation>, traces: seq<Trace>, r: Relation)
    requires IsDerivation(observations, relations, traces) && r in relations
    ensures HeldBy(traces, r)
  {
    assert r.from in Sessions(observations, relations);
    var i :| 0 <= i < |traces| && r.from in traces[i].sessions;
    assert Joins(r, r.from, r.to) && Linked(relations, r.from, r.to);
    assert IsPath(relations, [r.from, r.to]);
    assert Connected(relations, r.from, r.to);
    assert IsTrace(observations, relations, traces[i]);
    assert Holds(traces[i], r);
  }

  /** No relation is lost or repeated: the evidence lists together are the input relations. */
  lemma EvidenceConserved(observations: seq<Observation>, relations: seq<Relation>, traces: seq<Trace>)
    requires IsDerivation(observations, relations, traces)
    ensures multiset(AllEvidence(traces)) == multiset(relations)
  {
    assert traces[..|traces|] == traces;
    forall r ensures multiset(AllEvidence(traces))[r] == multiset(relations)[r] {
      DerivationCites(observations, relations, traces, r);
      CitationsOfPrefix(traces, |traces|, r, multiset(relations)[r]);
      if r in relations {
        EveryRelationHeld(observations, relations, traces, r);
      }
    }
  }

  /** Cited evidence has both of its ends in the trace that cites it. */
  lemma EvidenceInside(observations: seq<Observation>, relations: seq<Relation>, t: Trace, r: Relation)
    requires IsTrace(observations, relations, t)
    ensures r in t.evidence <==> r in relations && Holds(t, r)
  {
    EvidenceOfOne(observations, relations, t, r);
    assert r in t.evidence <==> multiset(t.evidence)[r] > 0;
    assert r in relations <==> multiset(relations)[r] > 0;
  }

  // -------------------------------------------------------------- permutation

  lemma {:induction false} EarliestIsLeast(observations: seq<Observation>, s: string)
    ensures forall o :: o in observations && o.session == s ==> Earliest(observations, s) <= o.at
    ensures Earliest(observations, s) == U64_MAX
         || exists o :: o in observations && o.session == s && o.at == Earliest(observations, s)
  {
    if observations != [] {
      var init, last := observations[..|observations| - 1], observations[|observations| - 1];
      assert observations == init + [last];
      EarliestIsLeast(init, s);
    }
  }

  lemma EarliestBySet(o1: seq<Observation>, o2: seq<Observation>, s: string)
    requires forall o :: o in o1 <==> o in o2
    ensures Earliest(o1, s) == Earliest(o2, s)
  {
    EarliestIsLeast(o1, s);
    EarliestIsLeast(o2, s);
  }

  lemma {:induction false} PathBySet(r1: seq<Relation>, r2: seq<Relation>, s: string, t: string)
    requires forall r :: r in r1 ==> r in r2
    requires Connected(r1, s, t)
    ensures Connected(r2, s, t)
  {
    var path :| IsPath(r1, path) && path[0] == s && path[|path| - 1] == t;
    forall i | 0 <= i < |path| - 1 ensures Linked(r2, path[i], path[i + 1]) {
      assert Linked(r1, path[i], path[i + 1]);
      var r :| r in r1 && Joins(r, path[i], path[i + 1]);
      assert r in r2;
    }
    assert IsPath(r2, path);
  }

  ghost predicate Permuted(o1: seq<Observation>, r1: seq<Relation>, o2: seq<Observation>, r2: seq<Relation>) {
    multiset(o1) == multiset(o2) && multiset(r1) == multiset(r2)
  }

  lemma PermutedSame(o1: seq<Observation>, r1: seq<Relation>, o2: seq<Observation>, r2: seq<Relation>)
    requires Permuted(o1, r1, o2, r2)
    ensures |o1| == |o2| && |r1| == |r2|
    ensures forall o :: o in o1 <==> o in o2
    ensures forall r :: r in r1 <==> r in r2
    ensures Sessions(o1, r1) == Sessions(o2, r2)
    ensures forall s, t :: Connected(r1, s, t) <==> Connected(r2, s, t)
  {
    assert |multiset(o1)| == |o1| && |multiset(o2)| == |o2| && |multiset(r1)| == |r1| && |multiset(r2)| == |r2|;
    assert forall o :: o in o1 <==> o in multiset(o1);
    assert forall o :: o in o2 <==> o in multiset(o2);
    assert forall r :: r in r1 <==> r in multiset(r1);
    assert forall r :: r in r2 <==> r in multiset(r2);
    forall s, t ensures Connected(r1, s, t) <==> Connected(r2, s, t) {
      if Connected(r1, s, t) { PathBySet(r1, r2, s, t); }
      if Connected(r2, s, t) { PathBySet(r2, r1, s, t); }
    }
  }

  predicate SameTrace(a: Trace, b: Trace) {
    a.sessions == b.sessions && a.root == b.root && multiset(a.evidence) == multiset(b.evidence)
  }

  /** Two traces of permuted inputs that share a session differ at most in evidence order. */
  lemma SharedSessionSameTrace(o1: seq<Observation>, r1: seq<Relation>, a: Trace,
                               o2: seq<Observation>, r2: seq<Relation>, b: Trace, s: string)
    requires Permuted(o1, r1, o2, r2)
    requires IsTrace(o1, r1, a) && IsTrace(o2, r2, b) && s in a.sessions && s in b.sessions
    ensures SameTrace(a, b)
  {
    PermutedSame(o1, r1, o2, r2);
    forall t ensures t in a.sessions <==> t in b.sessions {
      assert t in a.sessions <==> Connected(r1, s, t);
      assert t in b.sessions <==> Connected(r2, s, t);
    }
    AscendingUnique(a.sessions, b.sessions);
    if a.root != b.root {
      EarliestBySet(o1, o2, a.root);
      EarliestBySet(o1, o2, b.root);
      PrecedesTotal(o1, a.root, b.root);
    }
    var c := Names(a.sessions);
    forall r ensures multiset(Within(r1, c))[r] == multiset(Within(r2, c))[r] {
      WithinCount(r1, c, r);
      WithinCount(r2, c, r);
    }
    assert multiset(Within(r1, c)) == multiset(Within(r2, c));
  }

  function Roots(traces: seq<Trace>): (roots: seq<string>)
    ensures |roots| == |traces| && forall i :: 0 <= i < |traces| ==> roots[i] == traces[i].root
  {
    seq(|traces|, i requires 0 <= i < |traces| => traces[i].root)
  }

  lemma RootsIncluded(o1: seq<Observation>, r1: seq<Relation>, t1: seq<Trace>,
                      o2: seq<Observation>, r2: seq<Relation>, t2: seq<Trace>, root: string)
    requires Permuted(o1, r1, o2, r2)
    requires IsDerivation(o1, r1, t1) && IsDerivation(o2, r2, t2)
    requires root in Roots(t1)
    ensures root in Roots(t2)
  {
    PermutedSame(o1, r1, o2, r2);
    var i :| 0 <= i < |t1| && t1[i].root == root;
    assert IsTrace(o1, r1, t1[i]) && root in Names(t1[i].sessions);
    var j :| 0 <= j < |t2| && root in t2[j].sessions;
    assert IsTrace(o2, r2, t2[j]);
    SharedSessionSameTrace(o1, r1, t1[i], o2, r2, t2[j], root);
    assert Roots(t2)[j] == root;
  }

  /** Permuting the inputs changes nothing but the order inside each evidence list. */
  lemma DerivationPermuted(o1: seq<Observation>, r1: seq<Relation>, t1: seq<Trace>,
                           o2: seq<Observation>, r2: seq<Relation>, t2: seq<Trace>)
    requires Permuted(o1, r1, o2, r2)
    requires IsDerivation(o1, r1, t1) && IsDerivation(o2, r2, t2)
    ensures |t1| == |t2| && forall i :: 0 <= i < |t1| ==> SameTrace(t1[i], t2[i])
  {
    forall root ensures root in Roots(t1) <==> root in Roots(t2) {
      if root in Roots(t1) { RootsIncluded(o1, r1, t1, o2, r2, t2, root); }
      if root in Roots(t2) { RootsIncluded(o2, r2, t2, o1, r1, t1, root); }
    }
    AscendingUnique(Roots(t1), Roots(t2));
    assert |Roots(t1)| == |t1| && |Roots(t2)| == |t2|;
    forall i | 0 <= i < |t1| ensures SameTrace(t1[i], t2[i]) {
      assert Roots(t1)[i] == Roots(t2)[i];
      assert IsTrace(o1, r1, t1[i]) && IsTrace(o2, r2, t2[i]);
      SharedSessionSameTrace(o1, r1, t1[i], o2, r2, t2[i], t1[i].root);
    }
  }

  ghost predicate SameUpToEvidenceOrder(a: Result<seq<Trace>, Diagnostic>, b: Result<seq<Trace>, Diagnostic>) {
    if a.Ok? && b.Ok? then |a.value| == |b.value| && forall i :: 0 <= i < |a.value| ==> SameTrace(a.value[i], b.value[i])
    else a == b
  }

  lemma AmbiguityBySet(r1: seq<Relation>, r2: seq<Relation>)
    requires forall r :: r in r1 <==> r in r2
    ensures forall s :: ManySources(r1, s) == ManySources(r2, s)
    ensures forall s :: ManyTargets(r1, s) == ManyTargets(r2, s)
  {
    forall s ensures ManySources(r1, s) == ManySources(r2, s) {
      assert Sources(r1, s, ContinuedIn) == Sources(r2, s, ContinuedIn);
    }
    forall s ensures ManyTargets(r1, s) == ManyTargets(r2, s) {
      assert Targets(r1, s, ContinuedIn) == Targets(r2, s, ContinuedIn);
    }
  }

  lemma RefusalPermuted(o1: seq<Observation>, r1: seq<Relation>, a: Result<seq<Trace>, Diagnostic>,
                        o2: seq<Observation>, r2: seq<Relation>, b: Result<seq<Trace>, Diagnostic>, limits: Limits)
    requires |o1| == |o2| && |r1| == |r2| && Sessions(o1, r1) == Sessions(o2, r2)
    requires forall s :: ManySources(r1, s) == ManySources(r2, s)
    requires forall s :: ManyTargets(r1, s) == ManyTargets(r2, s)
    requires Derives(o1, r1, limits, a) && Derives(o2, r2, limits, b)
    ensures a.Ok? <==> b.Ok?
    ensures a.Err? ==> a == b
  {
    if a.Err? && b.Err? && a.error.AmbiguousRelation? && b.error.AmbiguousRelation?
       && a.error.session != b.error.session
    {
      Asymmetric(a.error.session, b.error.session);
    }
  }

  /** The answer, error or not, depends on the inputs only as multisets. */
  lemma AnswerPermuted(o1: seq<Observation>, r1: seq<Relation>, a: Result<seq<Trace>, Diagnostic>,
                       o2: seq<Observation>, r2: seq<Relation>, b: Result<seq<Trace>, Diagnostic>, limits: Limits)
    requires Permuted(o1, r1, o2, r2)
    requires Derives(o1, r1, limits, a) && Derives(o2, r2, limits, b)
    ensures SameUpToEvidenceOrder(a, b)
  {
    PermutedSame(o1, r1, o2, r2);
    AmbiguityBySet(r1, r2);
    RefusalPermuted(o1, r1, a, o2, r2, b, limits);
    if a.Ok? {
      DerivationPermuted(o1, r1, a.value, o2, r2, b.value);
    }
  }

  // ------------------------------------------------------------ continuations

  predicate ContinuesIn(relations: seq<Relation>, s: string, t: string) {
    t in Targets(relations, s, ContinuedIn)
  }

  lemma ContinuesAsSource(relations: seq<Relation>, s: string, t: string)
    ensures ContinuesIn(relations, s, t) <==> s in Sources(relations, t, ContinuedIn)
  {
  }

  lemma AtMostOneElement<T>(c: set<T>, x: T, y: T)
    requires |c| <= 1 && x in c && y in c
    ensures x == y
  {
    if x != y {
      CardinalityBound({x, y}, c);
    }
  }

  /** Following continuations from `s` for `n` steps can reach `t`. */
  ghost predicate Walks(relations: seq<Relation>, s: string, t: string, n: nat)
    decreases n
  {
    if n == 0 then s == t
    else exists m :: Walks(relations, s, m, n - 1) && ContinuesIn(relations, m, t)
  }

  lemma {:induction false} WalksFromFirst(relations: seq<Relation>, s: string, m: string, t: string, n: nat)
    requires ContinuesIn(relations, s, m) && Walks(relations, m, t, n)
    ensures Walks(relations, s, t, n + 1)
    decreases n
  {
    if n == 0 {
      assert Walks(relations, s, s, 0);
    } else {
      var k :| Walks(relations, m, k, n - 1) && ContinuesIn(relations, k, t);
      WalksFromFirst(relations, s, m, k, n - 1);
    }
  }

  lemma {:induction false} FirstStep(relations: seq<Relation>, s: string, t: string, n: nat) returns (m: string)
    requires n > 0 && Walks(relations, s, t, n)
    ensures ContinuesIn(relations, s, m) && Walks(relations, m, t, n - 1)
    decreases n
  {
    var k :| Walks(relations, s, k, n - 1) && ContinuesIn(relations, k, t);
    if n == 1 {
      m := t;
    } else {
      m := FirstStep(relations, s, k, n - 1);
    }
  }

  ghost predicate SameLine(relations: seq<Relation>, s: string, t: string) {
    exists n: nat :: Walks(relations, s, t, n) || Walks(relations, t, s, n)
  }

  lemma TwoElements<T>(c: set<T>)
    ensures |c| > 1 <==> exists x, y :: x in c && y in c && x != y
  {
    if |c| > 1 {
      var x :| x in c;
      assert |c - {x}| > 0;
      var y :| y in c - {x};
    }
    if x, y :| x in c && y in c && x != y {
      CardinalityBound({x, y}, c);
    }
  }

  ghost predicate Meets(relations: seq<Relation>, s: string, r: Relation, q: Relation) {
    && r in relations && q in relations && r.kind.ContinuedIn? && q.kind.ContinuedIn?
    && r.to == s && q.to == s && r.from != q.from
  }

  ghost predicate Parts(relations: seq<Relation>, s: string, r: Relation, q: Relation) {
    && r in relations && q in relations && r.kind.ContinuedIn? && q.kind.ContinuedIn?
    && r.from == s && q.from == s && r.to != q.to
  }

  /** Several predecessors are two continuations that meet; several successors are two
      that part. */
  lemma AmbiguousIff(relations: seq<Relation>, s: string)
    ensures ManySources(relations, s) <==> exists r, q :: Meets(relations, s, r, q)
    ensures ManyTargets(relations, s) <==> exists r, q :: Parts(relations, s, r, q)
  {
    TwoElements(Sources(relations, s, ContinuedIn));
    TwoElements(Targets(relations, s, ContinuedIn));
    if ManySources(relations, s) {
      var x, y :| x in Sources(relations, s, ContinuedIn) && y in Sources(relations, s, ContinuedIn) && x != y;
      var r :| r in relations && r.to == s && r.kind == ContinuedIn && r.from == x;
      var q :| q in relations && q.to == s && q.kind == ContinuedIn && q.from == y;
      assert Meets(relations, s, r, q);
    }
    if ManyTargets(relations, s) {
      var x, y :| x in Targets(relations, s, ContinuedIn) && y in Targets(relations, s, ContinuedIn) && x != y;
      var r :| r in relations && r.from == s && r.kind == ContinuedIn && r.to == x;
      var q :| q in relations && q.from == s && q.kind == ContinuedIn && q.to == y;
      assert Parts(relations, s, r, q);
    }
    if r, q :| Meets(relations, s, r, q) {
      assert r.from in Sources(relations, s, ContinuedIn) && q.from in Sources(relations, s, ContinuedIn);
    }
    if r, q :| Parts(relations, s, r, q) {
      assert r.to in Targets(relations, s, ContinuedIn) && q.to in Targets(relations, s, ContinuedIn);
    }
  }

  ghost predicate Unambiguous(relations: seq<Relation>) {
    forall s :: !ManySources(relations, s) && !ManyTargets(relations, s)
  }

  /** One more continuation edge, in either direction, keeps two sessions on one line. */
  lemma LineStep(relations: seq<Relation>, s: string, t: string, u: string)
    requires Unambiguous(relations) && SameLine(relations, s, t)
    requires ContinuesIn(relations, t, u) || ContinuesIn(relations, u, t)
    ensures SameLine(relations, s, u)
  {
    var n: nat :| Walks(relations, s, t, n) || Walks(relations, t, s, n);
    if Walks(relations, s, t, n) && ContinuesIn(relations, t, u) {
      assert Walks(relations, s, u, n + 1);
    } else if Walks(relations, s, t, n) {
      if n == 0 {
        assert Walks(relations, u, u, 0);
        assert Walks(relations, u, s, 1);
      } else {
        var m :| Walks(relations, s, m, n - 1) && ContinuesIn(relations, m, t);
        ContinuesAsSource(relations, m, t);
        ContinuesAsSource(relations, u, t);
        assert !ManySources(relations, t);
        AtMostOneElement(Sources(relations, t, ContinuedIn), m, u);
      }
    } else if ContinuesIn(relations, t, u) {
      var m := FirstStep(relations, t, s, n);
      assert !ManyTargets(relations, t);
      AtMostOneElement(Targets(relations, t, ContinuedIn), m, u);
    } else {
      WalksFromFirst(relations, u, t, s, n);
    }
  }

  ghost predicate IsContinuationPath(relations: seq<Relation>, path: seq<string>) {
    path != [] && forall i :: 0 <= i < |path| - 1 ==>
      ContinuesIn(relations, path[i], path[i + 1]) || ContinuesIn(relations, path[i + 1], path[i])
  }

  /** An accepted input's continuations form disjoint lines and rings: sessions
      joined by continuations in any directions lie on one directed walk. */
  lemma {:induction false} ContinuationsAreLines(relations: seq<Relation>, path: seq<string>)
    requires Unambiguous(relations) && IsContinuationPath(relations, path)
    ensures SameLine(relations, path[0], path[|path| - 1])
    decreases |path|
  {
    if |path| == 1 {
      assert Walks(relations, path[0], path[0], 0);
    } else {
      var init := path[..|path| - 1];
      assert IsContinuationPath(relations, init);
      ContinuationsAreLines(relations, init);
      LineStep(relations, path[0], init[|init| - 1], path[|path| - 1]);
    }
  }

  /** Each session of the walk continues in the next. */
  ghost predicate IsWalk(relations: seq<Relation>, path: seq<string>) {
    forall i :: 0 <= i < |path| - 1 ==> ContinuesIn(relations, path[i], path[i + 1])
  }

  /** A session met twice is left, and was reached, the same way both times. */
  lemma {:induction false} RevisitRepeats(relations: seq<Relation>, path: seq<string>, i: nat, j: nat, k: nat)
    requires Unambiguous(relations) && IsWalk(relations, path) && i < j < |path| && path[i] == path[j]
    requires k + (j - i) < |path|
    ensures path[k] == path[k + (j - i)]
    decreases if k > i then k - i else i - k
  {
    var n := j - i;
    if k > i {
      RevisitRepeats(relations, path, i, j, k - 1);
      assert ContinuesIn(relations, path[k - 1], path[k - 1 + 1]) && ContinuesIn(relations, path[k + n - 1], path[k + n - 1 + 1]);
      assert !ManyTargets(relations, path[k - 1]);
      AtMostOneElement(Targets(relations, path[k - 1], ContinuedIn), path[k], path[k + n]);
    } else if k < i {
      RevisitRepeats(relations, path, i, j, k + 1);
      assert ContinuesIn(relations, path[k], path[k + 1]) && ContinuesIn(relations, path[k + n], path[k + n + 1]);
      ContinuesAsSource(relations, path[k], path[k + 1]);
      ContinuesAsSource(relations, path[k + n], path[k + n + 1]);
      assert !ManySources(relations, path[k + 1]);
      AtMostOneElement(Sources(relations, path[k + 1], ContinuedIn), path[k], path[k + n]);
    }
  }

  /** The first return to where the walk began, or its length. */
  function FirstReturn(path: seq<string>, k: nat): (p: nat)
    requires 0 < k <= |path|
    ensures k <= p <= |path| && (p < |path| ==> path[p] == path[0])
    ensures forall q :: k <= q < p ==> path[q] != path[0]
    decreases |path| - k
  {
    if k == |path| || path[k] == path[0] then k else FirstReturn(path, k + 1)
  }

  predicate AllDistinct(path: seq<string>) {
    forall i, j :: 0 <= i < j < |path| ==> path[i] != path[j]
  }

  /** A directed walk of an accepted input is simple, or runs round one ring: its first
      p sessions are distinct, and every later one is the one p before it. */
  lemma SimpleOrRing(relations: seq<Relation>, path: seq<string>) returns (p: nat)
    requires Unambiguous(relations) && IsWalk(relations, path) && path != []
    ensures 0 < p <= |path| && AllDistinct(path[..p])
    ensures forall k :: 0 <= k < |path| - p ==> path[k] == path[k + p]
  {
    p := FirstReturn(path, 1);
    forall i, j | 0 <= i < j < p
      ensures path[i] != path[j]
    {
      if path[i] == path[j] {
        RevisitRepeats(relations, path, i, j, 0);
      }
    }
    forall k | 0 <= k < |path| - p
      ensures path[k] == path[k + p]
    {
      RevisitRepeats(relations, path, 0, p, k);
    }
  }

  /** `Ok` implies the continuation edges are unambiguous. */
  lemma AcceptedIsUnambiguous(observations: seq<Observation>, relations: seq<Relation>, limits: Limits,
                              result: Result<seq<Trace>, Diagnostic>)
    requires Derives(observations, relations, limits, result)
    ensures result.Ok? <==>
      (|observations| <= limits.observations && |relations| <= limits.relations
       && |Sessions(observations, relations)| <= limits.sessions && Unambiguous(relations))
  {
  }
}
