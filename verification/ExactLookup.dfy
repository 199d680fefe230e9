/** The exact rung of a click lookup: rank each checkout's index, merge the lists
    into one, give each path to its checkout, drop other branches' copies. Each
    character stands for one byte of a path. */
module ExactLookup {
  import opened Order
  import opened Text
  import IndexPool

  datatype Entry = Entry(path: string, name: string)

  datatype Group = Group(dir: string, caption: string, source: string)

  /** A ranked path, and whether the whole tail matched. */
  datatype Ranked = Ranked(path: string, tail: bool)

  datatype Match = Match(path: string, tail: bool, group: nat)

  // ------------------------------------------------------------------ ranking

  function TrimStartText(s: string, prefix: string): string
    requires prefix != ""
    decreases |s|
  {
    if HasPrefix(s, prefix) then TrimStartText(s[|prefix|..], prefix) else s
  }

  function LastSegment(s: string): string {
    if s == "" || s[|s| - 1] == '/' then "" else LastSegment(s[..|s| - 1]) + [s[|s| - 1]]
  }

  predicate EndsWith(s: string, suffix: string) {
    |suffix| <= |s| && s[|s| - |suffix|..] == suffix
  }

  function Slashes(s: string): nat {
    if s == "" then 0 else Slashes(s[..|s| - 1]) + if s[|s| - 1] == '/' then 1 else 0
  }

  function Tail(rel: string): string {
    TrimStartText(TrimStartText(rel, "./"), "/")
  }

  predicate WholeTail(rel: string, e: Entry) {
    EndsWith(e.path, "/" + Tail(rel)) || e.path == Tail(rel)
  }

  predicate Hit(rel: string, e: Entry) {
    WholeTail(rel, e) || e.name == LastSegment(Tail(rel))
  }

  /** Whole tails first, then the shallower path, then the earlier name. */
  predicate Better(a: Ranked, b: Ranked) {
    if a.tail != b.tail then a.tail
    else if Slashes(a.path) != Slashes(b.path) then Slashes(a.path) < Slashes(b.path)
    else Less(a.path, b.path)
  }

  function Hits(rel: string, entries: seq<Entry>): seq<Ranked> {
    if entries == [] then []
    else
      var e := entries[|entries| - 1];
      Hits(rel, entries[..|entries| - 1]) + if Hit(rel, e) then [Ranked(e.path, WholeTail(rel, e))] else []
  }

  function InsertRanked(x: Ranked, s: seq<Ranked>): seq<Ranked> {
    if s == [] || !Better(x, s[|s| - 1]) then s + [x]
    else InsertRanked(x, s[..|s| - 1]) + [s[|s| - 1]]
  }

  function SortRanked(s: seq<Ranked>): seq<Ranked> {
    if s == [] then [] else InsertRanked(s[|s| - 1], SortRanked(s[..|s| - 1]))
  }

  function RankExact(rel: string, entries: seq<Entry>): seq<Ranked> {
    SortRanked(Hits(rel, entries))
  }

  ghost predicate BestFirst(s: seq<Ranked>) {
    forall i, j :: 0 <= i < j < |s| ==> !Better(s[j], s[i])
  }

  lemma BetterIsTransitive(a: Ranked, b: Ranked, c: Ranked)
    requires Better(a, b) && !Better(c, b)
    ensures !Better(c, a) && Better(a, c)
  {
    Trichotomy(b.path, c.path);
    if Less(b.path, c.path) && Less(a.path, b.path) {
      Transitive(a.path, b.path, c.path);
    }
    if Better(c, a) {
      BetterAsymmetric(a, c);
    }
  }

  lemma BetterAsymmetric(a: Ranked, b: Ranked)
    requires Better(a, b)
    ensures !Better(b, a)
  {
    if Less(a.path, b.path) {
      Asymmetric(a.path, b.path);
    }
  }

  lemma {:induction false} InsertBestFirst(x: Ranked, s: seq<Ranked>)
    requires BestFirst(s)
    ensures BestFirst(InsertRanked(x, s)) && |InsertRanked(x, s)| == |s| + 1
    ensures forall y :: y in InsertRanked(x, s) <==> y == x || y in s
  {
    hide Better;
    hide Slashes;
    if s == [] || !Better(x, s[|s| - 1]) {
      forall i | 0 <= i < |s|
        ensures !Better(x, s[i])
      {
        if i < |s| - 1 && Better(x, s[i]) {
          BetterIsTransitive(x, s[i], s[|s| - 1]);
        }
      }
    } else {
      var last := s[|s| - 1];
      InsertBestFirst(x, s[..|s| - 1]);
      assert s == s[..|s| - 1] + [last];
      BetterAsymmetric(x, last);
      var r := InsertRanked(x, s[..|s| - 1]);
      forall i | 0 <= i < |r|
        ensures !Better(last, r[i])
      {
        assert r[i] in r;
      }
    }
  }

  lemma {:induction false} HitsOf(rel: string, entries: seq<Entry>, m: Ranked)
    ensures m in Hits(rel, entries)
       <==> exists e :: e in entries && Hit(rel, e) && m == Ranked(e.path, WholeTail(rel, e))
  {
    hide Hit;
    hide WholeTail;
    if entries != [] {
      var init, e := entries[..|entries| - 1], entries[|entries| - 1];
      HitsOf(rel, init, m);
      assert entries == init + [e];
      if m == Ranked(e.path, WholeTail(rel, e)) && Hit(rel, e) {
        assert e in entries;
      }
      if x :| x in init && Hit(rel, x) && m == Ranked(x.path, WholeTail(rel, x)) {
        assert x in entries;
      }
    }
  }

  lemma {:induction false} SortedBestFirst(s: seq<Ranked>)
    ensures BestFirst(SortRanked(s)) && |SortRanked(s)| == |s|
    ensures forall y :: y in SortRanked(s) <==> y in s
  {
    if s != [] {
      SortedBestFirst(s[..|s| - 1]);
      InsertBestFirst(s[|s| - 1], SortRanked(s[..|s| - 1]));
      assert s == s[..|s| - 1] + [s[|s| - 1]];
    }
  }

  /** The ranking lists exactly the entries that match, best first. */
  lemma RankingIsComplete(rel: string, entries: seq<Entry>)
    ensures BestFirst(RankExact(rel, entries))
    ensures forall m :: m in RankExact(rel, entries)
                   <==> exists e :: e in entries && Hit(rel, e) && m == Ranked(e.path, WholeTail(rel, e))
  {
    hide Hit;
    hide WholeTail;
    hide Better;
    SortedBestFirst(Hits(rel, entries));
    forall m
      ensures m in RankExact(rel, entries)
         <==> exists e :: e in entries && Hit(rel, e) && m == Ranked(e.path, WholeTail(rel, e))
    {
      HitsOf(rel, entries, m);
    }
  }

  // ---------------------------------------------------------------- ownership

  function TrimSlash(path: string): string {
    var trimmed := TrimEndChar(path, '/');
    if trimmed == "" then "/" else trimmed
  }

  /** The path relative to a directory that contains it. */
  function Under(path: string, dir: string): Option<string> {
    var prefix := TrimSlash(dir) + "/";
    if HasPrefix(path, prefix) then Some(path[|prefix|..]) else None
  }

  /** The last of the groups containing the path whose directory is spelled longest,
      among the first `k`. */
  function OwnerAmong(groups: seq<Group>, path: string, k: nat): (o: Option<nat>)
    requires k <= |groups|
    ensures o.Some? ==> o.value < k
  {
    if k == 0 then None
    else
      var best := OwnerAmong(groups, path, k - 1);
      if Under(path, groups[k - 1].dir).None? then best
      else if best.Some? && |groups[best.value].dir| > |groups[k - 1].dir| then best
      else Some(k - 1)
  }

  function Owner(groups: seq<Group>, path: string, index: nat): nat {
    var o := OwnerAmong(groups, path, |groups|);
    if o.Some? then o.value else index
  }

  // ------------------------------------------------------------------- merging

  datatype Candidate = Candidate(index: nat, hit: Ranked)

  function Tagged(index: nat, hits: seq<Ranked>): (c: seq<Candidate>)
    ensures |c| == |hits| && forall i :: 0 <= i < |c| ==> c[i] == Candidate(index, hits[i])
  {
    seq(|hits|, i requires 0 <= i < |hits| => Candidate(index, hits[i]))
  }

  /** Every ranked row of every listed group, in order. */
  function Candidates(rel: string, groups: seq<Group>, index: string -> seq<Entry>, order: seq<nat>): seq<Candidate>
    requires forall i :: 0 <= i < |order| ==> order[i] < |groups|
  {
    if order == [] then []
    else
      var k := order[|order| - 1];
      Candidates(rel, groups, index, order[..|order| - 1]) + Tagged(k, RankExact(rel, index(groups[k].dir)))
  }

  /** Group 0 keeps name-only matches, the rest keep whole tails. */
  predicate Eligible(c: Candidate) {
    c.index == 0 || c.hit.tail
  }

  predicate Seen(found: seq<Match>, path: string) {
    exists i :: 0 <= i < |found| && found[i].path == path
  }

  function Keep(groups: seq<Group>, candidates: seq<Candidate>): seq<Match> {
    if candidates == [] then []
    else
      var found := Keep(groups, candidates[..|candidates| - 1]);
      var c := candidates[|candidates| - 1];
      if !Eligible(c) || Seen(found, c.hit.path) then found
      else found + [Match(c.hit.path, c.hit.tail, Owner(groups, c.hit.path, c.index))]
  }

  /** Checkout-relative paths of group 0's rows. */
  function FirstPaths(groups: seq<Group>, found: seq<Match>): set<string>
    requires groups != []
  {
    set i | 0 <= i < |found| && found[i].group == 0 && Under(found[i].path, groups[0].dir).Some?
      :: Under(found[i].path, groups[0].dir).value
  }

  /** The row is a worktree's copy of a file group 0 already lists. */
  predicate OtherBranch(groups: seq<Group>, first: set<string>, m: Match)
    requires m.group < |groups|
  {
    m.group != 0 && groups[m.group].source == "worktree"
    && Under(m.path, groups[m.group].dir).Some? && Under(m.path, groups[m.group].dir).value in first
  }

  function Retain(groups: seq<Group>, first: set<string>, found: seq<Match>): seq<Match>
    requires forall i :: 0 <= i < |found| ==> found[i].group < |groups|
  {
    if found == [] then []
    else
      var m := found[|found| - 1];
      Retain(groups, first, found[..|found| - 1]) + if OtherBranch(groups, first, m) then [] else [m]
  }

  function OfGroup(found: seq<Match>, g: nat): seq<Match> {
    if found == [] then []
    else OfGroup(found[..|found| - 1], g) + if found[|found| - 1].group == g then [found[|found| - 1]] else []
  }

  /** Stable order by group: the rows of each group, as they stand, group by group. */
  function ByGroup(found: seq<Match>, groups: nat): seq<Match> {
    if groups == 0 then [] else ByGroup(found, groups - 1) + OfGroup(found, groups - 1)
  }

  function GroupsInRange(found: seq<Match>, n: nat): bool {
    forall i :: 0 <= i < |found| ==> found[i].group < n
  }

  lemma {:induction false} KeepInRange(groups: seq<Group>, candidates: seq<Candidate>)
    requires forall i :: 0 <= i < |candidates| ==> candidates[i].index < |groups|
    ensures GroupsInRange(Keep(groups, candidates), |groups|)
  {
    if candidates != [] {
      KeepInRange(groups, candidates[..|candidates| - 1]);
    }
  }

  lemma {:induction false} CandidatesInRange(rel: string, groups: seq<Group>, index: string -> seq<Entry>, order: seq<nat>)
    requires forall i :: 0 <= i < |order| ==> order[i] < |groups|
    ensures forall i :: 0 <= i < |Candidates(rel, groups, index, order)|
              ==> Candidates(rel, groups, index, order)[i].index < |groups|
  {
    if order != [] {
      CandidatesInRange(rel, groups, index, order[..|order| - 1]);
    }
  }

  /** The sequential answer over the groups from `begin` to `end`. */
  function Answer(rel: string, groups: seq<Group>, index: string -> seq<Entry>, begin: nat, end: nat): seq<Match>
    requires begin <= end <= |groups| && groups != []
  {
    var candidates := Candidates(rel, groups, index, IndexPool.Range(begin, end));
    CandidatesInRange(rel, groups, index, IndexPool.Range(begin, end));
    KeepInRange(groups, candidates);
    var found := Keep(groups, candidates);
    ByGroup(Retain(groups, FirstPaths(groups, found), found), |groups|)
  }

  lemma KeepSnoc(groups: seq<Group>, candidates: seq<Candidate>, c: Candidate, found: seq<Match>)
    requires found == Keep(groups, candidates)
    ensures Keep(groups, candidates + [c])
         == if !Eligible(c) || Seen(found, c.hit.path) then found
            else found + [Match(c.hit.path, c.hit.tail, Owner(groups, c.hit.path, c.index))]
  {
    assert (candidates + [c])[..|candidates|] == candidates;
    hide Owner;
    hide Seen;
  }

  lemma TaggedUpTo(candidates: seq<Candidate>, k: nat, hits: seq<Ranked>, j: nat)
    requires j < |hits|
    ensures candidates + Tagged(k, hits)[..j + 1] == candidates + Tagged(k, hits)[..j] + [Candidate(k, hits[j])]
  {
  }

  /** Merging one group's ranked rows into the list. */
  method Merge(groups: seq<Group>, k: nat, hits: seq<Ranked>, before: seq<Match>, ghost candidates: seq<Candidate>)
    returns (found: seq<Match>)
    requires before == Keep(groups, candidates)
    ensures found == Keep(groups, candidates + Tagged(k, hits))
  {
    hide Owner;
    hide Keep;
    hide Seen;
    found := before;
    var j := 0;
    assert candidates + Tagged(k, hits)[..0] == candidates;
    while j < |hits|
      invariant 0 <= j <= |hits|
      invariant found == Keep(groups, candidates + Tagged(k, hits)[..j])
    {
      var hit := hits[j];
      TaggedUpTo(candidates, k, hits, j);
      KeepSnoc(groups, candidates + Tagged(k, hits)[..j], Candidate(k, hit), found);
      if !((k > 0 && !hit.tail) || Seen(found, hit.path)) {
        found := found + [Match(hit.path, hit.tail, Owner(groups, hit.path, k))];
      }
      j := j + 1;
    }
    assert Tagged(k, hits)[..|hits|] == Tagged(k, hits);
  }

  /** The lookup itself: workers draw the indexes in any interleaving, and the
      merged list is the sequential one. */
  method ExactMatches(rel: string, groups: seq<Group>, index: string -> seq<Entry>, begin: nat, end: nat, workers: nat)
    returns (answer: seq<Match>)
    requires begin <= end <= |groups| && groups != [] && workers > 0
    ensures answer == Answer(rel, groups, index, begin, end)
  {
    hide Keep;
    hide RankExact;
    var order := IndexPool.Indexes(begin, end, workers);
    var found: seq<Match> := [];
    assert Keep(groups, []) == [] by { KeepNothing(groups); }
    var i := 0;
    while i < |order|
      invariant 0 <= i <= |order| == end - begin
      invariant found == Keep(groups, Candidates(rel, groups, index, order[..i]))
    {
      var k := order[i];
      var hits := RankExact(rel, index(groups[k].dir));
      found := Merge(groups, k, hits, found, Candidates(rel, groups, index, order[..i]));
      assert order[..i + 1][..i] == order[..i];
      i := i + 1;
    }
    assert order[..i] == order;
    CandidatesInRange(rel, groups, index, order);
    KeepInRange(groups, Candidates(rel, groups, index, order));
    answer := ByGroup(Retain(groups, FirstPaths(groups, found), found), |groups|);
  }

  lemma KeepNothing(groups: seq<Group>)
    ensures Keep(groups, []) == []
  {
  }

  // ---------------------------------------------------------- what the answer is

  ghost predicate DistinctPaths(found: seq<Match>) {
    forall i, j :: 0 <= i < j < |found| ==> found[i].path != found[j].path
  }

  ghost predicate InGroupOrder(found: seq<Match>) {
    forall i, j :: 0 <= i < j < |found| ==> found[i].group <= found[j].group
  }

  lemma {:induction false} KeepDistinct(groups: seq<Group>, candidates: seq<Candidate>)
    ensures DistinctPaths(Keep(groups, candidates))
  {
    if candidates != [] {
      KeepDistinct(groups, candidates[..|candidates| - 1]);
    }
  }

  /** The first eligible candidate naming this path. */
  ghost predicate FirstOf(candidates: seq<Candidate>, i: nat) {
    && i < |candidates| && Eligible(candidates[i])
    && (forall j :: 0 <= j < i && Eligible(candidates[j]) ==> candidates[j].hit.path != candidates[i].hit.path)
  }

  function RowOf(groups: seq<Group>, c: Candidate): Match {
    Match(c.hit.path, c.hit.tail, Owner(groups, c.hit.path, c.index))
  }

  /** Every merged row is the first eligible candidate of its path. */
  lemma {:induction false} KeptIsFirst(groups: seq<Group>, candidates: seq<Candidate>, m: Match) returns (i: nat)
    requires m in Keep(groups, candidates)
    ensures FirstOf(candidates, i) && m == RowOf(groups, candidates[i])
  {
    hide Owner;
    var n := |candidates| - 1;
    if m in Keep(groups, candidates[..n]) {
      i := KeptIsFirst(groups, candidates[..n], m);
    } else {
      i := n;
      SeenKept(groups, candidates[..n], m.path);
      assert forall j :: 0 <= j < n ==> candidates[..n][j] == candidates[j];
    }
  }

  lemma SeenSnoc(found: seq<Match>, r: Match, path: string)
    ensures Seen(found + [r], path) <==> Seen(found, path) || r.path == path
  {
    if Seen(found, path) {
      var i :| 0 <= i < |found| && found[i].path == path;
      assert (found + [r])[i].path == path;
    }
    assert (found + [r])[|found|] == r;
  }

  /** The merged rows cover every path an eligible candidate names. */
  lemma {:induction false} SeenKept(groups: seq<Group>, candidates: seq<Candidate>, path: string)
    ensures Seen(Keep(groups, candidates), path)
       <==> exists i :: 0 <= i < |candidates| && Eligible(candidates[i]) && candidates[i].hit.path == path
  {
    hide Owner;
    if candidates != [] {
      var n := |candidates| - 1;
      SeenKept(groups, candidates[..n], path);
      SeenSnoc(Keep(groups, candidates[..n]), RowOf(groups, candidates[n]), path);
      assert forall i :: 0 <= i < n ==> candidates[..n][i] == candidates[i];
    }
  }

  // ------------------------------------------------------- dropping and ordering

  lemma {:induction false} RetainedIn(groups: seq<Group>, first: set<string>, found: seq<Match>, m: Match)
    requires GroupsInRange(found, |groups|)
    ensures m in Retain(groups, first, found) <==> m in found && !OtherBranch(groups, first, m)
  {
    hide OtherBranch;
    if found != [] {
      RetainedIn(groups, first, found[..|found| - 1], m);
      assert found == found[..|found| - 1] + [found[|found| - 1]];
    }
  }

  lemma {:induction false} RetainDistinct(groups: seq<Group>, first: set<string>, found: seq<Match>)
    requires GroupsInRange(found, |groups|) && DistinctPaths(found)
    ensures DistinctPaths(Retain(groups, first, found))
  {
    hide OtherBranch;
    if found != [] {
      var init, m := found[..|found| - 1], found[|found| - 1];
      RetainDistinct(groups, first, init);
      var kept := Retain(groups, first, init);
      forall i | 0 <= i < |kept|
        ensures kept[i].path != m.path
      {
        assert kept[i] in kept;
        RetainedIn(groups, first, init, kept[i]);
      }
    }
  }

  lemma {:induction false} OfGroupIn(found: seq<Match>, g: nat, m: Match)
    ensures m in OfGroup(found, g) <==> m in found && m.group == g
  {
    if found != [] {
      OfGroupIn(found[..|found| - 1], g, m);
      assert found == found[..|found| - 1] + [found[|found| - 1]];
    }
  }

  lemma {:induction false} OfGroupDistinct(found: seq<Match>, g: nat)
    requires DistinctPaths(found)
    ensures DistinctPaths(OfGroup(found, g))
  {
    if found != [] {
      var init, m := found[..|found| - 1], found[|found| - 1];
      OfGroupDistinct(init, g);
      forall i | 0 <= i < |OfGroup(init, g)|
        ensures OfGroup(init, g)[i].path != m.path
      {
        assert OfGroup(init, g)[i] in OfGroup(init, g);
        OfGroupIn(init, g, OfGroup(init, g)[i]);
      }
    }
  }

  lemma OneGroupMore(before: seq<Match>, own: seq<Match>, found: seq<Match>, n: nat, m: Match)
    requires n > 0
    requires m in before <==> m in found && m.group < n - 1
    requires m in own <==> m in found && m.group == n - 1
    ensures m in before + own <==> m in found && m.group < n
  {
  }

  lemma ByGroupCases(found: seq<Match>, n: nat)
    ensures ByGroup(found, n) == if n == 0 then [] else ByGroup(found, n - 1) + OfGroup(found, n - 1)
  {
    hide OfGroup;
  }

  lemma {:induction false} ByGroupIn(found: seq<Match>, n: nat, m: Match)
    ensures m in ByGroup(found, n) <==> m in found && m.group < n
  {
    hide *;
    ByGroupCases(found, n);
    if n > 0 {
      ByGroupIn(found, n - 1, m);
      OfGroupIn(found, n - 1, m);
      OneGroupMore(ByGroup(found, n - 1), OfGroup(found, n - 1), found, n, m);
    }
  }

  lemma SamePathSameRow(found: seq<Match>, a: Match, b: Match)
    requires DistinctPaths(found) && a in found && b in found && a.path == b.path
    ensures a == b
  {
  }

  /** Ordering by group keeps paths distinct and puts groups in order. */
  lemma {:induction false} ByGroupOrdered(found: seq<Match>, n: nat)
    requires DistinctPaths(found)
    ensures DistinctPaths(ByGroup(found, n)) && InGroupOrder(ByGroup(found, n))
  {
    if n > 0 {
      var before, own := ByGroup(found, n - 1), OfGroup(found, n - 1);
      ByGroupOrdered(found, n - 1);
      OfGroupDistinct(found, n - 1);
      forall j | 0 <= j < |own|
        ensures own[j] in found && own[j].group == n - 1
      {
        assert own[j] in own;
        OfGroupIn(found, n - 1, own[j]);
      }
      forall i | 0 <= i < |before|
        ensures before[i] in found && before[i].group < n - 1
      {
        assert before[i] in before;
        ByGroupIn(found, n - 1, before[i]);
      }
      forall i, j | 0 <= i < |before| && 0 <= j < |own|
        ensures before[i].path != own[j].path
      {
        if before[i].path == own[j].path {
          SamePathSameRow(found, before[i], own[j]);
        }
      }
    }
  }

  /** The merged rows of a lookup before any is dropped. */
  function Merged(rel: string, groups: seq<Group>, index: string -> seq<Entry>, begin: nat, end: nat): (found: seq<Match>)
    requires begin <= end <= |groups|
    ensures GroupsInRange(found, |groups|)
  {
    CandidatesInRange(rel, groups, index, IndexPool.Range(begin, end));
    KeepInRange(groups, Candidates(rel, groups, index, IndexPool.Range(begin, end)));
    Keep(groups, Candidates(rel, groups, index, IndexPool.Range(begin, end)))
  }

  /** The answer has one row a path, groups in order, and holds exactly the merged
      rows that are not a worktree's copy of a file group 0 lists. */
  lemma AnswerIsExact(rel: string, groups: seq<Group>, index: string -> seq<Entry>, begin: nat, end: nat)
    requires begin <= end <= |groups| && groups != []
    ensures var found := Merged(rel, groups, index, begin, end);
            var answer := Answer(rel, groups, index, begin, end);
            && DistinctPaths(answer) && InGroupOrder(answer)
            && forall m :: m in answer <==> m in found && !OtherBranch(groups, FirstPaths(groups, found), m)
  {
    var candidates := Candidates(rel, groups, index, IndexPool.Range(begin, end));
    CandidatesInRange(rel, groups, index, IndexPool.Range(begin, end));
    KeepInRange(groups, candidates);
    KeepDistinct(groups, candidates);
    var found := Merged(rel, groups, index, begin, end);
    var first := FirstPaths(groups, found);
    var kept := Retain(groups, first, found);
    RetainDistinct(groups, first, found);
    ByGroupOrdered(kept, |groups|);
    forall m
      ensures m in ByGroup(kept, |groups|) <==> m in found && !OtherBranch(groups, first, m)
    {
      RetainedIn(groups, first, found, m);
      ByGroupIn(kept, |groups|, m);
    }
  }

  /** No worktree row of the answer repeats the checkout-relative path of a row of
      group 0. */
  lemma NoOtherBranch(rel: string, groups: seq<Group>, index: string -> seq<Entry>, begin: nat, end: nat, a: Match, b: Match)
    requires begin <= end <= |groups| && groups != []
    requires a in Answer(rel, groups, index, begin, end) && b in Answer(rel, groups, index, begin, end)
    requires a.group == 0 && Under(a.path, groups[0].dir).Some?
    requires b.group < |groups| && b.group != 0 && groups[b.group].source == "worktree"
    ensures Under(b.path, groups[b.group].dir) != Under(a.path, groups[0].dir)
  {
    hide Answer;
    hide Under;
    AnswerIsExact(rel, groups, index, begin, end);
    var found := Merged(rel, groups, index, begin, end);
    var i :| 0 <= i < |found| && found[i] == a;
  }

  // ------------------------------------------------------------ deepest checkout

  predicate Contains(g: Group, path: string) {
    Under(path, g.dir).Some?
  }

  /** Group `i` is a later or longer-spelled choice than group `j`. */
  predicate Outranks(groups: seq<Group>, i: nat, j: nat)
    requires i < |groups| && j < |groups|
  {
    |groups[i].dir| > |groups[j].dir| || (|groups[i].dir| == |groups[j].dir| && i >= j)
  }

  /** The owner contains the path and outranks every group that does. */
  lemma {:induction false} OwnerOutranks(groups: seq<Group>, path: string, k: nat)
    requires k <= |groups|
    ensures var o := OwnerAmong(groups, path, k);
            && (o.None? <==> forall g :: 0 <= g < k ==> !Contains(groups[g], path))
            && (o.Some? ==> Contains(groups[o.value], path)
                            && forall g :: 0 <= g < k && Contains(groups[g], path) ==> Outranks(groups, o.value, g))
  {
    hide Under;
    if k > 0 {
      OwnerOutranks(groups, path, k - 1);
    }
  }

  ghost predicate Deepest(groups: seq<Group>, path: string, o: nat) {
    && o < |groups| && Contains(groups[o], path)
    && forall g :: 0 <= g < |groups| && Contains(groups[g], path)
         ==> |TrimSlash(groups[g].dir)| <= |TrimSlash(groups[o].dir)|
  }

  /** Every path some group contains is owned by a deepest one. */
  ghost predicate OwnsDeepest(groups: seq<Group>) {
    forall path :: OwnerAmong(groups, path, |groups|).Some?
              ==> Deepest(groups, path, OwnerAmong(groups, path, |groups|).value)
  }

  /** Checkout `inner` lies strictly inside checkout `outer`. */
  predicate Inside(inner: Group, outer: Group) {
    HasPrefix(TrimSlash(inner.dir), TrimSlash(outer.dir) + "/")
  }

  predicate SpelledFor(groups: seq<Group>, i: nat, j: nat)
    requires i < |groups| && j < |groups|
  {
    exists k :: 0 <= k < |groups| && TrimSlash(groups[k].dir) == TrimSlash(groups[i].dir) && Outranks(groups, k, j)
  }

  /** Whenever one checkout lies inside another, some spelling of the inner one
      outranks the outer one: what a caller can check before a lookup. */
  predicate SpelledByDepth(groups: seq<Group>) {
    forall i, j :: 0 <= i < |groups| && 0 <= j < |groups| && Inside(groups[i], groups[j]) ==> SpelledFor(groups, i, j)
  }

  lemma ContainersNest(a: Group, b: Group, path: string)
    requires Contains(a, path) && Contains(b, path)
    requires |TrimSlash(a.dir)| > |TrimSlash(b.dir)|
    ensures Inside(a, b)
  {
    hide TrimSlash;
    PrefixesNest(path, TrimSlash(a.dir), TrimSlash(b.dir));
  }

  lemma PrefixesNest(path: string, s: string, t: string)
    requires HasPrefix(path, s + "/") && HasPrefix(path, t + "/") && |s| > |t|
    ensures HasPrefix(s, t + "/")
  {
    forall i | 0 <= i < |t| + 1
      ensures s[i] == (t + "/")[i]
    {
      assert path[i] == path[..|s + "/"|][i] == (s + "/")[i];
      assert path[i] == path[..|t + "/"|][i] == (t + "/")[i];
    }
    assert s[..|t + "/"|] == t + "/";
  }

  lemma SameContents(a: Group, b: Group, path: string)
    requires TrimSlash(a.dir) == TrimSlash(b.dir)
    ensures Contains(a, path) == Contains(b, path)
  {
  }

  /** A path belongs to its deepest checkout, for every path, exactly when the
      checkouts are spelled by depth. */
  lemma OwnerIsDeepestIff(groups: seq<Group>)
    ensures OwnsDeepest(groups) <==> SpelledByDepth(groups)
  {
    if SpelledByDepth(groups) {
      forall path | OwnerAmong(groups, path, |groups|).Some?
        ensures Deepest(groups, path, OwnerAmong(groups, path, |groups|).value)
      {
        SpelledOwnsDeepest(groups, path);
      }
    }
    if OwnsDeepest(groups) {
      forall i, j | 0 <= i < |groups| && 0 <= j < |groups| && Inside(groups[i], groups[j])
        ensures SpelledFor(groups, i, j)
      {
        OwnsDeepestSpelled(groups, i, j);
      }
    }
  }

  lemma SpelledOwnsDeepest(groups: seq<Group>, path: string)
    requires SpelledByDepth(groups) && OwnerAmong(groups, path, |groups|).Some?
    ensures Deepest(groups, path, OwnerAmong(groups, path, |groups|).value)
  {
    hide TrimSlash;
    hide Under;
    hide Inside;
    OwnerOutranks(groups, path, |groups|);
    var o := OwnerAmong(groups, path, |groups|).value;
    forall g | 0 <= g < |groups| && Contains(groups[g], path)
      ensures |TrimSlash(groups[g].dir)| <= |TrimSlash(groups[o].dir)|
    {
      if |TrimSlash(groups[g].dir)| > |TrimSlash(groups[o].dir)| {
        ContainersNest(groups[g], groups[o], path);
        assert SpelledFor(groups, g, o);
        var k :| 0 <= k < |groups| && TrimSlash(groups[k].dir) == TrimSlash(groups[g].dir) && Outranks(groups, k, o);
        SameContents(groups[k], groups[g], path);
      }
    }
  }

  lemma OwnsDeepestSpelled(groups: seq<Group>, i: nat, j: nat)
    requires OwnsDeepest(groups) && i < |groups| && j < |groups| && Inside(groups[i], groups[j])
    ensures SpelledFor(groups, i, j)
  {
    var path := TrimSlash(groups[i].dir) + "/";
    assert Contains(groups[i], path) && Contains(groups[j], path) by { InnerPath(groups[i], groups[j]); }
    hide TrimSlash;
    hide Inside;
    OwnerOutranks(groups, path, |groups|);
    var o := OwnerAmong(groups, path, |groups|).value;
    assert Deepest(groups, path, o);
    assert TrimSlash(groups[o].dir) == TrimSlash(groups[i].dir) by {
      var s, t := TrimSlash(groups[o].dir), TrimSlash(groups[i].dir);
      assert HasPrefix(t + "/", s + "/");
      assert s == (s + "/")[..|s|] == (t + "/")[..|s|];
    }
  }

  lemma InnerPath(inner: Group, outer: Group)
    requires Inside(inner, outer)
    ensures Contains(inner, TrimSlash(inner.dir) + "/") && Contains(outer, TrimSlash(inner.dir) + "/")
  {
    var s, t := TrimSlash(inner.dir), TrimSlash(outer.dir) + "/";
    assert (s + "/")[..|t|] == s[..|t|];
    assert (s + "/")[..|s + "/"|] == s + "/";
  }

  /** Directories written without a trailing slash are spelled by depth. */
  lemma TrimmedOwnsDeepest(groups: seq<Group>)
    requires forall g :: 0 <= g < |groups| ==> TrimSlash(groups[g].dir) == groups[g].dir
    ensures OwnsDeepest(groups)
  {
    OwnerIsDeepestIff(groups);
    forall i, j | 0 <= i < |groups| && 0 <= j < |groups| && Inside(groups[i], groups[j])
      ensures SpelledFor(groups, i, j)
    {
      assert Outranks(groups, i, j);
    }
  }

  /** A directory padded with slashes takes the paths of a checkout inside it. */
  lemma PaddedOwnsTooMuch()
    ensures !OwnsDeepest([Group("/r///", "trunk", "search"), Group("/r/s", "worktree s", "worktree")])
  {
    var groups := [Group("/r///", "trunk", "search"), Group("/r/s", "worktree s", "worktree")];
    OwnerIsDeepestIff(groups);
    TrimSlashes("/r", 3);
    assert "/r" + Padding(3) == "/r///";
    assert TrimEndChar("/r/s", '/') == "/r/s";
    assert Inside(groups[1], groups[0]);
    assert !SpelledFor(groups, 1, 0);
  }

  function Padding(n: nat): (p: string)
    ensures |p| == n
  {
    if n == 0 then "" else Padding(n - 1) + "/"
  }

  lemma {:induction false} TrimSlashes(s: string, n: nat)
    requires s != "" && s[|s| - 1] != '/'
    ensures TrimEndChar(s + Padding(n), '/') == s
  {
    if n == 0 {
      assert s + Padding(0) == s;
    } else {
      TrimSlashes(s, n - 1);
      assert (s + Padding(n))[..|s| + n - 1] == s + Padding(n - 1);
    }
  }

  // ------------------------------------------------------------------ answering

  const MAX_CHOICES: nat := 50

  datatype Outcome = Nothing | Opens(path: string, source: string) | Choices(paths: seq<string>, captions: seq<string>)

  ghost predicate OnlyTail(found: seq<Match>, i: nat) {
    i < |found| && found[i].tail && forall j :: 0 <= j < |found| && j != i ==> !found[j].tail
  }

  /** The row that opens without asking: the only row, or the only whole tail. */
  ghost predicate Decides(found: seq<Match>, i: nat) {
    i < |found| && (|found| == 1 || OnlyTail(found, i))
  }

  ghost predicate OneCaption(found: seq<Match>, groups: seq<Group>)
    requires GroupsInRange(found, |groups|)
  {
    forall i, j :: 0 <= i < j < |found| ==> groups[found[i].group].caption == groups[found[j].group].caption
  }

  method DecidingRow(found: seq<Match>) returns (only: Option<nat>)
    ensures only.Some? ==> Decides(found, only.value)
    ensures only.None? ==> forall i: nat :: !Decides(found, i)
  {
    var tails: seq<nat> := [];
    var i := 0;
    while i < |found|
      invariant 0 <= i <= |found|
      invariant forall t :: 0 <= t < |tails| ==> tails[t] < i && found[tails[t]].tail
      invariant forall t, u :: 0 <= t < u < |tails| ==> tails[t] < tails[u]
      invariant forall j :: 0 <= j < i && found[j].tail ==> j in tails
    {
      if found[i].tail {
        tails := tails + [i];
      }
      i := i + 1;
    }
    if |found| == 1 || |tails| == 1 {
      return Some(if tails != [] then tails[0] else 0);
    }
    assert |tails| > 1 ==> tails[0] != tails[1] && found[tails[0]].tail && found[tails[1]].tail;
    return None;
  }

  method CaptionRows(found: seq<Match>, groups: seq<Group>) returns (captions: seq<string>, spans: bool)
    requires GroupsInRange(found, |groups|)
    ensures |captions| == |found| && forall i :: 0 <= i < |found| ==> captions[i] == groups[found[i].group].caption
    ensures spans <==> !OneCaption(found, groups)
  {
    captions, spans := [], false;
    var i := 0;
    while i < |found|
      invariant 0 <= i <= |found| && |captions| == i
      invariant forall j :: 0 <= j < i ==> captions[j] == groups[found[j].group].caption
      invariant spans <==> exists j :: 0 <= j < i && captions[j] != captions[0]
    {
      captions := captions + [groups[found[i].group].caption];
      spans := spans || captions[i] != captions[0];
      i := i + 1;
    }
    if spans {
      var j :| 0 <= j < i && captions[j] != captions[0];
      assert groups[found[0].group].caption != groups[found[j].group].caption;
    }
  }

  /** At most one row decides. */
  lemma OneDecides(found: seq<Match>, i: nat, j: nat)
    requires Decides(found, i) && Decides(found, j)
    ensures i == j
  {
  }

  method AnswerExact(found: seq<Match>, groups: seq<Group>) returns (answer: Outcome)
    requires GroupsInRange(found, |groups|)
    ensures answer.Nothing? <==> found == []
    ensures answer.Opens? <==> exists i: nat :: Decides(found, i)
    ensures forall i: nat :: Decides(found, i) ==> answer == Opens(found[i].path, groups[found[i].group].source)
    ensures answer.Choices? ==>
              var n := if |found| <= MAX_CHOICES then |found| else MAX_CHOICES;
              && |answer.paths| == n && (forall i :: 0 <= i < n ==> answer.paths[i] == found[i].path)
              && (if OneCaption(found, groups) then answer.captions == []
                  else |answer.captions| == n
                       && forall i :: 0 <= i < n ==> answer.captions[i] == groups[found[i].group].caption)
  {
    hide OneCaption;
    var only := DecidingRow(found);
    if only.Some? {
      forall i: nat | Decides(found, i)
        ensures i == only.value
      {
        OneDecides(found, i, only.value);
      }
      hide Decides;
      return Opens(found[only.value].path, groups[found[only.value].group].source);
    }
    if found == [] {
      return Nothing;
    }
    var captions, spans := CaptionRows(found, groups);
    var paths := seq(|found|, i requires 0 <= i < |found| => found[i].path);
    if |paths| > MAX_CHOICES {
      paths, captions := paths[..MAX_CHOICES], captions[..MAX_CHOICES];
    }
    return Choices(paths, if spans then captions else []);
  }
}
