/** What an exact lookup matches, over the segments of a path: the whole token as its
    last segments, or its last segment as the entry's name; and in what order. */
module PathTails {
  import opened Order
  import opened Text
  import opened ExactLookup
  import IndexPool

  // ----------------------------------------------------------------- segments

  function Last(segments: seq<string>): string
    requires segments != []
  {
    segments[|segments| - 1]
  }

  /** One character more: a slash opens a segment, anything else lengthens the last. */
  function Lengthened(segments: seq<string>, c: char): (longer: seq<string>)
    requires segments != []
    ensures longer != []
  {
    if c == '/' then segments + [""] else segments[..|segments| - 1] + [Last(segments) + [c]]
  }

  /** The pieces between the slashes, empty ones included. */
  function Segments(s: string): (segments: seq<string>)
    ensures segments != []
  {
    if s == "" then [""] else Lengthened(Segments(s[..|s| - 1]), s[|s| - 1])
  }

  function Joined(segments: seq<string>): string
    requires segments != []
  {
    if |segments| == 1 then segments[0]
    else Joined(segments[..|segments| - 1]) + "/" + segments[|segments| - 1]
  }

  /** These are the last segments. */
  predicate LastAre(segments: seq<string>, tail: seq<string>) {
    |tail| <= |segments| && segments[|segments| - |tail|..] == tail
  }

  /** Depth is slashes: one segment more than there are of them. */
  lemma {:induction false} SlashesSeparate(s: string)
    ensures |Segments(s)| == Slashes(s) + 1
  {
    if s != "" {
      SlashesSeparate(s[..|s| - 1]);
    }
  }

  lemma {:induction false} LastSegmentIs(s: string)
    ensures LastSegment(s) == Last(Segments(s))
  {
    if s != "" {
      LastSegmentIs(s[..|s| - 1]);
    }
  }

  lemma {:induction false} JoinedGrows(segments: seq<string>, c: char)
    requires segments != []
    ensures Joined(segments[..|segments| - 1] + [Last(segments) + [c]]) == Joined(segments) + [c]
  {
    var grown := segments[..|segments| - 1] + [Last(segments) + [c]];
    if |segments| > 1 {
      assert grown[..|grown| - 1] == segments[..|segments| - 1];
      var front := Joined(segments[..|segments| - 1]) + "/";
      assert front + (Last(segments) + [c]) == (front + Last(segments)) + [c];
    }
  }

  /** The segments determine the path. */
  lemma {:induction false} JoinedSegments(s: string)
    ensures Joined(Segments(s)) == s
  {
    if s != "" {
      var init, c := s[..|s| - 1], s[|s| - 1];
      JoinedSegments(init);
      assert s == init + [c];
      if c == '/' {
        var all := Segments(init) + [""];
        assert all[..|all| - 1] == Segments(init);
        assert init + "/" + "" == init + "/";
      } else {
        JoinedGrows(Segments(init), c);
      }
    }
  }

  lemma SegmentsSnoc(s: string, c: char)
    ensures Segments(s + [c]) == Lengthened(Segments(s), c)
  {
    assert (s + [c])[..|s|] == s;
  }

  lemma LengthenedJoin(x: seq<string>, y: seq<string>, c: char)
    requires y != []
    ensures Lengthened(x + y, c) == x + Lengthened(y, c)
  {
    assert (x + y)[..|x + y| - 1] == x + y[..|y| - 1];
  }

  lemma {:induction false} SegmentsJoin(a: string, b: string)
    ensures Segments(a + "/" + b) == Segments(a) + Segments(b)
    decreases |b|
  {
    if b == "" {
      SegmentsSnoc(a, '/');
      assert a + "/" + b == a + ['/'];
    } else {
      var init, c := b[..|b| - 1], b[|b| - 1];
      SegmentsJoin(a, init);
      SegmentsSnoc(a + "/" + init, c);
      SegmentsSnoc(init, c);
      assert a + "/" + b == a + "/" + init + [c] && b == init + [c];
      hide Segments;
      LengthenedJoin(Segments(a), Segments(init), c);
    }
  }

  lemma {:induction false} JoinedConcat(x: seq<string>, y: seq<string>)
    requires x != [] && y != []
    ensures Joined(x + y) == Joined(x) + "/" + Joined(y)
    decreases |y|
  {
    var all := x + y;
    assert Last(all) == Last(y);
    if |y| == 1 {
      assert all[..|all| - 1] == x;
    } else {
      var init := y[..|y| - 1];
      assert all[..|all| - 1] == x + init;
      JoinedConcat(x, init);
      assert Joined(x) + "/" + Joined(init) + "/" + Last(y) == Joined(x) + "/" + (Joined(init) + "/" + Last(y));
    }
  }

  lemma EndsInSegments(path: string, tail: string)
    requires EndsWith(path, "/" + tail) || path == tail
    ensures LastAre(Segments(path), Segments(tail))
  {
    hide Segments;
    if path != tail {
      var front := path[..|path| - |"/" + tail|];
      assert path == front + "/" + tail;
      SegmentsJoin(front, tail);
    } else {
      assert Segments(path)[0..] == Segments(tail);
    }
  }

  lemma SegmentsEnd(path: string, tail: string)
    requires LastAre(Segments(path), Segments(tail))
    ensures EndsWith(path, "/" + tail) || path == tail
  {
    hide Segments;
    hide Joined;
    var p, t := Segments(path), Segments(tail);
    var x := p[..|p| - |t|];
    assert p == x + t;
    JoinedSegments(path);
    JoinedSegments(tail);
    if x == [] {
      assert p == t;
    } else {
      JoinedConcat(x, t);
      FrontEnds(path, Joined(x), tail);
    }
  }

  lemma FrontEnds(path: string, front: string, tail: string)
    requires path == front + "/" + tail
    ensures EndsWith(path, "/" + tail)
  {
    assert path == front + ("/" + tail);
  }

  /** A path ends in the whole tail exactly when its last segments are the tail's. */
  lemma TailIsSegments(path: string, tail: string)
    ensures EndsWith(path, "/" + tail) || path == tail <==> LastAre(Segments(path), Segments(tail))
  {
    hide *;
    if EndsWith(path, "/" + tail) || path == tail {
      EndsInSegments(path, tail);
    }
    if LastAre(Segments(path), Segments(tail)) {
      SegmentsEnd(path, tail);
    }
  }

  // -------------------------------------------------------------- the token's tail

  function Times(piece: string, n: nat): string {
    if n == 0 then "" else piece + Times(piece, n - 1)
  }

  /** The token is so many `./`, then so many `/`, then the tail, and no fewer. */
  predicate Stripped(rel: string, dots: nat, slashes: nat, tail: string) {
    && rel == Times("./", dots) + (Times("/", slashes) + tail)
    && !HasPrefix(Times("/", slashes) + tail, "./") && !HasPrefix(tail, "/")
  }

  lemma {:induction false} TrimTimes(piece: string, n: nat, rest: string)
    requires piece != "" && !HasPrefix(rest, piece)
    ensures TrimStartText(Times(piece, n) + rest, piece) == rest
  {
    if n == 0 {
      assert Times(piece, 0) + rest == rest;
    } else {
      var s := Times(piece, n) + rest;
      assert s == piece + (Times(piece, n - 1) + rest);
      assert s[|piece|..] == Times(piece, n - 1) + rest;
      TrimTimes(piece, n - 1, rest);
    }
  }

  lemma {:induction false} TrimmedTimes(s: string, piece: string) returns (n: nat)
    requires piece != ""
    ensures s == Times(piece, n) + TrimStartText(s, piece) && !HasPrefix(TrimStartText(s, piece), piece)
    decreases |s|
  {
    if HasPrefix(s, piece) {
      var k := TrimmedTimes(s[|piece|..], piece);
      n := k + 1;
      assert s == piece + s[|piece|..];
    } else {
      n := 0;
      assert s == "" + s;
    }
  }

  /** The tail is what is left of the token, and nothing else is. */
  lemma TailIsStripped(rel: string, tail: string)
    ensures tail == Tail(rel) <==> exists dots: nat, slashes: nat :: Stripped(rel, dots, slashes, tail)
  {
    var dots := TrimmedTimes(rel, "./");
    var slashes := TrimmedTimes(TrimStartText(rel, "./"), "/");
    assert Stripped(rel, dots, slashes, Tail(rel));
    forall d: nat, k: nat | Stripped(rel, d, k, tail)
      ensures tail == Tail(rel)
    {
      TrimTimes("./", d, Times("/", k) + tail);
      TrimTimes("/", k, tail);
    }
  }

  // ------------------------------------------------------------- what matches

  /** The token's segments are the path's last. */
  predicate WholeMatch(rel: string, path: string) {
    LastAre(Segments(path), Segments(Tail(rel)))
  }

  predicate NameMatch(rel: string, name: string) {
    name == Last(Segments(Tail(rel)))
  }

  lemma HitIs(rel: string, e: Entry)
    ensures WholeTail(rel, e) <==> WholeMatch(rel, e.path)
    ensures Hit(rel, e) <==> WholeMatch(rel, e.path) || NameMatch(rel, e.name)
  {
    TailIsSegments(e.path, Tail(rel));
    LastSegmentIs(Tail(rel));
    hide Tail;
  }

  /** The ranking lists the entries that match, whole tails before names, shallower
      paths before deeper ones, then in byte order. */
  lemma RankingBySegments(rel: string, entries: seq<Entry>)
    ensures var ranked := RankExact(rel, entries);
            && (forall m :: m in ranked <==> exists e :: e in entries && m.path == e.path && m.tail == WholeMatch(rel, e.path)
                                                         && (m.tail || NameMatch(rel, e.name)))
            && forall i, j :: 0 <= i < j < |ranked| ==> Precedes(ranked[i], ranked[j])
  {
    var ranked := RankExact(rel, entries);
    RankingIsComplete(rel, entries);
    forall m
      ensures m in ranked <==> exists e :: e in entries && m.path == e.path && m.tail == WholeMatch(rel, e.path)
                                           && (m.tail || NameMatch(rel, e.name))
    {
      RankedBySegments(rel, entries, m);
    }
    forall i, j | 0 <= i < j < |ranked|
      ensures Precedes(ranked[i], ranked[j])
    {
      NotBetter(ranked[i], ranked[j]);
    }
  }

  lemma RankedBySegments(rel: string, entries: seq<Entry>, m: Ranked)
    ensures (exists e :: e in entries && Hit(rel, e) && m == Ranked(e.path, WholeTail(rel, e)))
       <==> exists e :: e in entries && m.path == e.path && m.tail == WholeMatch(rel, e.path)
                        && (m.tail || NameMatch(rel, e.name))
  {
    forall e | e in entries
      ensures WholeTail(rel, e) <==> WholeMatch(rel, e.path)
      ensures Hit(rel, e) <==> WholeMatch(rel, e.path) || NameMatch(rel, e.name)
    {
      HitIs(rel, e);
    }
    hide Hit;
    hide WholeTail;
    hide WholeMatch;
    hide NameMatch;
  }

  /** Whole tails first, then fewer segments, then byte order; rows may tie. */
  predicate Precedes(a: Ranked, b: Ranked) {
    if a.tail != b.tail then a.tail
    else if |Segments(a.path)| != |Segments(b.path)| then |Segments(a.path)| < |Segments(b.path)|
    else Less(a.path, b.path) || a.path == b.path
  }

  lemma NotBetter(a: Ranked, b: Ranked)
    requires !Better(b, a)
    ensures Precedes(a, b)
  {
    SlashesSeparate(a.path);
    SlashesSeparate(b.path);
    Trichotomy(a.path, b.path);
  }

  // ------------------------------------------------------------ rows of the answer

  /** The index of this group lists the path as a match: a whole tail, or in the
      pane's own checkout, group 0, also an entry of that name. */
  ghost predicate Offers(rel: string, groups: seq<Group>, index: string -> seq<Entry>, k: nat, path: string)
    requires k < |groups|
  {
    exists e :: e in index(groups[k].dir) && e.path == path && (WholeMatch(rel, path) || (k == 0 && NameMatch(rel, e.name)))
  }

  /** The first searched group that offers the path. */
  ghost predicate FirstOffer(rel: string, groups: seq<Group>, index: string -> seq<Entry>, begin: nat, k: nat, path: string)
    requires k < |groups|
  {
    begin <= k && Offers(rel, groups, index, k, path) && forall l :: begin <= l < k ==> !Offers(rel, groups, index, l, path)
  }

  lemma OffersRanked(rel: string, groups: seq<Group>, index: string -> seq<Entry>, k: nat, path: string)
    requires k < |groups|
    ensures Offers(rel, groups, index, k, path)
       <==> exists hit :: hit in RankExact(rel, index(groups[k].dir)) && hit.path == path && Eligible(Candidate(k, hit))
  {
    var entries := index(groups[k].dir);
    RankingBySegments(rel, entries);
    hide RankExact;
    hide WholeMatch;
    hide NameMatch;
    if e :| e in entries && e.path == path && (WholeMatch(rel, path) || (k == 0 && NameMatch(rel, e.name))) {
      var hit := Ranked(path, WholeMatch(rel, path));
      assert hit in RankExact(rel, entries);
    }
  }

  /** A candidate is a ranked row of a searched group, the groups in order and each
      group's rows in its ranking's. */
  ghost predicate Listed(rel: string, groups: seq<Group>, index: string -> seq<Entry>, begin: nat, end: nat,
                         candidates: seq<Candidate>)
    requires begin <= end <= |groups|
  {
    && (forall i :: 0 <= i < |candidates| ==>
          begin <= candidates[i].index < end
          && candidates[i].hit in RankExact(rel, index(groups[candidates[i].index].dir)))
    && (forall k, hit :: begin <= k < end && hit in RankExact(rel, index(groups[k].dir))
          ==> Candidate(k, hit) in candidates)
    && (forall i, j :: 0 <= i < j < |candidates| ==> CandidatePrecedes(candidates[i], candidates[j]))
  }

  predicate CandidatePrecedes(a: Candidate, b: Candidate) {
    a.index < b.index || (a.index == b.index && Precedes(a.hit, b.hit))
  }

  lemma CandidatesSnoc(rel: string, groups: seq<Group>, index: string -> seq<Entry>, order: seq<nat>, k: nat)
    requires k < |groups| && forall i :: 0 <= i < |order| ==> order[i] < |groups|
    ensures Candidates(rel, groups, index, order + [k])
         == Candidates(rel, groups, index, order) + Tagged(k, RankExact(rel, index(groups[k].dir)))
  {
    assert (order + [k])[..|order|] == order;
    hide RankExact;
  }

  lemma NothingListed(rel: string, groups: seq<Group>, index: string -> seq<Entry>, begin: nat)
    requires begin <= |groups|
    ensures Listed(rel, groups, index, begin, begin, Candidates(rel, groups, index, IndexPool.Range(begin, begin)))
  {
    hide RankExact;
    hide Precedes;
  }

  lemma RangeSnoc(begin: nat, end: nat)
    requires begin < end
    ensures IndexPool.Range(begin, end) == IndexPool.Range(begin, end - 1) + [end - 1]
  {
  }

  lemma {:induction false} CandidatesListed(rel: string, groups: seq<Group>, index: string -> seq<Entry>, begin: nat, end: nat)
    requires begin <= end <= |groups|
    ensures Listed(rel, groups, index, begin, end, Candidates(rel, groups, index, IndexPool.Range(begin, end)))
    decreases end - begin
  {
    hide *;
    if begin == end {
      NothingListed(rel, groups, index, begin);
    } else {
      var init, hits := IndexPool.Range(begin, end - 1), RankExact(rel, index(groups[end - 1].dir));
      CandidatesListed(rel, groups, index, begin, end - 1);
      CandidatesSnoc(rel, groups, index, init, end - 1);
      RankingBySegments(rel, index(groups[end - 1].dir));
      ListedMore(rel, groups, index, begin, end, Candidates(rel, groups, index, init), hits);
      RangeSnoc(begin, end);
    }
  }

  lemma ListedMore(rel: string, groups: seq<Group>, index: string -> seq<Entry>, begin: nat, end: nat,
                   before: seq<Candidate>, hits: seq<Ranked>)
    requires begin < end <= |groups| && Listed(rel, groups, index, begin, end - 1, before)
    requires hits == RankExact(rel, index(groups[end - 1].dir))
    requires forall i, j :: 0 <= i < j < |hits| ==> Precedes(hits[i], hits[j])
    ensures Listed(rel, groups, index, begin, end, before + Tagged(end - 1, hits))
  {
    hide RankExact;
    hide Precedes;
    var all := before + Tagged(end - 1, hits);
    forall k, hit | begin <= k < end && hit in RankExact(rel, index(groups[k].dir))
      ensures Candidate(k, hit) in all
    {
      if k == end - 1 {
        var i :| 0 <= i < |hits| && hits[i] == hit;
        assert all[|before| + i] == Candidate(k, hit);
      } else {
        assert Candidate(k, hit) in before;
      }
    }
    forall i, j | 0 <= i < j < |all|
      ensures CandidatePrecedes(all[i], all[j])
    {
      if j < |before| {
        assert all[i] == before[i] && all[j] == before[j];
      } else if i < |before| {
        assert all[i] == before[i];
      }
    }
  }

  // ------------------------------------------------------------- rows in order

  /** The first eligible candidate of this path stands here. */
  ghost predicate StandsAt(candidates: seq<Candidate>, path: string, p: nat) {
    FirstOf(candidates, p) && candidates[p].hit.path == path
  }

  /** The first path's first candidate comes before the second's. */
  ghost predicate Before(candidates: seq<Candidate>, a: string, b: string) {
    forall p, q :: StandsAt(candidates, a, p) && StandsAt(candidates, b, q) ==> p < q
  }

  ghost predicate Ascending(candidates: seq<Candidate>, found: seq<Match>) {
    forall i, j :: 0 <= i < j < |found| ==> Before(candidates, found[i].path, found[j].path)
  }

  lemma StandsEarlier(candidates: seq<Candidate>, n: nat, path: string, p: nat)
    requires n <= |candidates|
    requires exists i :: 0 <= i < n && Eligible(candidates[i]) && candidates[i].hit.path == path
    ensures StandsAt(candidates, path, p) <==> StandsAt(candidates[..n], path, p)
  {
    assert forall i :: 0 <= i < n ==> candidates[..n][i] == candidates[i];
  }

  lemma RowStands(groups: seq<Group>, candidates: seq<Candidate>, n: nat, m: Match)
    requires n <= |candidates| && m in Keep(groups, candidates[..n])
    ensures exists i :: 0 <= i < n && Eligible(candidates[i]) && candidates[i].hit.path == m.path
  {
    var i := KeptIsFirst(groups, candidates[..n], m);
    assert candidates[..n][i] == candidates[i];
  }

  lemma BeforeKept(groups: seq<Group>, candidates: seq<Candidate>, n: nat, a: Match, b: Match)
    requires n <= |candidates| && a in Keep(groups, candidates[..n]) && b in Keep(groups, candidates[..n])
    requires Before(candidates[..n], a.path, b.path)
    ensures Before(candidates, a.path, b.path)
  {
    RowStands(groups, candidates, n, a);
    RowStands(groups, candidates, n, b);
    forall p: nat, q: nat | StandsAt(candidates, a.path, p) && StandsAt(candidates, b.path, q)
      ensures p < q
    {
      StandsEarlier(candidates, n, a.path, p);
      StandsEarlier(candidates, n, b.path, q);
    }
  }

  lemma BeforeLast(groups: seq<Group>, candidates: seq<Candidate>, a: Match, last: Match)
    requires candidates != [] && a in Keep(groups, candidates[..|candidates| - 1])
    requires last.path == candidates[|candidates| - 1].hit.path
    requires !Seen(Keep(groups, candidates[..|candidates| - 1]), last.path)
    ensures Before(candidates, a.path, last.path)
  {
    var n := |candidates| - 1;
    RowStands(groups, candidates, n, a);
    SeenKept(groups, candidates[..n], last.path);
    assert forall i :: 0 <= i < n && Eligible(candidates[i]) ==> candidates[..n][i].hit.path != last.path;
    forall p: nat, q: nat | StandsAt(candidates, a.path, p) && StandsAt(candidates, last.path, q)
      ensures p < q
    {
      StandsEarlier(candidates, n, a.path, p);
      assert q >= n;
    }
  }

  /** Merged rows stand in the order of their first candidates. */
  lemma {:induction false} KeepAscends(groups: seq<Group>, candidates: seq<Candidate>)
    ensures Ascending(candidates, Keep(groups, candidates))
  {
    hide Owner;
    if candidates != [] {
      var n := |candidates| - 1;
      KeepAscends(groups, candidates[..n]);
      var before, all := Keep(groups, candidates[..n]), Keep(groups, candidates);
      hide Before;
      hide Seen;
      forall i, j | 0 <= i < j < |all|
        ensures Before(candidates, all[i].path, all[j].path)
      {
        assert all[i] in before;
        if j < |before| {
          assert all[j] in before;
          BeforeKept(groups, candidates, n, all[i], all[j]);
        } else {
          BeforeLast(groups, candidates, all[i], all[j]);
        }
      }
    }
  }

  lemma AscendingSnoc(candidates: seq<Candidate>, some: seq<Match>, found: seq<Match>)
    requires found != [] && Ascending(candidates, found) && Ascending(candidates, some)
    requires forall m :: m in some ==> m in found[..|found| - 1]
    ensures Ascending(candidates, some + [found[|found| - 1]])
  {
    hide Before;
    var last := found[|found| - 1];
    forall i | 0 <= i < |some|
      ensures Before(candidates, some[i].path, last.path)
    {
      assert some[i] in some && some[i] in found[..|found| - 1];
      var k :| 0 <= k < |found| - 1 && found[k] == some[i];
    }
  }

  lemma AscendingInit(candidates: seq<Candidate>, found: seq<Match>)
    requires found != [] && Ascending(candidates, found)
    ensures Ascending(candidates, found[..|found| - 1])
  {
    hide Before;
  }

  lemma {:induction false} RetainAscends(groups: seq<Group>, first: set<string>, found: seq<Match>, candidates: seq<Candidate>)
    requires GroupsInRange(found, |groups|) && Ascending(candidates, found)
    ensures Ascending(candidates, Retain(groups, first, found))
  {
    hide Before;
    hide OtherBranch;
    if found != [] {
      var init := found[..|found| - 1];
      AscendingInit(candidates, found);
      RetainAscends(groups, first, init, candidates);
      forall m | m in Retain(groups, first, init)
        ensures m in init
      {
        RetainedIn(groups, first, init, m);
      }
      AscendingSnoc(candidates, Retain(groups, first, init), found);
      hide Ascending;
      assert Retain(groups, first, init) + [] == Retain(groups, first, init);
    }
  }

  lemma {:induction false} OfGroupAscends(found: seq<Match>, g: nat, candidates: seq<Candidate>)
    requires Ascending(candidates, found)
    ensures Ascending(candidates, OfGroup(found, g))
  {
    hide Before;
    if found != [] {
      var init := found[..|found| - 1];
      AscendingInit(candidates, found);
      OfGroupAscends(init, g, candidates);
      forall m | m in OfGroup(init, g)
        ensures m in init
      {
        OfGroupIn(init, g, m);
      }
      AscendingSnoc(candidates, OfGroup(init, g), found);
      hide Ascending;
      assert OfGroup(init, g) + [] == OfGroup(init, g);
    }
  }

  /** By group, and within one group as merged. */
  ghost predicate GroupedInOrder(candidates: seq<Candidate>, rows: seq<Match>) {
    forall i, j :: 0 <= i < j < |rows| ==> RowPrecedes(candidates, rows[i], rows[j])
  }

  ghost predicate RowPrecedes(candidates: seq<Candidate>, a: Match, b: Match) {
    a.group < b.group || (a.group == b.group && Before(candidates, a.path, b.path))
  }

  lemma GroupedJoin(candidates: seq<Candidate>, before: seq<Match>, own: seq<Match>, g: nat)
    requires GroupedInOrder(candidates, before) && Ascending(candidates, own)
    requires forall i :: 0 <= i < |before| ==> before[i].group < g
    requires forall i :: 0 <= i < |own| ==> own[i].group == g
    ensures GroupedInOrder(candidates, before + own)
  {
    hide Before;
  }

  lemma {:induction false} ByGroupAscends(found: seq<Match>, n: nat, candidates: seq<Candidate>)
    requires Ascending(candidates, found)
    ensures GroupedInOrder(candidates, ByGroup(found, n))
  {
    if n > 0 {
      var before, own := ByGroup(found, n - 1), OfGroup(found, n - 1);
      assert ByGroup(found, n) == before + own;
      ByGroupAscends(found, n - 1, candidates);
      OfGroupAscends(found, n - 1, candidates);
      hide ByGroup;
      hide OfGroup;
      hide Ascending;
      hide GroupedInOrder;
      forall i | 0 <= i < |before|
        ensures before[i].group < n - 1
      {
        ByGroupIn(found, n - 1, before[i]);
      }
      forall i | 0 <= i < |own|
        ensures own[i].group == n - 1
      {
        OfGroupIn(found, n - 1, own[i]);
      }
      GroupedJoin(candidates, before, own, n - 1);
    }
  }

  // --------------------------------------------------------------- the answer

  lemma EarlierDiffers(rel: string, groups: seq<Group>, index: string -> seq<Entry>, begin: nat, end: nat,
                       candidates: seq<Candidate>, p: nat, l: nat, hit: Ranked)
    requires begin <= end <= |groups| && Listed(rel, groups, index, begin, end, candidates) && FirstOf(candidates, p)
    requires begin <= l < candidates[p].index && hit in RankExact(rel, index(groups[l].dir)) && Eligible(Candidate(l, hit))
    ensures hit.path != candidates[p].hit.path
  {
    hide RankExact;
    hide Precedes;
    var j :| 0 <= j < |candidates| && candidates[j] == Candidate(l, hit);
    assert j > p ==> CandidatePrecedes(candidates[p], candidates[j]);
  }

  lemma StandsAtFirstOffer(rel: string, groups: seq<Group>, index: string -> seq<Entry>, begin: nat, end: nat,
                           candidates: seq<Candidate>, p: nat)
    requires begin <= end <= |groups| && Listed(rel, groups, index, begin, end, candidates)
    requires FirstOf(candidates, p)
    ensures FirstOffer(rel, groups, index, begin, candidates[p].index, candidates[p].hit.path)
  {
    hide RankExact;
    var c := candidates[p];
    OffersRanked(rel, groups, index, c.index, c.hit.path);
    forall l | begin <= l < c.index
      ensures !Offers(rel, groups, index, l, c.hit.path)
    {
      OffersRanked(rel, groups, index, l, c.hit.path);
      forall hit | hit in RankExact(rel, index(groups[l].dir)) && Eligible(Candidate(l, hit))
        ensures hit.path != c.hit.path
      {
        EarlierDiffers(rel, groups, index, begin, end, candidates, p, l, hit);
      }
    }
    hide Offers;
  }

  /** A row matches by the token's segments, comes from the first searched group that
      offers its path, and belongs to its owner. */
  ghost predicate Sound(rel: string, groups: seq<Group>, index: string -> seq<Entry>, begin: nat, end: nat, m: Match)
    requires begin <= end <= |groups|
  {
    && m.tail == WholeMatch(rel, m.path)
    && exists k :: begin <= k < end && FirstOffer(rel, groups, index, begin, k, m.path)
                   && m.group == Owner(groups, m.path, k)
  }

  lemma KeptIsSound(rel: string, groups: seq<Group>, index: string -> seq<Entry>, begin: nat, end: nat, m: Match)
      returns (p: nat)
    requires begin <= end <= |groups| && m in Merged(rel, groups, index, begin, end)
    ensures Sound(rel, groups, index, begin, end, m)
    ensures StandsAt(Candidates(rel, groups, index, IndexPool.Range(begin, end)), m.path, p)
  {
    var candidates := Candidates(rel, groups, index, IndexPool.Range(begin, end));
    CandidatesListed(rel, groups, index, begin, end);
    p := KeptIsFirst(groups, candidates, m);
    hide Owner;
    hide Candidates;
    StandsAtFirstOffer(rel, groups, index, begin, end, candidates, p);
    RankingBySegments(rel, index(groups[candidates[p].index].dir));
    hide RankExact;
    hide FirstOffer;
    hide WholeMatch;
  }

  /** Every row of the answer matches by segments. */
  lemma AnswerMatches(rel: string, groups: seq<Group>, index: string -> seq<Entry>, begin: nat, end: nat, m: Match)
    requires begin <= end <= |groups| && groups != [] && m in Answer(rel, groups, index, begin, end)
    ensures Sound(rel, groups, index, begin, end, m)
  {
    AnswerIsExact(rel, groups, index, begin, end);
    hide Answer;
    hide Merged;
    hide Sound;
    var p := KeptIsSound(rel, groups, index, begin, end, m);
  }

  /** The row lies in a worktree at the checkout-relative path of a row of group 0. */
  predicate CopyOf(groups: seq<Group>, m: Match, other: Match)
    requires m.group < |groups| && groups != []
  {
    && m.group != 0 && groups[m.group].source == "worktree" && other.group == 0
    && Under(m.path, groups[m.group].dir).Some?
    && Under(m.path, groups[m.group].dir) == Under(other.path, groups[0].dir)
  }

  lemma OtherBranchIs(groups: seq<Group>, found: seq<Match>, m: Match)
    requires m.group < |groups| && groups != []
    ensures OtherBranch(groups, FirstPaths(groups, found), m) <==> exists other :: other in found && CopyOf(groups, m, other)
  {
    hide Under;
    if OtherBranch(groups, FirstPaths(groups, found), m) {
      var i :| 0 <= i < |found| && found[i].group == 0 && Under(found[i].path, groups[0].dir)
                                                          == Under(m.path, groups[m.group].dir);
      assert found[i] in found && CopyOf(groups, m, found[i]);
    }
    if other :| other in found && CopyOf(groups, m, other) {
      var i :| 0 <= i < |found| && found[i] == other;
      assert Under(found[i].path, groups[0].dir).value in FirstPaths(groups, found);
    }
  }

  /** Every path a searched group offers has a row, unless it is another branch's copy
      of a file group 0 lists. */
  lemma AnswerCovers(rel: string, groups: seq<Group>, index: string -> seq<Entry>, begin: nat, end: nat, k: nat, path: string)
      returns (m: Match)
    requires begin <= k < end <= |groups| && Offers(rel, groups, index, k, path)
    ensures var found := Merged(rel, groups, index, begin, end);
            && m in found && m.path == path
            && (m in Answer(rel, groups, index, begin, end) <==> forall other :: other in found ==> !CopyOf(groups, m, other))
  {
    var candidates := Candidates(rel, groups, index, IndexPool.Range(begin, end));
    CandidatesListed(rel, groups, index, begin, end);
    OffersRanked(rel, groups, index, k, path);
    AnswerIsExact(rel, groups, index, begin, end);
    hide Answer;
    hide Candidates;
    hide RankExact;
    var hit :| hit in RankExact(rel, index(groups[k].dir)) && hit.path == path && Eligible(Candidate(k, hit));
    var i :| 0 <= i < |candidates| && candidates[i] == Candidate(k, hit);
    SeenKept(groups, candidates, path);
    hide Keep;
    var found := Merged(rel, groups, index, begin, end);
    assert found == Keep(groups, candidates);
    var j :| 0 <= j < |found| && found[j].path == path;
    m := found[j];
    OtherBranchIs(groups, found, m);
    hide OtherBranch;
    hide CopyOf;
  }

  /** Rows of one group stand by the group searched, then whole tails first, then
      shallower paths, then byte order. */
  lemma AnswerInOrder(rel: string, groups: seq<Group>, index: string -> seq<Entry>, begin: nat, end: nat, i: nat, j: nat)
    requires begin <= end <= |groups| && groups != []
    requires i < j < |Answer(rel, groups, index, begin, end)|
    ensures var a, b := Answer(rel, groups, index, begin, end)[i], Answer(rel, groups, index, begin, end)[j];
            a.group < b.group
            || (a.group == b.group
                && forall k: nat, l: nat :: k < |groups| && l < |groups|
                     && FirstOffer(rel, groups, index, begin, k, a.path) && FirstOffer(rel, groups, index, begin, l, b.path)
                     ==> k < l || (k == l && Precedes(Ranked(a.path, a.tail), Ranked(b.path, b.tail))))
  {
    var order := IndexPool.Range(begin, end);
    var candidates := Candidates(rel, groups, index, order);
    var found := Merged(rel, groups, index, begin, end);
    var answer := Answer(rel, groups, index, begin, end);
    AnswerIsExact(rel, groups, index, begin, end);
    KeepAscends(groups, candidates);
    RetainAscends(groups, FirstPaths(groups, found), found, candidates);
    ByGroupAscends(Retain(groups, FirstPaths(groups, found), found), |groups|, candidates);
    assert GroupedInOrder(candidates, answer);
    var a, b := answer[i], answer[j];
    assert a in answer && b in answer;
    CandidatesListed(rel, groups, index, begin, end);
    assert RowPrecedes(candidates, a, b);
    hide *;
    var p := KeptIsSound(rel, groups, index, begin, end, a);
    var q := KeptIsSound(rel, groups, index, begin, end, b);
    RowsPrecede(rel, groups, index, begin, end, candidates, a, b, p, q);
  }

  lemma RowsPrecede(rel: string, groups: seq<Group>, index: string -> seq<Entry>, begin: nat, end: nat,
                    candidates: seq<Candidate>, a: Match, b: Match, p: nat, q: nat)
    requires begin <= end <= |groups| && Listed(rel, groups, index, begin, end, candidates)
    requires Sound(rel, groups, index, begin, end, a) && Sound(rel, groups, index, begin, end, b)
    requires StandsAt(candidates, a.path, p) && StandsAt(candidates, b.path, q) && RowPrecedes(candidates, a, b)
    ensures a.group < b.group
         || (a.group == b.group
             && forall k: nat, l: nat :: k < |groups| && l < |groups|
                  && FirstOffer(rel, groups, index, begin, k, a.path) && FirstOffer(rel, groups, index, begin, l, b.path)
                  ==> k < l || (k == l && Precedes(Ranked(a.path, a.tail), Ranked(b.path, b.tail))))
  {
    hide RankExact;
    hide Offers;
    hide WholeMatch;
    hide Owner;
    if a.group == b.group {
      assert p < q;
      var c, d := candidates[p], candidates[q];
      assert CandidatePrecedes(c, d);
      StandsAtFirstOffer(rel, groups, index, begin, end, candidates, p);
      StandsAtFirstOffer(rel, groups, index, begin, end, candidates, q);
      TailOfHit(rel, index(groups[c.index].dir), c.hit);
      TailOfHit(rel, index(groups[d.index].dir), d.hit);
      hide Precedes;
    }
  }

  lemma TailOfHit(rel: string, entries: seq<Entry>, hit: Ranked)
    requires hit in RankExact(rel, entries)
    ensures hit.tail == WholeMatch(rel, hit.path)
  {
    RankingBySegments(rel, entries);
    hide WholeMatch;
    hide RankExact;
  }
}
