/** The commit row a lane mails: the branch as one word, the printed body, and the
    head sha read back out of it. */
module CommitRow {
  import opened Text

  // ------------------------------------------------------------------- the slug

  predicate SlugLetter(c: char) {
    'a' <= c <= 'z' || 'A' <= c <= 'Z' || '0' <= c <= '9' || c == '_'
  }

  predicate SlugChar(c: char) {
    SlugLetter(c) || c == '-'
  }

  /** Every run outside the alphabet becomes one hyphen; a hyphen stays itself. */
  function Hyphenated(branch: string): string {
    if branch == "" then ""
    else
      var before, c := Hyphenated(branch[..|branch| - 1]), branch[|branch| - 1];
      if SlugChar(c) then before + [c]
      else if before != "" && before[|before| - 1] == '-' then before
      else before + "-"
  }

  function TrimStartChar(s: string, c: char): string {
    if s != "" && s[0] == c then TrimStartChar(s[1..], c) else s
  }

  function SlugOf(branch: string): string {
    TrimStartChar(TrimEndChar(Hyphenated(branch), '-'), '-')
  }

  method Slug(branch: string) returns (slug: string)
    ensures slug == SlugOf(branch)
  {
    slug := "";
    var i := 0;
    while i < |branch|
      invariant 0 <= i <= |branch| && slug == Hyphenated(branch[..i])
    {
      var c := branch[i];
      assert branch[..i + 1][..i] == branch[..i];
      if SlugChar(c) {
        slug := slug + [c];
      } else if !(slug != "" && slug[|slug| - 1] == '-') {
        slug := slug + "-";
      }
      i := i + 1;
    }
    assert branch[..i] == branch;
    slug := TrimStartChar(TrimEndChar(slug, '-'), '-');
  }

  /** The letters of a name, in order: what a slug must not lose. */
  function Letters(s: string): string {
    if s == "" then "" else Letters(s[..|s| - 1]) + if SlugLetter(s[|s| - 1]) then [s[|s| - 1]] else ""
  }

  predicate AllSlugChars(s: string) {
    forall i :: 0 <= i < |s| ==> SlugChar(s[i])
  }

  lemma LettersSnoc(s: string, c: char)
    ensures Letters(s + [c]) == Letters(s) + if SlugLetter(c) then [c] else ""
  {
    assert (s + [c])[..|s|] == s;
  }

  lemma {:induction false} HyphenatedKeeps(branch: string)
    ensures AllSlugChars(Hyphenated(branch))
    ensures Letters(Hyphenated(branch)) == Letters(branch)
  {
    if branch != "" {
      var c := branch[|branch| - 1];
      var before := Hyphenated(branch[..|branch| - 1]);
      HyphenatedKeeps(branch[..|branch| - 1]);
      LettersSnoc(before, if SlugChar(c) then c else '-');
    }
  }

  lemma {:induction false} LettersCons(c: char, s: string)
    ensures Letters([c] + s) == (if SlugLetter(c) then [c] else "") + Letters(s)
  {
    if s == "" {
      assert [c] + s == [] + [c];
      LettersSnoc("", c);
    } else {
      var init, last := s[..|s| - 1], s[|s| - 1];
      LettersCons(c, init);
      assert [c] + s == ([c] + init) + [last] && s == init + [last];
      LettersSnoc([c] + init, last);
      LettersSnoc(init, last);
    }
  }

  lemma {:induction false} TrimEndKeeps(s: string)
    requires AllSlugChars(s)
    ensures AllSlugChars(TrimEndChar(s, '-')) && Letters(TrimEndChar(s, '-')) == Letters(s)
    ensures TrimEndChar(s, '-') != "" ==> TrimEndChar(s, '-')[|TrimEndChar(s, '-')| - 1] != '-'
  {
    if s != "" && s[|s| - 1] == '-' {
      TrimEndKeeps(s[..|s| - 1]);
      assert s == s[..|s| - 1] + ['-'];
      LettersSnoc(s[..|s| - 1], '-');
    }
  }

  lemma {:induction false} TrimStartKeeps(s: string)
    requires AllSlugChars(s) && (s != "" ==> s[|s| - 1] != '-')
    ensures AllSlugChars(TrimStartChar(s, '-')) && Letters(TrimStartChar(s, '-')) == Letters(s)
    ensures var t := TrimStartChar(s, '-');
            t != "" ==> t[0] != '-' && t[|t| - 1] != '-'
  {
    if s != "" && s[0] == '-' {
      TrimStartKeeps(s[1..]);
      assert s == ['-'] + s[1..];
      LettersCons('-', s[1..]);
    }
  }

  /** A slug is one shell word: only letters, digits, `_` and `-`, no hyphen at
      either end, and no letter of the branch lost, added or moved. */
  lemma SlugIsOneWord(branch: string)
    ensures var s := SlugOf(branch);
            && AllSlugChars(s) && Letters(s) == Letters(branch)
            && (s != "" ==> s[0] != '-' && s[|s| - 1] != '-')
  {
    HyphenatedKeeps(branch);
    TrimEndKeeps(Hyphenated(branch));
    TrimStartKeeps(TrimEndChar(Hyphenated(branch), '-'));
  }

  lemma {:induction false} HyphenatedFixed(s: string)
    requires AllSlugChars(s)
    ensures Hyphenated(s) == s
  {
    if s != "" {
      HyphenatedFixed(s[..|s| - 1]);
    }
  }

  /** Slugging a slug changes nothing. */
  lemma SlugIdempotent(branch: string)
    ensures SlugOf(SlugOf(branch)) == SlugOf(branch)
  {
    SlugIsOneWord(branch);
    HyphenatedFixed(SlugOf(branch));
  }

  // ------------------------------------------------------------------- the body

  /** The facts of a commit row; texts printed in debug quotes come quoted. */
  datatype Facts = Facts(old_: string, new_: string, count: nat, subject: string, status: string,
                         blockedAsk: Option<string>, check: Option<string>, dirty: nat)

  function CommitBody(lane: string, worktree: string, f: Facts): string {
    "commit " + lane + " " + f.old_ + ".." + f.new_ + (" " + Details(worktree, f))
  }

  function Details(worktree: string, f: Facts): string {
    "n=" + Decimal(f.count) + " status=" + f.status + " subject=" + f.subject + " dirty=" + Decimal(f.dirty)
    + (if f.blockedAsk.Some? then " ask=" + f.blockedAsk.value else "")
    + (if f.check.Some? then " check=" + f.check.value else "")
    + "\n review: git -C " + worktree + " log -p " + f.old_ + ".." + f.new_
  }

  /** What follows the first `..` of a word. */
  function AfterDots(word: string): Option<string>
    decreases |word|
  {
    if |word| < 2 then None
    else if word[0] == '.' && word[1] == '.' then Some(word[2..])
    else AfterDots(word[1..])
  }

  /** The tail of the first word holding a range. */
  function FirstRange(words: seq<string>): Option<string> {
    if words == [] then None
    else if AfterDots(words[0]).Some? then AfterDots(words[0])
    else FirstRange(words[1..])
  }

  function CommitHead(body: string): string {
    var range := FirstRange(Words(body));
    if range.Some? then range.value else ""
  }

  predicate Hex(s: string) {
    forall i :: 0 <= i < |s| ==> '0' <= s[i] <= '9' || 'a' <= s[i] <= 'f'
  }

  lemma {:induction false} RangesJoin(a: seq<string>, b: seq<string>)
    ensures FirstRange(a + b) == if FirstRange(a).Some? then FirstRange(a) else FirstRange(b)
  {
    if a == [] {
      assert a + b == b;
    } else {
      assert (a + b)[1..] == a[1..] + b;
      RangesJoin(a[1..], b);
    }
  }

  lemma {:induction false} AfterHex(old_: string, rest: string)
    requires Hex(old_)
    ensures AfterDots(old_ + ".." + rest) == Some(rest)
    decreases |old_|
  {
    var s := old_ + ".." + rest;
    if old_ == "" {
      assert s[2..] == rest;
    } else {
      assert s[1..] == old_[1..] + ".." + rest;
      AfterHex(old_[1..], rest);
    }
  }

  /** The body's range word is the first after the lane, so the head read back is
      the new sha unless a word of the lane itself holds a range. */
  lemma HeadReadBack(lane: string, worktree: string, f: Facts)
    requires Hex(f.old_) && Hex(f.new_)
    ensures var ofLane := FirstRange(Words(lane));
            CommitHead(CommitBody(lane, worktree, f)) == if ofLane.Some? then ofLane.value else f.new_
  {
    hide Details;
    HeadOfLine(lane, f.old_, f.new_, " " + Details(worktree, f), CommitBody(lane, worktree, f));
  }

  lemma HeadOfLine(lane: string, old_: string, new_: string, remainder: string, body: string)
    requires Hex(old_) && Hex(new_) && remainder != "" && IsWhitespace(remainder[0])
    requires body == "commit " + lane + " " + old_ + ".." + new_ + remainder
    ensures FirstRange(Words(body)) == if FirstRange(Words(lane)).Some? then FirstRange(Words(lane)) else Some(new_)
  {
    var range := old_ + ".." + new_;
    var after := range + remainder;
    RowParts(lane, old_, new_, remainder, body);
    AfterHex(old_, new_);
    CommitHasNoRange();
    FirstWordLeads(range, remainder);
    hide *;
    WordsAroundBlank("commit", lane + " " + after);
    WordsAroundBlank(lane, after);
    RangesOfRow(Words("commit"), Words(lane), Words(after), range);
  }

  lemma RowParts(lane: string, old_: string, new_: string, remainder: string, body: string)
    requires body == "commit " + lane + " " + old_ + ".." + new_ + remainder
    ensures body == "commit" + " " + (lane + " " + (old_ + ".." + new_ + remainder))
  {
    var after := old_ + ".." + new_ + remainder;
    assert body == "commit " + (lane + " " + after);
    assert "commit " == "commit" + " ";
  }

  lemma RangesOfRow(first: seq<string>, lane: seq<string>, after: seq<string>, range: string)
    requires FirstRange(first) == None && after != [] && after[0] == range && AfterDots(range).Some?
    ensures FirstRange(first + (lane + after)) == if FirstRange(lane).Some? then FirstRange(lane) else AfterDots(range)
  {
    hide AfterDots;
    RangesJoin(first, lane + after);
    RangesJoin(lane, after);
  }

  lemma CommitHasNoRange()
    ensures FirstRange(Words("commit")) == None
  {
    FirstWord("commit", "");
    assert "commit" + "" == "commit";
    assert "commit"[1..] == "ommit" && "ommit"[1..] == "mmit" && "mmit"[1..] == "mit" && "mit"[1..] == "it"
        && "it"[1..] == "t";
    assert AfterDots("it") == None && AfterDots("mit") == None && AfterDots("mmit") == None;
  }

  /** The new sha comes back exactly when no word of the lane holds a range, or the
      first that does ends in that very sha. */
  lemma HeadReadBackIff(lane: string, worktree: string, f: Facts)
    requires Hex(f.old_) && Hex(f.new_)
    ensures CommitHead(CommitBody(lane, worktree, f)) == f.new_
       <==> FirstRange(Words(lane)).None? || FirstRange(Words(lane)) == Some(f.new_)
  {
    HeadReadBack(lane, worktree, f);
  }

  /** A lane named with dots: its own range is what comes back. */
  lemma DottedLaneMisleads(worktree: string, f: Facts)
    requires Hex(f.old_) && Hex(f.new_)
    ensures CommitHead(CommitBody("a..b", worktree, f)) == "b"
  {
    HeadReadBack("a..b", worktree, f);
    hide CommitBody;
    FirstWord("a..b", "");
    assert "a..b" + "" == "a..b";
    assert "a..b"[1..] == "..b" && "..b"[2..] == "b";
    assert AfterDots("..b") == Some("b");
  }

  lemma {:induction false} DotlessHasNoRange(s: string)
    requires forall i :: 0 <= i < |s| ==> s[i] != '.'
    ensures AfterDots(s) == None
    decreases |s|
  {
    if |s| >= 2 {
      DotlessHasNoRange(s[1..]);
    }
  }

  /** For every branch and every pair of hex shas, the head read out of the row a
      slugged lane mails is the new sha. */
  lemma SluggedHeadReadBack(branch: string, worktree: string, f: Facts)
    requires Hex(f.old_) && Hex(f.new_)
    ensures CommitHead(CommitBody(SlugOf(branch), worktree, f)) == f.new_
  {
    var lane := SlugOf(branch);
    HeadReadBack(lane, worktree, f);
    SlugIsOneWord(branch);
    if lane != "" {
      assert OneWord(lane);
      FirstWord(lane, "");
      assert lane + "" == lane;
      DotlessHasNoRange(lane);
    }
  }
}
