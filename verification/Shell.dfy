/** The command line of a lane's supervisor, and the shell that reads it. */
module Shell {
  import opened Text

  // ------------------------------------------------------------------- the shell

  datatype Mode = Plain | Quoted | Escaped

  /** Characters that mean something to the shell when unquoted, beyond blanks,
      quotes and backslash: operators, expansions, patterns, comments, newline. */
  const SPECIAL: set<char> :=
    {'|', '&', ';', '<', '>', '(', ')', '$', '`', '"', '*', '?', '[', '#', '~', '=', '%', '\n', '\0'}

  function Extend(word: Option<string>, c: char): Option<string> {
    Some((if word.Some? then word.value else "") + [c])
  }

  /** Token recognition (section 2.3 of the POSIX Shell Command Language) with the
      escape character (2.2.1) and single quotes (2.2.2), one character at a time;
      none when the text is cut short or needs anything else of the shell. */
  function Scan(mode: Mode, s: string, word: Option<string>, done: seq<string>): Option<seq<string>>
    decreases |s|
  {
    if s == "" then
      if mode != Plain then None
      else Some(done + if word.Some? then [word.value] else [])
    else
      var c, rest := s[0], s[1..];
      match mode
      case Quoted =>
        if c == '\0' then None
        else if c == '\'' then Scan(Plain, rest, word, done)
        else Scan(Quoted, rest, Extend(word, c), done)
      case Escaped =>
        if c == '\0' then None
        else if c == '\n' then Scan(Plain, rest, word, done)
        else Scan(Plain, rest, Extend(word, c), done)
      case Plain =>
        if c == ' ' || c == '\t' then Scan(Plain, rest, None, done + if word.Some? then [word.value] else [])
        else if c == '\'' then Scan(Quoted, rest, if word.Some? then word else Some(""), done)
        else if c == '\\' then Scan(Escaped, rest, word, done)
        else if c in SPECIAL then None
        else Scan(Plain, rest, Extend(word, c), done)
  }

  /** The arguments a shell sees in a command line. */
  function Tokens(s: string): Option<seq<string>> {
    Scan(Plain, s, None, [])
  }

  // ----------------------------------------------------------------- the printer

  /** `'` becomes `'\''`. */
  function Escape(value: string): string {
    if value == "" then ""
    else (if value[0] == '\'' then "'\\''" else [value[0]]) + Escape(value[1..])
  }

  function ShellQuote(value: string): string {
    "'" + Escape(value) + "'"
  }

  datatype Spec = Spec(lane: Option<string>, harness: Option<string>, prompt: string, mailDir: string,
                       model: Option<string>, effort: Option<string>, variant: Option<string>, bin: Option<string>,
                       verify: Option<string>, resumeSession: Option<string>)

  function Or(value: Option<string>, otherwise: string): string {
    if value.Some? then value.value else otherwise
  }

  function NonEmpty(value: Option<string>): Option<string> {
    if value == Some("") then None else value
  }

  /** A flag and its value, when there is one. */
  function Flag(flag: string, value: Option<string>): seq<string> {
    if value.Some? then [flag, value.value] else []
  }

  const PREAMBLE: seq<string> := ["nice", "-n", "10", "boop", "beep", "lane", "run"]

  function Required(s: Spec): seq<string> {
    PREAMBLE + ["--lane", Or(s.lane, "lane")] + ["--harness", Or(s.harness, "unknown")]
    + ["--brief", s.prompt] + ["--mail-dir", s.mailDir]
  }

  /** The argument list the supervisor is meant to be started with. */
  function Intended(s: Spec): seq<string> {
    Required(s)
    + Flag("--model", NonEmpty(s.model)) + Flag("--effort", NonEmpty(s.effort))
    + Flag("--variant", NonEmpty(s.variant)) + Flag("--bin", NonEmpty(s.bin))
    + Flag("--verify", s.verify) + Flag("--resume", s.resumeSession)
  }

  predicate NulFree(s: string) {
    forall i :: 0 <= i < |s| ==> s[i] != '\0'
  }

  predicate OptionNulFree(s: Option<string>) {
    s.Some? ==> NulFree(s.value)
  }

  predicate SpecNulFree(s: Spec) {
    && OptionNulFree(s.lane) && OptionNulFree(s.harness) && NulFree(s.prompt) && NulFree(s.mailDir)
    && OptionNulFree(s.model) && OptionNulFree(s.effort) && OptionNulFree(s.variant) && OptionNulFree(s.bin)
    && OptionNulFree(s.verify) && OptionNulFree(s.resumeSession)
  }

  /** What has been printed so far reads as these arguments, the last still open. */
  ghost predicate Reads(command: string, args: seq<string>) {
    args != [] && forall rest ::
      Scan(Plain, command + rest, None, []) == Scan(Plain, rest, Some(args[|args| - 1]), args[..|args| - 1])
  }

  lemma {:induction false} ReadQuotedBody(value: string, rest: string, word: string, done: seq<string>)
    requires NulFree(value)
    ensures Scan(Quoted, Escape(value) + "'" + rest, Some(word), done) == Scan(Plain, rest, Some(word + value), done)
    decreases |value|
  {
    if value == "" {
      assert Escape(value) + "'" + rest == "'" + rest;
      assert ("'" + rest)[1..] == rest;
      assert word + value == word;
    } else {
      var tail := Escape(value[1..]) + "'" + rest;
      ReadQuotedBody(value[1..], rest, word + [value[0]], done);
      assert word + [value[0]] + value[1..] == word + value;
      if value[0] == '\'' {
        assert Escape(value) + "'" + rest == "'\\''" + tail;
        ReadEscapedQuote(tail, word, done);
      } else {
        assert Escape(value) + "'" + rest == [value[0]] + tail;
        assert ([value[0]] + tail)[1..] == tail;
      }
    }
  }

  /** Close, escape a quote, reopen. */
  lemma ReadEscapedQuote(tail: string, word: string, done: seq<string>)
    ensures Scan(Quoted, "'\\''" + tail, Some(word), done) == Scan(Quoted, tail, Some(word + "'"), done)
  {
    var s := "'\\''" + tail;
    assert s[1..] == "\\''" + tail;
    assert s[1..][1..] == "''" + tail;
    assert s[1..][1..][1..] == "'" + tail;
    assert s[1..][1..][1..][1..] == tail;
    assert Scan(Plain, "\\''" + tail, Some(word), done) == Scan(Escaped, "''" + tail, Some(word), done);
    assert Scan(Escaped, "''" + tail, Some(word), done) == Scan(Plain, "'" + tail, Some(word + "'"), done);
  }

  /** A quoted value reads as the value, whatever is in it. */
  lemma ReadQuoted(value: string, rest: string, done: seq<string>)
    requires NulFree(value)
    ensures Scan(Plain, ShellQuote(value) + rest, None, done) == Scan(Plain, rest, Some(value), done)
  {
    var s := ShellQuote(value) + rest;
    assert s[1..] == Escape(value) + "'" + rest;
    ReadQuotedBody(value, rest, "", done);
    assert "" + value == value;
  }

  /** Letters, digits and hyphens, which no shell rule touches. */
  predicate PlainWord(s: string) {
    s != "" && forall i :: 0 <= i < |s| ==> PlainChar(s[i])
  }

  predicate PlainChar(c: char) {
    'a' <= c <= 'z' || '0' <= c <= '9' || c == '-'
  }

  lemma {:induction false} ReadPlain(s: string, rest: string, word: string, done: seq<string>)
    requires forall i :: 0 <= i < |s| ==> PlainChar(s[i])
    ensures Scan(Plain, s + rest, Some(word), done) == Scan(Plain, rest, Some(word + s), done)
    decreases |s|
  {
    if s == "" {
      assert s + rest == rest && word + s == word;
    } else {
      assert (s + rest)[1..] == s[1..] + rest;
      ReadPlain(s[1..], rest, word + [s[0]], done);
      assert word + [s[0]] + s[1..] == word + s;
    }
  }

  lemma ReadBlank(rest: string, word: string, done: seq<string>)
    ensures Scan(Plain, " " + rest, Some(word), done) == Scan(Plain, rest, None, done + [word])
  {
    assert (" " + rest)[1..] == rest;
  }

  lemma ReadFirst(s: string, rest: string, done: seq<string>)
    requires PlainWord(s)
    ensures Scan(Plain, s + rest, None, done) == Scan(Plain, rest, Some(s), done)
  {
    assert (s + rest)[1..] == s[1..] + rest;
    assert "" + [s[0]] == [s[0]];
    assert Extend(None, s[0]) == Some([s[0]]);
    ReadPlain(s[1..], rest, [s[0]], done);
    assert [s[0]] + s[1..] == s;
  }

  lemma AppendPlain(command: string, args: seq<string>, word: string)
    requires Reads(command, args) && PlainWord(word)
    ensures Reads(command + " " + word, args + [word])
  {
    forall rest
      ensures Scan(Plain, command + " " + word + rest, None, []) == Scan(Plain, rest, Some(word), args)
    {
      assert command + " " + word + rest == command + (" " + (word + rest));
      ReadBlank(word + rest, args[|args| - 1], args[..|args| - 1]);
      assert args[..|args| - 1] + [args[|args| - 1]] == args;
      ReadFirst(word, rest, args);
    }
    assert (args + [word])[..|args|] == args;
  }

  lemma AppendQuoted(command: string, args: seq<string>, value: string)
    requires Reads(command, args) && NulFree(value)
    ensures Reads(command + " " + ShellQuote(value), args + [value])
  {
    forall rest
      ensures Scan(Plain, command + " " + ShellQuote(value) + rest, None, []) == Scan(Plain, rest, Some(value), args)
    {
      assert command + " " + ShellQuote(value) + rest == command + (" " + (ShellQuote(value) + rest));
      ReadBlank(ShellQuote(value) + rest, args[|args| - 1], args[..|args| - 1]);
      assert args[..|args| - 1] + [args[|args| - 1]] == args;
      ReadQuoted(value, rest, args);
    }
    assert (args + [value])[..|args|] == args;
  }

  /** A flag and its quoted value, as one push. */
  method PushFlag(command: string, flag: string, value: string, ghost args: seq<string>) returns (pushed: string)
    requires Reads(command, args) && PlainWord(flag) && NulFree(value)
    ensures Reads(pushed, args + [flag, value])
  {
    pushed := command + (" " + flag + " " + ShellQuote(value));
    assert pushed == command + " " + flag + " " + ShellQuote(value);
    hide *;
    AppendPlain(command, args, flag);
    AppendQuoted(command + " " + flag, args + [flag], value);
    assert args + [flag] + [value] == args + [flag, value];
  }

  method PushOptional(command: string, flag: string, value: Option<string>, ghost args: seq<string>) returns (pushed: string)
    requires Reads(command, args) && PlainWord(flag) && OptionNulFree(value)
    ensures Reads(pushed, args + Flag(flag, value))
  {
    hide Reads;
    if value.Some? {
      pushed := PushFlag(command, flag, value.value, args);
    } else {
      pushed := command;
      assert args + Flag(flag, value) == args;
    }
  }

  lemma AppendWord(command: string, args: seq<string>, word: string, next: string, all: seq<string>)
    requires Reads(command, args) && PlainWord(word) && next == command + " " + word && all == args + [word]
    ensures Reads(next, all)
  {
    hide *;
    AppendPlain(command, args, word);
  }

  lemma FirstWordReads()
    ensures Reads("nice", ["nice"])
  {
    forall rest
      ensures Scan(Plain, "nice" + rest, None, []) == Scan(Plain, rest, Some("nice"), [])
    {
      ReadFirst("nice", rest, []);
    }
  }

  lemma PreambleReads()
    ensures Reads("nice -n 10 boop beep lane run", PREAMBLE)
  {
    hide Reads;
    FirstWordReads();
    AppendWord("nice", ["nice"], "-n", "nice -n", ["nice", "-n"]);
    AppendWord("nice -n", ["nice", "-n"], "10", "nice -n 10", ["nice", "-n", "10"]);
    AppendWord("nice -n 10", ["nice", "-n", "10"], "boop", "nice -n 10 boop", ["nice", "-n", "10", "boop"]);
    AppendWord("nice -n 10 boop", ["nice", "-n", "10", "boop"], "beep",
               "nice -n 10 boop beep", ["nice", "-n", "10", "boop", "beep"]);
    AppendWord("nice -n 10 boop beep", ["nice", "-n", "10", "boop", "beep"], "lane",
               "nice -n 10 boop beep lane", ["nice", "-n", "10", "boop", "beep", "lane"]);
    AppendWord("nice -n 10 boop beep lane", ["nice", "-n", "10", "boop", "beep", "lane"], "run",
               "nice -n 10 boop beep lane run", PREAMBLE);
  }

  lemma ReadsTokens(command: string, args: seq<string>)
    requires Reads(command, args)
    ensures Tokens(command) == Some(args)
  {
    assert command + "" == command;
    assert Scan(Plain, command + "", None, []) == Scan(Plain, "", Some(args[|args| - 1]), args[..|args| - 1]);
    assert args[..|args| - 1] + [args[|args| - 1]] == args;
  }

  method RequiredFlags(s: Spec) returns (command: string)
    requires SpecNulFree(s)
    ensures Reads(command, Required(s))
  {
    hide Reads;
    PreambleReads();
    command := "nice -n 10 boop beep lane run";
    ghost var args := PREAMBLE;
    command := PushFlag(command, "--lane", Or(s.lane, "lane"), args);
    args := args + ["--lane", Or(s.lane, "lane")];
    command := PushFlag(command, "--harness", Or(s.harness, "unknown"), args);
    args := args + ["--harness", Or(s.harness, "unknown")];
    command := PushFlag(command, "--brief", s.prompt, args);
    args := args + ["--brief", s.prompt];
    command := PushFlag(command, "--mail-dir", s.mailDir, args);
  }

  /** The supervisor's command line: a shell reads exactly the intended arguments
      back, for every value without a NUL. */
  method SupervisorCommand(s: Spec) returns (command: string)
    requires SpecNulFree(s)
    ensures Tokens(command) == Some(Intended(s))
  {
    hide Reads;
    hide Tokens;
    hide Required;
    hide Flag;
    command := RequiredFlags(s);
    ghost var args := Required(s);
    command := PushOptional(command, "--model", NonEmpty(s.model), args);
    args := args + Flag("--model", NonEmpty(s.model));
    command := PushOptional(command, "--effort", NonEmpty(s.effort), args);
    args := args + Flag("--effort", NonEmpty(s.effort));
    command := PushOptional(command, "--variant", NonEmpty(s.variant), args);
    args := args + Flag("--variant", NonEmpty(s.variant));
    command := PushOptional(command, "--bin", NonEmpty(s.bin), args);
    args := args + Flag("--bin", NonEmpty(s.bin));
    command := PushOptional(command, "--verify", s.verify, args);
    args := args + Flag("--verify", s.verify);
    command := PushOptional(command, "--resume", s.resumeSession, args);
    args := args + Flag("--resume", s.resumeSession);
    ReadsTokens(command, args);
  }

  /** Quoting is injective: two values print alike only when they are equal. */
  lemma QuoteInjective(a: string, b: string)
    requires NulFree(a) && NulFree(b) && ShellQuote(a) == ShellQuote(b)
    ensures a == b
  {
    ReadQuoted(a, "", []);
    ReadQuoted(b, "", []);
    assert Scan(Plain, "", Some(a), []) == Some([] + [a]);
    assert Scan(Plain, "", Some(b), []) == Some([] + [b]);
    assert ([] + [a])[0] == a && ([] + [b])[0] == b;
  }
}
