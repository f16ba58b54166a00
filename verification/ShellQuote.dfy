/** Rendering an argv as a POSIX shell command (apps/server/src/shell-quote.ts), read back
    by a tokenizer for the quoting of sections 2.2 and 2.3 of the Shell Command Language,
    POSIX.1-2017. */
module ShellQuote {
  import opened Bytes
  import opened Text

  // ---- The renderer --------------------------------------------------------------------

  /** Every `'` becomes `'\''`. */
  function EscapeQuotes(s: string): string {
    if s == [] then []
    else (if s[0] == '\'' then "'\\''" else [s[0]]) + EscapeQuotes(s[1..])
  }

  function ShQuote(value: string): string { "'" + EscapeQuotes(value) + "'" }

  predicate NameStart(c: char) { 'A' <= c <= 'Z' || 'a' <= c <= 'z' || c == '_' }

  predicate NameChar(c: char) { NameStart(c) || '0' <= c <= '9' }

  predicate EnvName(s: string) { s != [] && NameStart(s[0]) && forall i :: 0 <= i < |s| ==> NameChar(s[i]) }

  datatype Result = Command(text: string) | EmptyArgv | BadEnvName(name: string)

  function QuoteAll(argv: seq<string>): seq<string> {
    seq(|argv|, i requires 0 <= i < |argv| => ShQuote(argv[i]))
  }

  function Assignments(env: seq<(string, string)>): seq<string> {
    seq(|env|, i requires 0 <= i < |env| => env[i].0 + "=" + ShQuote(env[i].1))
  }

  /** `env` in the order its entries are enumerated; an empty `cwd` is no `cwd`. */
  method ShellCommandFor(argv: seq<string>, cwd: Option<string>, env: seq<(string, string)>) returns (r: Result)
    ensures argv == [] <==> r == EmptyArgv
    ensures argv != [] ==>
              (r.Command? <==> forall i :: 0 <= i < |env| ==> EnvName(env[i].0))
    ensures r.BadEnvName? ==> exists i :: 0 <= i < |env| && env[i].0 == r.name && !EnvName(r.name)
    ensures r.Command? ==> r.text == Rendered(argv, cwd, env)
  {
    if |argv| == 0 {
      return EmptyArgv;
    }
    var parts: seq<string> := [];
    for i := 0 to |env|
      invariant forall k :: 0 <= k < i ==> EnvName(env[k].0)
      invariant parts == Assignments(env[..i])
    {
      var (name, value) := env[i];
      if !EnvName(name) {
        return BadEnvName(name);
      }
      parts := parts + [name + "=" + ShQuote(value)];
    }
    assert env[..|env|] == env;
    parts := parts + QuoteAll(argv);
    var command := Join(parts, " ");
    return Command(if cwd.Some? && cwd.value != "" then "cd " + ShQuote(cwd.value) + " && " + command else command);
  }

  function Rendered(argv: seq<string>, cwd: Option<string>, env: seq<(string, string)>): string {
    var command := Join(Assignments(env) + QuoteAll(argv), " ");
    if cwd.Some? && cwd.value != "" then "cd " + ShQuote(cwd.value) + " && " + command else command
  }

  // ---- The tokenizer -------------------------------------------------------------------

  /** One character of a word, and whether it was quoted. */
  datatype Ch = Ch(c: char, quoted: bool)

  datatype Token = Word(chars: seq<Ch>) | Operator(text: string)

  /** Inside a word, between words, in single quotes, in double quotes. */
  datatype Mode = Between | InWord(cur: seq<Ch>) | InSingle(cur: seq<Ch>) | InDouble(cur: seq<Ch>)

  predicate Blank(c: char) { c == ' ' || c == '\t' }

  predicate OperatorChar(c: char) { c in {'&', '|', ';', '<', '>', '(', ')', '\n'} }

  function Cur(m: Mode): seq<Ch> { if m.Between? then [] else m.cur }

  /** The word under way, if any, as a token. */
  function Flush(m: Mode): seq<Token> { if m.Between? then [] else [Word(m.cur)] }

  function Prepend(ts: seq<Token>, r: Option<seq<Token>>): Option<seq<Token>> {
    if r.None? then None else Some(ts + r.value)
  }

  /** The longest operator starting at `s`. */
  function OperatorAt(s: string): string
    requires s != [] && OperatorChar(s[0])
  {
    if |s| >= 2 && s[..2] in {"&&", "||", ";;", "<<", ">>", "<&", ">&", "<>", ">|"} then s[..2] else s[..1]
  }

  /** Tokens of a command, quote removal recorded per character. None where the text needs
      more shell than this: an unterminated quote, an expansion, a comment. */
  function Tokens(s: string, m: Mode): Option<seq<Token>>
    decreases |s|
  {
    match m
    case InSingle(cur) =>
      if s == [] then None
      else if s[0] == '\'' then Tokens(s[1..], InWord(cur))
      else Tokens(s[1..], InSingle(cur + [Ch(s[0], true)]))
    case InDouble(cur) =>
      if s == [] then None
      else if s[0] == '"' then Tokens(s[1..], InWord(cur))
      else if s[0] == '$' || s[0] == '`' then None
      else if s[0] == '\\' && |s| >= 2 && s[1] in {'$', '`', '"', '\\'}
        then Tokens(s[2..], InDouble(cur + [Ch(s[1], true)]))
      else if s[0] == '\\' && |s| >= 2 && s[1] == '\n' then Tokens(s[2..], m)
      else Tokens(s[1..], InDouble(cur + [Ch(s[0], true)]))
    case _ =>
      if s == [] then Some(Flush(m))
      else if s[0] == '\'' then Tokens(s[1..], InSingle(Cur(m)))
      else if s[0] == '"' then Tokens(s[1..], InDouble(Cur(m)))
      else if s[0] == '\\' then
        if |s| == 1 then None
        else if s[1] == '\n' then Tokens(s[2..], m)
        else Tokens(s[2..], InWord(Cur(m) + [Ch(s[1], true)]))
      else if s[0] == '$' || s[0] == '`' then None
      else if Blank(s[0]) then Prepend(Flush(m), Tokens(s[1..], Between))
      else if OperatorChar(s[0]) then
        Prepend(Flush(m) + [Operator(OperatorAt(s))], Tokens(s[|OperatorAt(s)|..], Between))
      else if s[0] == '#' && m.Between? then None
      else Tokens(s[1..], InWord(Cur(m) + [Ch(s[0], false)]))
  }

  function Tokenize(s: string): Option<seq<Token>> { Tokens(s, Between) }

  function Quoted(s: string): seq<Ch> { seq(|s|, i requires 0 <= i < |s| => Ch(s[i], true)) }

  function Bare(s: string): seq<Ch> { seq(|s|, i requires 0 <= i < |s| => Ch(s[i], false)) }

  // ---- The round trip --------------------------------------------------------------------

  /** Leaving the quotes, an escaped quote, and back inside. */
  lemma EscapedQuoteReads(more: string, cur: seq<Ch>)
    ensures Tokens("'\\''" + more, InSingle(cur)) == Tokens(more, InSingle(cur + [Ch('\'', true)]))
  {
    var s := "'\\''" + more;
    var s1, s3 := "\\''" + more, "'" + more;
    assert s[1..] == s1 && s1[2..] == s3 && s3[1..] == more;
    assert Tokens(s, InSingle(cur)) == Tokens(s1, InWord(cur));
    assert Tokens(s1, InWord(cur)) == Tokens(s3, InWord(cur + [Ch('\'', true)]));
  }

  /** Inside its quotes a value reads back character by character, whatever it holds. */
  lemma {:induction false} QuotedReads(value: string, rest: string, cur: seq<Ch>)
    ensures Tokens(EscapeQuotes(value) + ("'" + rest), InSingle(cur)) == Tokens(rest, InWord(cur + Quoted(value)))
    decreases |value|
  {
    var tail := "'" + rest;
    if value == [] {
      assert EscapeQuotes(value) + tail == tail && tail[1..] == rest && cur + Quoted(value) == cur;
    } else {
      var more := EscapeQuotes(value[1..]) + tail;
      var next := cur + [Ch(value[0], true)];
      assert next + Quoted(value[1..]) == cur + Quoted(value);
      QuotedReads(value[1..], rest, next);
      if value[0] == '\'' {
        assert EscapeQuotes(value) + tail == "'\\''" + more;
        EscapedQuoteReads(more, cur);
      } else {
        var s := [value[0]] + more;
        assert EscapeQuotes(value) + tail == s && s[1..] == more;
      }
    }
  }

  lemma SpaceReads(rest: string, m: Mode)
    requires m.Between? || m.InWord?
    ensures Tokens(" " + rest, m) == Prepend(Flush(m), Tokens(rest, Between))
  {
    var s := " " + rest;
    assert s[0] == ' ' && s[1..] == rest;
  }

  lemma AndReads(rest: string)
    ensures Tokens("&&" + rest, Between) == Prepend([Operator("&&")], Tokens(rest, Between))
  {
    var s := "&&" + rest;
    assert s[0] == '&' && s[..2] == "&&" && s[2..] == rest;
    assert OperatorAt(s) == "&&";
    assert Flush(Between) + [Operator("&&")] == [Operator("&&")];
  }

  lemma WordReads(value: string, rest: string, m: Mode)
    requires m.Between? || m.InWord?
    ensures Tokens(ShQuote(value) + rest, m) == Tokens(rest, InWord(Cur(m) + Quoted(value)))
  {
    var s := ShQuote(value) + rest;
    assert s[1..] == EscapeQuotes(value) + ("'" + rest);
    QuotedReads(value, rest, Cur(m));
  }

  /** An unquoted run of plain characters reads as itself. */
  predicate PlainChar(c: char) { NameChar(c) || c == '=' }

  lemma {:induction false} BareReads(s: string, rest: string, m: Mode)
    requires m.Between? || m.InWord?
    requires s != [] && forall i :: 0 <= i < |s| ==> PlainChar(s[i])
    ensures Tokens(s + rest, m) == Tokens(rest, InWord(Cur(m) + Bare(s)))
    decreases |s|
  {
    assert (s + rest)[1..] == s[1..] + rest;
    var next := InWord(Cur(m) + [Ch(s[0], false)]);
    assert Tokens(s + rest, m) == Tokens(s[1..] + rest, next);
    if |s| == 1 {
      assert s[1..] + rest == rest && Bare(s) == [Ch(s[0], false)];
    } else {
      BareReads(s[1..], rest, next);
      assert next.cur + Bare(s[1..]) == Cur(m) + Bare(s);
    }
  }

  function AssignmentWord(e: (string, string)): Token { Word(Bare(e.0) + [Ch('=', false)] + Quoted(e.1)) }

  lemma AssignmentReads(e: (string, string), rest: string)
    requires EnvName(e.0)
    ensures Tokens(e.0 + "=" + ShQuote(e.1) + rest, Between) == Tokens(rest, InWord(AssignmentWord(e).chars))
  {
    var head := e.0 + "=";
    assert e.0 + "=" + ShQuote(e.1) + rest == head + (ShQuote(e.1) + rest);
    BareReads(head, ShQuote(e.1) + rest, Between);
    assert Cur(Between) + Bare(head) == Bare(e.0) + [Ch('=', false)];
    WordReads(e.1, rest, InWord(Bare(e.0) + [Ch('=', false)]));
  }

  /** Pieces that each read as one word, joined by spaces, read as those words. */
  ghost predicate ReadsAs(part: string, word: Token) {
    word.Word? && forall rest :: Tokens(part + rest, Between) == Tokens(rest, InWord(word.chars))
  }

  lemma {:induction false} JoinReads(parts: seq<string>, words: seq<Token>)
    requires |parts| == |words| && forall i :: 0 <= i < |parts| ==> ReadsAs(parts[i], words[i])
    ensures Tokens(Join(parts, " "), Between) == Some(words)
  {
    if parts == [] {
    } else if |parts| == 1 {
      assert ReadsAs(parts[0], words[0]);
      assert parts[0] + "" == parts[0] && words == [words[0]];
      assert Tokens(parts[0] + "", Between) == Tokens("", InWord(words[0].chars));
    } else {
      assert ReadsAs(parts[0], words[0]);
      var rest := Join(parts[1..], " ");
      JoinReads(parts[1..], words[1..]);
      assert parts[0] + " " + rest == parts[0] + (" " + rest);
      SpaceReads(rest, InWord(words[0].chars));
      assert [words[0]] + words[1..] == words;
    }
  }

  function ExpectedWords(argv: seq<string>, env: seq<(string, string)>): seq<Token> {
    seq(|env|, i requires 0 <= i < |env| => AssignmentWord(env[i]))
    + seq(|argv|, i requires 0 <= i < |argv| => Word(Quoted(argv[i])))
  }

  lemma PartsRead(argv: seq<string>, env: seq<(string, string)>)
    requires forall i :: 0 <= i < |env| ==> EnvName(env[i].0)
    ensures Tokens(Join(Assignments(env) + QuoteAll(argv), " "), Between) == Some(ExpectedWords(argv, env))
  {
    var parts, words := Assignments(env) + QuoteAll(argv), ExpectedWords(argv, env);
    forall i | 0 <= i < |parts| ensures ReadsAs(parts[i], words[i]) {
      if i < |env| {
        forall rest ensures Tokens(parts[i] + rest, Between) == Tokens(rest, InWord(words[i].chars)) {
          AssignmentReads(env[i], rest);
        }
      } else {
        var value := argv[i - |env|];
        forall rest ensures Tokens(parts[i] + rest, Between) == Tokens(rest, InWord(words[i].chars)) {
          WordReads(value, rest, Between);
          assert [] + Quoted(value) == Quoted(value);
        }
      }
    }
    JoinReads(parts, words);
  }

  /** What the whole command reads as: the `cd` and its `&&` when there is a directory, the
      assignments, and the argv words, every character of them quoted. */
  lemma CommandReadsBack(argv: seq<string>, cwd: Option<string>, env: seq<(string, string)>)
    requires forall i :: 0 <= i < |env| ==> EnvName(env[i].0)
    ensures Tokenize(Rendered(argv, cwd, env)) == Some(
      (if cwd.Some? && cwd.value != "" then [Word(Bare("cd")), Word(Quoted(cwd.value)), Operator("&&")] else [])
      + ExpectedWords(argv, env))
  {
    PartsRead(argv, env);
    var words := ExpectedWords(argv, env);
    if cwd.Some? && cwd.value != "" {
      var command := Join(Assignments(env) + QuoteAll(argv), " ");
      CdReads(cwd.value, command, words);
      CdShape(ShQuote(cwd.value), command);
    } else {
      assert [] + words == words;
    }
  }

  lemma CdShape(dir: string, command: string)
    ensures "cd " + dir + " && " + command == "cd" + (" " + (dir + (" " + ("&&" + (" " + command)))))
  {
    assert "cd " == "cd" + " ";
    assert " && " == " " + ("&&" + " ");
  }

  lemma CdReads(dir: string, command: string, words: seq<Token>)
    requires Tokens(command, Between) == Some(words)
    ensures Tokens("cd" + (" " + (ShQuote(dir) + (" " + ("&&" + (" " + command))))), Between)
         == Some([Word(Bare("cd")), Word(Quoted(dir)), Operator("&&")] + words)
  {
    var t1 := " " + command;
    var t2 := " " + ("&&" + t1);
    var t3 := ShQuote(dir) + t2;
    BareReads("cd", " " + t3, Between);
    assert Cur(Between) + Bare("cd") == Bare("cd") && Cur(Between) + Quoted(dir) == Quoted(dir);
    SpaceReads(t3, InWord(Bare("cd")));
    WordReads(dir, t2, Between);
    SpaceReads("&&" + t1, InWord(Quoted(dir)));
    AndReads(t1);
    SpaceReads(command, Between);
    var a, b, c := [Word(Bare("cd"))], [Word(Quoted(dir))], [Operator("&&")];
    assert Flush(Between) + words == words;
    assert a + (b + (c + words)) == [Word(Bare("cd")), Word(Quoted(dir)), Operator("&&")] + words;
  }

  // ---- What the shell does with it -------------------------------------------------------

  /** Section 2.9.1: a leading word that starts with an unquoted name and an unquoted `=`. */
  ghost predicate IsAssignment(t: Token) {
    t.Word? && exists k :: 0 < k < |t.chars| && NamedBefore(t.chars, k)
  }

  /** Section 3.235: letters, digits and underscores, by their codes, and no digit first. */
  predicate PortableStart(c: char) {
    var n := c as int;
    65 <= n <= 90 || 97 <= n <= 122 || n == 95
  }

  predicate PortableChar(c: char) { PortableStart(c) || 48 <= c as int <= 57 }

  predicate NamedBefore(chars: seq<Ch>, k: nat)
    requires 0 < k < |chars|
  {
    chars[k] == Ch('=', false) && PortableStart(chars[0].c)
    && forall i :: 0 <= i < k ==> !chars[i].quoted && PortableChar(chars[i].c)
  }

  /** The word assigns to that name. */
  ghost predicate AssignsTo(t: Token, name: string) {
    t.Word? && 0 < |name| < |t.chars| && NamedBefore(t.chars, |name|)
    && forall i :: 0 <= i < |name| ==> t.chars[i].c == name[i]
  }

  /** The names that are let through are those a shell can assign to, no fewer and no more. */
  lemma EnvNameIff(name: string, value: string)
    ensures EnvName(name) <==>
              exists w :: Tokenize(name + "=" + ShQuote(value)) == Some([w]) && AssignsTo(w, name)
  {
    if EnvName(name) {
      AssignmentReads((name, value), "");
      var text := name + "=" + ShQuote(value);
      assert text + "" == text;
      assert Tokenize(text) == Some([AssignmentWord((name, value))]);
      assert AssignsTo(AssignmentWord((name, value)), name);
    }
  }

  /** Quote removal. */
  function Stripped(chars: seq<Ch>): string { seq(|chars|, i requires 0 <= i < |chars| => chars[i].c) }

  /** Exactly the env words are assignments; argv[0] never is, whatever it looks like; and
      quote removal gives back every argument and value unchanged. */
  lemma WordsMean(argv: seq<string>, env: seq<(string, string)>)
    requires argv != [] && forall i :: 0 <= i < |env| ==> EnvName(env[i].0)
    ensures var w := ExpectedWords(argv, env);
      && |w| == |env| + |argv|
      && (forall i :: 0 <= i < |env| ==> IsAssignment(w[i]) && Stripped(w[i].chars) == env[i].0 + "=" + env[i].1)
      && (forall i :: |env| <= i < |w| ==> !IsAssignment(w[i]) && Stripped(w[i].chars) == argv[i - |env|])
  {
    var w := ExpectedWords(argv, env);
    forall i | 0 <= i < |env| ensures IsAssignment(w[i]) && Stripped(w[i].chars) == env[i].0 + "=" + env[i].1 {
      var k := |env[i].0|;
      assert NamedBefore(w[i].chars, k);
    }
    forall i | |env| <= i < |w| ensures !IsAssignment(w[i]) && Stripped(w[i].chars) == argv[i - |env|] {
      assert forall k :: 0 <= k < |w[i].chars| ==> w[i].chars[k].quoted;
    }
  }

  /** A word in which nothing is unquoted but names and `=`. */
  predicate PlainWord(t: Token) {
    t.Word? && forall k :: 0 <= k < |t.chars| && !t.chars[k].quoted ==> PlainChar(t.chars[k].c)
  }

  lemma WordsArePlain(argv: seq<string>, env: seq<(string, string)>)
    requires forall i :: 0 <= i < |env| ==> EnvName(env[i].0)
    ensures forall i :: 0 <= i < |ExpectedWords(argv, env)| ==> PlainWord(ExpectedWords(argv, env)[i])
  {
    var w := ExpectedWords(argv, env);
    forall i | 0 <= i < |w| ensures PlainWord(w[i]) {
      assert i >= |env| ==> w[i] == Word(Quoted(argv[i - |env|]));
    }
  }

  /** Nothing in the command is an unquoted operator but the `&&` after a `cd`, and nothing
      unquoted is anything but names and `=`. */
  lemma OnlyOperator(argv: seq<string>, cwd: Option<string>, env: seq<(string, string)>)
    requires forall i :: 0 <= i < |env| ==> EnvName(env[i].0)
    ensures var t := Tokenize(Rendered(argv, cwd, env));
      && t.Some?
      && forall i :: 0 <= i < |t.value| ==>
           PlainWord(t.value[i]) || (i == 2 && cwd.Some? && cwd.value != "" && t.value[i] == Operator("&&"))
  {
    CommandReadsBack(argv, cwd, env);
    WordsArePlain(argv, env);
    if cwd.Some? && cwd.value != "" {
      assert PlainWord(Word(Bare("cd"))) && PlainWord(Word(Quoted(cwd.value)));
    }
  }
}
