/** Running a command under a project's pinned Node version: which manager wraps
    it, and why the shell line built for nvm means exactly what it should. */
module NodeShell {
  import opened Wrappers

  datatype Manager = Fnm | Nvm

  datatype PinSource = VersionFile | PackageJson

  datatype Pin = Pin(source: PinSource, version: string)

  datatype Invocation = Invocation(program: string, args: seq<string>)

  // ---- the shell's reading of a line ----

  datatype Token = Word(text: string) | Operator(text: string) | IoNumber(text: string)

  datatype Mode = Plain | Quoted

  predicate Digits(s: string) {
    s != "" && forall i | 0 <= i < |s| :: '0' <= s[i] <= '9'
  }

  /** Characters a shell gives no meaning to outside quotes. */
  predicate PlainChar(c: char) {
    'a' <= c <= 'z' || 'A' <= c <= 'Z' || '0' <= c <= '9' || c == '.' || c == '-' || c == '/' || c == '_'
  }

  function Flush(word: Option<string>): seq<Token> {
    if word.Some? then [Word(word.value)] else []
  }

  function Grow(word: Option<string>, c: char): Option<string> {
    Some((if word.Some? then word.value else "") + [c])
  }

  function Before(ts: seq<Token>, more: Option<seq<Token>>): Option<seq<Token>> {
    if more.Some? then Some(ts + more.value) else None
  }

  /** The tokens of a line by the Shell Command Language of POSIX: sections 2.2.1
      (escape character), 2.2.2 (single quotes) and 2.3 (token recognition).
      Nothing if a quote is left open, a newline ends the command, or a character
      with some other meaning stands unquoted. */
  function Tokens(s: string, mode: Mode, word: Option<string>): Option<seq<Token>>
    decreases |s|
  {
    if mode == Quoted then
      if s == "" then None
      else if s[0] == '\'' then Tokens(s[1..], Plain, word)
      else Tokens(s[1..], Quoted, Grow(word, s[0]))
    else if s == "" then Some(Flush(word))
    else if s[0] == '\'' then Tokens(s[1..], Quoted, if word.Some? then word else Some(""))
    else if s[0] == '\\' then
      if |s| < 2 then None
      else if s[1] == '\n' then Tokens(s[2..], Plain, word)
      else Tokens(s[2..], Plain, Grow(word, s[1]))
    else if s[0] == ' ' || s[0] == '\t' then Before(Flush(word), Tokens(s[1..], Plain, None))
    else if s[0] == '&' then
      if |s| >= 2 && s[1] == '&' then Before(Flush(word) + [Operator("&&")], Tokens(s[2..], Plain, None))
      else Before(Flush(word) + [Operator("&")], Tokens(s[1..], Plain, None))
    else if s[0] == '>' then
      var left := if word.Some? && Digits(word.value) then [IoNumber(word.value)] else Flush(word);
      if |s| >= 2 && s[1] == '&' then Before(left + [Operator(">&")], Tokens(s[2..], Plain, None))
      else Before(left + [Operator(">")], Tokens(s[1..], Plain, None))
    else if PlainChar(s[0]) then Tokens(s[1..], Plain, Grow(word, s[0]))
    else None
  }

  // ---- quoting ----

  /** Every single quote closes the quotes, adds an escaped quote and reopens. */
  function Escaped(word: string): string
    decreases |word|
  {
    if word == "" then "" else (if word[0] == '\'' then "'\\''" else [word[0]]) + Escaped(word[1..])
  }

  function ShellQuote(word: string): string {
    "'" + Escaped(word) + "'"
  }

  lemma QuoteOpens(rest: string, word: Option<string>)
    ensures Tokens("'" + rest, Plain, word) == Tokens(rest, Quoted, if word.Some? then word else Some(""))
    ensures Tokens("'" + rest, Quoted, word) == Tokens(rest, Plain, word)
  {
    assert ("'" + rest)[1..] == rest;
  }

  lemma QuotedChar(c: char, rest: string, word: Option<string>)
    requires c != '\''
    ensures Tokens([c] + rest, Quoted, word) == Tokens(rest, Quoted, Grow(word, c))
  {
    assert ([c] + rest)[1..] == rest;
  }

  lemma EscapedChar(c: char, rest: string, word: Option<string>)
    requires c != '\n'
    ensures Tokens("\\" + [c] + rest, Plain, word) == Tokens(rest, Plain, Grow(word, c))
  {
    assert ("\\" + [c] + rest)[2..] == rest;
  }

  lemma UnquotedChar(c: char, rest: string, word: Option<string>)
    requires PlainChar(c)
    ensures Tokens([c] + rest, Plain, word) == Tokens(rest, Plain, Grow(word, c))
  {
    assert ([c] + rest)[1..] == rest;
  }

  lemma {:induction false} InsideQuotes(word: string, rest: string, so_far: string)
    ensures Tokens(Escaped(word) + "'" + rest, Quoted, Some(so_far)) == Tokens(rest, Plain, Some(so_far + word))
    decreases |word|
  {
    hide Tokens;
    if word == "" {
      assert Escaped(word) + "'" + rest == "'" + rest;
      QuoteOpens(rest, Some(so_far));
      assert so_far + word == so_far;
    } else {
      var tail := Escaped(word[1..]) + "'" + rest;
      assert so_far + word == so_far + [word[0]] + word[1..];
      InsideQuotes(word[1..], rest, so_far + [word[0]]);
      if word[0] == '\'' {
        assert Escaped(word) + "'" + rest == "'" + ("\\" + ['\''] + ("'" + tail));
        QuoteOpens("\\" + ['\''] + ("'" + tail), Some(so_far));
        EscapedChar('\'', "'" + tail, Some(so_far));
        QuoteOpens(tail, Some(so_far + ['\'']));
      } else {
        assert Escaped(word) + "'" + rest == [word[0]] + tail;
        QuotedChar(word[0], tail, Some(so_far));
      }
    }
  }

  /** A quoted word is read back as exactly the word, whatever it holds. */
  lemma QuotedIsOneWord(word: string, rest: string)
    ensures Tokens(ShellQuote(word) + rest, Plain, None) == Tokens(rest, Plain, Some(word))
  {
    hide Escaped, Tokens;
    assert ShellQuote(word) + rest == "'" + (Escaped(word) + "'" + rest);
    QuoteOpens(Escaped(word) + "'" + rest, None);
    InsideQuotes(word, rest, "");
    assert "" + word == word;
  }

  lemma {:induction false} PlainText(w: string, rest: string, word: string)
    requires forall i | 0 <= i < |w| :: PlainChar(w[i])
    ensures Tokens(w + rest, Plain, Some(word)) == Tokens(rest, Plain, Some(word + w))
    decreases |w|
  {
    hide Tokens, PlainChar;
    if w == "" {
      assert w + rest == rest && word + w == word;
    } else {
      assert PlainChar(w[0]);
      assert w + rest == [w[0]] + (w[1..] + rest);
      UnquotedChar(w[0], w[1..] + rest, Some(word));
      assert word + w == word + [w[0]] + w[1..];
      PlainText(w[1..], rest, word + [w[0]]);
    }
  }

  lemma PlainWord(w: string, rest: string)
    requires w != "" && forall i | 0 <= i < |w| :: PlainChar(w[i])
    ensures Tokens(w + rest, Plain, None) == Tokens(rest, Plain, Some(w))
  {
    hide Tokens, PlainChar;
    assert PlainChar(w[0]);
    assert w + rest == [w[0]] + (w[1..] + rest);
    UnquotedChar(w[0], w[1..] + rest, None);
    assert "" + [w[0]] == [w[0]] && [w[0]] + w[1..] == w;
    PlainText(w[1..], rest, [w[0]]);
  }

  lemma Space(word: Option<string>, rest: string)
    ensures Tokens(" " + rest, Plain, word) == Before(Flush(word), Tokens(rest, Plain, None))
  {
    assert (" " + rest)[1..] == rest;
  }

  lemma Ampersands(rest: string, word: Option<string>)
    ensures Tokens("&&" + rest, Plain, word) == Before(Flush(word) + [Operator("&&")], Tokens(rest, Plain, None))
  {
    assert ("&&" + rest)[2..] == rest;
  }

  lemma RedirectTo(rest: string, number: string)
    requires Digits(number)
    ensures Tokens(">&" + rest, Plain, Some(number)) ==
      Before([IoNumber(number), Operator(">&")], Tokens(rest, Plain, None))
  {
    assert (">&" + rest)[2..] == rest;
    assert [IoNumber(number)] + [Operator(">&")] == [IoNumber(number), Operator(">&")];
  }

  lemma AndThen(rest: string)
    ensures Tokens("&& " + rest, Plain, None) == Before([Operator("&&")], Tokens(rest, Plain, None))
  {
    hide Tokens;
    assert "&& " + rest == "&&" + (" " + rest);
    Ampersands(" " + rest, None);
    Space(None, rest);
    BeforeTwice([Operator("&&")], [], Tokens(rest, Plain, None));
    assert [] + [Operator("&&")] == [Operator("&&")] + [] == [Operator("&&")];
  }

  lemma BeforeTwice(a: seq<Token>, b: seq<Token>, more: Option<seq<Token>>)
    ensures Before(a, Before(b, more)) == Before(a + b, more)
    ensures Before([], more) == more
  {
    if more.Some? { assert a + (b + more.value) == a + b + more.value && [] + more.value == more.value; }
  }

  /** `1>&2 ` : the numbered redirection, then a space. */
  lemma Redirection(rest: string)
    ensures Tokens("1>&2 " + rest, Plain, None) ==
      Before([IoNumber("1"), Operator(">&"), Word("2")], Tokens(rest, Plain, None))
  {
    hide Tokens;
    assert "1>&2 " + rest == "1" + (">&" + ("2" + " " + rest));
    PlainWord("1", ">&" + ("2" + " " + rest));
    RedirectTo("2" + " " + rest, "1");
    WordThenSpace("2", rest);
    BeforeTwice([IoNumber("1"), Operator(">&")], [Word("2")], Tokens(rest, Plain, None));
    assert [IoNumber("1"), Operator(">&")] + [Word("2")] == [IoNumber("1"), Operator(">&"), Word("2")];
  }

  /** A quoted word and a space. */
  lemma QuotedThenSpace(word: string, rest: string)
    ensures Tokens(ShellQuote(word) + " " + rest, Plain, None) == Before([Word(word)], Tokens(rest, Plain, None))
  {
    hide ShellQuote;
    assert ShellQuote(word) + " " + rest == ShellQuote(word) + (" " + rest);
    QuotedIsOneWord(word, " " + rest);
    Space(Some(word), rest);
  }

  lemma WordThenSpace(w: string, rest: string)
    requires w != "" && forall i | 0 <= i < |w| :: PlainChar(w[i])
    ensures Tokens(w + " " + rest, Plain, None) == Before([Word(w)], Tokens(rest, Plain, None))
  {
    assert w + " " + rest == w + (" " + rest);
    PlainWord(w, " " + rest);
    Space(Some(w), rest);
  }

  // ---- the line for nvm ----

  function WordsOf(args: seq<string>): seq<Token> {
    seq(|args|, i requires 0 <= i < |args| => Word(args[i]))
  }

  /** The quoted command and arguments, space-separated. */
  function QuotedAll(command: string, args: seq<string>): string
    decreases |args|
  {
    if args == [] then ShellQuote(command) else QuotedAll(command, args[..|args| - 1]) + " " + ShellQuote(args[|args| - 1])
  }

  lemma {:induction false} CommandTokens(command: string, args: seq<string>, rest: string, more: seq<Token>)
    requires Tokens(rest, Plain, Some(if args == [] then command else args[|args| - 1])) ==
      Some([Word(if args == [] then command else args[|args| - 1])] + more)
    ensures Tokens(QuotedAll(command, args) + rest, Plain, None) == Some([Word(command)] + WordsOf(args) + more)
    decreases |args|
  {
    hide ShellQuote, Tokens;
    if args == [] {
      QuotedIsOneWord(command, rest);
      assert [Word(command)] + WordsOf([]) + more == [Word(command)] + more;
    } else {
      var init, last := args[..|args| - 1], args[|args| - 1];
      var tail := " " + ShellQuote(last) + rest;
      assert QuotedAll(command, args) + rest == QuotedAll(command, init) + tail;
      var prev := if init == [] then command else init[|init| - 1];
      assert tail == " " + (ShellQuote(last) + rest);
      Space(Some(prev), ShellQuote(last) + rest);
      QuotedIsOneWord(last, rest);
      CommandTokens(command, init, tail, [Word(last)] + more);
      assert WordsOf(args) == WordsOf(init) + [Word(last)];
      assert [Word(command)] + WordsOf(init) + ([Word(last)] + more) == [Word(command)] + WordsOf(args) + more;
    }
  }

  /** What the shell must do: source the script, switch version with nvm's own
      output sent to standard error, then become the command. */
  function Meaning(script: string, version: Option<string>, command: string, args: seq<string>): seq<Token> {
    [Word("."), Word(script), Operator("&&"), Word("nvm"), Word("use"), Word("--silent")]
    + (if version.Some? then [Word(version.value)] else [])
    + [IoNumber("1"), Operator(">&"), Word("2")] + [Operator("&&"), Word("exec"), Word(command)] + WordsOf(args)
  }

  function SwitchText(version: Option<string>): string {
    match version
    case None => "nvm use --silent 1>&2"
    case Some(v) => "nvm use --silent " + ShellQuote(v) + " 1>&2"
  }

  function Line(script: string, version: Option<string>, command: string, args: seq<string>): string {
    ". " + ShellQuote(script) + " && " + SwitchText(version) + " && exec " + QuotedAll(command, args)
  }

  lemma ExecTokens(command: string, args: seq<string>)
    ensures Tokens("&& exec " + QuotedAll(command, args), Plain, None) ==
      Some([Operator("&&"), Word("exec"), Word(command)] + WordsOf(args))
  {
    hide Tokens, QuotedAll;
    var q := QuotedAll(command, args);
    var last := if args == [] then command else args[|args| - 1];
    EndOfLine(last);
    CommandTokens(command, args, "", []);
    assert q + "" == q;
    assert "&& exec " + q == "&& " + ("exec" + " " + q);
    AndThen("exec" + " " + q);
    WordThenSpace("exec", q);
    var words := [Word(command)] + WordsOf(args);
    assert words + [] == words;
    assert [Operator("&&")] + ([Word("exec")] + words) == [Operator("&&"), Word("exec"), Word(command)] + WordsOf(args);
  }

  lemma EndOfLine(word: string)
    ensures Tokens("", Plain, Some(word)) == Some([Word(word)] + [])
  {
    assert [Word(word)] + [] == Flush(Some(word));
  }

  const REDIRECT: seq<Token> := [IoNumber("1"), Operator(">&"), Word("2")]

  lemma VersionTokens(version: Option<string>, rest: string)
    ensures Tokens((if version.Some? then ShellQuote(version.value) + " " else "") + "1>&2 " + rest, Plain, None) ==
      Before((if version.Some? then [Word(version.value)] else []) + REDIRECT, Tokens(rest, Plain, None))
  {
    hide Tokens, ShellQuote;
    Redirection(rest);
    match version
    case None =>
      assert "" + "1>&2 " + rest == "1>&2 " + rest && [] + REDIRECT == REDIRECT;
    case Some(v) =>
      assert ShellQuote(v) + " " + "1>&2 " + rest == ShellQuote(v) + " " + ("1>&2 " + rest);
      QuotedThenSpace(v, "1>&2 " + rest);
      BeforeTwice([Word(v)], REDIRECT, Tokens(rest, Plain, None));
  }

  lemma SwitchTextSplits(version: Option<string>, rest: string)
    ensures SwitchText(version) + " " + rest ==
      "nvm" + " " + ("use" + " " + ("--silent" + " "
      + ((if version.Some? then ShellQuote(version.value) + " " else "") + "1>&2 " + rest)))
  {
    hide ShellQuote;
    assert "nvm use --silent " == "nvm" + " " + ("use" + " " + ("--silent" + " "));
    if version.Some? {
      var q := ShellQuote(version.value);
      assert "nvm use --silent " + q + " 1>&2" + " " + rest == "nvm use --silent " + (q + " " + "1>&2 " + rest);
    } else {
      assert "nvm use --silent 1>&2" + " " + rest == "nvm use --silent " + ("" + "1>&2 " + rest);
    }
  }

  lemma SwitchTokens(version: Option<string>, rest: string)
    ensures Tokens(SwitchText(version) + " " + rest, Plain, None) ==
      Before([Word("nvm"), Word("use"), Word("--silent")] + (if version.Some? then [Word(version.value)] else [])
             + REDIRECT, Tokens(rest, Plain, None))
  {
    hide Tokens, ShellQuote, SwitchText, Before;
    var after := (if version.Some? then ShellQuote(version.value) + " " else "") + "1>&2 " + rest;
    SwitchTextSplits(version, rest);
    WordThenSpace("nvm", "use" + " " + ("--silent" + " " + after));
    WordThenSpace("use", "--silent" + " " + after);
    WordThenSpace("--silent", after);
    VersionTokens(version, rest);
    var more := Tokens(rest, Plain, None);
    var tail := (if version.Some? then [Word(version.value)] else []) + REDIRECT;
    ThreeWords(tail, more);
    assert [Word("nvm"), Word("use"), Word("--silent")] + tail ==
      [Word("nvm"), Word("use"), Word("--silent")] + (if version.Some? then [Word(version.value)] else []) + REDIRECT;
  }

  lemma ThreeWords(tail: seq<Token>, more: Option<seq<Token>>)
    ensures Before([Word("nvm")], Before([Word("use")], Before([Word("--silent")], Before(tail, more)))) ==
      Before([Word("nvm"), Word("use"), Word("--silent")] + tail, more)
  {
    BeforeTwice([Word("--silent")], tail, more);
    BeforeTwice([Word("use")], [Word("--silent")] + tail, more);
    BeforeTwice([Word("nvm")], [Word("use")] + ([Word("--silent")] + tail), more);
    assert [Word("nvm")] + ([Word("use")] + ([Word("--silent")] + tail)) ==
      [Word("nvm"), Word("use"), Word("--silent")] + tail;
  }

  /** For every script path, version, command and arguments, the line splits into
      exactly the script after `.` and exactly the command and arguments after
      `exec`. */
  lemma LineMeansWhatItShould(script: string, version: Option<string>, command: string, args: seq<string>)
    ensures Tokens(Line(script, version, command, args), Plain, None) == Some(Meaning(script, version, command, args))
  {
    hide Tokens, ShellQuote, QuotedAll, SwitchText, WordsOf, Before, Meaning;
    var exec := "&& exec " + QuotedAll(command, args);
    var switch := SwitchText(version) + " " + exec;
    assert Line(script, version, command, args) == "." + " " + (ShellQuote(script) + " " + ("&& " + switch));
    WordThenSpace(".", ShellQuote(script) + " " + ("&& " + switch));
    QuotedThenSpace(script, "&& " + switch);
    AndThen(switch);
    SwitchTokens(version, exec);
    ExecTokens(command, args);
    MeaningInParts(script, version, command, args);
  }

  lemma MeaningInParts(script: string, version: Option<string>, command: string, args: seq<string>)
    ensures var s1 := [Word("nvm"), Word("use"), Word("--silent")] + (if version.Some? then [Word(version.value)] else []) + REDIRECT;
      var s2 := [Operator("&&"), Word("exec"), Word(command)] + WordsOf(args);
      Before([Word(".")], Before([Word(script)], Before([Operator("&&")], Before(s1, Some(s2))))) ==
      Some(Meaning(script, version, command, args))
  {
    hide WordsOf;
    var s1 := [Word("nvm"), Word("use"), Word("--silent")] + (if version.Some? then [Word(version.value)] else []) + REDIRECT;
    var s2 := [Operator("&&"), Word("exec"), Word(command)] + WordsOf(args);
    assert [Word(".")] + ([Word(script)] + ([Operator("&&")] + (s1 + s2))) == Meaning(script, version, command, args);
  }

  /** Different calls never build the same line. */
  lemma LinesAreDistinct(script1: string, version1: Option<string>, command1: string, args1: seq<string>,
                         script2: string, version2: Option<string>, command2: string, args2: seq<string>)
    requires Line(script1, version1, command1, args1) == Line(script2, version2, command2, args2)
    ensures script1 == script2 && version1 == version2 && command1 == command2 && args1 == args2
  {
    hide Line, Tokens;
    LineMeansWhatItShould(script1, version1, command1, args1);
    LineMeansWhatItShould(script2, version2, command2, args2);
    var m1, m2 := Meaning(script1, version1, command1, args1), Meaning(script2, version2, command2, args2);
    assert m1[1] == Word(script1) && m2[1] == Word(script2);
    assert m1[6] == if version1.Some? then Word(version1.value) else IoNumber("1");
    assert m2[6] == if version2.Some? then Word(version2.value) else IoNumber("1");
    assert version1 == version2;
    var n := if version1.Some? then 13 else 12;
    assert m1[n - 1] == Word(command1) && m2[n - 1] == Word(command2);
    assert m1[n..] == WordsOf(args1) && m2[n..] == WordsOf(args2);
    assert forall i | 0 <= i < |args1| :: WordsOf(args1)[i] == Word(args1[i]);
    assert forall i | 0 <= i < |args2| :: WordsOf(args2)[i] == Word(args2[i]);
  }

  // ---- choosing the invocation ----

  predicate Digit(c: char) {
    '0' <= c <= '9'
  }

  /** The first run of digits in a range. */
  function FirstNumber(range: string, digits: string): string
    decreases |range|
  {
    if range == "" then digits
    else if Digit(range[0]) then FirstNumber(range[1..], digits + [range[0]])
    else if digits == "" then FirstNumber(range[1..], "")
    else digits
  }

  lemma {:induction false} RunGoesOn(range: string, digits: string) returns (end: nat)
    requires digits != ""
    ensures end <= |range| && FirstNumber(range, digits) == digits + range[..end]
    ensures forall i | 0 <= i < end :: Digit(range[i])
    ensures end < |range| ==> !Digit(range[end])
    decreases |range|
  {
    end := 0;
    if range != "" && Digit(range[0]) {
      var rest := RunGoesOn(range[1..], digits + [range[0]]);
      end := rest + 1;
      assert range[..end] == [range[0]] + range[1..][..rest];
    }
  }

  /** From `start` to `end` there are digits only, none before, and none directly
      after; and if there is nothing between, the whole text has none. */
  ghost predicate FirstRun(range: string, start: nat, end: nat) {
    && start <= end <= |range|
    && (forall i | 0 <= i < start :: !Digit(range[i]))
    && (forall i | start <= i < end :: Digit(range[i]))
    && (end < |range| ==> !Digit(range[end]))
    && (start == end ==> end == |range|)
  }

  lemma RunMovesOver(c: char, rest: string, start: nat, end: nat)
    requires FirstRun(rest, start, end) && !Digit(c)
    ensures FirstRun([c] + rest, start + 1, end + 1)
    ensures ([c] + rest)[start + 1..end + 1] == rest[start..end]
  {
    hide Digit;
    var all := [c] + rest;
    forall i | 0 <= i < |all|
      ensures all[i] == if i == 0 then c else rest[i - 1]
    {
    }
  }

  /** What is found is the first run of digits, whole. */
  lemma {:induction false} FirstNumberIsTheFirstRun(range: string) returns (start: nat, end: nat)
    ensures FirstRun(range, start, end) && FirstNumber(range, "") == range[start..end]
    decreases |range|
  {
    hide Digit;
    if range == "" {
      start, end := 0, 0;
    } else if Digit(range[0]) {
      var more := RunGoesOn(range[1..], [range[0]]);
      start, end := 0, more + 1;
      assert "" + [range[0]] == [range[0]];
      assert range[0..end] == [range[0]] + range[1..][..more];
    } else {
      hide FirstRun;
      var s, e := FirstNumberIsTheFirstRun(range[1..]);
      start, end := s + 1, e + 1;
      RunMovesOver(range[0], range[1..], s, e);
      assert range == [range[0]] + range[1..];
    }
  }

  method NormalizeRange(range: string) returns (version: Option<string>)
    ensures version == if FirstNumber(range, "") == "" then None else Some(FirstNumber(range, ""))
  {
    var digits := "";
    for i := 0 to |range|
      invariant FirstNumber(range, "") == FirstNumber(range[i..], digits)
    {
      assert range[i..][1..] == range[i + 1..];
      if Digit(range[i]) {
        digits := digits + [range[i]];
      } else if digits != "" {
        break;
      }
    }
    return if digits == "" then None else Some(digits);
  }

  /** How the manager is told the version: nothing (do not wrap), its own version
      file, or a version taken from package.json. */
  datatype Switch = DoNot | UseFile | UseVersion(version: string)

  function SwitchFor(pin: Option<Pin>): Switch {
    match pin
    case None => DoNot
    case Some(Pin(PackageJson, range)) => if FirstNumber(range, "") == "" then DoNot else UseVersion(FirstNumber(range, ""))
    case Some(Pin(VersionFile, _)) => UseFile
  }

  /** Runs the command directly, through fnm, or through a shell that has sourced
      nvm; in each case it is this command with these arguments that runs. */
  method PinnedInvocation(manager: Option<Manager>, nvmScript: Option<string>, pin: Option<Pin>, command: string,
                          args: seq<string>) returns (r: Invocation)
    ensures var switch := SwitchFor(pin);
      if manager.None? || switch.DoNot? || (manager.value.Nvm? && nvmScript.None?) then r == Invocation(command, args)
      else if manager.value.Fnm? then
        && r.program == "fnm" && |r.args| == |args| + (if switch.UseFile? then 4 else 5)
        && r.args[|r.args| - |args| - 2..] == ["--", command] + args
        && r.args[..|r.args| - |args| - 2] == ["exec"] + if switch.UseFile? then ["--using-file"] else ["--using", switch.version]
      else
        && r.program == "bash" && |r.args| == 2 && r.args[0] == "-lc"
        && Tokens(r.args[1], Plain, None) ==
           Some(Meaning(nvmScript.value, if switch.UseFile? then None else Some(switch.version), command, args))
  {
    hide Tokens, ShellQuote, Meaning, FirstNumber;
    if manager.None? { return Invocation(command, args); }
    var version: Option<string> := None;
    match pin {
      case None => return Invocation(command, args);
      case Some(Pin(PackageJson, range)) =>
        version := NormalizeRange(range);
        if version.None? { return Invocation(command, args); }
      case Some(Pin(VersionFile, _)) =>
    }
    if manager.value.Fnm? {
      var fnm := ["exec"] + if version.None? then ["--using-file"] else ["--using", version.value];
      r := Invocation("fnm", fnm + ["--", command] + args);
      assert r.args == fnm + (["--", command] + args);
      return;
    }
    if nvmScript.None? { return Invocation(command, args); }
    var useVersion := if version.None? then "nvm use --silent 1>&2" else "nvm use --silent " + ShellQuote(version.value) + " 1>&2";
    var line := ". " + ShellQuote(nvmScript.value) + " && " + useVersion + " && exec " + ShellQuote(command);
    ghost var before := ". " + ShellQuote(nvmScript.value) + " && " + useVersion + " && exec ";
    for i := 0 to |args|
      invariant line == before + QuotedAll(command, args[..i])
    {
      assert args[..i + 1][..i] == args[..i];
      line := line + (" " + ShellQuote(args[i]));
    }
    assert args[..|args|] == args;
    assert line == Line(nvmScript.value, version, command, args);
    LineMeansWhatItShould(nvmScript.value, version, command, args);
    return Invocation("bash", ["-lc", line]);
  }
}
