/** The local mail sink: reading a message body, and what a whole SMTP session
    leaves in the store. */
module Mail {
  import opened Wrappers
  import opened Text

  // ---- reading lines ----

  /** One line with its newline (or what is left), and what follows. */
  function NextLine(text: string): (r: (string, string))
    ensures r.0 + r.1 == text && (text != "" ==> r.0 != "")
    decreases |text|
  {
    if text == "" then ("", "")
    else if text[0] == '\n' then ("\n", text[1..])
    else var (line, rest) := NextLine(text[1..]); ([text[0]] + line, rest)
  }

  /** A line's content: all trailing carriage returns and newlines off. */
  function Content(line: string): string
    decreases |line|
  {
    if line != "" && (line[|line| - 1] == '\r' || line[|line| - 1] == '\n') then Content(line[..|line| - 1]) else line
  }

  lemma {:induction false} NextLineIs(line: string, rest: string)
    requires '\n' !in line
    ensures NextLine(line + "\n" + rest) == (line + "\n", rest)
    decreases |line|
  {
    var text := line + "\n" + rest;
    if line == "" {
      assert text[1..] == rest;
    } else {
      assert text[1..] == line[1..] + "\n" + rest;
      NextLineIs(line[1..], rest);
      assert [line[0]] + (line[1..] + "\n") == line + "\n";
    }
  }

  lemma ContentOfWire(line: string)
    ensures Content(line + "\r\n") == Content(line)
  {
    var wire := line + "\r\n";
    assert wire[..|wire| - 1] == line + "\r";
    assert (line + "\r")[..|line|] == line;
  }

  // ---- the message body ----

  function Unstuffed(content: string): string {
    if content != "" && content[0] == '.' then content[1..] else content
  }

  /** The body up to a lone dot (or the end of input), and what follows. */
  function ReadData(text: string): (string, string)
    decreases |text|
  {
    if text == "" then ("", "") else
    var (line, rest) := NextLine(text);
    if Content(line) == "." then ("", rest) else
    var (more, after) := ReadData(rest);
    (Unstuffed(Content(line)) + "\n" + more, after)
  }

  function AfterBody(body: string, r: (string, string)): (string, string) {
    (body + r.0, r.1)
  }

  lemma ReadStep(body: string, text: string)
    ensures text == "" ==> AfterBody(body, ReadData(text)) == (body, "")
    ensures text != "" ==>
      var (line, rest) := NextLine(text);
      AfterBody(body, ReadData(text)) ==
        if Content(line) == "." then (body, rest)
        else AfterBody(body + Unstuffed(Content(line)) + "\n", ReadData(rest))
  {
    hide Content, NextLine;
    assert body + "" == body;
    if text != "" {
      var (line, rest) := NextLine(text);
      var more, stripped := ReadData(rest).0, Unstuffed(Content(line));
      assert body + (stripped + "\n" + more) == body + stripped + "\n" + more;
    }
  }

  method ReadBody(text: string) returns (body: string, rest: string)
    ensures (body, rest) == ReadData(text)
  {
    hide Content, NextLine, ReadData;
    body, rest := "", text;
    assert AfterBody("", ReadData(text)) == ReadData(text) by { NothingBefore(ReadData(text)); }
    while rest != ""
      invariant ReadData(text) == AfterBody(body, ReadData(rest))
      decreases |rest|
    {
      ReadStep(body, rest);
      var (line, after) := NextLine(rest);
      var content := Content(line);
      if content == "." {
        return body, after;
      }
      content := if content != "" && content[0] == '.' then content[1..] else content;
      body := body + content + "\n";
      rest := after;
    }
    ReadStep(body, rest);
  }

  lemma NothingBefore(r: (string, string))
    ensures AfterBody("", r) == r
  {
    assert "" + r.0 == r.0;
  }

  /** How a client sends lines, as section 4.5.2 of RFC 5321 asks: a dot before
      every line that starts with one, then a lone dot. */
  function Stuffed(lines: seq<string>): string
    decreases |lines|
  {
    if lines == [] then ".\r\n"
    else (if lines[0] != "" && lines[0][0] == '.' then "." + lines[0] else lines[0]) + "\r\n" + Stuffed(lines[1..])
  }

  function Joined(lines: seq<string>): string
    decreases |lines|
  {
    if lines == [] then "" else lines[0] + "\n" + Joined(lines[1..])
  }

  function Contents(lines: seq<string>): seq<string> {
    seq(|lines|, i requires 0 <= i < |lines| => Content(lines[i]))
  }

  lemma {:induction false} ContentOfStuffed(line: string)
    ensures var sent := if line != "" && line[0] == '.' then "." + line else line;
      Content(sent) != "." && Unstuffed(Content(sent)) == Content(line)
    decreases |line|
  {
    var sent := if line != "" && line[0] == '.' then "." + line else line;
    if line != "" && (line[|line| - 1] == '\r' || line[|line| - 1] == '\n') {
      var shorter := line[..|line| - 1];
      ContentOfStuffed(shorter);
      if line[0] == '.' {
        assert sent[..|sent| - 1] == "." + shorter;
        assert shorter != "" && shorter[0] == '.';
      } else {
        assert sent[..|sent| - 1] == shorter;
        if shorter != "" { assert shorter[0] == line[0]; }
      }
    } else if line != "" && line[0] == '.' {
      assert sent[|sent| - 1] == line[|line| - 1];
      assert sent[1..] == line;
    }
  }

  /** Whatever lines are sent, and whatever follows them, the reader stops just
      past the terminator and holds each line, less trailing carriage returns. */
  lemma {:induction false} StuffedReadsBack(lines: seq<string>, rest: string)
    requires Without(lines, '\n')
    ensures ReadData(Stuffed(lines) + rest) == (Joined(Contents(lines)), rest)
    decreases |lines|
  {
    hide Content, NextLine;
    var text := Stuffed(lines) + rest;
    if lines == [] {
      assert text == ".\r" + "\n" + rest;
      NextLineIs(".\r", rest);
      LoneDot();
    } else {
      var sent := if lines[0] != "" && lines[0][0] == '.' then "." + lines[0] else lines[0];
      var more := Stuffed(lines[1..]) + rest;
      assert text == (sent + "\r") + "\n" + more;
      assert '\n' !in sent + "\r";
      NextLineIs(sent + "\r", more);
      assert (sent + "\r") + "\n" == sent + "\r\n";
      ContentOfWire(sent);
      ContentOfStuffed(lines[0]);
      StuffedReadsBack(lines[1..], rest);
      assert Contents(lines)[1..] == Contents(lines[1..]);
    }
  }

  lemma LoneDot()
    ensures Content(".\r" + "\n") == "."
  {
    ContentOfWire(".");
    assert ".\r" + "\n" == "." + "\r\n";
  }

  lemma {:induction false} JoinedIsInjective(a: seq<string>, b: seq<string>)
    requires Without(a, '\n') && Without(b, '\n') && Joined(a) == Joined(b)
    ensures a == b
    decreases |a|
  {
    hide NextLine;
    if a != [] && b != [] {
      NextLineIs(a[0], Joined(a[1..]));
      NextLineIs(b[0], Joined(b[1..]));
      assert a[0] == (a[0] + "\n")[..|a[0]|] && b[0] == (b[0] + "\n")[..|b[0]|];
      assert |a[0] + "\n"| == |b[0] + "\n"|;
      JoinedIsInjective(a[1..], b[1..]);
      assert a == [a[0]] + a[1..] && b == [b[0]] + b[1..];
    }
  }

  lemma {:induction false} ContentIsPrefix(line: string)
    ensures Content(line) <= line && (Content(line) == line <==> line == "" || line[|line| - 1] !in {'\r', '\n'})
    decreases |line|
  {
    if line != "" && line[|line| - 1] in {'\r', '\n'} { ContentIsPrefix(line[..|line| - 1]); }
  }

  /** A body is stored with exactly its original lines if and only if none of them
      ends in a carriage return. */
  lemma BodyIsExactIff(lines: seq<string>, rest: string)
    requires Without(lines, '\n')
    ensures ReadData(Stuffed(lines) + rest) == (Joined(lines), rest) <==>
      forall i | 0 <= i < |lines| :: lines[i] == "" || lines[i][|lines[i]| - 1] != '\r'
  {
    hide Content, ReadData, Joined, Stuffed;
    StuffedReadsBack(lines, rest);
    forall i | 0 <= i < |lines|
      ensures Content(lines[i]) <= lines[i]
      ensures Content(lines[i]) == lines[i] <==> lines[i] == "" || lines[i][|lines[i]| - 1] != '\r'
    {
      ContentIsPrefix(lines[i]);
      if lines[i] != "" { assert lines[i][|lines[i]| - 1] in lines[i]; }
    }
    forall i | 0 <= i < |lines|
      ensures '\n' !in Contents(lines)[i]
    {
      assert Content(lines[i]) <= lines[i];
    }
    SameJoin(Contents(lines), lines);
    assert Contents(lines) == lines <==> forall i | 0 <= i < |lines| :: Contents(lines)[i] == lines[i];
  }

  lemma SameJoin(a: seq<string>, b: seq<string>)
    requires Without(a, '\n') && Without(b, '\n')
    ensures Joined(a) == Joined(b) <==> a == b
  {
    hide Joined;
    if Joined(a) == Joined(b) { JoinedIsInjective(a, b); }
  }

  // ---- commands ----

  function UpperChar(c: char): char {
    if 'a' <= c <= 'z' then (c as int - 32) as char else c
  }

  function Upper(s: string): string {
    seq(|s|, i requires 0 <= i < |s| => UpperChar(s[i]))
  }

  predicate Starts(s: string, verb: string) {
    |s| >= |verb| && s[..|verb|] == verb
  }

  datatype Verb = Auth | MailFrom | RcptTo | Data | Rset | Quit | Chat

  /** What a command line asks for; whatever is not known is humoured. */
  function VerbOf(line: string): Verb {
    var upper := Upper(TrimEnd(line));
    if Starts(upper, "EHLO") || Starts(upper, "HELO") then Chat
    else if Starts(upper, "AUTH") then Auth
    else if Starts(upper, "MAIL FROM") then MailFrom
    else if Starts(upper, "RCPT TO") then RcptTo
    else if Starts(upper, "DATA") then Data
    else if Starts(upper, "RSET") then Rset
    else if Starts(upper, "NOOP") then Chat
    else if Starts(upper, "QUIT") then Quit
    else Chat
  }

  /** The line begins with the word, in capitals or not. */
  predicate Says(line: string, word: string) {
    |word| <= |line| && forall i | 0 <= i < |word| ::
      line[i] == word[i] || ('A' <= word[i] <= 'Z' && line[i] as int == word[i] as int - 'A' as int + 'a' as int)
  }

  /** A word in capitals, with no white space at its end. */
  predicate Word(word: string) {
    && word != "" && !IsSpace(word[|word| - 1])
    && forall i | 0 <= i < |word| :: !('a' <= word[i] <= 'z')
  }

  lemma {:induction false} TrimEndKeepsWords(line: string, n: nat)
    requires 0 < n <= |line| && !IsSpace(line[n - 1])
    ensures n <= |TrimEnd(line)| && TrimEnd(line)[..n] == line[..n]
    decreases |line|
  {
    if IsSpace(line[|line| - 1]) {
      TrimEndKeepsWords(line[..|line| - 1], n);
      assert line[..|line| - 1][..n] == line[..n];
    }
  }

  lemma {:induction false} TrimEndIsAPrefix(line: string)
    ensures TrimEnd(line) <= line
    decreases |line|
  {
    if line != "" && IsSpace(line[|line| - 1]) { TrimEndIsAPrefix(line[..|line| - 1]); }
  }

  lemma SaysIff(line: string, word: string)
    requires Word(word)
    ensures Starts(Upper(TrimEnd(line)), word) <==> Says(line, word)
  {
    hide TrimEnd, IsSpace;
    var n := |word|;
    TrimEndIsAPrefix(line);
    if Says(line, word) {
      LastIsNoSpace(line[n - 1], word[n - 1]);
      TrimEndKeepsWords(line, n);
      assert forall i | 0 <= i < n :: TrimEnd(line)[..n][i] == line[..n][i];
      assert Upper(TrimEnd(line))[..n] == word;
    }
    if Starts(Upper(TrimEnd(line)), word) {
      forall i | 0 <= i < n
        ensures line[i] == word[i] || ('A' <= word[i] <= 'Z' && line[i] as int == word[i] as int - 'A' as int + 'a' as int)
      {
        assert Upper(TrimEnd(line))[..n][i] == word[i] && TrimEnd(line)[i] == line[i];
      }
    }
  }

  lemma LastIsNoSpace(c: char, w: char)
    requires !IsSpace(w) && (c == w || ('A' <= w <= 'Z' && c as int == w as int - 'A' as int + 'a' as int))
    ensures !IsSpace(c)
  {
  }

  /** What a line asks for is the command it begins with. */
  lemma VerbIsTheFirstWord(line: string)
    ensures VerbOf(line) == Auth <==> Says(line, "AUTH")
    ensures VerbOf(line) == MailFrom <==> Says(line, "MAIL FROM")
    ensures VerbOf(line) == RcptTo <==> Says(line, "RCPT TO")
    ensures VerbOf(line) == Data <==> Says(line, "DATA")
    ensures VerbOf(line) == Rset <==> Says(line, "RSET")
    ensures VerbOf(line) == Quit <==> Says(line, "QUIT")
  {
    hide Upper, TrimEnd, Says, Starts;
    AreWords();
    SaysIff(line, "AUTH");
    SaysIff(line, "MAIL FROM");
    SaysIff(line, "RCPT TO");
    SaysIff(line, "DATA");
    SaysIff(line, "RSET");
    SaysIff(line, "QUIT");
    OneWordOnly(Upper(TrimEnd(line)));
  }

  lemma AreWords()
    ensures Word("AUTH") && Word("MAIL FROM") && Word("RCPT TO") && Word("DATA") && Word("RSET") && Word("QUIT")
  {
  }

  lemma FirstLetters(s: string, word: string)
    requires |word| > 1
    ensures Starts(s, word) ==> |s| > 1 && s[0] == word[0] && s[1] == word[1]
  {
    if Starts(s, word) { assert s[..|word|][0] == s[0] && s[..|word|][1] == s[1]; }
  }

  /** No line begins with two of the commands. */
  lemma OneWordOnly(s: string)
    ensures Starts(s, "EHLO") ==> |s| > 1 && s[0] == 'E'
    ensures Starts(s, "HELO") ==> |s| > 1 && s[0] == 'H'
    ensures Starts(s, "AUTH") ==> |s| > 1 && s[0] == 'A'
    ensures Starts(s, "MAIL FROM") ==> |s| > 1 && s[0] == 'M'
    ensures Starts(s, "RCPT TO") ==> |s| > 1 && s[0] == 'R' && s[1] == 'C'
    ensures Starts(s, "DATA") ==> |s| > 1 && s[0] == 'D'
    ensures Starts(s, "RSET") ==> |s| > 1 && s[0] == 'R' && s[1] == 'S'
    ensures Starts(s, "NOOP") ==> |s| > 1 && s[0] == 'N'
    ensures Starts(s, "QUIT") ==> |s| > 1 && s[0] == 'Q'
  {
    hide Starts;
    FirstLetters(s, "EHLO");
    FirstLetters(s, "HELO");
    FirstLetters(s, "AUTH");
    FirstLetters(s, "MAIL FROM");
    FirstLetters(s, "RCPT TO");
    FirstLetters(s, "DATA");
    FirstLetters(s, "RSET");
    FirstLetters(s, "NOOP");
    FirstLetters(s, "QUIT");
  }

  /** The index of the first `c`, if there is one. */
  function Find(s: string, c: char): Option<nat>
    decreases |s|
  {
    if s == "" then None
    else if s[0] == c then Some(0)
    else match Find(s[1..], c) case None => None case Some(i) => Some(i + 1)
  }

  lemma {:induction false} FindIsFirst(s: string, c: char)
    ensures match Find(s, c)
            case None => c !in s
            case Some(i) => i < |s| && s[i] == c && forall k | 0 <= k < i :: s[k] != c
    decreases |s|
  {
    if s != "" && s[0] != c { FindIsFirst(s[1..], c); }
  }

  /** The address in `MAIL FROM:<a@b>` or `RCPT TO:<a@b>`. */
  function ExtractAddr(line: string): string {
    FindIsFirst(line, '<');
    FindIsFirst(line, '>');
    var start, end := Find(line, '<'), Find(line, '>');
    if start.Some? && end.Some? && start.value < end.value then line[start.value + 1..end.value]
    else
      var parts := Split(line, ':');
      if |parts| > 1 then Trim(parts[1]) else ""
  }

  /** An address between the first angle brackets is found, whatever surrounds
      them. */
  lemma AddressIsFound(before: string, address: string, after: string)
    requires '<' !in before && '>' !in before && '>' !in address
    ensures ExtractAddr(before + "<" + address + ">" + after) == address
  {
    hide Split;
    var line := before + "<" + address + ">" + after;
    var start, end := |before|, |before| + 1 + |address|;
    assert line[start] == '<' && line[end] == '>';
    forall k | 0 <= k < end
      ensures k < start ==> line[k] == before[k]
      ensures k > start ==> line[k] == address[k - start - 1]
    {
    }
    assert line[start + 1..end] == address;
    FirstIsFound(line, '<', start);
    FirstIsFound(line, '>', end);
  }

  lemma FirstIsFound(s: string, c: char, i: nat)
    requires i < |s| && s[i] == c && forall k | 0 <= k < i :: s[k] != c
    ensures Find(s, c) == Some(i)
  {
    FindIsFirst(s, c);
  }

  /** Without brackets it is what follows the first colon, less white space. */
  lemma AddressAfterColon(verb: string, before: string, address: string, after: string)
    requires ':' !in verb + before + address + after && '<' !in verb + before + address + after
    requires Trimmed(address) && address != "" && forall c | c in before + after :: IsSpace(c)
    ensures ExtractAddr(verb + ":" + (before + address + after)) == address
  {
    hide Split, IsSpace, Trim;
    var rest := before + address + after;
    var line := verb + ":" + rest;
    forall c | c in verb + rest
      ensures c != ':' && c != '<'
    {
      assert c in verb + before + address + after;
    }
    FindIsFirst(line, '<');
    assert forall c | c in line :: c == ':' || c in verb + rest;
    SplitHead(verb, rest, ':');
    assert ':' !in rest;
    SplitWhole(rest, ':');
    TrimTakesTheEdges(before, address, after);
  }

  // ---- authentication ----

  predicate Harmless(c: char) {
    'a' <= c <= 'z' || 'A' <= c <= 'Z' || '0' <= c <= '9' || c == '.' || c == '_' || c == '-'
  }

  function Kept(s: string): string
    decreases |s|
  {
    if s == "" then "" else (if Harmless(s[0]) then [s[0]] else "") + Kept(s[1..])
  }

  const MAILBOX_LENGTH: nat := 64

  /** None of what leads out of a directory is harmless, and every letter, digit, dot,
      dash and underscore is. */
  lemma HarmlessIff(c: char)
    ensures Harmless(c) ==> c !in {'/', '\\', ':', '\0', ' ', '\r', '\n', '\"', '\'', '<', '>', '@'}
    ensures var u := c as int;
      Harmless(c) <==> 0x30 <= u <= 0x39 || 0x41 <= u <= 0x5A || 0x61 <= u <= 0x7A || u in {0x2D, 0x2E, 0x5F}
  {
  }

  /** A user name reduced to a mailbox: harmless characters only, at most 64 of
      them, and nothing if nothing usable is left. */
  function SanitizeMailbox(user: string): (name: Option<string>)
    ensures name.Some? ==>
      && name.value != "" && name.value != "null" && |name.value| <= 64
      && forall i | 0 <= i < |name.value| :: Harmless(name.value[i])
  {
    var kept := Kept(Lower(Trim(user)));
    KeptIsHarmless(Lower(Trim(user)));
    var name := if |kept| <= MAILBOX_LENGTH then kept else kept[..MAILBOX_LENGTH];
    if name != "" && name != "null" then Some(name) else None
  }

  lemma {:induction false} KeptIsHarmless(s: string)
    ensures forall i | 0 <= i < |Kept(s)| :: Harmless(Kept(s)[i])
    decreases |s|
  {
    if s != "" { KeptIsHarmless(s[1..]); }
  }

  lemma {:induction false} KeptConcat(a: string, b: string)
    ensures Kept(Lower(a + b)) == Kept(Lower(a)) + Kept(Lower(b))
    decreases |a|
  {
    hide Harmless;
    if a == "" {
      assert a + b == b && Lower(a) == "";
    } else {
      KeptConcat(a[1..], b);
      assert (a + b)[1..] == a[1..] + b;
      assert Lower(a + b)[1..] == Lower((a + b)[1..]) && Lower(a)[1..] == Lower(a[1..]);
    }
  }

  lemma HarmfulIsDropped(c: char)
    requires !Harmless(c)
    ensures Kept(Lower([c])) == ""
  {
    assert Lower([c])[1..] == "";
  }

  /** White space is harmful anyway: trimming first makes no difference. */
  lemma {:induction false} TrimmingIsNeedless(s: string)
    ensures Kept(Lower(TrimStart(s))) == Kept(Lower(s)) == Kept(Lower(TrimEnd(s)))
    decreases |s|
  {
    hide Kept, Lower;
    if s != "" {
      var first, init, tail, last := s[0], s[..|s| - 1], s[1..], s[|s| - 1];
      assert s == [first] + tail && s == init + [last];
      KeptConcat([first], tail);
      KeptConcat(init, [last]);
      if IsSpace(first) { HarmfulIsDropped(first); }
      if IsSpace(last) { HarmfulIsDropped(last); }
      TrimmingIsNeedless(tail);
      TrimmingIsNeedless(init);
    }
  }

  lemma TrimIsNeedless(user: string)
    ensures Kept(Lower(Trim(user))) == Kept(Lower(user))
  {
    hide Kept, Lower, TrimStart, TrimEnd;
    TrimmingIsNeedless(user);
    TrimmingIsNeedless(TrimStart(user));
  }

  /** A harmful character anywhere in a user name makes no difference, and nor
      does case. Dropping them all and lower-casing, every name comes down to one
      that `MailboxOfHarmless` says the mailbox of. */
  lemma HarmfulMakesNoDifference(a: string, c: char, b: string)
    requires !Harmless(c)
    ensures SanitizeMailbox(a + [c] + b) == SanitizeMailbox(a + b) == SanitizeMailbox(Lower(a + b))
  {
    hide Kept, Lower, TrimStart, TrimEnd, Harmless;
    TrimIsNeedless(a + [c] + b);
    TrimIsNeedless(a + b);
    TrimIsNeedless(Lower(a + b));
    KeptConcat(a + [c], b);
    KeptConcat(a, [c]);
    KeptConcat(a, b);
    HarmfulIsDropped(c);
    assert Kept(Lower(a)) + "" == Kept(Lower(a));
    LowerTwice(a + b);
  }

  lemma HarmlessIsTrimmed(name: string)
    requires forall i | 0 <= i < |name| :: Harmless(name[i])
    ensures Trim(name) == name
  {
    hide Trim;
    if name != "" { assert Harmless(name[0]) && Harmless(name[|name| - 1]); }
    TrimmedIsKept(name);
  }

  /** A lower-case name of harmless characters is its own mailbox, cut at 64,
      unless that is empty or `null`. */
  lemma MailboxOfHarmless(name: string)
    requires IsLower(name) && forall i | 0 <= i < |name| :: Harmless(name[i])
    ensures var cut := if |name| <= 64 then name else name[..64];
      SanitizeMailbox(name) == if cut == "" || cut == "null" then None else Some(cut)
  {
    hide Trim, Lower, Kept;
    HarmlessIsTrimmed(name);
    LowerIsKept(name);
    AllKept(name);
  }

  lemma {:induction false} AllKept(s: string)
    requires forall i | 0 <= i < |s| :: Harmless(s[i])
    ensures Kept(s) == s
    decreases |s|
  {
    if s != "" {
      AllKept(s[1..]);
      assert [s[0]] + s[1..] == s;
    }
  }

  lemma {:induction false} KeptIsLower(s: string)
    requires IsLower(s)
    ensures IsLower(Kept(s))
    decreases |s|
  {
    if s != "" { KeptIsLower(s[1..]); }
  }

  /** What sanitising leaves, sanitising again leaves alone. */
  lemma SanitizingIsIdempotent(user: string)
    requires SanitizeMailbox(user).Some?
    ensures SanitizeMailbox(SanitizeMailbox(user).value) == SanitizeMailbox(user)
  {
    hide Trim, Kept;
    LowerIsLower(Trim(user));
    KeptIsLower(Lower(Trim(user)));
    MailboxOfHarmless(SanitizeMailbox(user).value);
  }

  /** Base64 decoding to text, as the session uses it. */
  type Decoder = string -> Option<string>

  function Words(s: string): seq<string>
    decreases |s|
  {
    if s == "" then []
    else if IsSpace(s[0]) then Words(s[1..])
    else
      var n := WordEnd(s, 1);
      [s[..n]] + Words(s[n..])
  }

  function WordEnd(s: string, n: nat): (end: nat)
    requires n <= |s|
    ensures n <= end <= |s|
    decreases |s| - n
  {
    if n == |s| || IsSpace(s[n]) then n else WordEnd(s, n + 1)
  }

  /** The authentication mechanism of a command, and its initial response. */
  function Mechanism(command: string): (string, Option<string>) {
    var words := Words(command);
    (if |words| > 1 then Upper(words[1]) else "", if |words| > 2 then Some(words[2]) else None)
  }

  /** How many further lines the exchange reads. */
  function Answers(command: string): nat {
    var (mech, initial) := Mechanism(command);
    if mech == "PLAIN" then (if initial.Some? then 0 else 1)
    else if mech == "LOGIN" then (if initial.Some? then 1 else 2)
    else 0
  }

  function DecodePlain(decode: Decoder, payload: string): Option<string> {
    match decode(payload)
    case None => None
    case Some(text) =>
      var fields := Split(text, '\0');
      if |fields| > 1 && fields[1] != "" then Some(fields[1]) else None
  }

  /** The user an exchange names, given the lines that answered it. */
  function UserOf(decode: Decoder, command: string, answers: seq<string>): Option<string>
    requires |answers| == Answers(command)
  {
    var (mech, initial) := Mechanism(command);
    if mech == "PLAIN" then DecodePlain(decode, if initial.Some? then initial.value else answers[0])
    else if mech == "LOGIN" then
      var user := decode(if initial.Some? then initial.value else answers[0]);
      if user.Some? && user.value != "" then user else None
    else None
  }

  // ---- the user an exchange names ----

  /** Text without white space. */
  predicate Solid(s: string) {
    s != "" && forall i | 0 <= i < |s| :: !IsSpace(s[i])
  }

  lemma {:induction false} WordEndsAtSpace(w: string, rest: string, n: nat)
    requires Solid(w) && n <= |w| && (rest == "" || IsSpace(rest[0]))
    ensures WordEnd(w + rest, n) == |w|
    decreases |w| - n
  {
    if n < |w| { WordEndsAtSpace(w, rest, n + 1); }
  }

  /** The words of a text are what stands between its white space. */
  lemma FirstWord(w: string, rest: string)
    requires Solid(w)
    ensures Words(w + " " + rest) == [w] + Words(rest) && Words(w) == [w]
  {
    var more := " " + rest;
    assert w + " " + rest == w + more && (w + more)[..|w|] == w && (w + more)[|w|..] == more && more[1..] == rest;
    WordEndsAtSpace(w, more, 1);
    WordEndsAtSpace(w, "", 1);
    assert w + "" == w && w[..|w|] == w && w[|w|..] == "";
  }

  /** What follows the verb is the mechanism, in capitals or not, and what follows that
      the initial response. */
  lemma MechanismOf(verb: string, mech: string, initial: string)
    requires Solid(verb) && Solid(mech) && Solid(initial)
    ensures Mechanism(verb + " " + mech) == (Upper(mech), None)
    ensures Mechanism(verb + " " + mech + " " + initial) == (Upper(mech), Some(initial))
  {
    hide Words, Solid, Upper;
    FirstWord(verb, mech);
    FirstWord(verb, mech + " " + initial);
    assert verb + " " + mech + " " + initial == verb + " " + (mech + " " + initial);
    FirstWord(mech, initial);
    FirstWord(initial, "");
  }

  lemma SecondField(a: string, b: string, c: string)
    requires '\0' !in a && '\0' !in b
    ensures var fields := Split(a + "\0" + b + "\0" + c, '\0'); |fields| > 1 && fields[1] == b
  {
    hide Split;
    assert a + "\0" + b + "\0" + c == a + "\0" + (b + "\0" + c);
    SplitHead(a, b + "\0" + c, '\0');
    SplitHead(b, c, '\0');
  }

  /** PLAIN, by RFC 4616: the user between the two NULs of the response, which is the
      initial one or else the one line the exchange reads. */
  lemma PlainNamesItsUser(decode: Decoder, verb: string, mech: string, response: string, authzid: string, user: string,
                          password: string)
    requires Solid(verb) && Solid(mech) && Upper(mech) == "PLAIN" && Solid(response)
    requires decode(response) == Some(authzid + "\0" + user + "\0" + password)
    requires '\0' !in authzid && '\0' !in user
    ensures var named := if user == "" then None else Some(user);
      && Answers(verb + " " + mech + " " + response) == 0
      && UserOf(decode, verb + " " + mech + " " + response, []) == named
      && Answers(verb + " " + mech) == 1 && UserOf(decode, verb + " " + mech, [response]) == named
  {
    hide Solid, Upper, Split;
    MechanismOf(verb, mech, response);
    SecondField(authzid, user, password);
  }

  /** LOGIN: the user by itself, in the initial response or else the first of two
      lines; the password is always a line of its own. */
  lemma LoginNamesItsUser(decode: Decoder, verb: string, mech: string, response: string, user: string, password: string)
    requires Solid(verb) && Solid(mech) && Upper(mech) == "LOGIN" && Solid(response) && decode(response) == Some(user)
    ensures var named := if user == "" then None else Some(user);
      && Answers(verb + " " + mech + " " + response) == 1
      && UserOf(decode, verb + " " + mech + " " + response, [password]) == named
      && Answers(verb + " " + mech) == 2 && UserOf(decode, verb + " " + mech, [response, password]) == named
  {
    hide Solid, Upper;
    MechanismOf(verb, mech, response);
  }

  /** Any other mechanism reads nothing and names nobody. */
  lemma OtherMechanismsNameNobody(decode: Decoder, verb: string, mech: string)
    requires Solid(verb) && Solid(mech) && Upper(mech) !in {"PLAIN", "LOGIN"}
    ensures Answers(verb + " " + mech) == 0 && UserOf(decode, verb + " " + mech, []) == None
  {
    hide Solid, Upper;
    MechanismOf(verb, mech, mech);
  }

  /** Reading `n` lines, each without its line ending. */
  function ReadLines(text: string, n: nat): (r: (seq<string>, string))
    ensures |r.0| == n && |r.1| <= |text|
    decreases n
  {
    if n == 0 then ([], text) else
    var (line, rest) := NextLine(text);
    var (more, after) := ReadLines(rest, n - 1);
    ([Content(line)] + more, after)
  }

  // ---- the session ----

  datatype Message = Message(from: string, rcpts: seq<string>, mailbox: Option<string>, body: string)

  /** `said` has the codes of the replies sent so far, one a reply. */
  datatype State = State(from: string, rcpts: seq<string>, mailbox: Option<string>, stored: seq<Message>, said: seq<nat>)

  const GREETED := State("", [], None, [], [220])

  function Replied(st: State, codes: seq<nat>): State {
    st.(said := st.said + codes)
  }

  /** One challenge for every line an exchange reads. */
  function Challenges(command: string): seq<nat> {
    seq(Answers(command), _ => 334)
  }

  function Verdict(user: Option<string>): seq<nat> {
    if user.Some? then [235] else [535]
  }

  function Authenticated(st: State, command: string, user: Option<string>): State {
    Replied(if user.Some? then st.(mailbox := SanitizeMailbox(user.value)) else st, Challenges(command) + Verdict(user))
  }

  /** What a command line by itself does to the state. */
  function Obeyed(line: string, st: State): State {
    Replied(match VerbOf(line)
            case MailFrom => st.(from := ExtractAddr(TrimEnd(line)), rcpts := [])
            case RcptTo => st.(rcpts := st.rcpts + [ExtractAddr(TrimEnd(line))])
            case Rset => st.(from := "", rcpts := [])
            case _ => st, [250])
  }

  function Stored(st: State, body: string): State {
    Replied(st.(stored := st.stored + [Message(st.from, st.rcpts, st.mailbox, body)]), [354, 250])
  }

  lemma {:induction false} ReadDataShrinks(text: string)
    ensures |ReadData(text).1| <= |text|
    decreases |text|
  {
    if text != "" { ReadDataShrinks(NextLine(text).1); }
  }

  function Session(decode: Decoder, text: string, st: State): State
    decreases |text|
  {
    if text == "" then st else
    var (line, rest) := NextLine(text);
    match VerbOf(line)
    case Quit => Replied(st, [221])
    case Data =>
      ReadDataShrinks(rest);
      var (body, after) := ReadData(rest);
      Session(decode, after, Stored(st, body))
    case Auth =>
      var command := TrimEnd(line);
      var (answers, after) := ReadLines(rest, Answers(command));
      Session(decode, after, Authenticated(st, command, UserOf(decode, command, answers)))
    case _ => Session(decode, rest, Obeyed(line, st))
  }

  method Authenticate(decode: Decoder, command: string, text: string)
    returns (user: Option<string>, rest: string, said: seq<nat>)
    ensures var (answers, after) := ReadLines(text, Answers(command));
      user == UserOf(decode, command, answers) && rest == after
    ensures said == Challenges(command)
  {
    hide Words, NextLine, Content, DecodePlain;
    var (mech, initial) := Mechanism(command);
    rest, said := text, [];
    TwoLines(text);
    if mech == "PLAIN" {
      var payload: string;
      if initial.Some? {
        payload := initial.value;
      } else {
        said := [334];
        var (line, after) := NextLine(rest);
        payload, rest := Content(line), after;
      }
      user := DecodePlain(decode, payload);
    } else if mech == "LOGIN" {
      var name: string;
      if initial.Some? {
        name := initial.value;
      } else {
        said := [334];
        var (line, after) := NextLine(rest);
        name, rest := Content(line), after;
      }
      said := said + [334];
      var (_, after) := NextLine(rest);
      rest := after;
      user := decode(name);
      if user == Some("") { user := None; }
    } else {
      user := None;
    }
  }

  lemma TwoLines(text: string)
    ensures ReadLines(text, 0) == ([], text)
    ensures var (line, rest) := NextLine(text); ReadLines(text, 1) == ([Content(line)], rest)
    ensures var (line, rest) := NextLine(text); var (line2, rest2) := NextLine(rest);
      ReadLines(text, 2) == ([Content(line), Content(line2)], rest2)
  {
    hide NextLine, Content;
    var (line, rest) := NextLine(text);
    var (line2, rest2) := NextLine(rest);
    assert ReadLines(rest, 0) == ([], rest) && ReadLines(rest2, 0) == ([], rest2);
    var one, two := [Content(line)], [Content(line2)];
    assert one + [] == one && two + [] == two && one + two == [Content(line), Content(line2)];
    assert ReadLines(text, 1) == (one + [], rest);
    assert ReadLines(rest, 1) == (two + [], rest2);
    assert ReadLines(text, 2) == (one + ReadLines(rest, 1).0, ReadLines(rest, 1).1);
  }

  method Handle(decode: Decoder, text: string) returns (stored: seq<Message>, said: seq<nat>)
    ensures stored == Session(decode, text, GREETED).stored && said == Session(decode, text, GREETED).said
  {
    hide NextLine, ReadData, Session, Upper, TrimEnd, ExtractAddr, UserOf, ReadLines, SanitizeMailbox, Answers;
    var from, rcpts, mailbox := "", [], None;
    stored, said := [], [220];
    var rest := text;
    while rest != ""
      invariant Session(decode, text, GREETED) == Session(decode, rest, State(from, rcpts, mailbox, stored, said))
      decreases |rest|
    {
      SessionStep(decode, rest, State(from, rcpts, mailbox, stored, said));
      var (line, after) := NextLine(rest);
      rest := after;
      var trimmed := TrimEnd(line);
      var upper := Upper(trimmed);
      if Starts(upper, "EHLO") || Starts(upper, "HELO") {
        said := said + [250];
      } else if Starts(upper, "AUTH") {
        var user: Option<string>;
        var challenges: seq<nat>;
        user, rest, challenges := Authenticate(decode, trimmed, rest);
        if user.Some? { mailbox := SanitizeMailbox(user.value); }
        said := said + (challenges + if user.Some? then [235] else [535]);
      } else if Starts(upper, "MAIL FROM") {
        from, rcpts := ExtractAddr(trimmed), [];
        said := said + [250];
      } else if Starts(upper, "RCPT TO") {
        rcpts := rcpts + [ExtractAddr(trimmed)];
        said := said + [250];
      } else if Starts(upper, "DATA") {
        var body: string;
        body, rest := ReadBody(rest);
        stored := stored + [Message(from, rcpts, mailbox, body)];
        said := said + [354, 250];
      } else if Starts(upper, "RSET") {
        from, rcpts := "", [];
        said := said + [250];
      } else if Starts(upper, "QUIT") && !Starts(upper, "NOOP") {
        said := said + [221];
        return;
      } else {
        said := said + [250];
      }
    }
    SessionStep(decode, rest, State(from, rcpts, mailbox, stored, said));
  }

  lemma SessionStep(decode: Decoder, text: string, st: State)
    ensures text == "" ==> Session(decode, text, st) == st
    ensures text != "" ==>
      var (line, rest) := NextLine(text);
      && |rest| < |text| && |ReadData(rest).1| < |text|
      && |ReadLines(rest, Answers(TrimEnd(line))).1| < |text|
      && Session(decode, text, st) ==
         match VerbOf(line)
         case Quit => Replied(st, [221])
         case Data => Session(decode, ReadData(rest).1, Stored(st, ReadData(rest).0))
         case Auth =>
           var (answers, after) := ReadLines(rest, Answers(TrimEnd(line)));
           Session(decode, after, Authenticated(st, TrimEnd(line), UserOf(decode, TrimEnd(line), answers)))
         case _ => Session(decode, rest, Obeyed(line, st))
  {
    hide VerbOf, NextLine, ReadData, UserOf, Answers;
    if text != "" { ReadDataShrinks(NextLine(text).1); }
  }

  // ---- whole dialogues ----

  /** What a client says: a plain command, a message, or an authentication with
      the lines that answer it. */
  datatype Item = Command(line: string) | Submit(line: string, body: seq<string>) | Login(line: string, answers: seq<string>)

  predicate Clean(line: string) {
    '\n' !in line && (line == "" || line[|line| - 1] != '\r')
  }

  predicate WellSaid(item: Item) {
    && Clean(item.line)
    && match item
       case Command(line) => VerbOf(line) != Data && VerbOf(line) != Auth && VerbOf(line) != Quit
       case Submit(line, body) => VerbOf(line) == Data && forall i | 0 <= i < |body| :: Clean(body[i])
       case Login(line, answers) =>
         VerbOf(line) == Auth && |answers| == Answers(TrimEnd(line)) && forall i | 0 <= i < |answers| :: Clean(answers[i])
  }

  function Lines(lines: seq<string>): string
    decreases |lines|
  {
    if lines == [] then "" else lines[0] + "\r\n" + Lines(lines[1..])
  }

  /** The text the client sends for one item. */
  function Said(item: Item): string {
    item.line + "\r\n" + match item
                         case Command(_) => ""
                         case Submit(_, body) => Stuffed(body)
                         case Login(_, answers) => Lines(answers)
  }

  function Dialogue(items: seq<Item>): string
    decreases |items|
  {
    if items == [] then "" else Said(items[0]) + Dialogue(items[1..])
  }

  /** The reverse path in force after some items: the last MAIL FROM's, unless
      reset since. */
  function SenderAfter(items: seq<Item>): string
    decreases |items|
  {
    if items == [] then "" else
    var last := items[|items| - 1];
    if last.Command? && VerbOf(last.line) == MailFrom then ExtractAddr(TrimEnd(last.line))
    else if last.Command? && VerbOf(last.line) == Rset then ""
    else SenderAfter(items[..|items| - 1])
  }

  /** The recipients named since the last MAIL FROM or RSET, in order. */
  function RecipientsAfter(items: seq<Item>): seq<string>
    decreases |items|
  {
    if items == [] then [] else
    var last := items[|items| - 1];
    if last.Command? && (VerbOf(last.line) == MailFrom || VerbOf(last.line) == Rset) then []
    else if last.Command? && VerbOf(last.line) == RcptTo then
      RecipientsAfter(items[..|items| - 1]) + [ExtractAddr(TrimEnd(last.line))]
    else RecipientsAfter(items[..|items| - 1])
  }

  function LoginUser(decode: Decoder, item: Item): Option<string>
    requires item.Login? && |item.answers| == Answers(TrimEnd(item.line))
  {
    UserOf(decode, TrimEnd(item.line), item.answers)
  }

  /** The mailbox of the last authentication that succeeded. */
  function MailboxAfter(decode: Decoder, items: seq<Item>): Option<string>
    requires forall i | 0 <= i < |items| :: WellSaid(items[i])
    decreases |items|
  {
    if items == [] then None else
    var last := items[|items| - 1];
    assert WellSaid(last);
    if last.Login? && LoginUser(decode, last).Some? then SanitizeMailbox(LoginUser(decode, last).value)
    else MailboxAfter(decode, items[..|items| - 1])
  }

  /** What the store should hold: one message an item that submits one, with
      exactly its lines and the envelope in force there. */
  function Expected(decode: Decoder, items: seq<Item>): seq<Message>
    requires forall i | 0 <= i < |items| :: WellSaid(items[i])
    decreases |items|
  {
    if items == [] then [] else
    var init, last := items[..|items| - 1], items[|items| - 1];
    Expected(decode, init)
    + if last.Submit? then [Message(SenderAfter(init), RecipientsAfter(init), MailboxAfter(decode, init), Joined(last.body))]
      else []
  }

  /** The replies an item gets. */
  function RepliesTo(decode: Decoder, item: Item): seq<nat>
    requires WellSaid(item)
  {
    match item
    case Command(_) => [250]
    case Submit(_, _) => [354, 250]
    case Login(_, answers) => seq(|answers|, _ => 334) + [if LoginUser(decode, item).Some? then 235 else 535]
  }

  function RepliesAfter(decode: Decoder, items: seq<Item>): seq<nat>
    requires forall i | 0 <= i < |items| :: WellSaid(items[i])
    decreases |items|
  {
    if items == [] then [220] else
    var init, last := items[..|items| - 1], items[|items| - 1];
    RepliesAfter(decode, init) + RepliesTo(decode, last)
  }

  function StateAfter(decode: Decoder, items: seq<Item>): State
    requires forall i | 0 <= i < |items| :: WellSaid(items[i])
  {
    State(SenderAfter(items), RecipientsAfter(items), MailboxAfter(decode, items), Expected(decode, items),
      RepliesAfter(decode, items))
  }

  /** One item's effect. */
  function Did(decode: Decoder, item: Item, st: State): State
    requires WellSaid(item)
  {
    match item
    case Command(line) => Obeyed(line + "\r\n", st)
    case Submit(_, body) => Stored(st, Joined(body))
    case Login(line, _) => Authenticated(st, TrimEnd(line), LoginUser(decode, item))
  }

  lemma {:induction false} TrimEndOfLine(line: string)
    ensures TrimEnd(line + "\r\n") == TrimEnd(line) && VerbOf(line + "\r\n") == VerbOf(line)
  {
    var wire := line + "\r\n";
    assert wire[..|wire| - 1] == line + "\r" && wire[|wire| - 1] == '\n';
    assert (line + "\r")[..|line|] == line && (line + "\r")[|line|] == '\r';
  }

  lemma CleanIsContent(line: string)
    requires Clean(line)
    ensures Content(line) == line && Content(line + "\r\n") == line
  {
    hide Content;
    ContentIsPrefix(line);
    ContentOfWire(line);
    if line != "" { assert line[|line| - 1] in line; }
  }

  lemma FirstLineOf(line: string, rest: string)
    requires Clean(line)
    ensures NextLine(line + "\r\n" + rest) == (line + "\r\n", rest)
  {
    hide NextLine;
    assert line + "\r\n" + rest == (line + "\r") + "\n" + rest && (line + "\r") + "\n" == line + "\r\n";
    NextLineIs(line + "\r", rest);
  }

  lemma {:induction false} LinesReadBack(lines: seq<string>, rest: string)
    requires forall i | 0 <= i < |lines| :: Clean(lines[i])
    ensures ReadLines(Lines(lines) + rest, |lines|) == (lines, rest)
    decreases |lines|
  {
    hide NextLine, Content;
    if lines == [] {
      assert Lines(lines) + rest == rest;
    } else {
      assert Lines(lines) + rest == lines[0] + "\r\n" + (Lines(lines[1..]) + rest);
      FirstLineOf(lines[0], Lines(lines[1..]) + rest);
      CleanIsContent(lines[0]);
      LinesReadBack(lines[1..], rest);
      assert [lines[0]] + lines[1..] == lines;
    }
  }

  lemma CleanBody(body: seq<string>, rest: string)
    requires forall i | 0 <= i < |body| :: Clean(body[i])
    ensures ReadData(Stuffed(body) + rest) == (Joined(body), rest)
  {
    hide ReadData, Stuffed, Joined;
    BodyIsExactIff(body, rest);
  }

  /** The session takes exactly one item at a time: what a message or an answer
      says is never taken for a command. */
  lemma OneItem(decode: Decoder, item: Item, rest: string, st: State)
    requires WellSaid(item)
    ensures Session(decode, Said(item) + rest, st) == Session(decode, rest, Did(decode, item, st))
  {
    hide Session, VerbOf, NextLine, ReadData, UserOf, Answers, ReadLines, Stuffed, Joined, Lines, TrimEnd, ExtractAddr;
    var tail := match item case Command(_) => "" case Submit(_, body) => Stuffed(body) case Login(_, answers) => Lines(answers);
    var text := Said(item) + rest;
    assert text == item.line + "\r\n" + (tail + rest);
    FirstLineOf(item.line, tail + rest);
    TrimEndOfLine(item.line);
    SessionStep(decode, text, st);
    match item {
      case Command(_) => assert tail + rest == rest;
      case Submit(_, body) => CleanBody(body, rest);
      case Login(_, answers) => LinesReadBack(answers, rest);
    }
  }

  lemma DidExtends(decode: Decoder, items: seq<Item>, item: Item)
    requires (forall i | 0 <= i < |items| :: WellSaid(items[i])) && WellSaid(item)
    ensures Did(decode, item, StateAfter(decode, items)) == StateAfter(decode, items + [item])
  {
    hide VerbOf, TrimEnd, ExtractAddr, UserOf, Answers, Joined, SanitizeMailbox;
    var all := items + [item];
    assert all[..|all| - 1] == items && all[|all| - 1] == item;
    TrimEndOfLine(item.line);
  }

  lemma {:induction false} SessionFollows(decode: Decoder, done: seq<Item>, items: seq<Item>, rest: string)
    requires (forall i | 0 <= i < |done| :: WellSaid(done[i])) && (forall i | 0 <= i < |items| :: WellSaid(items[i]))
    ensures Session(decode, Dialogue(items) + rest, StateAfter(decode, done)) ==
      Session(decode, rest, StateAfter(decode, done + items))
    decreases |items|
  {
    hide Session, Said, WellSaid, StateAfter, Did;
    if items == [] {
      assert Dialogue(items) + rest == rest && done + items == done;
    } else {
      var more := Dialogue(items[1..]) + rest;
      assert Dialogue(items) + rest == Said(items[0]) + more;
      OneItem(decode, items[0], more, StateAfter(decode, done));
      DidExtends(decode, done, items[0]);
      SessionFollows(decode, done + [items[0]], items[1..], rest);
      assert done + [items[0]] + items[1..] == done + items;
    }
  }

  /** For every dialogue, ended by QUIT (whatever is sent after it) or by hanging
      up: the store holds exactly the submitted messages, in order, each with its
      original lines, the recipients named since the last MAIL FROM or RSET and
      the mailbox of the last successful authentication; and the replies are those
      to the items, in order. */
  lemma StoreHoldsWhatWasSent(decode: Decoder, items: seq<Item>, quit: string, after: string)
    requires forall i | 0 <= i < |items| :: WellSaid(items[i])
    requires Clean(quit) && VerbOf(quit) == Quit
    ensures var end := Session(decode, Dialogue(items), GREETED);
      end.stored == Expected(decode, items) && end.said == RepliesAfter(decode, items)
    ensures var end := Session(decode, Dialogue(items) + (quit + "\r\n" + after), GREETED);
      end.stored == Expected(decode, items) && end.said == RepliesAfter(decode, items) + [221]
  {
    hide Session, VerbOf, WellSaid, Dialogue, NextLine, ReadData, ReadLines, UserOf, Answers;
    assert StateAfter(decode, []) == GREETED;
    assert [] + items == items;
    SessionFollows(decode, [], items, "");
    assert Dialogue(items) + "" == Dialogue(items);
    SessionStep(decode, "", StateAfter(decode, items));
    var rest := quit + "\r\n" + after;
    SessionFollows(decode, [], items, rest);
    FirstLineOf(quit, after);
    TrimEndOfLine(quit);
    SessionStep(decode, rest, StateAfter(decode, items));
  }

  /** The lines of an item the client must wait for a reply to: a command, an
      answer to a challenge, and a whole body as one. */
  function Turns(items: seq<Item>): nat
    decreases |items|
  {
    if items == [] then 0 else
    var last := items[|items| - 1];
    Turns(items[..|items| - 1]) + match last
                                  case Command(_) => 1
                                  case Submit(_, _) => 2
                                  case Login(_, answers) => 1 + |answers|
  }

  /** Client and server take turns: besides the greeting there is exactly one
      reply for each time the client speaks. */
  lemma {:induction false} OneReplyATurn(decode: Decoder, items: seq<Item>)
    requires forall i | 0 <= i < |items| :: WellSaid(items[i])
    ensures |RepliesAfter(decode, items)| == 1 + Turns(items)
    decreases |items|
  {
    hide VerbOf, TrimEnd, Answers, LoginUser;
    if items != [] {
      assert WellSaid(items[|items| - 1]);
      OneReplyATurn(decode, items[..|items| - 1]);
    }
  }
}
