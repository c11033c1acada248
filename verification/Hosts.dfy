/** The managed block of the hosts file: rewriting it, and what survives. */
module Hosts {
  import opened Wrappers
  import opened Text

  const HOSTS_BEGIN: string := "# >>> dpl managed (do not edit) >>>"
  const HOSTS_END: string := "# <<< dpl managed <<<"
  const LOOPBACK: string := "127.0.0.1\t"

  predicate HostChar(c: char) {
    'a' <= c <= 'z' || 'A' <= c <= 'Z' || '0' <= c <= '9' || c == '.' || c == '-'
  }

  predicate ValidHostname(h: string) {
    h != "" && |h| <= 253 && h[0] != '.' && h[0] != '-' && forall i | 0 <= i < |h| :: HostChar(h[i])
  }

  // ---- lines ----

  /** A terminated line loses one carriage return before its newline. */
  function Chomp(line: string): string {
    if line != "" && line[|line| - 1] == '\r' then line[..|line| - 1] else line
  }

  function Chomped(lines: seq<string>): seq<string> {
    seq(|lines|, i requires 0 <= i < |lines| => Chomp(lines[i]))
  }

  /** The lines of a text; what follows the last newline is a line unless empty. */
  function Lines(text: string): seq<string> {
    var pieces := Split(text, '\n');
    var last := pieces[|pieces| - 1];
    Chomped(pieces[..|pieces| - 1]) + if last == "" then [] else [last]
  }

  function Unlines(lines: seq<string>): string
    decreases |lines|
  {
    if lines == [] then "" else lines[0] + "\n" + Unlines(lines[1..])
  }

  /** The block flag after a line. */
  function Flag(line: string, inBlock: bool): bool {
    if Trim(line) == HOSTS_BEGIN then true else if Trim(line) == HOSTS_END then false else inBlock
  }

  predicate Marker(line: string) {
    Trim(line) == HOSTS_BEGIN || Trim(line) == HOSTS_END
  }

  /** The lines outside the managed block, in order. */
  function Outside(lines: seq<string>, inBlock: bool): seq<string>
    decreases |lines|
  {
    if lines == [] then [] else
    (if Marker(lines[0]) || inBlock then [] else [lines[0]]) + Outside(lines[1..], Flag(lines[0], inBlock))
  }

  /** The lines inside it. */
  function Inside(lines: seq<string>, inBlock: bool): seq<string>
    decreases |lines|
  {
    if lines == [] then [] else
    (if !Marker(lines[0]) && inBlock then [lines[0]] else []) + Inside(lines[1..], Flag(lines[0], inBlock))
  }

  function BlockLines(hosts: seq<string>): seq<string> {
    if hosts == [] then [] else [HOSTS_BEGIN] + seq(|hosts|, i requires 0 <= i < |hosts| => LOOPBACK + hosts[i]) + [HOSTS_END]
  }

  /** The kept text, without trailing white space. */
  function Body(text: string): string {
    TrimEnd(Unlines(Outside(Lines(text), false)))
  }

  /** The hosts file after a sync. */
  function Synced(text: string, hosts: seq<string>): string {
    Body(text) + "\n" + Unlines(BlockLines(hosts))
  }

  lemma {:induction false} UnlinesMore(lines: seq<string>, last: string)
    ensures Unlines(lines + [last]) == Unlines(lines) + last + "\n"
    decreases |lines|
  {
    if lines == [] {
      assert [last][1..] == [];
      assert Unlines([last]) == last + "\n" + "";
    } else {
      UnlinesMore(lines[1..], last);
      var tail := Unlines(lines[1..]);
      assert (lines + [last])[1..] == lines[1..] + [last];
      assert (lines + [last])[0] == lines[0];
      assert lines[0] + "\n" + (tail + last + "\n") == lines[0] + "\n" + tail + last + "\n";
    }
  }

  lemma {:induction false} UnlinesConcat(a: seq<string>, b: seq<string>)
    ensures Unlines(a + b) == Unlines(a) + Unlines(b)
    decreases |a|
  {
    if a == [] {
      assert a + b == b;
    } else {
      UnlinesConcat(a[1..], b);
      assert (a + b)[1..] == a[1..] + b;
    }
  }

  lemma {:induction false} FlagMore(lines: seq<string>, last: string, inBlock: bool)
    ensures FlagAfter(lines + [last], inBlock) == Flag(last, FlagAfter(lines, inBlock))
    decreases |lines|
  {
    hide Flag;
    if lines == [] {
      assert lines + [last] == [last] && [last][1..] == [];
    } else {
      FlagMore(lines[1..], last, Flag(lines[0], inBlock));
      assert (lines + [last])[1..] == lines[1..] + [last];
    }
  }

  lemma OutsideFirst(line: string, rest: seq<string>, inBlock: bool)
    ensures Outside([line] + rest, inBlock) ==
      (if Marker(line) || inBlock then [] else [line]) + Outside(rest, Flag(line, inBlock))
    ensures FlagAfter([line] + rest, inBlock) == FlagAfter(rest, Flag(line, inBlock))
  {
    assert ([line] + rest)[1..] == rest;
  }

  lemma {:induction false} OutsideMore(lines: seq<string>, last: string, inBlock: bool)
    ensures Outside(lines + [last], inBlock) ==
      Outside(lines, inBlock) + if Marker(last) || FlagAfter(lines, inBlock) then [] else [last]
    decreases |lines|
  {
    hide Marker, Flag;
    if lines == [] {
      assert lines + [last] == [last] + [];
      OutsideFirst(last, [], inBlock);
    } else {
      hide Outside, FlagAfter;
      var first, rest := lines[0], lines[1..];
      assert lines == [first] + rest && lines + [last] == [first] + (rest + [last]);
      OutsideFirst(first, rest, inBlock);
      OutsideFirst(first, rest + [last], inBlock);
      OutsideMore(rest, last, Flag(first, inBlock));
    }
  }

  function FlagAfter(lines: seq<string>, inBlock: bool): bool
    decreases |lines|
  {
    if lines == [] then inBlock else FlagAfter(lines[1..], Flag(lines[0], inBlock))
  }

  datatype HostsError = InvalidHostname | Unreadable

  lemma KeepOrDrop(lines: seq<string>, line: string)
    ensures Unlines(Outside(lines + [line], false)) ==
      Unlines(Outside(lines, false)) + if Marker(line) || FlagAfter(lines, false) then "" else line + "\n"
    ensures FlagAfter(lines + [line], false) == Flag(line, FlagAfter(lines, false))
  {
    hide Marker, Flag, Outside, Unlines;
    OutsideMore(lines, line, false);
    FlagMore(lines, line, false);
    var kept := Outside(lines, false);
    assert kept + [] == kept && Unlines(kept) + "" == Unlines(kept);
    UnlinesMore(kept, line);
    assert Unlines(kept) + line + "\n" == Unlines(kept) + (line + "\n");
  }

  /** The text outside the block. */
  method KeptText(text: string) returns (out: string)
    ensures out == Unlines(Outside(Lines(text), false))
  {
    hide Trim, Lines, Outside, Unlines, FlagAfter, Marker, Flag;
    var lines := Lines(text);
    NoLines();
    out := "";
    var inBlock := false;
    for i := 0 to |lines|
      invariant out == Unlines(Outside(lines[..i], false)) && inBlock == FlagAfter(lines[..i], false)
    {
      var line := lines[i];
      assert lines[..i + 1] == lines[..i] + [line];
      KeepOrDrop(lines[..i], line);
      Marked(line, inBlock);
      var trimmed := Trim(line);
      if trimmed == HOSTS_BEGIN {
        inBlock := true;
      } else if trimmed == HOSTS_END {
        inBlock := false;
      } else if !inBlock {
        out := out + (line + "\n");
      }
    }
    assert lines[..|lines|] == lines;
  }

  lemma NoLines()
    ensures Unlines(Outside([], false)) == "" && FlagAfter([], false) == false
  {
  }

  lemma UnlinesLast(lines: seq<string>)
    requires lines != []
    ensures Unlines(lines) == Unlines(lines[..|lines| - 1]) + (lines[|lines| - 1] + "\n")
  {
    hide Unlines;
    var init, last := lines[..|lines| - 1], lines[|lines| - 1];
    assert lines == init + [last];
    UnlinesMore(init, last);
    Grouped(Unlines(init), last, "\n");
  }

  lemma Grouped(a: string, b: string, c: string)
    ensures a + b + c == a + (b + c)
  {
  }

  lemma OneBlockLine(hosts: seq<string>, i: nat)
    requires i < |hosts|
    ensures i + 2 <= |BlockLines(hosts)|
    ensures Unlines(BlockLines(hosts)[..i + 2]) == Unlines(BlockLines(hosts)[..i + 1]) + (LOOPBACK + hosts[i] + "\n")
  {
    hide Unlines;
    var lines := BlockLines(hosts);
    assert lines[i + 1] == LOOPBACK + hosts[i];
    hide BlockLines;
    UnlinesLast(lines[..i + 2]);
    assert lines[..i + 2][..i + 1] == lines[..i + 1];
  }

  lemma BlockBegins(hosts: seq<string>)
    requires hosts != []
    ensures |BlockLines(hosts)| == |hosts| + 2
    ensures Unlines(BlockLines(hosts)[..1]) == HOSTS_BEGIN + "\n"
  {
    hide Unlines;
    var lines := BlockLines(hosts);
    assert lines[0] == HOSTS_BEGIN;
    hide BlockLines;
    UnlinesLast(lines[..1]);
    assert lines[..1][..0] == [];
    EmptyBlock();
    assert "" + (lines[0] + "\n") == lines[0] + "\n";
  }

  lemma BlockEnds(hosts: seq<string>)
    requires hosts != []
    ensures |BlockLines(hosts)| == |hosts| + 2
    ensures Unlines(BlockLines(hosts)) == Unlines(BlockLines(hosts)[..|hosts| + 1]) + (HOSTS_END + "\n")
  {
    hide Unlines;
    var lines := BlockLines(hosts);
    assert lines[|hosts| + 1] == HOSTS_END;
    hide BlockLines;
    UnlinesLast(lines);
  }

  method BlockText(hosts: seq<string>) returns (block: string)
    ensures block == Unlines(BlockLines(hosts))
  {
    hide BlockLines, Unlines;
    if hosts == [] { EmptyBlock(); return ""; }
    BlockBegins(hosts);
    BlockEnds(hosts);
    block := HOSTS_BEGIN + "\n";
    for i := 0 to |hosts|
      invariant block == Unlines(BlockLines(hosts)[..i + 1])
    {
      OneBlockLine(hosts, i);
      block := block + (LOOPBACK + hosts[i] + "\n");
    }
    block := block + (HOSTS_END + "\n");
  }

  lemma EmptyBlock()
    ensures BlockLines([]) == [] && Unlines([]) == ""
  {
  }

  /** The hosts file on disk: no content if it cannot be read. */
  class HostsFile {
    var content: Option<string>

    /** Rewrites the managed block to hold exactly `hosts`; one invalid name and
        nothing is touched. */
    method SyncHosts(hosts: seq<string>) returns (r: Result<nat, HostsError>)
      modifies this
      ensures r.Ok? <==> old(content).Some? && forall i | 0 <= i < |hosts| :: ValidHostname(hosts[i])
      ensures r.Ok? ==> r.value == |hosts| && content == Some(Synced(old(content).value, hosts))
      ensures r.Err? ==> content == old(content)
    {
      hide ValidHostname, TrimEnd, Unlines, Outside, Lines, BlockLines;
      for i := 0 to |hosts|
        invariant forall j | 0 <= j < i :: ValidHostname(hosts[j])
      {
        if !ValidHostname(hosts[i]) { return Err(InvalidHostname); }
      }
      if content.None? { return Err(Unreadable); }
      var out := KeptText(content.value);
      var block := BlockText(hosts);
      content := Some(TrimEnd(out) + "\n" + block);
      return Ok(|hosts|);
    }
  }

  lemma Marked(line: string, inBlock: bool)
    ensures Marker(line) <==> Trim(line) == HOSTS_BEGIN || Trim(line) == HOSTS_END
    ensures Flag(line, inBlock) ==
      if Trim(line) == HOSTS_BEGIN then true else if Trim(line) == HOSTS_END then false else inBlock
  {
  }

  // ---- trimming ----

  lemma {:induction false} TrimEndConcat(a: string, b: string)
    ensures TrimEnd(a + b) == if TrimEnd(b) == "" then TrimEnd(a) else a + TrimEnd(b)
    decreases |b|
  {
    if b == "" {
      assert a + b == a;
    } else {
      assert (a + b)[..|a + b| - 1] == a + b[..|b| - 1];
      assert (a + b)[|a + b| - 1] == b[|b| - 1];
      if IsSpace(b[|b| - 1]) { TrimEndConcat(a, b[..|b| - 1]); }
    }
  }

  lemma {:induction false} TrimEndIsPrefix(s: string)
    ensures TrimEnd(s) <= s && TrimEnd(TrimEnd(s)) == TrimEnd(s)
    ensures TrimEnd(s) == "" || !IsSpace(TrimEnd(s)[|TrimEnd(s)| - 1])
    decreases |s|
  {
    if s != "" && IsSpace(s[|s| - 1]) { TrimEndIsPrefix(s[..|s| - 1]); }
  }

  /** Dropping a trailing space does not change what trimming leaves. */
  lemma {:induction false} TrimDropsLast(s: string, c: char)
    requires IsSpace(c)
    ensures Trim(s + [c]) == Trim(s)
    decreases |s|
  {
    if s == "" {
      assert "" + [c] == [c] && [c][1..] == "";
    } else if IsSpace(s[0]) {
      assert (s + [c])[1..] == s[1..] + [c];
      TrimDropsLast(s[1..], c);
    } else {
      assert TrimStart(s) == s && TrimStart(s + [c]) == s + [c];
      assert (s + [c])[..|s|] == s;
    }
  }

  lemma {:induction false} TrimOfTrimEnd(s: string)
    ensures Trim(TrimEnd(s)) == Trim(s)
    decreases |s|
  {
    hide Trim;
    if s != "" && IsSpace(s[|s| - 1]) {
      TrimOfTrimEnd(s[..|s| - 1]);
      TrimDropsLast(s[..|s| - 1], s[|s| - 1]);
      assert s == s[..|s| - 1] + [s[|s| - 1]];
    }
  }

  lemma TrimOfChomp(s: string)
    ensures Trim(Chomp(s)) == Trim(s)
  {
    hide Trim;
    if s != "" && s[|s| - 1] == '\r' {
      TrimDropsLast(s[..|s| - 1], '\r');
      assert s == s[..|s| - 1] + ['\r'];
    }
  }

  /** Lines without the trailing blank ones, the last one trimmed. */
  function TrimLines(lines: seq<string>): seq<string>
    decreases |lines|
  {
    if lines == [] then [] else
    var init, last := lines[..|lines| - 1], TrimEnd(lines[|lines| - 1]);
    if last == "" then TrimLines(init) else init + [last]
  }

  lemma {:induction false} JoinInit(init: seq<string>, last: string)
    ensures Join(init + [last], '\n') == Unlines(init) + last
    decreases |init|
  {
    if init != [] {
      JoinInit(init[1..], last);
      assert (init + [last])[1..] == init[1..] + [last];
      assert init[0] + ['\n'] + (Unlines(init[1..]) + last) == init[0] + "\n" + Unlines(init[1..]) + last;
    }
  }

  lemma {:induction false} TrimEndOfLines(lines: seq<string>)
    ensures TrimEnd(Unlines(lines)) == Join(TrimLines(lines), '\n')
    decreases |lines|
  {
    if lines != [] {
      var init, last := lines[..|lines| - 1], lines[|lines| - 1];
      assert lines == init + [last];
      UnlinesMore(init, last);
      TrimEndConcat(Unlines(init) + last, "\n");
      assert TrimEnd("\n") == "" by { assert "\n"[..0] == ""; }
      TrimEndConcat(Unlines(init), last);
      TrimEndOfLines(init);
      JoinInit(init, TrimEnd(last));
    }
  }

  /** The lines of the kept text: at least one, possibly empty. */
  function BodyLines(text: string): seq<string> {
    var lines := TrimLines(Outside(Lines(text), false));
    if lines == [] then [""] else lines
  }

  lemma SyncedLines(text: string, hosts: seq<string>)
    ensures Synced(text, hosts) == Unlines(BodyLines(text) + BlockLines(hosts))
  {
    hide TrimEnd, Lines, Outside, BlockLines, TrimLines;
    var kept := Outside(Lines(text), false);
    var body := TrimLines(kept);
    TrimEndOfLines(kept);
    UnlinesConcat(BodyLines(text), BlockLines(hosts));
    if body == [] {
      assert Unlines([""]) == "" + "\n" + "" by { assert [""][1..] == []; }
    } else {
      assert body == body[..|body| - 1] + [body[|body| - 1]];
      JoinInit(body[..|body| - 1], body[|body| - 1]);
      UnlinesMore(body[..|body| - 1], body[|body| - 1]);
    }
  }

  lemma LinesOfUnlines(lines: seq<string>)
    requires Without(lines, '\n')
    ensures Lines(Unlines(lines)) == Chomped(lines)
  {
    hide Split, Join, Unlines;
    JoinInit(lines, "");
    assert Unlines(lines) + "" == Unlines(lines);
    SplitJoined(lines + [""], '\n');
    assert (lines + [""])[..|lines|] == lines;
  }

  // ---- what the kept lines look like ----

  ghost predicate NoMarkers(lines: seq<string>) {
    forall i | 0 <= i < |lines| :: !Marker(lines[i])
  }

  lemma {:induction false} OutsideOnly(lines: seq<string>, inBlock: bool)
    requires Without(lines, '\n')
    ensures Without(Outside(lines, inBlock), '\n') && NoMarkers(Outside(lines, inBlock))
    decreases |lines|
  {
    hide Marker, Flag;
    if lines != [] { OutsideOnly(lines[1..], Flag(lines[0], inBlock)); }
  }

  lemma {:induction false} TrimLinesShape(lines: seq<string>) returns (k: nat)
    ensures k <= |lines| && |TrimLines(lines)| == k
    ensures forall i | k <= i < |lines| :: TrimEnd(lines[i]) == ""
    ensures forall i | 0 <= i < k - 1 :: TrimLines(lines)[i] == lines[i]
    ensures k > 0 ==> TrimLines(lines)[k - 1] == TrimEnd(lines[k - 1]) != ""
    decreases |lines|
  {
    k := 0;
    if lines != [] {
      var init, last := lines[..|lines| - 1], lines[|lines| - 1];
      if TrimEnd(last) == "" { k := TrimLinesShape(init); } else { k := |lines|; }
    }
  }

  lemma BodyLinesShape(text: string)
    ensures Without(BodyLines(text), '\n') && NoMarkers(BodyLines(text)) && BodyLines(text) != []
    ensures var last := BodyLines(text)[|BodyLines(text)| - 1];
      && TrimEnd(last) == last && (last == "" ==> |BodyLines(text)| == 1)
      && (last != "" ==> last[|last| - 1] != '\r')
  {
    hide Outside, Lines, Trim, TrimEnd, TrimLines;
    LinesHoldNoNewline(text);
    OutsideOnly(Lines(text), false);
    var kept := Outside(Lines(text), false);
    var k := TrimLinesShape(kept);
    assert Trim("") == "" by { EmptyTrims(); }
    if k > 0 {
      TrimOfTrimEnd(kept[k - 1]);
      TrimEndIsPrefix(kept[k - 1]);
      assert '\n' !in kept[k - 1];
    } else {
      EmptyTrims();
    }
  }

  lemma EmptyTrims()
    ensures Trim("") == "" && TrimEnd("") == ""
  {
  }

  lemma LinesHoldNoNewline(text: string)
    ensures Without(Lines(text), '\n')
  {
    hide Split, Join;
    JoinedSplit(text, '\n');
  }

  lemma OutsideHead(a: seq<string>, inBlock: bool)
    requires a != []
    ensures Outside(a, inBlock) ==
      (if Marker(a[0]) || inBlock then [] else [a[0]]) + Outside(a[1..], Flag(a[0], inBlock))
  {
    hide Marker, Flag;
  }

  lemma NoneOutside(inBlock: bool)
    ensures Outside([], inBlock) == [] && FlagAfter([], inBlock) == inBlock
  {
  }

  lemma {:induction false} OutsideConcat(a: seq<string>, b: seq<string>, inBlock: bool)
    ensures Outside(a + b, inBlock) == Outside(a, inBlock) + Outside(b, FlagAfter(a, inBlock))
    decreases |a|
  {
    hide Marker, Flag, Outside, FlagAfter;
    if a == [] {
      NoneOutside(inBlock);
      assert a + b == b && [] + Outside(b, inBlock) == Outside(b, inBlock);
    } else {
      assert (a + b)[1..] == a[1..] + b && (a + b)[0] == a[0];
      OutsideHead(a + b, inBlock);
      OutsideHead(a, inBlock);
      OutsideConcat(a[1..], b, Flag(a[0], inBlock));
      FlagHead(a, inBlock);
    }
  }

  lemma FlagHead(a: seq<string>, inBlock: bool)
    requires a != []
    ensures FlagAfter(a, inBlock) == FlagAfter(a[1..], Flag(a[0], inBlock))
  {
    hide Flag;
  }

  lemma InsideHead(a: seq<string>, inBlock: bool)
    requires a != []
    ensures Inside(a, inBlock) ==
      (if !Marker(a[0]) && inBlock then [a[0]] else []) + Inside(a[1..], Flag(a[0], inBlock))
  {
    hide Marker, Flag;
  }

  lemma NoneInside(inBlock: bool)
    ensures Inside([], inBlock) == [] && FlagAfter([], inBlock) == inBlock
  {
  }

  lemma {:induction false} InsideConcat(a: seq<string>, b: seq<string>, inBlock: bool)
    ensures Inside(a + b, inBlock) == Inside(a, inBlock) + Inside(b, FlagAfter(a, inBlock))
    decreases |a|
  {
    hide Marker, Flag, Inside, FlagAfter;
    if a == [] {
      NoneInside(inBlock);
      assert a + b == b && [] + Inside(b, inBlock) == Inside(b, inBlock);
    } else {
      assert (a + b)[1..] == a[1..] + b && (a + b)[0] == a[0];
      InsideHead(a + b, inBlock);
      InsideHead(a, inBlock);
      InsideConcat(a[1..], b, Flag(a[0], inBlock));
      FlagHead(a, inBlock);
    }
  }

  lemma {:induction false} PlainLinesPass(lines: seq<string>, inBlock: bool)
    requires NoMarkers(lines)
    ensures FlagAfter(lines, inBlock) == inBlock
    ensures Outside(lines, inBlock) == if inBlock then [] else lines
    ensures Inside(lines, inBlock) == if inBlock then lines else []
    decreases |lines|
  {
    hide Trim;
    if lines != [] {
      assert !Marker(lines[0]);
      PlainLinesPass(lines[1..], inBlock);
      assert lines == [lines[0]] + lines[1..];
    }
  }

  function Entries(hosts: seq<string>): seq<string> {
    seq(|hosts|, i requires 0 <= i < |hosts| => LOOPBACK + hosts[i])
  }

  ghost predicate AllValid(hosts: seq<string>) {
    forall i | 0 <= i < |hosts| :: ValidHostname(hosts[i])
  }

  lemma MarkersAreTrimmed()
    ensures Trim(HOSTS_BEGIN) == HOSTS_BEGIN && Trim(HOSTS_END) == HOSTS_END
  {
    TrimmedIsKept(HOSTS_BEGIN);
    TrimmedIsKept(HOSTS_END);
  }

  lemma EntryIsPlain(h: string)
    requires ValidHostname(h)
    ensures !Marker(LOOPBACK + h) && '\n' !in LOOPBACK + h && Chomp(LOOPBACK + h) == LOOPBACK + h
  {
    var line := LOOPBACK + h;
    assert line[0] == '1';
    assert HostChar(line[|line| - 1]);
    assert Trimmed(line);
    TrimmedIsKept(line);
    assert HOSTS_BEGIN[0] == '#' && HOSTS_END[0] == '#';
  }

  lemma EntriesArePlain(hosts: seq<string>)
    requires AllValid(hosts)
    ensures NoMarkers(Entries(hosts)) && Without(Entries(hosts), '\n') && Chomped(Entries(hosts)) == Entries(hosts)
  {
    hide Trim, ValidHostname, Marker, Chomp;
    forall i | 0 <= i < |hosts|
      ensures !Marker(LOOPBACK + hosts[i]) && '\n' !in LOOPBACK + hosts[i] && Chomp(LOOPBACK + hosts[i]) == LOOPBACK + hosts[i]
    {
      EntryIsPlain(hosts[i]);
    }
  }

  lemma BlockIsText(hosts: seq<string>)
    requires AllValid(hosts)
    ensures Without(BlockLines(hosts), '\n') && Chomped(BlockLines(hosts)) == BlockLines(hosts)
  {
    hide Trim, ValidHostname, Marker, Chomp, AllValid;
    EntriesArePlain(hosts);
    MarkersHoldNoNewline();
    if hosts != [] { assert BlockLines(hosts) == [HOSTS_BEGIN] + Entries(hosts) + [HOSTS_END]; }
  }

  lemma BlockShape(hosts: seq<string>)
    requires AllValid(hosts)
    ensures Without(BlockLines(hosts), '\n') && Chomped(BlockLines(hosts)) == BlockLines(hosts)
    ensures Outside(BlockLines(hosts), false) == [] && Inside(BlockLines(hosts), false) == Entries(hosts)
  {
    hide Trim, ValidHostname, Marker, Outside, Inside, FlagAfter, Chomp, AllValid, NoMarkers, Chomped, Without;
    BlockIsText(hosts);
    EntriesArePlain(hosts);
    if hosts == [] {
      NothingInNothing();
    } else {
      var entries := Entries(hosts);
      assert BlockLines(hosts) == [HOSTS_BEGIN] + entries + [HOSTS_END];
      BeginOpens();
      PlainLinesPass(entries, true);
      EndCloses();
      OutsideConcat([HOSTS_BEGIN], entries, false);
      InsideConcat([HOSTS_BEGIN], entries, false);
      FlagConcat([HOSTS_BEGIN], entries, false);
      OutsideConcat([HOSTS_BEGIN] + entries, [HOSTS_END], false);
      InsideConcat([HOSTS_BEGIN] + entries, [HOSTS_END], false);
    }
  }

  lemma NothingInNothing()
    ensures Outside([], false) == [] && Inside([], false) == []
  {
  }

  lemma MarkersHoldNoNewline()
    ensures '\n' !in HOSTS_BEGIN && '\n' !in HOSTS_END
    ensures Chomp(HOSTS_BEGIN) == HOSTS_BEGIN && Chomp(HOSTS_END) == HOSTS_END
  {
  }

  lemma BeginOpens()
    ensures Outside([HOSTS_BEGIN], false) == [] && Inside([HOSTS_BEGIN], false) == []
    ensures FlagAfter([HOSTS_BEGIN], false) == true
  {
    hide Trim;
    MarkersAreTrimmed();
    assert [HOSTS_BEGIN][1..] == [];
  }

  lemma EndCloses()
    ensures Outside([HOSTS_END], true) == [] && Inside([HOSTS_END], true) == []
  {
    hide Trim;
    MarkersAreTrimmed();
    assert [HOSTS_END][1..] == [];
  }

  lemma {:induction false} FlagConcat(a: seq<string>, b: seq<string>, inBlock: bool)
    ensures FlagAfter(a + b, inBlock) == FlagAfter(b, FlagAfter(a, inBlock))
    decreases |a|
  {
    hide Flag;
    if a == [] {
      assert a + b == b;
    } else {
      FlagConcat(a[1..], b, Flag(a[0], inBlock));
      assert (a + b)[1..] == a[1..] + b;
    }
  }

  // ---- the laws ----

  lemma LinesAfterSync(text: string, hosts: seq<string>)
    requires AllValid(hosts)
    ensures Lines(Synced(text, hosts)) == Chomped(BodyLines(text)) + BlockLines(hosts)
    ensures NoMarkers(Chomped(BodyLines(text)))
    ensures Outside(Lines(Synced(text, hosts)), false) == Chomped(BodyLines(text))
    ensures Inside(Lines(Synced(text, hosts)), false) == Entries(hosts)
  {
    hide Trim, AllValid, Outside, Inside, FlagAfter, BlockLines, BodyLines, Synced, Unlines, Lines, Entries, Chomp;
    SyncedLines(text, hosts);
    BodyLinesShape(text);
    BlockShape(hosts);
    var body, block := BodyLines(text), BlockLines(hosts);
    LinesOfUnlines(body + block);
    assert Chomped(body + block) == Chomped(body) + Chomped(block);
    forall i | 0 <= i < |body|
      ensures !Marker(Chomped(body)[i])
    {
      assert !Marker(body[i]);
      TrimOfChomp(body[i]);
    }
    OutsideConcat(Chomped(body), block, false);
    InsideConcat(Chomped(body), block, false);
    PlainLinesPass(Chomped(body), false);
  }

  /** Reading the block back gives exactly the hosts that were synced, whatever
      the file held before. */
  lemma BlockReadsBack(text: string, hosts: seq<string>)
    requires AllValid(hosts)
    ensures Inside(Lines(Synced(text, hosts)), false) == Entries(hosts)
    ensures forall i | 0 <= i < |hosts| :: Entries(hosts)[i][|LOOPBACK|..] == hosts[i]
  {
    LinesAfterSync(text, hosts);
  }

  /** Lines outside the block survive a sync, in order: all up to the last that is
      not blank, which loses its trailing white space, and none after it; a line
      that still ended in a carriage return loses it. */
  lemma OutsideSurvives(text: string, hosts: seq<string>) returns (k: nat)
    requires AllValid(hosts)
    ensures var before, after := Outside(Lines(text), false), Outside(Lines(Synced(text, hosts)), false);
      && k <= |before| && (forall i | k <= i < |before| :: TrimEnd(before[i]) == "")
      && (k == 0 ==> after == [""])
      && (k > 0 ==> |after| == k && after[k - 1] == TrimEnd(before[k - 1]) && TrimEnd(before[k - 1]) != ""
                    && forall i | 0 <= i < k - 1 :: after[i] == Chomp(before[i]))
  {
    hide Trim, AllValid, Outside, BlockLines, Synced, Lines, TrimLines, TrimEnd;
    k := TrimLinesShape(Outside(Lines(text), false));
    LinesAfterSync(text, hosts);
    BodyLinesShape(text);
  }

  /** No kept line, once its line ending is off, still ends in a carriage return. */
  ghost predicate NoStrayReturns(text: string) {
    forall i | 0 <= i < |BodyLines(text)| :: Chomp(BodyLines(text)[i]) == BodyLines(text)[i]
  }

  lemma BlankTrimsAway()
    ensures TrimLines([""]) == []
  {
    EmptyTrims();
    assert [""][..0] == [];
    assert TrimLines([]) == [];
  }

  lemma BodyAfterSync(text: string, hosts: seq<string>)
    requires AllValid(hosts)
    ensures BodyLines(Synced(text, hosts)) == Chomped(BodyLines(text))
  {
    hide Trim, AllValid, Outside, BlockLines, Synced, Lines, TrimEnd;
    LinesAfterSync(text, hosts);
    BodyLinesShape(text);
    var body := BodyLines(text);
    var chomped := Chomped(body);
    assert chomped[|chomped| - 1] == body[|body| - 1];
    if body[|body| - 1] == "" {
      assert chomped == [""];
      BlankTrimsAway();
    } else {
      assert chomped == chomped[..|chomped| - 1] + [chomped[|chomped| - 1]];
    }
  }

  lemma UnlinesIsInjective(a: seq<string>, b: seq<string>)
    requires Without(a, '\n') && Without(b, '\n') && Unlines(a) == Unlines(b)
    ensures a == b
  {
    hide Split, Join, Unlines;
    JoinInit(a, "");
    JoinInit(b, "");
    SplitJoined(a + [""], '\n');
    SplitJoined(b + [""], '\n');
    assert a == (a + [""])[..|a|] && b == (b + [""])[..|b|];
  }

  /** A sync is the last word: syncing one list and then another (or clearing)
      gives what syncing the second alone gives, exactly when the kept text has
      no stray carriage returns. */
  lemma LastSyncWinsIff(text: string, first: seq<string>, second: seq<string>)
    requires AllValid(first) && AllValid(second)
    ensures Synced(Synced(text, first), second) == Synced(text, second) <==> NoStrayReturns(text)
  {
    hide Trim, AllValid, Outside, BlockLines, Synced, Lines, TrimEnd, BodyLines, Chomp;
    BodyAfterSync(text, first);
    SyncedLines(text, second);
    SyncedLines(Synced(text, first), second);
    BodyLinesShape(text);
    BodyLinesShape(Synced(text, first));
    BlockShape(second);
    var body, block := BodyLines(text), BlockLines(second);
    if Synced(Synced(text, first), second) == Synced(text, second) {
      UnlinesIsInjective(Chomped(body) + block, body + block);
      assert Chomped(body) == (Chomped(body) + block)[..|body|] && body == (body + block)[..|body|];
    } else {
      assert Chomped(body) != body;
    }
  }

  /** A file without carriage returns has no stray ones. */
  lemma PlainFilesHaveNone(text: string)
    requires '\r' !in text
    ensures NoStrayReturns(text)
  {
    hide Trim, Outside, Lines, TrimEnd, TrimLines;
    LinesComeFromText(text);
    OutsideComesFromLines(Lines(text), false);
    var kept := Outside(Lines(text), false);
    var k := TrimLinesShape(kept);
    BodyLinesShape(text);
  }

  lemma LinesComeFromText(text: string)
    requires '\r' !in text
    ensures Without(Lines(text), '\r')
  {
    hide Split;
    PiecesLack(text, '\n', '\r');
  }

  lemma {:induction false} PiecesLack(s: string, sep: char, c: char)
    requires c !in s
    ensures Without(Split(s, sep), c)
    decreases |s|
  {
    if s != "" { PiecesLack(s[1..], sep, c); }
  }

  lemma {:induction false} OutsideComesFromLines(lines: seq<string>, inBlock: bool)
    requires Without(lines, '\r')
    ensures Without(Outside(lines, inBlock), '\r')
    decreases |lines|
  {
    hide Marker, Flag;
    if lines != [] { OutsideComesFromLines(lines[1..], Flag(lines[0], inBlock)); }
  }

  /** A line ending in two carriage returns is such a case: the first sync leaves
      one of them in the text, the next takes it away. */
  lemma DoubleReturnIsLostLater(a: string, b: string, first: seq<string>, second: seq<string>)
    requires '\n' !in a && '\n' !in b && !Marker(a + "\r") && !Marker(b)
    requires b != "" && TrimEnd(b) == b && AllValid(first) && AllValid(second)
    ensures var text := a + "\r\r\n" + b + "\n";
      !NoStrayReturns(text) && Synced(Synced(text, first), second) != Synced(text, second)
  {
    var text := a + "\r\r\n" + b + "\n";
    TwoLines(a, b);
    assert BodyLines(text)[0] == a + "\r" && Chomp(a + "\r") == a;
    LastSyncWinsIff(text, first, second);
  }

  lemma TwoLinesRead(a: string, b: string)
    requires '\n' !in a && '\n' !in b && b != "" && TrimEnd(b) == b
    ensures Lines(a + "\r\r\n" + b + "\n") == [a + "\r", b]
  {
    hide TrimEnd, Lines, Unlines;
    var lines := [a + "\r\r", b];
    UnlinesMore([a + "\r\r"], b);
    UnlinesMore([], a + "\r\r");
    EmptyBlock();
    assert [] + [a + "\r\r"] == [a + "\r\r"] && [a + "\r\r"] + [b] == lines;
    assert "" + (a + "\r\r") + "\n" + b + "\n" == a + "\r\r\n" + b + "\n";
    LinesOfUnlines(lines);
    TrimEndIsPrefix(b);
    assert b[|b| - 1] != '\r' by { NotASpace(b); }
    assert (a + "\r\r")[..|a| + 1] == a + "\r";
    assert Chomped(lines) == [a + "\r", b];
  }

  lemma TwoLines(a: string, b: string)
    requires '\n' !in a && '\n' !in b && !Marker(a + "\r") && !Marker(b) && b != "" && TrimEnd(b) == b
    ensures BodyLines(a + "\r\r\n" + b + "\n") == [a + "\r", b]
  {
    hide Marker, TrimEnd, Lines, Outside;
    TwoLinesRead(a, b);
    var kept := [a + "\r", b];
    PlainLinesPass(kept, false);
    assert kept[..1] == [a + "\r"] && [a + "\r"] + [b] == kept;
  }

  lemma NotASpace(b: string)
    requires b != "" && TrimEnd(b) == b
    ensures b[|b| - 1] != '\r'
  {
    TrimEndIsPrefix(b);
  }

  /** For one: two short lines. */
  lemma StrayReturnExample()
    ensures var text := "a" + "\r\r\n" + "b" + "\n";
      !NoStrayReturns(text) && Synced(Synced(text, []), []) != Synced(text, [])
  {
    assert Trimmed("a") && Trimmed("b");
    TrimDropsLast("a", '\r');
    TrimmedIsKept("a");
    TrimmedIsKept("b");
    assert "a" + ['\r'] == "a" + "\r";
    DoubleReturnIsLostLater("a", "b", [], []);
  }

  // ---- what the system reads ----

  predicate Blank(c: char) {
    c == ' ' || c == '\t'
  }

  /** The fields of a hosts-file line: blanks separate them, and `#` ends the line. */
  function Fields(line: string, field: string): seq<string>
    decreases |line|
  {
    if line == "" || line[0] == '#' then (if field == "" then [] else [field])
    else if Blank(line[0]) then (if field == "" then [] else [field]) + Fields(line[1..], "")
    else Fields(line[1..], field + [line[0]])
  }

  /** A line as the system reads it: an address and the names that have it. */
  function EntryOf(line: string): Option<(string, seq<string>)> {
    var fields := Fields(line, "");
    if fields == [] then None else Some((fields[0], fields[1..]))
  }

  lemma {:induction false} FieldGoesOn(word: string, rest: string, field: string)
    requires forall i | 0 <= i < |word| :: !Blank(word[i]) && word[i] != '#'
    ensures Fields(word + rest, field) == Fields(rest, field + word)
    decreases |word|
  {
    if word == "" {
      assert word + rest == rest && field + word == field;
    } else {
      assert (word + rest)[1..] == word[1..] + rest && (word + rest)[0] == word[0];
      FieldGoesOn(word[1..], rest, field + [word[0]]);
      assert field + [word[0]] + word[1..] == field + word;
    }
  }

  lemma HostLineIsRead(host: string)
    requires host != "" && forall i | 0 <= i < |host| :: !Blank(host[i]) && host[i] != '#'
    ensures EntryOf("127.0.0.1" + ("\t" + host)) == Some(("127.0.0.1", [host]))
  {
    FieldGoesOn("127.0.0.1", "\t" + host, "");
    assert "" + "127.0.0.1" == "127.0.0.1";
    assert ("\t" + host)[1..] == host && ("\t" + host)[0] == '\t';
    FieldGoesOn(host, "", "");
    assert host + "" == host && "" + host == host;
    assert Fields(host, "") == [host];
    assert Fields("127.0.0.1" + ("\t" + host), "") == ["127.0.0.1"] + [host];
  }

  lemma CommentsAreNotRead(line: string)
    requires line != "" && line[0] == '#'
    ensures EntryOf(line) == None
  {
  }

  /** What the system reads from the block after a sync: every host, at the loopback
      address, and the lines around them as comments. */
  lemma BlockIsRead(text: string, hosts: seq<string>)
    requires AllValid(hosts)
    ensures var lines := Inside(Lines(Synced(text, hosts)), false);
      |lines| == |hosts| && forall i | 0 <= i < |hosts| :: EntryOf(lines[i]) == Some(("127.0.0.1", [hosts[i]]))
    ensures EntryOf(HOSTS_BEGIN) == None && EntryOf(HOSTS_END) == None
  {
    hide Inside, Lines, Synced, EntryOf, AllValid;
    BlockReadsBack(text, hosts);
    forall i | 0 <= i < |hosts|
      ensures EntryOf(Entries(hosts)[i]) == Some(("127.0.0.1", [hosts[i]]))
    {
      ValidHasNoBlanks(hosts, i);
      HostLineIsRead(hosts[i]);
      assert Entries(hosts)[i] == "127.0.0.1" + ("\t" + hosts[i]);
    }
    CommentsAreNotRead(HOSTS_BEGIN);
    CommentsAreNotRead(HOSTS_END);
  }

  lemma ValidHasNoBlanks(hosts: seq<string>, i: nat)
    requires AllValid(hosts) && i < |hosts|
    ensures hosts[i] != "" && forall j | 0 <= j < |hosts[i]| :: !Blank(hosts[i][j]) && hosts[i][j] != '#'
  {
  }

  /** Any name of letters and digits under any such top-level domain, within the 253
      characters of section 2.3.4 of RFC 1035, is accepted. */
  lemma OrdinaryHostsAreValid(name: string, tld: string)
    requires name != "" && |name| + 1 + |tld| <= 253
    requires forall i | 0 <= i < |name| :: 'a' <= name[i] <= 'z' || '0' <= name[i] <= '9' || (i > 0 && name[i] == '-')
    requires forall i | 0 <= i < |tld| :: 'a' <= tld[i] <= 'z'
    ensures ValidHostname(name + "." + tld)
  {
    var h := name + "." + tld;
    forall i | 0 <= i < |h|
      ensures HostChar(h[i])
    {
      if i > |name| { assert h[i] == tld[i - |name| - 1]; }
    }
  }

  /** And whatever could end a host's line or field, or quote something, is not. */
  lemma StrayCharactersAreRefused(h: string, i: nat)
    requires i < |h| && h[i] in {' ', '\t', '\n', '\r', '#', '\'', '\"', '\\', '/', '_', ':', ';'}
    ensures !ValidHostname(h)
  {
  }

  /** Nor is a name of no or more than 253 characters, or one that begins with a dot or
      looks like an option. */
  lemma OddHostsAreRefused(h: string)
    requires h == "" || |h| >= 254 || h[0] == '.' || h[0] == '-'
    ensures !ValidHostname(h)
  {
  }

  /** The block of a sync stands between the two markers. */
  lemma BlockIsMarked(hosts: seq<string>)
    ensures BlockLines([]) == []
    ensures hosts != [] ==>
      var block := BlockLines(hosts);
      && |block| == |hosts| + 2
      && block[0] == "# >>> dpl managed (do not edit) >>>" && block[|hosts| + 1] == "# <<< dpl managed <<<"
  {
  }
}
