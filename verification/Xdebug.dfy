/** Xdebug modes: the canonical form php-fpm masters are keyed by. */
module Xdebug {
  import opened Wrappers
  import opened Text
  import opened Sorting

  const MODES: seq<string> := ["off", "develop", "coverage", "debug", "gcstats", "profile", "trace"]

  /** The same modes in lexicographic order. */
  const SORTED: seq<string> := ["coverage", "debug", "develop", "gcstats", "off", "profile", "trace"]

  datatype Mode = Mode(text: string) {
    function Slug(): string {
      seq(|text|, i requires 0 <= i < |text| => if text[i] == ',' then '-' else text[i])
    }

    predicate Has(part: string) {
      part in Split(text, ',')
    }
  }

  datatype ParseError = UnknownMode | OffCombined

  function Piece(raw: string, i: nat): string
    requires i < |Split(raw, ',')|
  {
    Lower(Trim(Split(raw, ',')[i]))
  }

  /** The names a spelling lists. */
  function Names(raw: string): set<string> {
    set i | 0 <= i < |Split(raw, ',')| && Piece(raw, i) != [] :: Piece(raw, i)
  }

  /** The set of modes a spelling means: an empty list means `off`. */
  function Meant(raw: string): set<string> {
    if Names(raw) == {} then {"off"} else Names(raw)
  }

  /** The members of `names` among the first `n` modes, in order. */
  function Chosen(names: set<string>, n: nat): seq<string>
    requires n <= |SORTED|
  {
    if n == 0 then [] else
    Chosen(names, n - 1) + if SORTED[n - 1] in names then [SORTED[n - 1]] else []
  }

  function Canonical(names: set<string>): Mode {
    Mode(Join(Chosen(names, |SORTED|), ','))
  }

  predicate Acceptable(names: set<string>) {
    names != {} && (forall m | m in names :: m in MODES) && ("off" in names ==> names == {"off"})
  }

  function Parsed(raw: string): Result<Mode, ParseError> {
    if exists m | m in Names(raw) :: m !in MODES then Err(UnknownMode)
    else if !Acceptable(Meant(raw)) then Err(OffCombined)
    else Ok(Canonical(Meant(raw)))
  }

  // ---- the sorted list ----

  ghost predicate Ascending(parts: seq<string>) {
    forall i, j | 0 <= i < j < |parts| :: Less(parts[i], parts[j])
  }

  lemma SortedIsAscending()
    ensures Ascending(SORTED)
    ensures forall m :: m in SORTED <==> m in MODES
  {
    assert Less("coverage", "debug") && Less("debug", "develop") && Less("develop", "gcstats");
  }

  lemma {:induction false} AscendingIsUnique(a: seq<string>, b: seq<string>)
    requires Ascending(a) && Ascending(b) && forall x :: x in a <==> x in b
    ensures a == b
    decreases |a|
  {
    hide Less;
    if a == [] || b == [] {
      NoMembers(a);
      NoMembers(b);
    } else {
      HeadIsLeast(a, b[0]);
      HeadIsLeast(b, a[0]);
      LessTotal(a[0], b[0]);
      forall x
        ensures x in a[1..] <==> x in b[1..]
      {
        RestHolds(a, x);
        RestHolds(b, x);
      }
      AscendingIsUnique(a[1..], b[1..]);
      assert a == [a[0]] + a[1..] && b == [b[0]] + b[1..];
    }
  }

  lemma NoMembers(a: seq<string>)
    ensures a == [] <==> forall x :: x !in a
  {
    if a != [] { assert a[0] in a; }
  }

  lemma HeadIsLeast(a: seq<string>, x: string)
    requires Ascending(a) && x in a
    ensures x == a[0] || Less(a[0], x)
  {
    hide Less;
  }

  lemma RestHolds(a: seq<string>, x: string)
    requires Ascending(a) && a != []
    ensures x in a[1..] <==> x in a && x != a[0]
  {
    hide Less;
    LessTotal(a[0], a[0]);
    assert a == [a[0]] + a[1..];
  }

  lemma {:induction false} ChosenIsAscending(names: set<string>, n: nat)
    requires n <= |SORTED|
    ensures Ascending(Chosen(names, n))
    ensures forall x :: x in Chosen(names, n) <==> x in names && x in SORTED[..n]
    decreases n
  {
    hide Less;
    if n > 0 {
      ChosenIsAscending(names, n - 1);
      SortedIsAscending();
      assert SORTED[..n] == SORTED[..n - 1] + [SORTED[n - 1]];
      var before := Chosen(names, n - 1);
      forall i | 0 <= i < |before|
        ensures Less(before[i], SORTED[n - 1])
      {
        assert before[i] in SORTED[..n - 1];
      }
      assert Ascending(Chosen(names, n));
    }
  }

  /** A strictly ascending list of modes is the canonical list of its members. */
  lemma AscendingIsCanonical(parts: seq<string>, names: set<string>)
    requires Ascending(parts) && (forall x :: x in parts <==> x in names) && forall x | x in names :: x in MODES
    ensures Mode(Join(parts, ',')) == Canonical(names)
  {
    hide Less;
    SortedIsAscending();
    ChosenIsAscending(names, |SORTED|);
    assert SORTED[..|SORTED|] == SORTED;
    AscendingIsUnique(parts, Chosen(names, |SORTED|));
  }

  // ---- sorting and removing repeats ----

  ghost predicate NonDescending(parts: seq<string>) {
    forall i, j | 0 <= i < j < |parts| :: !Less(parts[j], parts[i])
  }

  function Self(part: string): string {
    part
  }

  function Dedup(parts: seq<string>): seq<string>
    decreases |parts|
  {
    if |parts| < 2 then parts
    else if parts[0] == parts[1] then Dedup(parts[1..])
    else [parts[0]] + Dedup(parts[1..])
  }

  lemma {:induction false} DedupAscends(parts: seq<string>)
    requires NonDescending(parts)
    ensures Ascending(Dedup(parts)) && (forall y :: y in Dedup(parts) <==> y in parts)
    ensures parts != [] ==> Dedup(parts) != [] && Dedup(parts)[0] == parts[0]
    decreases |parts|
  {
    hide Less;
    if |parts| >= 2 {
      DedupAscends(parts[1..]);
      assert parts == [parts[0]] + parts[1..];
      if parts[0] != parts[1] {
        LessTotal(parts[0], parts[1]);
        var rest := Dedup(parts[1..]);
        forall j | 0 <= j < |rest|
          ensures Less(parts[0], rest[j])
        {
          HeadIsLeast(rest, rest[j]);
          if rest[j] != rest[0] { LessTransitive(parts[0], rest[0], rest[j]); }
        }
      }
    }
  }

  // ---- parsing ----

  /** Parsing a comma-separated list: unknown names and `off` beside others are
      refused; anything else becomes the one canonical spelling of its set. */
  method Parse(raw: string) returns (r: Result<Mode, ParseError>)
    ensures r == Parsed(raw)
  {
    hide Less, Sort, Dedup, Split, Lower, Trim, Canonical;
    var parts: seq<string> := [];
    for i := 0 to |Split(raw, ',')|
      invariant forall x :: x in parts <==> exists k | 0 <= k < i :: Piece(raw, k) == x && x != []
    {
      var piece := Piece(raw, i);
      if piece != [] { parts := parts + [piece]; }
    }
    assert forall x :: x in parts <==> x in Names(raw);
    if parts == [] {
      assert Names(raw) == {};
      OffIsCanonical();
      return Ok(Mode("off"));
    }
    assert parts[0] in Names(raw);
    for i := 0 to |parts|
      invariant forall k | 0 <= k < i :: parts[k] in MODES
    {
      if parts[i] !in MODES {
        assert parts[i] in Names(raw);
        return Err(UnknownMode);
      }
    }
    SortSorts(Self, parts);
    DedupAscends(Sort(Self, parts));
    parts := Dedup(Sort(Self, parts));
    AscendingIsCanonical(parts, Names(raw));
    if "off" in parts {
      if |parts| > 1 {
        assert Less(parts[0], parts[1]);
        LessTotal(parts[0], parts[0]);
        assert parts[0] in Names(raw) && parts[1] in Names(raw);
        return Err(OffCombined);
      }
      assert Names(raw) == {"off"};
      OffIsCanonical();
      return Ok(Mode("off"));
    }
    return Ok(Mode(Join(parts, ',')));
  }

  lemma OffIsCanonical()
    ensures Canonical({"off"}) == Mode("off") && Acceptable({"off"})
  {
    hide Less;
    assert Ascending(["off"]);
    AscendingIsCanonical(["off"], {"off"});
  }

  // ---- what the canonical form is good for ----

  /** Mode names are plain lower-case words. */
  predicate Plain(m: string) {
    m != [] && forall i | 0 <= i < |m| :: 'a' <= m[i] <= 'z'
  }

  lemma ModesArePlain(m: string)
    requires m in MODES
    ensures Plain(m) && m in SORTED && m != "spx" && m != "preload"
  {
    hide Less;
    SortedIsAscending();
  }

  lemma PlainSurvives(m: string)
    requires Plain(m)
    ensures Lower(Trim(m)) == m && ',' !in m && '-' !in m
  {
    TrimmedIsKept(m);
    LowerIsKept(m);
  }

  lemma ChosenPieces(names: set<string>)
    requires Acceptable(names)
    ensures var chosen := Chosen(names, |SORTED|);
      && chosen != [] && (forall x :: x in chosen <==> x in names)
      && (forall i | 0 <= i < |chosen| :: Plain(chosen[i]) && chosen[i] in MODES)
      && Without(chosen, ',') && Without(chosen, '-') && Split(Canonical(names).text, ',') == chosen
  {
    hide Plain, Less, Split, Join, Chosen;
    SortedIsAscending();
    ChosenIsAscending(names, |SORTED|);
    assert SORTED[..|SORTED|] == SORTED;
    var chosen := Chosen(names, |SORTED|);
    var x :| x in names;
    assert x in chosen;
    forall i | 0 <= i < |chosen|
      ensures Plain(chosen[i]) && ',' !in chosen[i] && '-' !in chosen[i] && chosen[i] in MODES
    {
      assert chosen[i] in chosen;
      ModesArePlain(chosen[i]);
      PlainSurvives(chosen[i]);
    }
    SplitJoined(chosen, ',');
  }

  /** Accepted is a list of the seven mode names in which `off` stands alone. */
  lemma AcceptedIff(raw: string)
    ensures Parsed(raw).Ok? <==>
      && (forall m | m in Names(raw) :: m in {"off", "develop", "coverage", "debug", "gcstats", "profile", "trace"})
      && ("off" in Names(raw) ==> forall m | m in Names(raw) :: m == "off")
    ensures Parsed(raw) == Err(UnknownMode) <==>
      exists m | m in Names(raw) :: m !in {"off", "develop", "coverage", "debug", "gcstats", "profile", "trace"}
  {
    hide Names, Canonical;
    var names := Names(raw);
    assert forall m :: m in MODES <==> m in {"off", "develop", "coverage", "debug", "gcstats", "profile", "trace"};
    if "off" in names && forall m | m in names :: m == "off" { assert names == {"off"}; }
  }

  /** A list that names nothing means `off`. */
  lemma NothingNamedIsOff(raw: string)
    requires forall c | c in raw :: c == ',' || IsSpace(c)
    ensures Parsed(raw) == Ok(Mode("off"))
  {
    hide Less, Canonical, Split, Trim, IsSpace;
    JoinedSplit(raw, ',');
    forall i | 0 <= i < |Split(raw, ',')|
      ensures Piece(raw, i) == ""
    {
      var piece := Split(raw, ',')[i];
      forall c | c in piece
        ensures IsSpace(c)
      {
        PieceIsPart(Split(raw, ','), i, c, ',');
      }
      SpaceIsTrimmedAway(piece);
    }
    assert Names(raw) == {};
    OffIsCanonical();
  }

  lemma {:induction false} PieceIsPart(pieces: seq<string>, i: nat, c: char, sep: char)
    requires i < |pieces| && c in pieces[i]
    ensures c in Join(pieces, sep)
    decreases |pieces|
  {
    if i > 0 { PieceIsPart(pieces[1..], i - 1, c, sep); }
  }

  lemma {:induction false} SpaceIsTrimmedAway(s: string)
    requires forall c | c in s :: IsSpace(c)
    ensures Trim(s) == ""
    decreases |s|
  {
    hide IsSpace;
    if s != "" {
      assert s[0] in s && forall c | c in s[1..] :: c in s;
      SpaceIsTrimmedAway(s[1..]);
    }
  }

  lemma PlainIsTrimmed(word: string)
    requires Plain(Lower(word))
    ensures Trimmed(word) && word != ""
  {
    assert word != "";
    LetterIsNoSpace(word, 0);
    LetterIsNoSpace(word, |word| - 1);
  }

  lemma LetterIsNoSpace(word: string, i: nat)
    requires i < |word| && 'a' <= Lower(word)[i] <= 'z'
    ensures !IsSpace(word[i])
  {
  }

  /** A mode by itself is read in any case and with any white space about it. */
  lemma OneModeIsRead(before: string, word: string, after: string)
    requires Lower(word) in MODES && ',' !in before + word + after && forall c | c in before + after :: IsSpace(c)
    ensures Parsed(before + word + after) == Ok(Mode(Lower(word)))
  {
    hide Less, Canonical;
    var raw, m := before + word + after, Lower(word);
    ModesArePlain(m);
    PlainIsTrimmed(word);
    SplitWhole(raw, ',');
    TrimTakesTheEdges(before, word, after);
    assert Piece(raw, 0) == m;
    assert Names(raw) == {m};
    assert Ascending([m]);
    assert Join([m], ',') == m;
    AscendingIsCanonical([m], {m});
  }

  lemma ParsedIsCanonical(raw: string)
    requires Parsed(raw).Ok?
    ensures Acceptable(Meant(raw)) && Parsed(raw).value == Canonical(Meant(raw))
  {
  }

  /** A parsed mode has exactly the parts its spelling names. */
  lemma HasIsMembership(raw: string, part: string)
    requires Parsed(raw).Ok?
    ensures Parsed(raw).value.Has(part) <==> part in Meant(raw)
  {
    hide Split, Chosen, Canonical, Meant;
    ParsedIsCanonical(raw);
    ChosenPieces(Meant(raw));
  }

  /** Two accepted spellings give equal modes exactly when they mean the same
      set: one php-fpm master per mode, however it was typed. */
  lemma EqualIffSameSet(raw1: string, raw2: string)
    requires Parsed(raw1).Ok? && Parsed(raw2).Ok?
    ensures Parsed(raw1) == Parsed(raw2) <==> Meant(raw1) == Meant(raw2)
  {
    hide Split, Chosen, Canonical, Meant, Parsed;
    ParsedIsCanonical(raw1);
    ParsedIsCanonical(raw2);
    ChosenPieces(Meant(raw1));
    ChosenPieces(Meant(raw2));
    if Parsed(raw1).value == Parsed(raw2).value {
      forall x
        ensures x in Meant(raw1) <==> x in Meant(raw2)
      {
        assert x in Chosen(Meant(raw1), |SORTED|) <==> x in Meant(raw1);
      }
      assert Meant(raw1) == Meant(raw2);
    }
  }

  /** The canonical text parses back to the same mode. */
  lemma ReparsingIsIdentity(raw: string)
    requires Parsed(raw).Ok?
    ensures Parsed(Parsed(raw).value.text) == Parsed(raw)
  {
    hide Split, Chosen, Plain, Less, Join, Lower, Trim;
    var names := Meant(raw);
    ParsedIsCanonical(raw);
    ChosenPieces(names);
    var text := Canonical(names).text;
    var chosen := Chosen(names, |SORTED|);
    forall i | 0 <= i < |chosen|
      ensures Piece(text, i) == chosen[i] && chosen[i] != []
    {
      PlainSurvives(chosen[i]);
      NotEmpty(chosen[i]);
    }
    forall x
      ensures x in Names(text) <==> x in names
    {
      if x in names {
        assert x in chosen;
        var k :| 0 <= k < |chosen| && chosen[k] == x;
        assert Piece(text, k) == x;
      }
    }
    assert Names(text) == names;
  }

  lemma NotEmpty(m: string)
    requires Plain(m)
    ensures m != []
  {
  }

  // ---- one directory per master ----

  function HexChar(d: nat): (c: char)
    requires d < 16
    ensures c != '-' && !('g' <= c <= 'z')
  {
    "0123456789abcdef"[d]
  }

  /** `n` as `k` lower-case hex digits. */
  function Hex(n: nat, k: nat): (r: string)
    ensures |r| == k
    ensures forall i | 0 <= i < k :: r[i] != '-' && !('g' <= r[i] <= 'z')
  {
    if k == 0 then [] else Hex(n / 16, k - 1) + [HexChar(n % 16)]
  }

  /** Whether `n` fits in `k` hex digits. */
  predicate HexFits(n: nat, k: nat) {
    if k == 0 then n == 0 else HexFits(n / 16, k - 1)
  }

  /** What a lower-case hex digit stands for. */
  function DigitOf(c: char): nat {
    if '0' <= c <= '9' then c as nat - '0' as nat else if 'a' <= c <= 'f' then c as nat - 'a' as nat + 10 else 0
  }

  function ReadHex(digits: string): nat
    decreases |digits|
  {
    if digits == "" then 0 else ReadHex(digits[..|digits| - 1]) * 16 + DigitOf(digits[|digits| - 1])
  }

  lemma HexCharReads(d: nat)
    requires d < 16
    ensures DigitOf(HexChar(d)) == d
  {
  }

  lemma LastHexDigit(n: nat, k: nat)
    requires k > 0
    ensures Hex(n, k)[k - 1] == HexChar(n % 16) && Hex(n, k)[..k - 1] == Hex(n / 16, k - 1)
  {
    hide HexChar;
  }

  /** The digits read back as the number. */
  lemma {:induction false} HexReadsBack(n: nat, k: nat)
    requires HexFits(n, k)
    ensures ReadHex(Hex(n, k)) == n
    decreases k
  {
    hide Hex, HexChar, DigitOf;
    if k > 0 {
      LastHexDigit(n, k);
      HexCharReads(n % 16);
      HexReadsBack(n / 16, k - 1);
      assert n == n / 16 * 16 + n % 16;
    }
  }

  lemma SixteenDigits(n: nat)
    requires n < 0x1_0000_0000_0000_0000
    ensures HexFits(n, 16)
  {
    SixteensAre();
    FitsBelow(n, 16);
  }

  function Sixteens(k: nat): nat {
    if k == 0 then 1 else 16 * Sixteens(k - 1)
  }

  lemma SixteensAre()
    ensures Sixteens(16) == 0x1_0000_0000_0000_0000
  {
    assert Sixteens(4) == 0x1_0000;
    assert Sixteens(8) == 0x1_0000_0000;
    assert Sixteens(12) == 0x1_0000_0000_0000;
  }

  lemma {:induction false} FitsBelow(n: nat, k: nat)
    requires n < Sixteens(k)
    ensures HexFits(n, k)
    decreases k
  {
    if k > 0 { FitsBelow(n / 16, k - 1); }
  }

  const HASH_DIGITS: nat := 16

  /** The last component of one master's directory: its mode, whether the
      profiler is loaded, and the hash of its preload script's path. */
  function MasterDir(mode: Mode, profile: bool, preload: Option<nat>): string {
    var slug := mode.Slug() + if profile then "-spx" else [];
    "fpm-" + match preload
             case None => slug
             case Some(hash) => slug + "-preload-" + Hex(hash, HASH_DIGITS)
  }

  /** The dash-separated words after `fpm-`. */
  function Words(names: set<string>, profile: bool, preload: Option<nat>): seq<string> {
    Chosen(names, |SORTED|) + (if profile then ["spx"] else [])
    + match preload
      case None => []
      case Some(hash) => ["preload", Hex(hash, HASH_DIGITS)]
  }

  function Dashed(s: string): string {
    seq(|s|, i requires 0 <= i < |s| => if s[i] == ',' then '-' else s[i])
  }

  lemma {:induction false} DashedJoin(pieces: seq<string>)
    requires Without(pieces, ',')
    ensures Dashed(Join(pieces, ',')) == Join(pieces, '-')
    decreases |pieces|
  {
    if |pieces| == 1 {
      assert Dashed(pieces[0]) == pieces[0];
    } else if |pieces| > 1 {
      DashedJoin(pieces[1..]);
      var tail := Join(pieces[1..], ',');
      assert Dashed(pieces[0] + [','] + tail) == Dashed(pieces[0]) + ['-'] + Dashed(tail);
      assert Dashed(pieces[0]) == pieces[0];
    }
  }

  lemma {:induction false} JoinMore(pieces: seq<string>, last: string, sep: char)
    requires pieces != []
    ensures Join(pieces + [last], sep) == Join(pieces, sep) + [sep] + last
    decreases |pieces|
  {
    if |pieces| > 1 {
      JoinMore(pieces[1..], last, sep);
      assert (pieces + [last])[1..] == pieces[1..] + [last];
    }
  }

  lemma SlugWords(names: set<string>, profile: bool)
    requires Acceptable(names)
    ensures var named := Chosen(names, |SORTED|) + if profile then ["spx"] else [];
      && named != [] && Without(named, '-')
      && Canonical(names).Slug() + (if profile then "-spx" else []) == Join(named, '-')
  {
    hide Split, Chosen, Join, Less, Plain;
    ChosenPieces(names);
    var chosen := Chosen(names, |SORTED|);
    DashedJoin(chosen);
    assert Canonical(names).Slug() == Dashed(Canonical(names).text) == Join(chosen, '-');
    if profile {
      JoinMore(chosen, "spx", '-');
      assert "-spx" == ['-'] + "spx";
    } else {
      assert chosen + [] == chosen && Join(chosen, '-') + [] == Join(chosen, '-');
    }
  }

  lemma PreloadWords(named: seq<string>, hex: string)
    requires named != []
    ensures Join(named + ["preload", hex], '-') == Join(named, '-') + "-preload-" + hex
  {
    hide Join;
    JoinMore(named, "preload", '-');
    JoinMore(named + ["preload"], hex, '-');
    assert named + ["preload"] + [hex] == named + ["preload", hex];
    var slug := Join(named, '-');
    assert ['-'] + "preload" + ['-'] == "-preload-";
    assert slug + ['-'] + "preload" + ['-'] + hex == slug + (['-'] + "preload" + ['-']) + hex;
  }

  lemma MasterDirWords(names: set<string>, profile: bool, preload: Option<nat>)
    requires Acceptable(names)
    ensures var dir := MasterDir(Canonical(names), profile, preload);
      |dir| >= 4 && Split(dir[4..], '-') == Words(names, profile, preload)
  {
    hide Split, Chosen, Hex, Join, Acceptable, Canonical, Less;
    SlugWords(names, profile);
    var named := Chosen(names, |SORTED|) + if profile then ["spx"] else [];
    match preload {
      case None =>
        SplitJoined(named, '-');
        assert named + [] == named;
      case Some(hash) =>
        var hex := Hex(hash, HASH_DIGITS);
        PreloadWords(named, hex);
        SplitJoined(named + ["preload", hex], '-');
    }
  }

  lemma WordsTellThemApart(names1: set<string>, profile1: bool, preload1: Option<nat>,
                           names2: set<string>, profile2: bool, preload2: Option<nat>)
    requires Acceptable(names1) && Acceptable(names2)
    requires Words(names1, profile1, preload1) == Words(names2, profile2, preload2)
    ensures names1 == names2 && profile1 == profile2 && preload1.Some? == preload2.Some?
    ensures preload1.Some? ==> Hex(preload1.value, HASH_DIGITS) == Hex(preload2.value, HASH_DIGITS)
  {
    hide Split, Chosen, Hex, Join, Canonical, Acceptable;
    var words1, words2 := Words(names1, profile1, preload1), Words(names2, profile2, preload2);
    ModeWords(names1, profile1, preload1);
    ModeWords(names2, profile2, preload2);
    assert profile1 <==> "spx" in words1;
    assert preload1.Some? <==> "preload" in words1;
    var c1, c2 := Chosen(names1, |SORTED|), Chosen(names2, |SORTED|);
    assert |c1| == |c2|;
    assert c1 == words1[..|c1|] && c2 == words2[..|c2|];
    forall x
      ensures x in names1 <==> x in names2
    {
      assert x in c1 <==> x in names1;
    }
    assert names1 == names2;
  }

  lemma ModeWords(names: set<string>, profile: bool, preload: Option<nat>)
    requires Acceptable(names)
    ensures var words := Words(names, profile, preload);
      && ("spx" in words <==> profile) && ("preload" in words <==> preload.Some?)
      && (preload.Some? ==> |words| > 0 && words[|words| - 1] == Hex(preload.value, HASH_DIGITS))
    ensures forall x :: x in Chosen(names, |SORTED|) <==> x in names
  {
    hide Split, Chosen, Join, Canonical, Acceptable, Less;
    ChosenPieces(names);
    var chosen := Chosen(names, |SORTED|);
    if "spx" in chosen { ModesArePlain("spx"); }
    if "preload" in chosen { ModesArePlain("preload"); }
    if preload.Some? {
      var hex := Hex(preload.value, HASH_DIGITS);
      assert hex != "spx" && hex != "preload";
    }
  }

  /** For one PHP binary, masters that differ in mode, profiler or the hash of
      their preload script never share a directory. */
  lemma MasterDirsAreDistinct(raw1: string, profile1: bool, preload1: Option<nat>,
                              raw2: string, profile2: bool, preload2: Option<nat>)
    requires Parsed(raw1).Ok? && Parsed(raw2).Ok?
    requires preload1.Some? ==> preload1.value < 0x1_0000_0000_0000_0000
    requires preload2.Some? ==> preload2.value < 0x1_0000_0000_0000_0000
    ensures MasterDir(Parsed(raw1).value, profile1, preload1) == MasterDir(Parsed(raw2).value, profile2, preload2) <==>
      Meant(raw1) == Meant(raw2) && profile1 == profile2 && preload1 == preload2
  {
    hide Split, Chosen, Hex, Meant, Parsed, Words, MasterDir, Canonical, Acceptable, HexFits;
    ParsedIsCanonical(raw1);
    ParsedIsCanonical(raw2);
    var names1, names2 := Meant(raw1), Meant(raw2);
    if MasterDir(Canonical(names1), profile1, preload1) == MasterDir(Canonical(names2), profile2, preload2) {
      MasterDirWords(names1, profile1, preload1);
      MasterDirWords(names2, profile2, preload2);
      WordsTellThemApart(names1, profile1, preload1, names2, profile2, preload2);
      if preload1.Some? {
        HashReadsBack(preload1.value);
        HashReadsBack(preload2.value);
      }
    }
  }

  lemma HashReadsBack(hash: nat)
    requires hash < 0x1_0000_0000_0000_0000
    ensures ReadHex(Hex(hash, HASH_DIGITS)) == hash
  {
    SixteenDigits(hash);
    HexReadsBack(hash, 16);
  }

  /** A master's directory names, between dashes, `fpm`, its modes, the profiler's `spx`
      and its preload script's hash in sixteen hex digits, and nothing else. */
  lemma MasterDirSays(raw: string, profile: bool, preload: Option<nat>)
    requires Parsed(raw).Ok? && (preload.Some? ==> preload.value < 0x1_0000_0000_0000_0000)
    ensures var words := Split(MasterDir(Parsed(raw).value, profile, preload), '-'); var n := |words|;
      && n > 1 && words[0] == "fpm"
      && (preload.Some? ==> n > 3 && words[n - 2] == "preload" && |words[n - 1]| == 16 && ReadHex(words[n - 1]) == preload.value)
      && var named := if preload.Some? then words[1..n - 2] else words[1..];
         && named != [] && (profile <==> named[|named| - 1] == "spx")
         && var modes := if profile then named[..|named| - 1] else named;
            forall m :: m in modes <==> m in Meant(raw)
  {
    hide Split, Chosen, Hex, Meant, Parsed, MasterDir, Canonical, Acceptable, Less;
    ParsedIsCanonical(raw);
    var names := Meant(raw);
    var dir := MasterDir(Canonical(names), profile, preload);
    MasterDirWords(names, profile, preload);
    DirIsPrefixed(Canonical(names), profile, preload);
    SplitHead("fpm", dir[4..], '-');
    var words := Split(dir, '-');
    assert words == ["fpm"] + Words(names, profile, preload);
    ModeWords(names, profile, preload);
    ChosenPieces(names);
    var chosen := Chosen(names, |SORTED|);
    LastIsNoSpx(chosen);
    if preload.Some? {
      HashReadsBack(preload.value);
      assert words[1..|words| - 2] == chosen + if profile then ["spx"] else [];
    } else {
      assert words[1..] == chosen + if profile then ["spx"] else [];
    }
    if profile { assert (chosen + ["spx"])[..|chosen|] == chosen; }
  }

  lemma LastIsNoSpx(chosen: seq<string>)
    requires chosen != [] && forall i | 0 <= i < |chosen| :: chosen[i] in MODES
    ensures chosen[|chosen| - 1] != "spx"
  {
    ModesArePlain(chosen[|chosen| - 1]);
  }

  lemma DirIsPrefixed(mode: Mode, profile: bool, preload: Option<nat>)
    ensures var dir := MasterDir(mode, profile, preload); |dir| >= 4 && dir == "fpm" + "-" + dir[4..]
  {
  }
}
