/** How a branch's parked database is named: `<base>@<branch>`, cut to
    PostgreSQL's 63-byte identifier limit with a hash suffix when it does not
    fit. Names are UTF-8 byte sequences, as the limit counts bytes. */
module Names {
  import opened Wrappers
  import opened Hashing

  newtype byte = b: int | 0 <= b < 256
  type Bytes = seq<byte>

  /** Postgres truncates longer identifiers. */
  const MAX: nat := 63
  /** A dash and eight hex digits. */
  const TAG_LEN: nat := 9
  const AT: byte := 0x40
  const DASH: byte := 0x2D

  function Full(base: Bytes, branch: Bytes): Bytes {
    base + [AT] + branch
  }

  predicate Fits(base: Bytes, branch: Bytes) {
    |base| + 1 + |branch| <= MAX
  }

  // ---- the hash suffix ----

  const FNV_OFFSET: nat := 0x811c_9dc5
  const FNV_PRIME: nat := 0x0100_0193
  const U32: nat := 0x1_0000_0000

  /** FNV-1a, a 32-bit accumulator with wrapping multiplication. */
  function FnvFold(hash: nat, bytes: Bytes): nat
    decreases |bytes|
  {
    if bytes == [] then hash
    else FnvFold(Xor(hash, bytes[0] as nat) * FNV_PRIME % U32, bytes[1..])
  }

  method Fnv1a(bytes: Bytes) returns (hash: nat)
    ensures hash == FnvFold(FNV_OFFSET, bytes)
  {
    hash := FNV_OFFSET;
    for i := 0 to |bytes|
      invariant FnvFold(hash, bytes[i..]) == FnvFold(FNV_OFFSET, bytes)
    {
      assert bytes[i..][0] == bytes[i] && bytes[i..][1..] == bytes[i + 1..];
      hash := Xor(hash, bytes[i] as nat);
      hash := hash * FNV_PRIME % U32;
    }
  }

  function HexDigit(n: nat): byte
    requires n < 16
  {
    if n < 10 then (0x30 + n) as byte else (0x61 + n - 10) as byte
  }

  /** The hex digit of `n` with `k` digits after it. */
  function Nibble(n: nat, k: nat): (d: nat)
    ensures d < 16
  {
    if k == 0 then n % 16 else Nibble(n / 16, k - 1)
  }

  /** `hash` as eight lower-case hex digits, after a dash. */
  function HashTag(hash: nat): (r: Bytes)
    ensures |r| == TAG_LEN
  {
    [DASH] + seq(TAG_LEN - 1, i requires 0 <= i < TAG_LEN - 1 => HexDigit(Nibble(hash, TAG_LEN - 2 - i)))
  }

  function Tag(full: Bytes): (r: Bytes)
    ensures |r| == TAG_LEN
  {
    HashTag(FnvFold(FNV_OFFSET, full))
  }

  // ---- truncation on a character boundary ----

  predicate Continuation(b: byte) {
    0x80 <= b < 0xC0
  }

  predicate CharBoundary(s: Bytes, i: nat)
    requires i <= |s|
  {
    i == 0 || i == |s| || !Continuation(s[i])
  }

  /** The last character boundary at or before `i`. */
  function Cut(s: Bytes, i: nat): (c: nat)
    requires i <= |s|
    ensures c <= i && CharBoundary(s, c)
  {
    if CharBoundary(s, i) then i else Cut(s, i - 1)
  }

  lemma {:induction false} CutIsTheLastBoundary(s: Bytes, i: nat, j: nat)
    requires j <= i <= |s| && CharBoundary(s, j)
    ensures j <= Cut(s, i)
  {
    if !CharBoundary(s, i) {
      CutIsTheLastBoundary(s, i - 1, j);
    }
  }

  /** A UTF-8 character has at most three continuation bytes. */
  predicate Utf8Runs(s: Bytes) {
    forall i | 0 <= i <= |s| - 4 ::
      !(Continuation(s[i]) && Continuation(s[i + 1]) && Continuation(s[i + 2]) && Continuation(s[i + 3]))
  }

  /** How much of an over-long name survives in front of its tag. */
  function Keep(full: Bytes): (k: nat)
    ensures k == MAX - TAG_LEN
  {
    MAX - |Tag(full)|
  }

  function ParkedName(base: Bytes, branch: Bytes): Bytes {
    var full := Full(base, branch);
    if |full| <= MAX then full else full[..Cut(full, Keep(full))] + Tag(full)
  }

  method BranchDbName(base: Bytes, branch: Bytes) returns (name: Bytes)
    ensures name == ParkedName(base, branch)
    ensures |name| <= MAX
  {
    var full := Full(base, branch);
    if |full| <= MAX {
      return full;
    }
    var hash := Fnv1a(full);
    var tag := HashTag(hash);
    var cut := MAX - |tag|;
    ghost var goal := Cut(full, cut);
    while !CharBoundary(full, cut)
      invariant goal <= cut <= |full| && cut <= MAX - |tag|
      invariant CharBoundary(full, goal)
      invariant Cut(full, cut) == goal
      decreases cut
    {
      cut := cut - 1;
    }
    name := full[..cut] + tag;
  }

  /** Undoes the naming, for a database name that starts with the base and `@`. */
  function BranchOfDb(base: Bytes, db: Bytes): Option<Bytes> {
    if base + [AT] <= db then Some(db[|base| + 1..]) else None
  }

  predicate ControlAt(s: Bytes, i: nat)
    requires i < |s|
  {
    s[i] < 0x20 || s[i] == 0x7F || (s[i] == 0xC2 && i + 1 < |s| && 0x80 <= s[i + 1] < 0xA0)
  }

  predicate SafeIdentifier(name: Bytes) {
    && 0 < |name| <= MAX
    && 0x22 !in name && 0x27 !in name && 0x5C !in name
    && forall i | 0 <= i < |name| :: !ControlAt(name, i)
  }

  // ---- what the naming promises ----

  lemma ParkedNameIsAnIdentifierLength(base: Bytes, branch: Bytes)
    ensures |ParkedName(base, branch)| <= MAX == 63
  {
    assert |Tag(Full(base, branch))| == TAG_LEN;
  }

  // ---- what the hash suffix promises ----

  /** A lower-case hexadecimal digit's value. */
  function HexValue(d: byte): Option<nat> {
    if 0x30 <= d <= 0x39 then Some(d as nat - 0x30)
    else if 0x61 <= d <= 0x66 then Some(d as nat - 0x61 + 10)
    else None
  }

  /** The number that hexadecimal digits write, the most significant first. */
  function ReadHex(digits: Bytes): Option<nat>
    decreases |digits|
  {
    if digits == [] then Some(0) else
    var high, last := ReadHex(digits[..|digits| - 1]), HexValue(digits[|digits| - 1]);
    if high.None? || last.None? then None else Some(high.value * 16 + last.value)
  }

  function HexDigits(n: nat, count: nat): Bytes {
    seq(count, i requires 0 <= i < count => HexDigit(Nibble(n, count - 1 - i)))
  }

  lemma AllButTheLastDigit(n: nat, count: nat)
    requires count > 0
    ensures var digits := HexDigits(n, count);
      digits[..count - 1] == HexDigits(n / 16, count - 1) && digits[count - 1] == HexDigit(n % 16)
  {
    hide HexDigit;
    var digits := HexDigits(n, count);
    forall i | 0 <= i < count - 1
      ensures digits[i] == HexDigits(n / 16, count - 1)[i]
    {
      assert Nibble(n, count - 1 - i) == Nibble(n / 16, count - 2 - i);
    }
    assert digits[count - 1] == HexDigit(Nibble(n, 0));
  }

  lemma HexDigitReads(d: nat)
    requires d < 16
    ensures HexValue(HexDigit(d)) == Some(d)
  {
  }

  lemma {:induction false} DigitsReadBack(n: nat, count: nat)
    requires n < Power2(4 * count)
    ensures ReadHex(HexDigits(n, count)) == Some(n)
    decreases count
  {
    hide HexDigit, HexValue, Nibble;
    if count > 0 {
      assert Power2(4) == 16;
      PowersMultiply(4, 4 * count - 4);
      DigitsReadBack(n / 16, count - 1);
      AllButTheLastDigit(n, count);
      HexDigitReads(n % 16);
    }
  }

  lemma U32IsAPower()
    ensures Power2(32) == U32
  {
    assert Power2(8) == 256;
    PowersMultiply(8, 8);
    PowersMultiply(16, 16);
  }

  lemma {:induction false} FoldStaysBelow(hash: nat, bytes: Bytes)
    requires hash < U32
    ensures FnvFold(hash, bytes) < U32
    decreases |bytes|
  {
    hide Xor;
    if bytes != [] { FoldStaysBelow(Xor(hash, bytes[0] as nat) * FNV_PRIME % U32, bytes[1..]); }
  }

  /** What follows the cut: a dash, and eight digits that read back as the hash of
      the full name. */
  lemma LongNamesEndInTheirHash(base: Bytes, branch: Bytes) returns (kept: nat)
    requires !Fits(base, branch)
    ensures kept <= |Full(base, branch)| && |ParkedName(base, branch)| == kept + 9
    ensures kept <= 54 < |Full(base, branch)| && CharBoundary(Full(base, branch), kept)
    ensures forall i | kept < i <= 54 :: !CharBoundary(Full(base, branch), i)
    ensures ParkedName(base, branch)[..kept] == Full(base, branch)[..kept]
    ensures ParkedName(base, branch)[kept] == 0x2D
    ensures ReadHex(ParkedName(base, branch)[kept + 1..]) == Some(FnvFold(FNV_OFFSET, Full(base, branch)))
  {
    hide FnvFold, ReadHex;
    var full := Full(base, branch);
    var hash := FnvFold(FNV_OFFSET, full);
    kept := Cut(full, Keep(full));
    forall i | kept < i <= 54
      ensures !CharBoundary(full, i)
    {
      if CharBoundary(full, i) { CutIsTheLastBoundary(full, Keep(full), i); }
    }
    FoldStaysBelow(FNV_OFFSET, full);
    U32IsAPower();
    DigitsReadBack(hash, 8);
    assert Tag(full)[1..] == HexDigits(hash, 8);
    assert ParkedName(base, branch)[kept..] == Tag(full);
    assert ParkedName(base, branch)[kept + 1..] == Tag(full)[1..];
  }

  /** The inverse of the multiplier modulo 2^32. */
  const FNV_INVERSE: nat := 0x359c_449b

  lemma OneMoreByte(g: nat, a: byte, h: nat, b: byte)
    requires g < U32 && h < U32 && (g == h || a == b)
    ensures Xor(g, a as nat) * FNV_PRIME % U32 == Xor(h, b as nat) * FNV_PRIME % U32 <==> g == h && a == b
  {
    hide Xor;
    U32IsAPower();
    assert FNV_PRIME * FNV_INVERSE == 3_513_497 * U32 + 1;
    MixingForgetsNothing(g, a as nat, h, b as nat, FNV_PRIME, FNV_INVERSE, 3_513_497, 32);
  }

  /** Hashes once apart stay apart over the same bytes. */
  lemma {:induction false} ApartStaysApart(g: nat, h: nat, bytes: Bytes)
    requires g < U32 && h < U32 && g != h
    ensures FnvFold(g, bytes) != FnvFold(h, bytes)
    decreases |bytes|
  {
    hide Xor;
    if bytes != [] {
      OneMoreByte(g, bytes[0], h, bytes[0]);
      ApartStaysApart(Xor(g, bytes[0] as nat) * FNV_PRIME % U32, Xor(h, bytes[0] as nat) * FNV_PRIME % U32, bytes[1..]);
    }
  }

  ghost predicate OneByteApart(s: Bytes, t: Bytes, at: nat) {
    |s| == |t| && at < |s| && s[at] != t[at] && forall i | 0 <= i < |s| && i != at :: s[i] == t[i]
  }

  lemma {:induction false} OneByteMovesTheHash(hash: nat, s: Bytes, t: Bytes, at: nat)
    requires hash < U32 && OneByteApart(s, t, at)
    ensures FnvFold(hash, s) != FnvFold(hash, t)
    decreases |s|
  {
    hide Xor;
    var g, h := Xor(hash, s[0] as nat) * FNV_PRIME % U32, Xor(hash, t[0] as nat) * FNV_PRIME % U32;
    if at == 0 {
      assert s[1..] == t[1..];
      OneMoreByte(hash, s[0], hash, t[0]);
      ApartStaysApart(g, h, s[1..]);
    } else {
      OneByteMovesTheHash(g, s[1..], t[1..], at - 1);
    }
  }

  /** Truncated names stay distinct: two full names too long to fit that differ in
      one byte, wherever it is, are parked under different names. */
  lemma LongNamesStayDistinct(base: Bytes, a: Bytes, other: Bytes, b: Bytes, at: nat)
    requires !Fits(base, a) && OneByteApart(Full(base, a), Full(other, b), at)
    ensures ParkedName(base, a) != ParkedName(other, b)
  {
    hide FnvFold, ParkedName, ReadHex;
    var k := LongNamesEndInTheirHash(base, a);
    var l := LongNamesEndInTheirHash(other, b);
    OneByteMovesTheHash(FNV_OFFSET, Full(base, a), Full(other, b), at);
  }

  /** The published FNV-1a values of nothing and of `a`. */
  lemma KnownHashes()
    ensures FnvFold(FNV_OFFSET, []) == 0x811c_9dc5
    ensures FnvFold(FNV_OFFSET, [0x61]) == 0xe40c_292c
  {
    hide Xor;
    XorOfNothing();
    OnePlace(1, 0, 0);
    OnePlace(3, 1, 1);
    OnePlace(6, 3, 2);
    OnePlace(12, 6, 5);
    OnePlace(24, 12, 10);
    OnePlace(49, 24, 20);
    OnePlace(98, 48, 41);
    OnePlace(197, 97, 82);
    assert Power2(8) == 256;
    XorBelow(0x81_1c9d, 0xc5, 0x61, 8);
    assert FNV_OFFSET == 0x81_1c9d * 256 + 0xc5;
    assert [0x61 as byte][1..] == [];
  }

  /** The branch can be read back from its parked name exactly when the name
      was not truncated. */
  lemma ReadsBackIffItFits(base: Bytes, branch: Bytes)
    ensures BranchOfDb(base, ParkedName(base, branch)) == Some(branch) <==> Fits(base, branch)
  {
    ParkedNameIsAnIdentifierLength(base, branch);
    var full := Full(base, branch);
    if Fits(base, branch) {
      assert full[..|base| + 1] == base + [AT];
      assert full[|base| + 1..] == branch;
    }
  }

  /** A name that fits is the base, an `@` and the branch; one of 64 bytes or more does
      not fit. */
  lemma ShortNamesArePlain(base: Bytes, branch: Bytes)
    ensures |base| + 1 + |branch| <= 63 ==> ParkedName(base, branch) == base + [0x40] + branch
    ensures |base| + 1 + |branch| > 63 ==> ParkedName(base, branch) != base + [0x40] + branch
  {
    ParkedNameIsAnIdentifierLength(base, branch);
  }

  lemma InjectiveWhenItFits(base: Bytes, a: Bytes, b: Bytes)
    requires Fits(base, a) && Fits(base, b)
    requires ParkedName(base, a) == ParkedName(base, b)
    ensures a == b
  {
    ReadsBackIffItFits(base, a);
    ReadsBackIffItFits(base, b);
  }

  lemma CutStaysClose(s: Bytes, i: nat)
    requires 3 <= i < |s| && Utf8Runs(s)
    ensures i - 3 <= Cut(s, i)
  {
    assert !(Continuation(s[i - 3]) && Continuation(s[i - 2]) && Continuation(s[i - 1]) && Continuation(s[i])) by {
      assert Continuation(s[i - 3]) ==> !(Continuation(s[i - 3 + 1]) && Continuation(s[i - 3 + 2]) && Continuation(s[i - 3 + 3]));
    }
    var j := if CharBoundary(s, i) then i else if CharBoundary(s, i - 1) then i - 1
    else if CharBoundary(s, i - 2) then i - 2 else i - 3;
    CutIsTheLastBoundary(s, i, j);
  }

  /** The name fits, or is cut with a base short enough to survive. */
  predicate BaseSurvives(base: Bytes, branch: Bytes) {
    Fits(base, branch) || (|base| <= 50 && Utf8Runs(Full(base, branch)))
  }

  /** A truncated name still starts with `<base>@` when the base is at most 50
      bytes. */
  lemma KeepsItsBase(base: Bytes, branch: Bytes)
    requires BaseSurvives(base, branch)
    ensures base + [AT] <= ParkedName(base, branch)
  {
    var full := Full(base, branch);
    if !Fits(base, branch) {
      CutStaysClose(full, Keep(full));
    }
    assert full[..|base| + 1] == base + [AT];
  }

  /** Every name of database length that starts with the base and `@` is some
      branch's parked name, whole. */
  lemma EveryNameIsParked(base: Bytes, name: Bytes)
    requires base + [AT] <= name && |name| <= MAX
    ensures var branch := name[|base| + 1..]; Fits(base, branch) && ParkedName(base, branch) == name
  {
    hide Cut, Tag;
    assert (base + [AT]) + name[|base| + 1..] == name;
  }

  /** Truncation is where two branches can share one parked database: every
      branch too long to fit has the same parked name as one short branch. */
  lemma TruncatedNameCollides(base: Bytes, branch: Bytes) returns (other: Bytes)
    requires !Fits(base, branch) && |base| <= 50 && Utf8Runs(Full(base, branch))
    ensures other != branch && Fits(base, other)
    ensures ParkedName(base, other) == ParkedName(base, branch)
  {
    hide ParkedName, Utf8Runs;
    KeepsItsBase(base, branch);
    ParkedNameIsAnIdentifierLength(base, branch);
    var name := ParkedName(base, branch);
    other := name[|base| + 1..];
    EveryNameIsParked(base, name);
    assert |other| < |branch|;
  }

  // ---- identifiers in SQL ----

  /** How PostgreSQL reads what stands between quotes: up to the next quote that is
      not doubled, two quotes standing for one. `text` is what follows the opening
      quote; the result is what is quoted, and what follows the closing one. */
  function ReadQuoted(text: Bytes, quote: byte): Option<(Bytes, Bytes)>
    decreases |text|
  {
    if text == [] then None
    else if text[0] != quote then
      match ReadQuoted(text[1..], quote)
      case None => None
      case Some((more, rest)) => Some(([text[0]] + more, rest))
    else if |text| > 1 && text[1] == quote then
      match ReadQuoted(text[2..], quote)
      case None => None
      case Some((more, rest)) => Some(([quote] + more, rest))
    else Some(([], text[1..]))
  }

  lemma {:induction false} QuotedReadsBack(name: Bytes, quote: byte, rest: Bytes)
    requires quote !in name && (rest == [] || rest[0] != quote)
    ensures ReadQuoted(name + [quote] + rest, quote) == Some((name, rest))
    decreases |name|
  {
    var text := name + [quote] + rest;
    if name == [] {
      assert text[1..] == rest;
    } else {
      assert text[1..] == name[1..] + [quote] + rest;
      QuotedReadsBack(name[1..], quote, rest);
      assert [name[0]] + name[1..] == name;
    }
  }

  /** A guarded name means itself in a statement, between double quotes as an
      identifier and between single quotes as a literal, and holds no backslash. */
  lemma GuardedNamesMeanThemselves(name: Bytes, rest: Bytes)
    requires SafeIdentifier(name)
    ensures rest == [] || rest[0] != 0x22 ==> ReadQuoted(name + [0x22] + rest, 0x22) == Some((name, rest))
    ensures rest == [] || rest[0] != 0x27 ==> ReadQuoted(name + [0x27] + rest, 0x27) == Some((name, rest))
    ensures 0x5C !in name
  {
    if rest == [] || rest[0] != 0x22 { QuotedReadsBack(name, 0x22, rest); }
    if rest == [] || rest[0] != 0x27 { QuotedReadsBack(name, 0x27, rest); }
  }

  // ---- names that keep databases apart ----

  /** Parked names that are distinct from each other and from the base. */
  ghost predicate GoodNames(base: Bytes, branches: set<Bytes>) {
    && (forall a, b | a in branches && b in branches && ParkedName(base, a) == ParkedName(base, b) :: a == b)
    && (forall a | a in branches :: ParkedName(base, a) != base)
  }

  lemma FittingNamesAreGood(base: Bytes, branches: set<Bytes>)
    requires forall b | b in branches :: Fits(base, b)
    ensures GoodNames(base, branches)
  {
    forall a, b | a in branches && b in branches && ParkedName(base, a) == ParkedName(base, b)
      ensures a == b
    {
      InjectiveWhenItFits(base, a, b);
    }
  }

  lemma FirstAt(base: Bytes, a: Bytes, other: Bytes, b: Bytes)
    requires AT !in base && AT !in other
    requires base + [AT] <= a && other + [AT] <= b && a == b
    ensures base == other
  {
    assert a[|base|] == AT && b[|other|] == AT;
    assert forall i | 0 <= i < |base| :: base[i] == a[i];
    assert forall i | 0 <= i < |other| :: other[i] == b[i];
  }

  lemma ParkedIsNoBase(base: Bytes, branch: Bytes, other: Bytes)
    requires AT !in other && BaseSurvives(base, branch)
    ensures ParkedName(base, branch) != other
  {
    KeepsItsBase(base, branch);
    assert ParkedName(base, branch)[|base|] == AT;
  }

  /** Two bases without an `@` never share a database name: neither base nor
      parked copy of one is a base or parked copy of the other. */
  lemma FamiliesAreDisjoint(base: Bytes, a: Bytes, other: Bytes, b: Bytes)
    requires base != other && AT !in base && AT !in other
    requires BaseSurvives(base, a) && BaseSurvives(other, b)
    ensures ParkedName(base, a) != ParkedName(other, b)
    ensures ParkedName(base, a) != other
  {
    KeepsItsBase(base, a);
    KeepsItsBase(other, b);
    if ParkedName(base, a) == ParkedName(other, b) {
      FirstAt(base, ParkedName(base, a), other, ParkedName(other, b));
    }
    ParkedIsNoBase(base, a, other);
  }
}
