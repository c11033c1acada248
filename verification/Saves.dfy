/** What a save, a new file or a rename does to the fingerprint: when it moves, and
    the one way in which a change of one byte can fail to move it. */
module Saves {
  import opened Wrappers
  import opened Names
  import opened Hashing
  import opened Fingerprint

  // ---- little-endian numbers ----

  /** The number that bytes write, the least significant first. */
  function ReadLittle(bytes: Bytes): nat
    decreases |bytes|
  {
    if bytes == [] then 0 else bytes[0] as nat + 256 * ReadLittle(bytes[1..])
  }

  /** The encoding is the bytes that read back as the number. */
  lemma {:induction false} LittleEndianIs(bytes: Bytes)
    ensures LittleEndian(ReadLittle(bytes), |bytes|) == bytes
    decreases |bytes|
  {
    if bytes != [] {
      var n, rest := ReadLittle(bytes), ReadLittle(bytes[1..]);
      assert n % 256 == bytes[0] as nat && n / 256 == rest;
      LittleEndianIs(bytes[1..]);
      var all := LittleEndian(n, |bytes|);
      forall i | 0 <= i < |bytes|
        ensures all[i] == bytes[i]
      {
        if i > 0 {
          assert ByteAt(n, i) == ByteAt(rest, i - 1);
          assert LittleEndian(rest, |bytes| - 1)[i - 1] == bytes[1..][i - 1];
        }
      }
    }
  }

  // ---- a stamp as one chain ----

  function Chain(seed: nat, words: seq<Bytes>): nat
    decreases |words|
  {
    if words == [] then seed else Chain(HashOf(seed, words[0]), words[1..])
  }

  lemma {:induction false} ChainMore(seed: nat, words: seq<Bytes>, word: Bytes)
    ensures Chain(seed, words + [word]) == HashOf(Chain(seed, words), word)
    decreases |words|
  {
    hide HashOf;
    if words == [] {
      assert words + [word] == [word] && [word][1..] == [];
    } else {
      assert (words + [word])[1..] == words[1..] + [word];
      ChainMore(HashOf(seed, words[0]), words[1..], word);
    }
  }

  /** Size, and the time of the last change, as the bytes that write them. */
  function MetaWords(meta: Meta): seq<Bytes> {
    [LittleEndian(meta.len, 8)]
    + match meta.mtime
      case None => []
      case Some((secs, nanos)) => [LittleEndian(secs, 8), LittleEndian(nanos, 4)]
  }

  /** Everything that goes into a file's stamp: where it is, its name, and its
      metadata. */
  function Words(p: Path, meta: Meta): seq<Bytes> {
    (if |p| == 1 then p + [[]] else p) + MetaWords(meta)
  }

  lemma {:induction false} DirHashIsChain(d: Path)
    ensures DirHash(d) == Chain(0, d)
    decreases |d|
  {
    hide HashOf;
    if d != [] {
      DirHashIsChain(d[..|d| - 1]);
      ChainMore(0, d[..|d| - 1], d[|d| - 1]);
      assert d == d[..|d| - 1] + [d[|d| - 1]];
    }
  }

  lemma StampIsChain(words: seq<Bytes>, seed: nat, name: Name, meta: Meta)
    requires Chain(0, words) == seed
    ensures Stamp(seed, name, meta) == Chain(0, words + [name] + MetaWords(meta))
  {
    hide HashOf, LittleEndian, Chain;
    var w := words + [name];
    ChainMore(0, words, name);
    var size := LittleEndian(meta.len, 8);
    ChainMore(0, w, size);
    match meta.mtime {
      case None => assert MetaWords(meta) == [size];
      case Some((secs, nanos)) =>
        ChainMore(0, w + [size], LittleEndian(secs, 8));
        ChainMore(0, w + [size] + [LittleEndian(secs, 8)], LittleEndian(nanos, 4));
        assert w + [size] + [LittleEndian(secs, 8)] + [LittleEndian(nanos, 4)] == w + MetaWords(meta);
    }
  }

  ghost predicate Watches(t: Tree, p: Path) {
    WatchedFile(t, p) || (|p| == 1 && Leaf(p) in WATCH_FILES && p in t.nodes && t.nodes[p].meta.Some?)
  }

  lemma ShareIsChain(t: Tree, p: Path)
    requires Watches(t, p)
    ensures p in t.nodes && t.nodes[p].meta.Some? && Share(t, p) == Chain(0, Words(p, t.nodes[p].meta.value))
  {
    hide Stamp, HashOf, Listed, Entered, EndsWithPhp, Ascii, MetaWords;
    AnEntry(t, p);
    var meta := t.nodes[p].meta.value;
    if |p| == 1 {
      assert !WatchedFile(t, p);
      assert p == [Leaf(p)] && Chain(0, p) == HashOf(0, Leaf(p)) by { assert p[1..] == []; }
      StampIsChain(p, HashOf(0, Leaf(p)), [], meta);
    } else {
      DirHashIsChain(Parent(p));
      StampIsChain(Parent(p), DirHash(Parent(p)), Leaf(p), meta);
      assert p == Parent(p) + [Leaf(p)];
    }
  }

  // ---- chains one byte apart ----

  const FNV64_INVERSE: nat := 0xb46d_d957_aff6_957b

  lemma U64IsAPower()
    ensures Power2(64) == U64
  {
    U32IsAPower();
    PowersMultiply(32, 32);
  }

  lemma OneMoreByte64(g: nat, a: byte, h: nat, b: byte)
    requires g < U64 && h < U64 && (g == h || a == b)
    ensures Xor(g, a as nat) * FNV64_MULTIPLIER % U64 == Xor(h, b as nat) * FNV64_MULTIPLIER % U64 <==> g == h && a == b
  {
    hide Xor;
    U64IsAPower();
    assert FNV64_MULTIPLIER * FNV64_INVERSE == 12_398_993_177_650 * U64 + 1;
    MixingForgetsNothing(g, a as nat, h, b as nat, FNV64_MULTIPLIER, FNV64_INVERSE, 12_398_993_177_650, 64);
  }

  lemma {:induction false} FoldsStayApart(g: nat, h: nat, bytes: Bytes)
    requires g < U64 && h < U64 && g != h
    ensures HashFold(g, bytes) != HashFold(h, bytes)
    decreases |bytes|
  {
    hide Xor;
    if bytes != [] {
      OneMoreByte64(g, bytes[0], h, bytes[0]);
      FoldsStayApart(Xor(g, bytes[0] as nat) * FNV64_MULTIPLIER % U64, Xor(h, bytes[0] as nat) * FNV64_MULTIPLIER % U64,
        bytes[1..]);
    }
  }

  lemma {:induction false} OneByteMovesTheFold(hash: nat, s: Bytes, t: Bytes, at: nat)
    requires hash < U64 && OneByteApart(s, t, at)
    ensures HashFold(hash, s) != HashFold(hash, t)
    decreases |s|
  {
    hide Xor;
    var g, h := Xor(hash, s[0] as nat) * FNV64_MULTIPLIER % U64, Xor(hash, t[0] as nat) * FNV64_MULTIPLIER % U64;
    if at == 0 {
      assert s[1..] == t[1..];
      OneMoreByte64(hash, s[0], hash, t[0]);
      FoldsStayApart(g, h, s[1..]);
    } else {
      OneByteMovesTheFold(g, s[1..], t[1..], at - 1);
    }
  }

  /** The two hashes that seed the next word alike: none, and the offset that stands
      in for none. */
  predicate Alike(g: nat, h: nat) {
    (g == 0 && h == FNV64_OFFSET) || (g == FNV64_OFFSET && h == 0)
  }

  lemma OneWordMore(g: nat, h: nat, word: Bytes)
    requires g < U64 && h < U64 && g != h
    ensures HashOf(g, word) == HashOf(h, word) <==> Alike(g, h)
    ensures HashOf(g, word) < U64 && HashOf(h, word) < U64
  {
    hide HashFold;
    HashOfStaysBelow(g, word);
    HashOfStaysBelow(h, word);
    var g', h' := if g == 0 then FNV64_OFFSET else g, if h == 0 then FNV64_OFFSET else h;
    if g' != h' { FoldsStayApart(g', h', word); }
  }

  /** Two chains over the same words meet exactly when they are alike before one of
      them. */
  ghost predicate Meet(g: nat, h: nat, words: seq<Bytes>) {
    exists j | 0 <= j < |words| :: Alike(Chain(g, words[..j]), Chain(h, words[..j]))
  }

  lemma MeetFirst(g: nat, h: nat, words: seq<Bytes>)
    requires words != []
    ensures Meet(g, h, words) <==>
      Alike(g, h) || Meet(HashOf(g, words[0]), HashOf(h, words[0]), words[1..])
  {
    hide HashOf, Alike;
    assert words[..0] == [];
    forall j | 1 <= j < |words|
      ensures Chain(g, words[..j]) == Chain(HashOf(g, words[0]), words[1..][..j - 1])
      ensures Chain(h, words[..j]) == Chain(HashOf(h, words[0]), words[1..][..j - 1])
    {
      assert words[..j][1..] == words[1..][..j - 1];
    }
    if Meet(HashOf(g, words[0]), HashOf(h, words[0]), words[1..]) {
      var i :| 0 <= i < |words[1..]|
        && Alike(Chain(HashOf(g, words[0]), words[1..][..i]), Chain(HashOf(h, words[0]), words[1..][..i]));
      assert Alike(Chain(g, words[..i + 1]), Chain(h, words[..i + 1]));
    }
    if Meet(g, h, words) && !Alike(g, h) {
      var j :| 0 <= j < |words| && Alike(Chain(g, words[..j]), Chain(h, words[..j]));
      assert j > 0;
      assert Alike(Chain(HashOf(g, words[0]), words[1..][..j - 1]), Chain(HashOf(h, words[0]), words[1..][..j - 1]));
    }
  }

  lemma {:induction false} ChainsMeetIff(g: nat, h: nat, words: seq<Bytes>)
    requires g < U64 && h < U64 && g != h
    ensures Chain(g, words) == Chain(h, words) <==> Meet(g, h, words)
    decreases |words|
  {
    hide HashOf, Alike, Meet;
    if words == [] {
      NothingMeets(g, h);
    } else {
      OneWordMore(g, h, words[0]);
      MeetFirst(g, h, words);
      if !Alike(g, h) { ChainsMeetIff(HashOf(g, words[0]), HashOf(h, words[0]), words[1..]); }
    }
  }

  lemma NothingMeets(g: nat, h: nat)
    ensures !Meet(g, h, [])
  {
  }

  /** The same words but for one byte of the word `k`. */
  ghost predicate WordsOneByteApart(a: seq<Bytes>, b: seq<Bytes>, k: nat, at: nat) {
    |a| == |b| && k < |a| && OneByteApart(a[k], b[k], at) && a[..k] == b[..k] && a[k + 1..] == b[k + 1..]
  }

  /** After the word that differs, the hashes are none and the offset before some
      later word. */
  ghost predicate Confused(a: seq<Bytes>, b: seq<Bytes>, k: nat)
    requires |a| == |b| && k < |a|
  {
    Meet(Chain(0, a[..k + 1]), Chain(0, b[..k + 1]), a[k + 1..])
  }

  lemma {:induction false} ChainConcat(seed: nat, a: seq<Bytes>, b: seq<Bytes>)
    ensures Chain(seed, a + b) == Chain(Chain(seed, a), b)
    decreases |a|
  {
    hide HashOf;
    if a == [] {
      assert a + b == b;
    } else {
      assert (a + b)[1..] == a[1..] + b;
      ChainConcat(HashOf(seed, a[0]), a[1..], b);
    }
  }

  lemma {:induction false} ChainStaysBelow(seed: nat, words: seq<Bytes>)
    requires seed < U64
    ensures Chain(seed, words) < U64
    decreases |words|
  {
    hide HashOf;
    if words != [] {
      HashOfStaysBelow(seed, words[0]);
      ChainStaysBelow(HashOf(seed, words[0]), words[1..]);
    }
  }

  lemma ChainsApartIff(a: seq<Bytes>, b: seq<Bytes>, k: nat, at: nat)
    requires WordsOneByteApart(a, b, k, at)
    ensures Chain(0, a) == Chain(0, b) <==> Confused(a, b, k)
  {
    hide HashFold, Meet, Chain;
    var before := Chain(0, a[..k]);
    ChainStaysBelow(0, a[..k]);
    ChainMore(0, a[..k], a[k]);
    ChainMore(0, b[..k], b[k]);
    assert a[..k + 1] == a[..k] + [a[k]] && b[..k + 1] == b[..k] + [b[k]];
    OneByteMovesTheFold(if before == 0 then FNV64_OFFSET else before, a[k], b[k], at);
    ChainStaysBelow(0, a[..k + 1]);
    ChainStaysBelow(0, b[..k + 1]);
    ChainsMeetIff(Chain(0, a[..k + 1]), Chain(0, b[..k + 1]), a[k + 1..]);
    ChainConcat(0, a[..k + 1], a[k + 1..]);
    ChainConcat(0, b[..k + 1], b[k + 1..]);
    assert a == a[..k + 1] + a[k + 1..] && b == b[..k + 1] + b[k + 1..];
  }

  // ---- saves ----

  ghost predicate Saved(t: Tree, u: Tree, p: Path, before: Meta, after: Meta) {
    && SameBut(t, u, p) && Watches(t, p) && Watches(u, p)
    && t.nodes[p].meta == Some(before) && u.nodes[p].meta == Some(after)
  }

  /** A save that changes one byte of what goes into the stamp moves the fingerprint,
      unless two later hashes are none and the offset. */
  lemma SaveMovesItIff(t: Tree, u: Tree, p: Path, before: Meta, after: Meta, k: nat, at: nat)
    requires Saved(t, u, p, before, after) && WordsOneByteApart(Words(p, before), Words(p, after), k, at)
    ensures Specified(t) == Specified(u) <==> Confused(Words(p, before), Words(p, after), k)
  {
    hide SameBut, Watches, Specified, Share, Words, Chain, Confused;
    OneFileMovesItByItsShare(t, u, p);
    ShareIsChain(t, p);
    ShareIsChain(u, p);
    ChainsApartIff(Words(p, before), Words(p, after), k, at);
  }

  function Place(p: Path): seq<Bytes> {
    if |p| == 1 then p + [[]] else p
  }

  function AfterSize(p: Path, size: Bytes): nat {
    Chain(0, Place(p) + [size])
  }

  function AfterSeconds(p: Path, size: Bytes, secs: Bytes): nat {
    Chain(0, Place(p) + [size] + [secs])
  }

  lemma SplitAt(place: seq<Bytes>, w: Bytes, tail: seq<Bytes>)
    ensures (place + [w] + tail)[|place|] == w
    ensures (place + [w] + tail)[..|place|] == place && (place + [w] + tail)[..|place| + 1] == place + [w]
    ensures (place + [w] + tail)[|place| + 1..] == tail
  {
  }

  /** Another number of nanoseconds, one byte of it changed, always moves it. */
  lemma NanosecondsMoveIt(t: Tree, u: Tree, p: Path, len: nat, secs: nat, x: Bytes, y: Bytes, at: nat)
    requires |x| == 4 && OneByteApart(x, y, at)
    requires Saved(t, u, p, Meta(len, Some((secs, ReadLittle(x)))), Meta(len, Some((secs, ReadLittle(y)))))
    ensures Specified(t) != Specified(u)
  {
    hide Saved, Specified, LittleEndian, Meet, Chain;
    LittleEndianIs(x);
    LittleEndianIs(y);
    var m, n := Meta(len, Some((secs, ReadLittle(x)))), Meta(len, Some((secs, ReadLittle(y))));
    var place := Place(p) + [LittleEndian(len, 8), LittleEndian(secs, 8)];
    assert Words(p, m) == place + [x] + [] && Words(p, n) == place + [y] + [];
    SplitAt(place, x, []);
    SplitAt(place, y, []);
    SaveMovesItIff(t, u, p, m, n, |place|, at);
    NothingMeets(Chain(0, place + [x]), Chain(0, place + [y]));
  }

  /** Another number of seconds, one byte of it changed, moves it unless the hashes
      after the seconds are none and the offset. */
  lemma SecondsMoveItIff(t: Tree, u: Tree, p: Path, len: nat, x: Bytes, y: Bytes, nanos: nat, at: nat)
    requires |x| == 8 && OneByteApart(x, y, at)
    requires Saved(t, u, p, Meta(len, Some((ReadLittle(x), nanos))), Meta(len, Some((ReadLittle(y), nanos))))
    ensures Specified(t) == Specified(u) <==>
      Alike(AfterSeconds(p, LittleEndian(len, 8), x), AfterSeconds(p, LittleEndian(len, 8), y))
  {
    hide Saved, Specified, LittleEndian, Meet, Chain, Alike;
    LittleEndianIs(x);
    LittleEndianIs(y);
    var m, n := Meta(len, Some((ReadLittle(x), nanos))), Meta(len, Some((ReadLittle(y), nanos)));
    var place, tail := Place(p) + [LittleEndian(len, 8)], [LittleEndian(nanos, 4)];
    assert Words(p, m) == place + [x] + tail && Words(p, n) == place + [y] + tail;
    SplitAt(place, x, tail);
    SplitAt(place, y, tail);
    SaveMovesItIff(t, u, p, m, n, |place|, at);
    MeetOverOne(Chain(0, place + [x]), Chain(0, place + [y]), tail[0]);
  }

  lemma MeetOverOne(g: nat, h: nat, word: Bytes)
    ensures Meet(g, h, [word]) <==> Alike(g, h)
  {
    hide HashOf, Meet, Alike;
    MeetFirst(g, h, [word]);
    assert [word][1..] == [];
    NothingMeets(HashOf(g, word), HashOf(h, word));
  }

  /** Another size, one byte of it changed, moves it unless the hashes after the size
      or after the seconds are none and the offset. */
  lemma SizeMovesItIff(t: Tree, u: Tree, p: Path, x: Bytes, y: Bytes, secs: nat, nanos: nat, at: nat)
    requires |x| == 8 && OneByteApart(x, y, at)
    requires Saved(t, u, p, Meta(ReadLittle(x), Some((secs, nanos))), Meta(ReadLittle(y), Some((secs, nanos))))
    ensures Specified(t) == Specified(u) <==>
      || Alike(AfterSize(p, x), AfterSize(p, y))
      || Alike(AfterSeconds(p, x, LittleEndian(secs, 8)), AfterSeconds(p, y, LittleEndian(secs, 8)))
  {
    hide Saved, Specified, LittleEndian, Meet, Chain, Alike;
    LittleEndianIs(x);
    LittleEndianIs(y);
    var m, n := Meta(ReadLittle(x), Some((secs, nanos))), Meta(ReadLittle(y), Some((secs, nanos)));
    var place, time, tail := Place(p), LittleEndian(secs, 8), [LittleEndian(secs, 8), LittleEndian(nanos, 4)];
    assert Words(p, m) == place + [x] + tail && Words(p, n) == place + [y] + tail;
    SplitAt(place, x, tail);
    SplitAt(place, y, tail);
    SaveMovesItIff(t, u, p, m, n, |place|, at);
    var g, h := Chain(0, place + [x]), Chain(0, place + [y]);
    MeetFirst(g, h, tail);
    assert tail[1..] == [LittleEndian(nanos, 4)];
    MeetOverOne(HashOf(g, time), HashOf(h, time), LittleEndian(nanos, 4));
    ChainMore(0, place + [x], time);
    ChainMore(0, place + [y], time);
  }

  /** A size that changes where the time is unknown always moves it. */
  lemma SizeAloneMovesIt(t: Tree, u: Tree, p: Path, x: Bytes, y: Bytes, at: nat)
    requires |x| == 8 && OneByteApart(x, y, at)
    requires Saved(t, u, p, Meta(ReadLittle(x), None), Meta(ReadLittle(y), None))
    ensures Specified(t) != Specified(u)
  {
    hide Saved, Specified, LittleEndian, Meet, Chain;
    LittleEndianIs(x);
    LittleEndianIs(y);
    var m, n := Meta(ReadLittle(x), None), Meta(ReadLittle(y), None);
    var place := Place(p);
    assert Words(p, m) == place + [x] + [] && Words(p, n) == place + [y] + [];
    SplitAt(place, x, []);
    SplitAt(place, y, []);
    SaveMovesItIff(t, u, p, m, n, |place|, at);
    NothingMeets(Chain(0, place + [x]), Chain(0, place + [y]));
  }

  // ---- new files and renames ----

  /** A new or deleted file moves it unless its stamp is nothing. */
  lemma CreatingMovesItIff(t: Tree, u: Tree, p: Path)
    requires SameBut(t, u, p) && p !in t.nodes && Watches(u, p)
    ensures Specified(t) == Specified(u) <==> Chain(0, Words(p, u.nodes[p].meta.value)) == 0
  {
    hide SameBut, Specified, Words, Chain, EndsWithPhp, Entered, Ascii, Stamp, HashOf, DirHash;
    OneFileMovesItByItsShare(t, u, p);
    AnEntry(t, p);
    ShareIsChain(u, p);
  }

  /** A file that takes another's place, by a rename or a move, with one byte of its
      path changed (and whatever metadata it keeps) moves it unless two hashes are
      none and the offset. */
  lemma RenamingMovesItIff(t: Tree, without: Tree, u: Tree, p: Path, q: Path, meta: Meta, k: nat, at: nat)
    requires SameBut(t, without, p) && SameBut(without, u, q) && p !in without.nodes && q !in without.nodes
    requires Watches(t, p) && Watches(u, q) && t.nodes[p].meta == Some(meta) == u.nodes[q].meta
    requires WordsOneByteApart(Words(p, meta), Words(q, meta), k, at)
    ensures Specified(t) == Specified(u) <==> Confused(Words(p, meta), Words(q, meta), k)
  {
    hide SameBut, Specified, Words, Chain, EndsWithPhp, Entered, Ascii, Stamp, HashOf, DirHash, Confused;
    OneFileMovesItByItsShare(t, without, p);
    OneFileMovesItByItsShare(without, u, q);
    AnEntry(without, p);
    AnEntry(without, q);
    ShareIsChain(t, p);
    ShareIsChain(u, q);
    assert Share(without, p) == 0 && Share(without, q) == 0;
    ShareStaysBelow(t, p);
    ShareStaysBelow(u, q);
    SpecifiedStaysBelow(t);
    SpecifiedStaysBelow(without);
    SpecifiedStaysBelow(u);
    TwoMoves(Specified(t), Specified(without), Specified(u), Share(t, p), Share(u, q));
    ChainsApartIff(Words(p, meta), Words(q, meta), k, at);
  }

  lemma SpecifiedStaysBelow(t: Tree)
    ensures Specified(t) < U64
  {
    hide LooseSum;
  }

  lemma TwoMoves(a: nat, b: nat, c: nat, x: nat, y: nat)
    requires a < U64 && b < U64 && c < U64 && x < U64 && y < U64
    requires a % U64 == (b + x) % U64 && (b + y) % U64 == c % U64
    ensures a == c <==> x == y
  {
  }

  // ---- which files are watched ----

  /** The bytes of a file name write the text. */
  predicate Spells(name: Name, text: string) {
    |name| == |text| && forall i | 0 <= i < |text| :: name[i] as int == text[i] as int
  }

  predicate OneOf(name: Name, texts: seq<string>) {
    exists i | 0 <= i < |texts| :: Spells(name, texts[i])
  }

  predicate AllAscii(text: string) {
    forall i | 0 <= i < |text| :: text[i] as int < 128
  }

  lemma SpellsIff(name: Name, text: string)
    requires AllAscii(text)
    ensures Spells(name, text) <==> name == Ascii(text)
  {
    var bytes := Ascii(text);
    forall i | 0 <= i < |text|
      ensures bytes[i] as int == text[i] as int
    {
    }
  }

  /** On the way to `p`, from a watched root down: directories, each listed in the
      one before, and none below the root hidden or skipped. */
  ghost predicate WayIn(t: Tree, p: Path) {
    && |p| > 1 && OneOf(p[0], ["app", "bootstrap", "config", "database", "routes", "resources", "public"])
    && (forall i | 1 <= i < |p| ::
          && p[..i] in t.nodes && t.nodes[p[..i]].isDir == Some(true)
          && p[..i] in t.listing && p[i] in t.listing[p[..i]])
    && (forall i | 1 <= i < |p| - 1 :: Unhidden(p[i]))
  }

  predicate Unhidden(name: Name) {
    (name != [] ==> name[0] as int != '.' as int) && !OneOf(name, ["node_modules", "vendor", "storage", "cache", ".git"])
  }

  lemma RootsAreNamed(name: Name)
    ensures name in WATCH_DIRS <==>
      OneOf(name, ["app", "bootstrap", "config", "database", "routes", "resources", "public"])
  {
    hide Ascii, Spells, AllAscii;
    var texts := ["app", "bootstrap", "config", "database", "routes", "resources", "public"];
    forall i | 0 <= i < |texts|
      ensures Spells(name, texts[i]) <==> name == Ascii(texts[i])
    {
      assert AllAscii("app") && AllAscii("bootstrap") && AllAscii("config") && AllAscii("database") by { PlainNames(); }
      assert AllAscii("routes") && AllAscii("resources") && AllAscii("public") by { PlainNames(); }
      SpellsIff(name, texts[i]);
    }
    assert |WATCH_DIRS| == |texts| && forall i | 0 <= i < |texts| :: WATCH_DIRS[i] == Ascii(texts[i]);
  }

  lemma SkippedAreNamed(name: Name)
    ensures Skipped(name) <==> !Unhidden(name)
  {
    hide Ascii, Spells, AllAscii;
    var texts := ["node_modules", "vendor", "storage", "cache", ".git"];
    forall i | 0 <= i < |texts|
      ensures Spells(name, texts[i]) <==> name == Ascii(texts[i])
    {
      PlainNames();
      SpellsIff(name, texts[i]);
    }
    assert |SKIP_DIRS| == |texts| && forall i | 0 <= i < |texts| :: SKIP_DIRS[i] == Ascii(texts[i]);
  }

  lemma PlainNames()
    ensures AllAscii("app") && AllAscii("bootstrap") && AllAscii("config") && AllAscii("database")
    ensures AllAscii("routes") && AllAscii("resources") && AllAscii("public")
    ensures AllAscii("node_modules") && AllAscii("vendor") && AllAscii("storage") && AllAscii("cache") && AllAscii(".git")
    ensures AllAscii(".env") && AllAscii("composer.lock") && AllAscii("artisan") && AllAscii(".php")
  {
  }

  lemma {:induction false} ListedIff(t: Tree, p: Path)
    ensures Listed(t, p) <==> p in t.nodes && WayIn(t, p)
    decreases |p|
  {
    hide Skipped, Unhidden, OneOf;
    AnEntry(t, p);
    if |p| > 1 {
      var q := Parent(p);
      assert q == p[..|p| - 1] && Leaf(p) == p[|p| - 1];
      AnEntry(t, q);
      RootsAreNamed(p[0]);
      forall i | 0 <= i < |q|
        ensures q[..i] == p[..i] && q[i] == p[i]
      {
      }
      if |p| > 2 {
        ListedIff(t, q);
        SkippedAreNamed(Leaf(q));
        EnteredBelow(t, q);
        WayInMore(t, p);
      } else {
        assert q == [p[0]];
      }
    }
  }

  lemma EnteredBelow(t: Tree, d: Path)
    requires |d| > 1
    ensures Entered(t, d) <==> Listed(t, d) && t.nodes[d].isDir == Some(true) && !Skipped(Leaf(d))
  {
    hide Skipped;
    AnEntry(t, d);
  }

  lemma WayInMore(t: Tree, p: Path)
    requires |p| > 2
    ensures var q := p[..|p| - 1]; WayIn(t, p) <==>
      WayIn(t, q) && q in t.nodes && t.nodes[q].isDir == Some(true) && q in t.listing && p[|p| - 1] in t.listing[q]
      && Unhidden(q[|q| - 1])
  {
    hide Unhidden, OneOf;
    var q := p[..|p| - 1];
    forall i | 0 <= i < |q|
      ensures q[..i] == p[..i] && q[i] == p[i]
    {
    }
  }

  /** The watched files: `.php` files, with metadata, listed below one of seven roots
      with nothing hidden or skipped on the way; and three files of the project
      itself. */
  lemma WatchesIff(t: Tree, p: Path)
    ensures Watches(t, p) <==>
      && p in t.nodes && t.nodes[p].meta.Some?
      && (|| (WayIn(t, p) && t.nodes[p].isDir == Some(false)
              && |p[|p| - 1]| >= 4 && Spells(p[|p| - 1][|p[|p| - 1]| - 4..], ".php"))
          || (|p| == 1 && OneOf(p[0], [".env", "composer.lock", "artisan"])))
  {
    hide Ascii, Spells, AllAscii, WayIn, Entered;
    ListedIff(t, p);
    AnEntry(t, p);
    PlainNames();
    if |p| > 0 {
      FilesAreNamed(p[0]);
      PhpIsSpelled(p[|p| - 1]);
    }
    if |p| <= 1 { ShortIsNoWay(t, p); }
  }

  lemma ShortIsNoWay(t: Tree, p: Path)
    requires |p| <= 1
    ensures !WayIn(t, p)
  {
  }

  lemma PhpIsSpelled(name: Name)
    ensures EndsWithPhp(name) <==> |name| >= 4 && Spells(name[|name| - 4..], ".php")
  {
    hide Ascii, Spells, AllAscii;
    PlainNames();
    assert |PHP| == 4 by { AsciiLength(".php"); }
    if |name| >= 4 { SpellsIff(name[|name| - 4..], ".php"); }
  }

  lemma AsciiLength(text: string)
    ensures |Ascii(text)| == |text|
  {
  }

  lemma FilesAreNamed(name: Name)
    ensures name in WATCH_FILES <==> OneOf(name, [".env", "composer.lock", "artisan"])
  {
    hide Ascii, Spells, AllAscii;
    var texts := [".env", "composer.lock", "artisan"];
    forall i | 0 <= i < |texts|
      ensures Spells(name, texts[i]) <==> name == Ascii(texts[i])
    {
      PlainNames();
      SpellsIff(name, texts[i]);
    }
    assert |WATCH_FILES| == |texts| && forall i | 0 <= i < |texts| :: WATCH_FILES[i] == Ascii(texts[i]);
  }
}
