/** The cheap fingerprint of everything an Octane worker holds in memory: a walk
    over the watched directories with an explicit stack, adding up one stamp per
    watched file modulo 2^64. */
module Fingerprint {
  import opened Wrappers
  import opened Names
  import opened Hashing

  type Name = Bytes
  /** Components below the project root. */
  type Path = seq<Name>

  const U64: nat := 0x1_0000_0000_0000_0000
  const SCAN_BUDGET: nat := 20_000

  datatype Meta = Meta(len: nat, mtime: Option<(nat, nat)>)

  /** A directory entry: whether it is a directory (unknown if its type cannot be
      read; a symbolic link is not one), and its metadata if readable. */
  datatype Node = Node(isDir: Option<bool>, meta: Option<Meta>)

  /** A project on disk. `listing` gives the readable directories' entries, in
      whatever order the file system returns them. */
  datatype Tree = Tree(nodes: map<Path, Node>, listing: map<Path, seq<Name>>)

  ghost predicate WellFormed(t: Tree) {
    && (forall d, i, j | d in t.listing && 0 <= i < j < |t.listing[d]| :: t.listing[d][i] != t.listing[d][j])
    && (forall d, n | d in t.listing && n in t.listing[d] :: d + [n] in t.nodes)
  }

  // ---- the names that matter ----

  function Ascii(s: string): Bytes {
    seq(|s|, i requires 0 <= i < |s| => if s[i] < 128 as char then s[i] as int as byte else 0)
  }

  const SKIP_DIRS: seq<Name> :=
    [Ascii("node_modules"), Ascii("vendor"), Ascii("storage"), Ascii("cache"), Ascii(".git")]
  const WATCH_DIRS: seq<Name> :=
    [Ascii("app"), Ascii("bootstrap"), Ascii("config"), Ascii("database"), Ascii("routes"), Ascii("resources"),
     Ascii("public")]
  const WATCH_FILES: seq<Name> := [Ascii(".env"), Ascii("composer.lock"), Ascii("artisan")]
  const PHP: Bytes := Ascii(".php")
  const DOT: byte := 0x2E

  predicate Skipped(n: Name) {
    (n != [] && n[0] == DOT) || n in SKIP_DIRS
  }

  predicate EndsWithPhp(n: Name) {
    |n| >= |PHP| && n[|n| - |PHP|..] == PHP
  }

  // ---- stamps ----

  const FNV64_OFFSET: nat := 0xcbf2_9ce4_8422_2325
  const FNV64_MULTIPLIER: nat := 0x1000_0000_01b3

  function HashFold(hash: nat, bytes: Bytes): nat
    decreases |bytes|
  {
    if bytes == [] then hash else HashFold(Xor(hash, bytes[0] as nat) * FNV64_MULTIPLIER % U64, bytes[1..])
  }

  function HashOf(seed: nat, bytes: Bytes): nat {
    HashFold(if seed == 0 then FNV64_OFFSET else seed, bytes)
  }

  /** The hash of nothing and of one byte from the starting seed, in decimal. */
  lemma FirstStates(b: byte)
    ensures HashOf(0, []) == 14695981039346656037
    ensures HashOf(0, [b]) == Xor(14695981039346656037, b as nat) * 17592186044851 % 18446744073709551616
  {
    hide Xor;
    var one := Xor(FNV64_OFFSET, b as nat) * FNV64_MULTIPLIER % U64;
    assert [b][1..] == [] && HashFold(one, []) == one;
    assert HashFold(FNV64_OFFSET, [b]) == HashFold(one, [b][1..]);
  }

  method HashBytes(seed: nat, bytes: Bytes) returns (hash: nat)
    ensures hash == HashOf(seed, bytes)
  {
    hash := if seed == 0 then FNV64_OFFSET else seed;
    for i := 0 to |bytes|
      invariant HashOf(seed, bytes) == HashFold(hash, bytes[i..])
    {
      assert bytes[i..][1..] == bytes[i + 1..];
      hash := Xor(hash, bytes[i] as nat);
      hash := hash * FNV64_MULTIPLIER % U64;
    }
  }

  function ByteAt(n: nat, i: nat): (b: nat)
    ensures b < 256
  {
    if i == 0 then n % 256 else ByteAt(n / 256, i - 1)
  }

  /** `n` as `k` little-endian bytes. */
  function LittleEndian(n: nat, k: nat): Bytes {
    seq(k, i requires 0 <= i < k => ByteAt(n, i) as byte)
  }

  function Stamp(dirHash: nat, name: Name, meta: Meta): nat {
    var hash := HashOf(HashOf(dirHash, name), LittleEndian(meta.len, 8));
    match meta.mtime
    case None => hash
    case Some((secs, nanos)) => HashOf(HashOf(hash, LittleEndian(secs, 8)), LittleEndian(nanos, 4))
  }

  function DirHash(d: Path): nat {
    if |d| == 0 then 0 else HashOf(DirHash(d[..|d| - 1]), d[|d| - 1])
  }

  function Parent(p: Path): Path {
    if p == [] then [] else p[..|p| - 1]
  }

  function Leaf(p: Path): Name {
    if p == [] then [] else p[|p| - 1]
  }

  // ---- what is watched ----

  /** A directory the walk enters: a watched root, or an unskipped directory
      listed in one it enters. */
  ghost predicate Entered(t: Tree, d: Path)
    decreases |d|
  {
    && d != [] && d in t.nodes
    && if |d| == 1 then Leaf(d) in WATCH_DIRS && t.nodes[d].isDir == Some(true)
       else Listed(t, d) && t.nodes[d].isDir == Some(true) && !Skipped(Leaf(d))
  }

  /** An entry of a readable directory the walk enters. */
  ghost predicate Listed(t: Tree, p: Path)
    decreases |p|, 0
  {
    |p| > 1 && p in t.nodes && Entered(t, Parent(p)) && Parent(p) in t.listing && Leaf(p) in t.listing[Parent(p)]
  }

  ghost predicate WatchedFile(t: Tree, p: Path) {
    Listed(t, p) && t.nodes[p].isDir == Some(false) && EndsWithPhp(Leaf(p)) && t.nodes[p].meta.Some?
  }

  ghost function Entries(t: Tree): set<Path> {
    set p | p in t.nodes && Listed(t, p)
  }

  ghost function Watched(t: Tree): set<Path> {
    set p | p in t.nodes && WatchedFile(t, p)
  }

  function StampAt(t: Tree, p: Path): nat
    requires p in t.nodes && t.nodes[p].meta.Some? && p != []
  {
    Stamp(DirHash(Parent(p)), Leaf(p), t.nodes[p].meta.value)
  }

  /** The stamps of a set of files, added up. */
  ghost function Sum(t: Tree, files: set<Path>): nat
    requires forall p | p in files :: p in t.nodes && t.nodes[p].meta.Some? && p != []
    decreases |files|
  {
    if files == {} then 0 else
    var p :| p in files;
    StampAt(t, p) + Sum(t, files - {p})
  }

  lemma {:induction false} SumOneMore(t: Tree, files: set<Path>, p: Path)
    requires p !in files
    requires forall q | q in files + {p} :: q in t.nodes && t.nodes[q].meta.Some? && q != []
    ensures Sum(t, files + {p}) == Sum(t, files) + StampAt(t, p)
    decreases |files|
  {
    var all := files + {p};
    var q :| q in all && Sum(t, all) == StampAt(t, q) + Sum(t, all - {q});
    if q == p {
      assert all - {p} == files;
    } else {
      assert all - {q} == (files - {q}) + {p};
      SumOneMore(t, files - {q}, p);
      assert files == (files - {q}) + {q};
      SumOneMore(t, files - {q}, q);
    }
  }

  /** The share of the `n`-th of the files watched outside the watched directories. */
  function LooseAt(t: Tree, n: nat): nat
    requires n < |WATCH_FILES|
  {
    var p := [WATCH_FILES[n]];
    if p in t.nodes && t.nodes[p].meta.Some? then Stamp(HashOf(0, WATCH_FILES[n]), [], t.nodes[p].meta.value) else 0
  }

  function LooseSum(t: Tree, n: nat): nat
    requires n <= |WATCH_FILES|
  {
    if n == 0 then 0 else LooseSum(t, n - 1) + LooseAt(t, n - 1)
  }

  /** What the fingerprint is meant to be: every watched file's stamp, once. */
  ghost function Specified(t: Tree): nat {
    (LooseSum(t, |WATCH_FILES|) + Sum(t, Watched(t))) % U64
  }

  // ---- the walk ----

  lemma RootsAreDistinct()
    ensures forall i, j | 0 <= i < j < |WATCH_DIRS| :: WATCH_DIRS[i] != WATCH_DIRS[j]
  {
    assert WATCH_DIRS[0][0] == 'a' as int as byte && WATCH_DIRS[1][0] == 'b' as int as byte;
    assert WATCH_DIRS[2][0] == 'c' as int as byte && WATCH_DIRS[3][0] == 'd' as int as byte;
    assert WATCH_DIRS[4][1] == 'o' as int as byte && WATCH_DIRS[5][1] == 'e' as int as byte;
    assert WATCH_DIRS[4][0] == WATCH_DIRS[5][0] == 'r' as int as byte && WATCH_DIRS[6][0] == 'p' as int as byte;
  }

  type Stack = seq<(Path, nat)>

  ghost predicate Waits(stack: Stack, d: Path) {
    exists i | 0 <= i < |stack| :: stack[i].0 == d
  }

  /** Directories already taken from the stack: all of them entered, none before
      its parent. */
  ghost predicate Taken(t: Tree, done: set<Path>) {
    forall d | d in done :: Entered(t, d) && (|d| == 1 || Parent(d) in done)
  }

  /** The stack: distinct directories still to enter, each with its hash, whose
      parents were taken. */
  ghost predicate Frontier(t: Tree, done: set<Path>, stack: Stack) {
    && (forall i | 0 <= i < |stack| :: Entered(t, stack[i].0) && stack[i].1 == DirHash(stack[i].0))
    && (forall i | 0 <= i < |stack| :: stack[i].0 !in done && (|stack[i].0| == 1 || Parent(stack[i].0) in done))
    && (forall i, j | 0 <= i < j < |stack| :: stack[i].0 != stack[j].0)
  }

  /** While the first `i` entries of `d` have been read, a directory whose parent
      was taken is itself taken, waiting, or among the entries not yet read. */
  ghost predicate Closed(t: Tree, done: set<Path>, stack: Stack, d: Path, i: nat) {
    forall e | e in t.nodes && Entered(t, e) && (|e| == 1 || Parent(e) in done) ::
      e in done || Waits(stack, e) || Unread(t, e, d, i)
  }

  /** `p` is one of the entries of `d` after the first `i`. */
  ghost predicate Unread(t: Tree, p: Path, d: Path, i: nat) {
    |p| > 1 && Parent(p) == d && d in t.listing && i <= |t.listing[d]| && Leaf(p) in t.listing[d][i..]
  }

  /** Exactly the entries read so far. */
  ghost predicate Seen(t: Tree, done: set<Path>, visited: set<Path>, d: Path, i: nat) {
    forall p :: p in visited <==> Listed(t, p) && Parent(p) in done && !Unread(t, p, d, i)
  }

  ghost predicate Walking(t: Tree, done: set<Path>, stack: Stack, visited: set<Path>, d: Path, i: nat) {
    && Taken(t, done) && Frontier(t, done, stack) && Closed(t, done, stack, d, i) && Seen(t, done, visited, d, i)
    && (forall k | 0 <= k < |stack| :: !Unread(t, stack[k].0, d, i))
    && (forall e | e in done :: !Unread(t, e, d, i))
  }

  ghost function Directories(t: Tree): set<Path> {
    set d | d in t.nodes && Entered(t, d)
  }

  ghost function Counted(t: Tree, visited: set<Path>): set<Path> {
    set p | p in visited && WatchedFile(t, p)
  }

  lemma SubsetIsNoLarger<T>(a: set<T>, b: set<T>)
    requires a <= b
    ensures |a| <= |b|
  {
    assert b == a + (b - a);
  }

  lemma Wrapped(a: nat, b: nat)
    ensures (a % U64 + b) % U64 == (a + b) % U64
  {
    assert a == a / U64 * U64 + a % U64;
  }

  /** What an entry has to be, one level deep. */
  lemma AnEntry(t: Tree, p: Path)
    ensures Listed(t, p) <==>
      |p| > 1 && p in t.nodes && Entered(t, Parent(p)) && Parent(p) in t.listing && Leaf(p) in t.listing[Parent(p)]
    ensures Entered(t, p) ==> p != [] && p in t.nodes && (|p| > 1 ==> Listed(t, p))
  {
  }

  lemma StillWaits(stack: Stack, e: Path)
    requires stack != [] && Waits(stack, e) && e != stack[|stack| - 1].0
    ensures Waits(stack[..|stack| - 1], e)
  {
    var i :| 0 <= i < |stack| && stack[i].0 == e;
    assert stack[..|stack| - 1][i].0 == e;
  }

  lemma WaitsAbove(stack: Stack, top: (Path, nat), e: Path)
    ensures Waits(stack, e) || e == top.0 ==> Waits(stack + [top], e)
  {
    if Waits(stack, e) {
      var i :| 0 <= i < |stack| && stack[i].0 == e;
      assert (stack + [top])[i].0 == e;
    } else {
      assert (stack + [top])[|stack|] == top;
    }
  }

  /** The directory being read: none of its entries yet, if it can be read. */
  function Reading(t: Tree, d: Path): Path {
    if d in t.listing then d else []
  }

  lemma NothingReadYet(t: Tree, d: Path, p: Path)
    requires d != []
    ensures Unread(t, p, Reading(t, d), 0) <==>
      d in t.listing && |p| > 1 && Parent(p) == d && Leaf(p) in t.listing[d]
    ensures !Unread(t, p, [], 0)
  {
    if d in t.listing { assert t.listing[d][0..] == t.listing[d]; }
  }

  lemma TakeOne(t: Tree, done: set<Path>, stack: Stack, visited: set<Path>, e: Path)
    requires stack != [] && Walking(t, done, stack, visited, [], 0)
    ensures var d := stack[|stack| - 1].0; var reading := Reading(t, d); var rest := stack[..|stack| - 1];
      && (Entered(t, e) && (|e| == 1 || Parent(e) in done + {d}) ==>
          e in done + {d} || Waits(rest, e) || Unread(t, e, reading, 0))
      && (e in visited <==> Listed(t, e) && Parent(e) in done + {d} && !Unread(t, e, reading, 0))
      && (e in done + {d} || Waits(rest, e) ==> !Unread(t, e, reading, 0))
  {
    hide Entered, Listed, Unread;
    var d := stack[|stack| - 1].0;
    AnEntry(t, e);
    AnEntry(t, d);
    NothingReadYet(t, d, e);
    if Waits(stack, e) && e != d { StillWaits(stack, e); }
  }

  /** Taking the top directory off the stack. */
  lemma Take(t: Tree, done: set<Path>, stack: Stack, visited: set<Path>)
    requires stack != [] && Walking(t, done, stack, visited, [], 0)
    ensures var d := stack[|stack| - 1].0;
      && Entered(t, d) && d !in done && stack[|stack| - 1].1 == DirHash(d)
      && Walking(t, done + {d}, stack[..|stack| - 1], visited, Reading(t, d), 0)
  {
    hide Entered, Listed, Unread, Waits, DirHash, Reading;
    var rest := stack[..|stack| - 1];
    var d := stack[|stack| - 1].0;
    AnEntry(t, d);
    forall e
      ensures Entered(t, e) && (|e| == 1 || Parent(e) in done + {d}) ==>
        e in done + {d} || Waits(rest, e) || Unread(t, e, Reading(t, d), 0)
      ensures e in visited <==> Listed(t, e) && Parent(e) in done + {d} && !Unread(t, e, Reading(t, d), 0)
      ensures e in done + {d} || Waits(rest, e) ==> !Unread(t, e, Reading(t, d), 0)
    {
      TakeOne(t, done, stack, visited, e);
    }
    forall k | 0 <= k < |rest|
      ensures Waits(rest, rest[k].0)
    {
      AtItsPlace(rest, k);
    }
  }

  lemma AtItsPlace(stack: Stack, k: nat)
    requires k < |stack|
    ensures Waits(stack, stack[k].0)
  {
  }

  lemma OneFewerUnread(t: Tree, d: Path, i: nat, q: Path)
    requires WellFormed(t) && d in t.listing && i < |t.listing[d]| && d != []
    ensures var p := d + [t.listing[d][i]];
      (Unread(t, q, d, i) <==> q == p || Unread(t, q, d, i + 1)) && !Unread(t, p, d, i + 1)
  {
    var names := t.listing[d];
    var p := d + [names[i]];
    assert Parent(p) == d && Leaf(p) == names[i];
    assert names[i..] == [names[i]] + names[i + 1..];
    if |q| > 0 && Parent(q) == d && Leaf(q) == names[i] { assert q == d + [names[i]]; }
  }

  /** The stack once entry `p` has been read. */
  ghost function Pushed(t: Tree, stack: Stack, p: Path): Stack {
    if Entered(t, p) then stack + [(p, DirHash(p))] else stack
  }

  lemma ReadOne(t: Tree, done: set<Path>, stack: Stack, visited: set<Path>, d: Path, i: nat, e: Path)
    requires WellFormed(t) && d in done && d in t.listing && i < |t.listing[d]|
    requires Walking(t, done, stack, visited, d, i)
    ensures var p := d + [t.listing[d][i]]; var next := Pushed(t, stack, p);
      && (Entered(t, e) && (|e| == 1 || Parent(e) in done) ==> e in done || Waits(next, e) || Unread(t, e, d, i + 1))
      && (e in visited + {p} <==> Listed(t, e) && Parent(e) in done && !Unread(t, e, d, i + 1))
      && (e in done || Waits(stack, e) ==> !Unread(t, e, d, i + 1) && e != p)
  {
    hide Entered, Listed, Unread;
    var p := d + [t.listing[d][i]];
    assert Parent(p) == d && Leaf(p) == t.listing[d][i];
    AnEntry(t, p);
    AnEntry(t, d);
    AnEntry(t, e);
    OneFewerUnread(t, d, i, e);
    OneFewerUnread(t, d, i, p);
    WaitsAbove(stack, (p, DirHash(p)), e);
  }

  lemma PushFrontier(t: Tree, done: set<Path>, stack: Stack, p: Path, d: Path, i: nat)
    requires Frontier(t, done, stack) && Parent(p) in done && p !in done && !Waits(stack, p) && !Unread(t, p, d, i)
    requires forall k | 0 <= k < |stack| :: !Unread(t, stack[k].0, d, i)
    ensures var next := Pushed(t, stack, p);
      Frontier(t, done, next) && forall k | 0 <= k < |next| :: !Unread(t, next[k].0, d, i)
  {
    hide Entered, Listed, Unread, DirHash;
  }

  /** Reading entry `i` of `d`. */
  lemma ReadEntry(t: Tree, done: set<Path>, stack: Stack, visited: set<Path>, d: Path, i: nat)
    requires WellFormed(t) && d in done && d in t.listing && i < |t.listing[d]|
    requires Walking(t, done, stack, visited, d, i)
    ensures var p := d + [t.listing[d][i]];
      Listed(t, p) && p !in visited && Walking(t, done, Pushed(t, stack, p), visited + {p}, d, i + 1)
  {
    hide Entered, Listed, Unread, Waits, DirHash, Pushed;
    var p := d + [t.listing[d][i]];
    assert Parent(p) == d && Leaf(p) == t.listing[d][i];
    AnEntry(t, p);
    AnEntry(t, d);
    OneFewerUnread(t, d, i, p);
    forall e
      ensures Entered(t, e) && (|e| == 1 || Parent(e) in done) ==>
        e in done || Waits(Pushed(t, stack, p), e) || Unread(t, e, d, i + 1)
      ensures e in visited + {p} <==> Listed(t, e) && Parent(e) in done && !Unread(t, e, d, i + 1)
      ensures e in done || Waits(stack, e) ==> !Unread(t, e, d, i + 1) && e != p
    {
      ReadOne(t, done, stack, visited, d, i, e);
    }
    forall k | 0 <= k < |stack|
      ensures Waits(stack, stack[k].0)
    {
      AtItsPlace(stack, k);
    }
    PushFrontier(t, done, stack, p, d, i + 1);
  }

  lemma {:induction false} NothingIsMissed(t: Tree, done: set<Path>, visited: set<Path>, d: Path)
    requires Walking(t, done, [], visited, [], 0) && Entered(t, d)
    ensures d in done
    decreases |d|
  {
    if |d| > 1 { NothingIsMissed(t, done, visited, Parent(d)); }
  }

  lemma EverythingWasSeen(t: Tree, done: set<Path>, visited: set<Path>)
    requires Walking(t, done, [], visited, [], 0)
    ensures visited == Entries(t) && Counted(t, visited) == Watched(t)
  {
    forall p | p in t.nodes && Listed(t, p)
      ensures p in visited
    {
      NothingIsMissed(t, done, visited, Parent(p));
    }
  }

  /** Whether an entry is a watched file, told as the walk tells it. */
  lemma CountsWhenPhp(t: Tree, done: set<Path>, visited: set<Path>, p: Path)
    requires Listed(t, p) && p !in visited && forall q | q in visited :: Listed(t, q)
    ensures WatchedFile(t, p) <==>
      t.nodes[p].isDir == Some(false) && EndsWithPhp(Leaf(p)) && t.nodes[p].meta.Some?
    ensures Entered(t, p) <==> t.nodes[p].isDir == Some(true) && !Skipped(Leaf(p))
    ensures Sum(t, Counted(t, visited + {p})) == Sum(t, Counted(t, visited)) + if WatchedFile(t, p) then StampAt(t, p) else 0
  {
    hide Skipped, EndsWithPhp, Stamp, DirHash;
    if WatchedFile(t, p) {
      assert Counted(t, visited + {p}) == Counted(t, visited) + {p};
      SumOneMore(t, Counted(t, visited), p);
    } else {
      assert Counted(t, visited + {p}) == Counted(t, visited);
    }
  }

  /** The waiting roots, first `n` of them considered. */
  ghost predicate Roots(t: Tree, stack: Stack, n: nat)
    requires n <= |WATCH_DIRS|
  {
    && Frontier(t, {}, stack)
    && (forall i | 0 <= i < |stack| :: |stack[i].0| == 1)
    && (forall d | Entered(t, d) && |d| == 1 :: Leaf(d) in WATCH_DIRS[..n] <==> Waits(stack, d))
  }

  lemma OneMoreName(names: seq<Name>, n: nat, x: Name)
    requires n < |names|
    ensures x in names[..n + 1] <==> x in names[..n] || x == names[n]
  {
    assert names[..n + 1] == names[..n] + [names[n]];
  }

  lemma NextRoot(t: Tree, stack: Stack, n: nat)
    requires n < |WATCH_DIRS| && Roots(t, stack, n) && WATCH_DIRS[n] !in WATCH_DIRS[..n]
    ensures Roots(t, Pushed(t, stack, [WATCH_DIRS[n]]), n + 1)
  {
    hide Ascii, DirHash, Waits, Entered, Pushed;
    var p := [WATCH_DIRS[n]];
    assert Leaf(p) == WATCH_DIRS[n];
    forall i | 0 <= i < |stack|
      ensures Waits(stack, stack[i].0)
    {
      AtItsPlace(stack, i);
    }
    PushRoot(t, stack, p);
    forall d | Entered(t, d) && |d| == 1
      ensures Leaf(d) in WATCH_DIRS[..n + 1] <==> Waits(Pushed(t, stack, p), d)
    {
      OneMoreName(WATCH_DIRS, n, Leaf(d));
      PushWaits(t, stack, p, d);
      if Leaf(d) == WATCH_DIRS[n] { assert d == p; }
    }
  }

  lemma PushWaits(t: Tree, stack: Stack, p: Path, e: Path)
    ensures Waits(Pushed(t, stack, p), e) <==> Waits(stack, e) || (e == p && Entered(t, p))
  {
    hide Entered, DirHash;
    WaitsAbove(stack, (p, DirHash(p)), e);
    var next := stack + [(p, DirHash(p))];
    if Waits(next, e) && e != p { StillWaits(next, e); assert next[..|next| - 1] == stack; }
  }

  lemma PushRoot(t: Tree, stack: Stack, p: Path)
    requires Frontier(t, {}, stack) && |p| == 1 && (Entered(t, p) ==> !Waits(stack, p))
    requires forall i | 0 <= i < |stack| :: |stack[i].0| == 1
    ensures Frontier(t, {}, Pushed(t, stack, p))
    ensures forall i | 0 <= i < |Pushed(t, stack, p)| :: |Pushed(t, stack, p)[i].0| == 1
  {
    hide Entered, DirHash, Waits;
    forall i | 0 <= i < |stack|
      ensures Waits(stack, stack[i].0)
    {
      AtItsPlace(stack, i);
    }
  }

  lemma ARoot(t: Tree, n: nat)
    requires n < |WATCH_DIRS|
    ensures var p := [WATCH_DIRS[n]];
      && (Entered(t, p) <==> p in t.nodes && t.nodes[p].isDir == Some(true))
      && DirHash(p) == HashOf(0, WATCH_DIRS[n]) && WATCH_DIRS[n] !in WATCH_DIRS[..n]
  {
    hide Ascii, HashOf;
    RootsAreDistinct();
    var p := [WATCH_DIRS[n]];
    assert p[..0] == [];
    assert Leaf(p) == WATCH_DIRS[n] && WATCH_DIRS[n] in WATCH_DIRS;
  }

  lemma StartWalking(t: Tree, stack: Stack)
    requires Roots(t, stack, |WATCH_DIRS|)
    ensures Walking(t, {}, stack, {}, [], 0)
  {
    hide Ascii, DirHash, Waits;
    assert WATCH_DIRS[..|WATCH_DIRS|] == WATCH_DIRS;
  }

  lemma DirectoryDone(t: Tree, done: set<Path>, stack: Stack, visited: set<Path>, d: Path)
    requires d in t.listing && Walking(t, done, stack, visited, d, |t.listing[d]|)
    ensures Walking(t, done, stack, visited, [], 0)
  {
    hide Entered, Listed, Waits, DirHash;
  }

  ghost function CountedSum(t: Tree, visited: set<Path>): nat {
    Sum(t, Counted(t, visited))
  }

  /** The running state: what is in `sum`, and what is left of the budget. */
  ghost predicate Exact(t: Tree, sum: nat, visited: set<Path>, budget: nat) {
    && sum == (LooseSum(t, |WATCH_FILES|) + CountedSum(t, visited)) % U64
    && budget + |visited| == SCAN_BUDGET && visited <= Entries(t)
  }

  /** `sum` after the entry `name` of `d` has been looked at. */
  function Added(t: Tree, sum: nat, d: Path, dirHash: nat, name: Name): nat
    requires d + [name] in t.nodes
  {
    var node := t.nodes[d + [name]];
    if node.isDir == Some(false) && EndsWithPhp(name) && node.meta.Some?
    then (sum + Stamp(dirHash, name, node.meta.value)) % U64 else sum
  }

  lemma AnEntryOf(t: Tree, d: Path, name: Name)
    requires Listed(t, d + [name])
    ensures var p := d + [name];
      && p in t.nodes && DirHash(p) == HashOf(DirHash(d), name) && Parent(p) == d && Leaf(p) == name
  {
    hide HashOf;
    var p := d + [name];
    assert p[..|p| - 1] == d;
  }

  lemma AddEntry(t: Tree, sum: nat, visited: set<Path>, d: Path, name: Name)
    requires visited <= Entries(t) && Listed(t, d + [name]) && d + [name] !in visited
    requires sum == (LooseSum(t, |WATCH_FILES|) + CountedSum(t, visited)) % U64
    ensures d + [name] in t.nodes
    ensures Added(t, sum, d, DirHash(d), name) ==
      (LooseSum(t, |WATCH_FILES|) + CountedSum(t, visited + {d + [name]})) % U64
  {
    hide Skipped, EndsWithPhp, Stamp, HashOf, LooseSum, Entered, WatchedFile, Listed;
    var p := d + [name];
    AnEntryOf(t, d, name);
    CountsWhenPhp(t, {}, visited, p);
    if WatchedFile(t, p) { Wrapped(LooseSum(t, |WATCH_FILES|) + CountedSum(t, visited), StampAt(t, p)); }
  }

  lemma VisitEntry(t: Tree, sum: nat, visited: set<Path>, budget: nat, d: Path, name: Name)
    requires Exact(t, sum, visited, budget) && Listed(t, d + [name]) && d + [name] !in visited
    ensures var p := d + [name];
      && p in t.nodes && |Entries(t)| > |visited|
      && (Entered(t, p) <==> t.nodes[p].isDir == Some(true) && !Skipped(name))
      && DirHash(p) == HashOf(DirHash(d), name)
      && (budget > 0 ==> Exact(t, Added(t, sum, d, DirHash(d), name), visited + {p}, budget - 1))
  {
    hide Skipped, LooseSum, CountedSum, Added, HashOf;
    var p := d + [name];
    AnEntryOf(t, d, name);
    AddEntry(t, sum, visited, d, name);
    SubsetIsNoLarger(visited + {p}, Entries(t));
  }

  lemma LooseStep(t: Tree, n: nat)
    requires n < |WATCH_FILES|
    ensures LooseSum(t, n + 1) % U64 == (LooseSum(t, n) % U64 + LooseAt(t, n)) % U64
    ensures LooseSum(t, 0) == 0
  {
    hide LooseAt, Ascii;
    Wrapped(LooseSum(t, n), LooseAt(t, n));
  }

  lemma NothingYet(t: Tree)
    ensures Exact(t, LooseSum(t, |WATCH_FILES|) % U64, {}, SCAN_BUDGET)
  {
    hide LooseSum, Entries;
  }

  lemma Finished(t: Tree, done: set<Path>, visited: set<Path>, sum: nat, budget: nat)
    requires Walking(t, done, [], visited, [], 0) && Exact(t, sum, visited, budget)
    ensures sum == Specified(t) && |Entries(t)| <= SCAN_BUDGET
  {
    hide LooseSum, Walking;
    EverythingWasSeen(t, done, visited);
  }

  lemma TakenAreDirectories(t: Tree, done: set<Path>, d: Path)
    requires Entered(t, d) && d !in done
    ensures Directories(t) - (done + {d}) < Directories(t) - done
  {
    AnEntry(t, d);
    assert d in Directories(t) - done;
  }

  lemma NoRoots(t: Tree)
    ensures Roots(t, [], 0)
  {
  }

  /** The files watched outside the watched directories. */
  method LooseFiles(t: Tree) returns (sum: nat)
    ensures sum == LooseSum(t, |WATCH_FILES|) % U64
  {
    hide LooseSum, Stamp, Ascii, HashOf;
    sum := 0;
    LooseStep(t, 0);
    for i := 0 to |WATCH_FILES|
      invariant sum == LooseSum(t, i) % U64
    {
      var file := [WATCH_FILES[i]];
      if file in t.nodes && t.nodes[file].meta.Some? {
        sum := (sum + Stamp(HashOf(0, WATCH_FILES[i]), [], t.nodes[file].meta.value)) % U64;
      }
      LooseStep(t, i);
    }
  }

  /** The watched directories that exist. */
  method WaitingRoots(t: Tree) returns (stack: Stack)
    ensures Roots(t, stack, |WATCH_DIRS|)
  {
    hide Entered, Roots, Ascii, HashOf, DirHash;
    stack := [];
    NoRoots(t);
    for i := 0 to |WATCH_DIRS|
      invariant Roots(t, stack, i)
    {
      var root := [WATCH_DIRS[i]];
      ARoot(t, i);
      NextRoot(t, stack, i);
      if root in t.nodes && t.nodes[root].isDir == Some(true) {
        var hash := HashBytes(0, WATCH_DIRS[i]);
        stack := stack + [(root, hash)];
      }
    }
  }

  /** The fingerprint of a project: the stack-driven walk adds up exactly the
      watched files, each once; if the scan budget stops it, exactly those among
      as many entries as the budget allows. */
  method Fingerprint(t: Tree) returns (sum: nat)
    requires WellFormed(t)
    ensures |Entries(t)| <= 20000 ==> sum == Specified(t)
    ensures |Entries(t)| > 20000 ==> exists visited :: Exact(t, sum, visited, 0)
  {
    hide Entered, Listed, Walking, Specified, LooseSum, Skipped, EndsWithPhp, Stamp, Roots, Entries, Counted, CountedSum,
         Ascii, DirHash, HashOf, Directories, WellFormed, Exact;
    sum := LooseFiles(t);
    NothingYet(t);
    var budget := SCAN_BUDGET;
    var stack := WaitingRoots(t);
    StartWalking(t, stack);

    ghost var done: set<Path>, visited: set<Path> := {}, {};
    while stack != []
      invariant Walking(t, done, stack, visited, [], 0) && Exact(t, sum, visited, budget)
      decreases Directories(t) - done
    {
      var (d, dirHash) := stack[|stack| - 1];
      Take(t, done, stack, visited);
      TakenAreDirectories(t, done, d);
      stack, done := stack[..|stack| - 1], done + {d};
      if d !in t.listing { continue; }
      var names := t.listing[d];
      for j := 0 to |names|
        invariant Walking(t, done, stack, visited, d, j) && Exact(t, sum, visited, budget)
      {
        var name := names[j];
        var p := d + [name];
        ReadEntry(t, done, stack, visited, d, j);
        VisitEntry(t, sum, visited, budget, d, name);
        if budget == 0 {
          OutOfBudget(t, sum, visited);
          return;
        }
        budget, visited := budget - 1, visited + {p};
        if t.nodes[p].isDir.None? { continue; }
        if t.nodes[p].isDir.value {
          if !Skipped(name) {
            var hash := HashBytes(dirHash, name);
            stack := stack + [(p, hash)];
          }
          continue;
        }
        assert t.nodes[p].isDir == Some(false);
        if !EndsWithPhp(name) { continue; }
        if t.nodes[p].meta.Some? { sum := (sum + Stamp(dirHash, name, t.nodes[p].meta.value)) % U64; }
      }
      DirectoryDone(t, done, stack, visited, d);
    }
    Finished(t, done, visited, sum, budget);
  }

  lemma OutOfBudget(t: Tree, sum: nat, visited: set<Path>)
    requires Exact(t, sum, visited, 0) && |Entries(t)| > |visited|
    ensures |Entries(t)| > SCAN_BUDGET
  {
    hide LooseSum, CountedSum, Entries;
  }

  // ---- what moves the fingerprint ----

  /** Two states of a project that list the same names and differ in nothing but
      the file at `p`: it may be there in either, with any metadata. The order in
      which directories list their entries is free. */
  ghost predicate SameBut(t: Tree, u: Tree, p: Path) {
    && (forall q | q != p :: (q in t.nodes <==> q in u.nodes) && (q in t.nodes ==> t.nodes[q] == u.nodes[q]))
    && (forall d | d != p :: d in t.listing <==> d in u.listing)
    && (forall d, n | d != p && d in t.listing && d in u.listing && d + [n] != p ::
          n in t.listing[d] <==> n in u.listing[d])
    && (p in t.nodes && p != [] ==> t.nodes[p].isDir != Some(true))
    && (p in u.nodes && p != [] ==> u.nodes[p].isDir != Some(true))
  }

  /** What the file at `p` adds to the fingerprint. */
  ghost function Share(t: Tree, p: Path): nat {
    if WatchedFile(t, p) then StampAt(t, p)
    else if |p| == 1 && Leaf(p) in WATCH_FILES && p in t.nodes && t.nodes[p].meta.Some?
    then Stamp(HashOf(0, Leaf(p)), [], t.nodes[p].meta.value)
    else 0
  }

  lemma {:induction false} SameDirectories(t: Tree, u: Tree, p: Path, d: Path)
    requires SameBut(t, u, p)
    ensures Entered(t, d) <==> Entered(u, d)
    ensures d != p ==> (Listed(t, d) <==> Listed(u, d))
    decreases |d|
  {
    hide Skipped, Ascii;
    if |d| > 1 {
      SameDirectories(t, u, p, Parent(d));
      assert d == Parent(d) + [Leaf(d)];
      if Parent(d) == p { AnEntry(t, p); AnEntry(u, p); }
    }
  }

  lemma {:induction false} SumAgrees(t: Tree, u: Tree, files: set<Path>)
    requires forall p | p in files ::
      p != [] && p in t.nodes && p in u.nodes && t.nodes[p] == u.nodes[p] && t.nodes[p].meta.Some?
    ensures Sum(t, files) == Sum(u, files)
    decreases |files|
  {
    hide Stamp, DirHash;
    if files != {} {
      var p :| p in files;
      assert files == (files - {p}) + {p};
      SumOneMore(t, files - {p}, p);
      SumOneMore(u, files - {p}, p);
      SumAgrees(t, u, files - {p});
    }
  }

  lemma {:induction false} LooseAgrees(t: Tree, u: Tree, p: Path, n: nat)
    requires SameBut(t, u, p) && n <= |WATCH_FILES|
    ensures var hit := |p| == 1 && Leaf(p) in WATCH_FILES[..n];
      LooseSum(t, n) + (if hit then Share(u, p) else 0) == LooseSum(u, n) + (if hit then Share(t, p) else 0)
    decreases n
  {
    hide Stamp, HashOf, DirHash, Ascii;
    if n > 0 {
      LooseAgrees(t, u, p, n - 1);
      FilesAreDistinct(n - 1);
      OneMoreName(WATCH_FILES, n - 1, Leaf(p));
      if |p| == 1 { assert p == [Leaf(p)]; }
    }
  }

  lemma FilesAreDistinct(n: nat)
    requires n < |WATCH_FILES|
    ensures WATCH_FILES[n] !in WATCH_FILES[..n]
  {
    assert |WATCH_FILES[0]| == 4 && |WATCH_FILES[1]| == 13 && |WATCH_FILES[2]| == 7;
  }

  lemma WatchedAgrees(t: Tree, u: Tree, p: Path)
    requires SameBut(t, u, p)
    ensures Watched(t) - {p} == Watched(u) - {p}
    ensures OtherSum(t, p) == OtherSum(u, p)
  {
    hide Entered, Listed, Skipped, EndsWithPhp, Stamp, DirHash;
    forall q
      ensures q != p ==> (WatchedFile(t, q) <==> WatchedFile(u, q))
      ensures Listed(t, q) ==> q in t.nodes && q != []
      ensures Listed(u, q) ==> q in u.nodes && q != []
    {
      SameDirectories(t, u, p, q);
      AnEntry(t, q);
      AnEntry(u, q);
    }
    SumAgrees(t, u, Watched(t) - {p});
  }

  ghost function WatchedSum(t: Tree): nat {
    Sum(t, Watched(t))
  }

  ghost function OtherSum(t: Tree, p: Path): nat {
    Sum(t, Watched(t) - {p})
  }

  lemma SplitSum(t: Tree, p: Path)
    ensures WatchedSum(t) == OtherSum(t, p) + if WatchedFile(t, p) then StampAt(t, p) else 0
    ensures Specified(t) == (LooseSum(t, |WATCH_FILES|) + WatchedSum(t)) % U64
    ensures |p| == 1 ==> !WatchedFile(t, p)
  {
    hide Skipped, EndsWithPhp, Stamp, DirHash;
    if WatchedFile(t, p) {
      assert Watched(t) == (Watched(t) - {p}) + {p};
      SumOneMore(t, Watched(t) - {p}, p);
    } else {
      assert Watched(t) == Watched(t) - {p};
    }
  }

  lemma {:induction false} HashStaysBelow(hash: nat, bytes: Bytes)
    requires hash < U64
    ensures HashFold(hash, bytes) < U64
    decreases |bytes|
  {
    if bytes != [] {
      HashStaysBelow(Xor(hash, bytes[0] as nat) * FNV64_MULTIPLIER % U64, bytes[1..]);
    }
  }

  lemma {:induction false} DirHashStaysBelow(d: Path)
    ensures DirHash(d) < U64
    decreases |d|
  {
    hide HashFold;
    if |d| > 0 {
      DirHashStaysBelow(d[..|d| - 1]);
      var seed := DirHash(d[..|d| - 1]);
      HashStaysBelow(if seed == 0 then FNV64_OFFSET else seed, d[|d| - 1]);
    }
  }

  lemma HashOfStaysBelow(seed: nat, bytes: Bytes)
    requires seed < U64
    ensures HashOf(seed, bytes) < U64
  {
    hide HashFold;
    HashStaysBelow(if seed == 0 then FNV64_OFFSET else seed, bytes);
  }

  lemma StampStaysBelow(dirHash: nat, name: Name, meta: Meta)
    requires dirHash < U64
    ensures Stamp(dirHash, name, meta) < U64
  {
    hide HashOf, LittleEndian;
    HashOfStaysBelow(dirHash, name);
    var h := HashOf(dirHash, name);
    HashOfStaysBelow(h, LittleEndian(meta.len, 8));
    var g := HashOf(h, LittleEndian(meta.len, 8));
    match meta.mtime
    case None =>
    case Some((secs, nanos)) =>
      HashOfStaysBelow(g, LittleEndian(secs, 8));
      HashOfStaysBelow(HashOf(g, LittleEndian(secs, 8)), LittleEndian(nanos, 4));
  }

  lemma ShareStaysBelow(t: Tree, p: Path)
    ensures Share(t, p) < U64
  {
    hide HashOf, Stamp, DirHash, Listed, Entered, EndsWithPhp, Ascii;
    if WatchedFile(t, p) {
      AnEntry(t, p);
      DirHashStaysBelow(Parent(p));
      StampStaysBelow(DirHash(Parent(p)), Leaf(p), t.nodes[p].meta.value);
    } else if |p| == 1 && p in t.nodes && t.nodes[p].meta.Some? {
      HashOfStaysBelow(0, Leaf(p));
      StampStaysBelow(HashOf(0, Leaf(p)), [], t.nodes[p].meta.value);
    }
  }

  lemma Residues(a: nat, b: nat, x: nat, y: nat)
    requires a + y == b + x && x < U64 && y < U64
    ensures a % U64 == b % U64 <==> x == y
    ensures (a % U64 + y) % U64 == (b % U64 + x) % U64
  {
    Wrapped(a, y);
    Wrapped(b, x);
    var q, r := a / U64, b / U64;
    assert a == q * U64 + a % U64 && b == r * U64 + b % U64;
  }

  /** The effect of one file, in any directory order: creating, deleting or
      editing the file at `p` moves the fingerprint exactly when it changes that
      file's share, and by exactly the difference. */
  lemma OneFileMovesItByItsShare(t: Tree, u: Tree, p: Path)
    requires SameBut(t, u, p)
    ensures (Specified(t) + Share(u, p)) % U64 == (Specified(u) + Share(t, p)) % U64
    ensures Specified(t) == Specified(u) <==> Share(t, p) == Share(u, p)
  {
    hide Stamp, DirHash, Ascii, LooseSum, WatchedFile, WatchedSum, OtherSum, Specified, HashOf;
    WatchedAgrees(t, u, p);
    SplitSum(t, p);
    SplitSum(u, p);
    LooseAgrees(t, u, p, |WATCH_FILES|);
    assert WATCH_FILES[..|WATCH_FILES|] == WATCH_FILES;
    ShareStaysBelow(t, p);
    ShareStaysBelow(u, p);
    Residues(LooseSum(t, |WATCH_FILES|) + WatchedSum(t), LooseSum(u, |WATCH_FILES|) + WatchedSum(u),
      Share(t, p), Share(u, p));
  }

  /** Adding a file and removing it again, or editing it back, restores the
      fingerprint, whatever order the directories are listed in by then. */
  lemma PuttingItBackRestoresIt(t: Tree, u: Tree, v: Tree, p: Path)
    requires SameBut(t, u, p) && SameBut(u, v, p)
    requires p in t.nodes <==> p in v.nodes
    requires p in t.nodes ==> t.nodes[p] == v.nodes[p]
    requires Listed(t, p) <==> Listed(v, p)
    ensures Specified(v) == Specified(t)
  {
    hide Stamp, DirHash, Ascii, Listed, Entered, LooseSum, Watched, HashOf, EndsWithPhp, SameBut;
    OneFileMovesItByItsShare(t, u, p);
    OneFileMovesItByItsShare(u, v, p);
    assert Share(t, p) == Share(v, p) by { AnEntry(t, p); AnEntry(v, p); }
    Cancels(Specified(t), Specified(v), Share(u, p));
  }

  lemma Cancels(a: nat, b: nat, x: nat)
    requires a < U64 && b < U64 && (a + x) % U64 == (b + x) % U64
    ensures a == b
  {
    var q, r := (a + x) / U64, (b + x) / U64;
    assert a + x == q * U64 + (a + x) % U64 && b + x == r * U64 + (b + x) % U64;
  }

  /** The order in which directories list their entries does not matter. */
  lemma OrderDoesNotMatter(t: Tree, u: Tree)
    requires t.nodes == u.nodes && t.listing.Keys == u.listing.Keys
    requires forall d, n | d in t.listing :: n in t.listing[d] <==> n in u.listing[d]
    ensures Specified(t) == Specified(u)
  {
    hide Stamp, DirHash, Ascii, Listed, Entered, Specified, HashOf, EndsWithPhp;
    OneFileMovesItByItsShare(t, u, []);
    assert Share(t, []) == Share(u, []) by { AnEntry(t, []); AnEntry(u, []); }
  }
}
