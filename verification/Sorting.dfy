/** Sorting by a name, as the listings and the mode parser do. */
module Sorting {
  import opened Text

  ghost predicate Ordered<T>(key: T -> string, xs: seq<T>) {
    forall i, j | 0 <= i < j < |xs| :: !Less(key(xs[j]), key(xs[i]))
  }

  function Insert<T>(key: T -> string, x: T, xs: seq<T>): seq<T>
    decreases |xs|
  {
    if xs == [] || !Less(key(xs[0]), key(x)) then [x] + xs else [xs[0]] + Insert(key, x, xs[1..])
  }

  function Sort<T>(key: T -> string, xs: seq<T>): seq<T>
    decreases |xs|
  {
    if xs == [] then [] else Insert(key, xs[0], Sort(key, xs[1..]))
  }

  /** How many elements satisfy `p`. */
  function Count<T>(p: T -> bool, xs: seq<T>): nat
    decreases |xs|
  {
    if xs == [] then 0 else (if p(xs[0]) then 1 else 0) + Count(p, xs[1..])
  }

  lemma NotLessTransitive(a: string, b: string, c: string)
    requires !Less(b, a) && (b == c || !Less(c, b))
    ensures !Less(c, a)
  {
    hide Less;
    LessTotal(a, b);
    LessTotal(b, c);
    LessTotal(a, c);
    if Less(c, a) && a != b { LessTransitive(c, a, b); }
  }

  lemma {:induction false} InsertKeeps<T>(key: T -> string, x: T, xs: seq<T>)
    requires Ordered(key, xs)
    ensures Ordered(key, Insert(key, x, xs))
    ensures multiset(Insert(key, x, xs)) == multiset(xs) + multiset{x}
    decreases |xs|
  {
    hide Less;
    if xs == [] {
    } else if !Less(key(xs[0]), key(x)) {
      forall j | 0 <= j < |xs|
        ensures !Less(key(xs[j]), key(x))
      {
        NotLessTransitive(key(x), key(xs[0]), key(xs[j]));
      }
    } else {
      assert xs == [xs[0]] + xs[1..];
      InsertKeeps(key, x, xs[1..]);
      LessTotal(key(xs[0]), key(x));
      HeadStaysFirst(key, xs, x);
    }
  }

  lemma HeadStaysFirst<T>(key: T -> string, xs: seq<T>, x: T)
    requires xs != [] && Ordered(key, xs) && !Less(key(x), key(xs[0]))
    requires var rest := Insert(key, x, xs[1..]);
      Ordered(key, rest) && multiset(rest) == multiset(xs[1..]) + multiset{x}
    ensures Ordered(key, [xs[0]] + Insert(key, x, xs[1..]))
  {
    hide Less, Insert;
    var rest := Insert(key, x, xs[1..]);
    forall j | 0 <= j < |rest|
      ensures !Less(key(rest[j]), key(xs[0]))
    {
      assert rest[j] in multiset(rest);
      if rest[j] != x {
        var k :| 0 <= k < |xs[1..]| && xs[1..][k] == rest[j];
        assert xs[k + 1] == rest[j];
      }
    }
  }

  /** The sorted list is in order and holds the same elements, as often. */
  lemma {:induction false} SortSorts<T>(key: T -> string, xs: seq<T>)
    ensures Ordered(key, Sort(key, xs)) && multiset(Sort(key, xs)) == multiset(xs)
    ensures forall x :: x in Sort(key, xs) <==> x in xs
    decreases |xs|
  {
    hide Less, Insert;
    if xs != [] {
      SortSorts(key, xs[1..]);
      InsertKeeps(key, xs[0], Sort(key, xs[1..]));
      assert xs == [xs[0]] + xs[1..];
      forall x
        ensures x in Sort(key, xs) <==> x in xs
      {
        assert x in multiset(Sort(key, xs)) <==> x in multiset(xs);
      }
    }
  }

  lemma {:induction false} InsertCounts<T>(key: T -> string, p: T -> bool, x: T, xs: seq<T>)
    ensures Count(p, Insert(key, x, xs)) == Count(p, xs) + if p(x) then 1 else 0
    decreases |xs|
  {
    hide Less;
    if xs != [] && Less(key(xs[0]), key(x)) { InsertCounts(key, p, x, xs[1..]); }
  }

  lemma {:induction false} SortCounts<T>(key: T -> string, p: T -> bool, xs: seq<T>)
    ensures Count(p, Sort(key, xs)) == Count(p, xs)
    decreases |xs|
  {
    if xs != [] {
      SortCounts(key, p, xs[1..]);
      InsertCounts(key, p, xs[0], Sort(key, xs[1..]));
    }
  }

  lemma {:induction false} CountMore<T>(p: T -> bool, xs: seq<T>, x: T)
    ensures Count(p, xs + [x]) == Count(p, xs) + if p(x) then 1 else 0
    decreases |xs|
  {
    if xs != [] {
      CountMore(p, xs[1..], x);
      assert (xs + [x])[1..] == xs[1..] + [x];
    }
  }
}
