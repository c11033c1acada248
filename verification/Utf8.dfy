/** Names are text: a parked name is cut between characters, never inside one. */
module Utf8 {
  import opened Wrappers
  import opened Names

  /** One character, as section 3 of RFC 3629 encodes it. */
  function EncodeChar(c: nat): (r: Bytes)
    requires c < 0x11_0000
    ensures 1 <= |r| <= 4
  {
    if c < 0x80 then [c as byte]
    else if c < 0x800 then [(0xC0 + c / 0x40) as byte, (0x80 + c % 0x40) as byte]
    else if c < 0x1_0000 then
      [(0xE0 + c / 0x1000) as byte, (0x80 + c / 0x40 % 0x40) as byte, (0x80 + c % 0x40) as byte]
    else
      [(0xF0 + c / 0x4_0000) as byte, (0x80 + c / 0x1000 % 0x40) as byte, (0x80 + c / 0x40 % 0x40) as byte,
       (0x80 + c % 0x40) as byte]
  }

  ghost predicate Chars(text: seq<nat>) {
    forall i | 0 <= i < |text| :: text[i] < 0x11_0000
  }

  function Encode(text: seq<nat>): Bytes
    requires Chars(text)
    decreases |text|
  {
    if text == [] then [] else EncodeChar(text[0]) + Encode(text[1..])
  }

  lemma OnlyTheFirstByteStarts(c: nat)
    requires c < 0x11_0000
    ensures !Continuation(EncodeChar(c)[0]) && forall i | 0 < i < |EncodeChar(c)| :: Continuation(EncodeChar(c)[i])
  {
  }

  /** `i` bytes are some whole characters. */
  ghost predicate Whole(text: seq<nat>, i: nat)
    requires Chars(text)
  {
    exists k | 0 <= k <= |text| :: |Encode(text[..k])| == i
  }

  lemma EncodeFirst(text: seq<nat>, k: nat)
    requires Chars(text) && 0 < k <= |text|
    ensures Chars(text[1..]) && Encode(text[..k]) == EncodeChar(text[0]) + Encode(text[1..][..k - 1])
  {
    assert text[..k][1..] == text[1..][..k - 1];
  }

  lemma WholeAfterFirst(text: seq<nat>, i: nat)
    requires Chars(text) && text != []
    ensures Whole(text, i) <==> i == 0 || (i >= |EncodeChar(text[0])| && Whole(text[1..], i - |EncodeChar(text[0])|))
  {
    hide EncodeChar, Encode;
    var n := |EncodeChar(text[0])|;
    assert text[..0] == [] && |Encode([])| == 0 by { NoChars(); }
    if Whole(text, i) {
      var k :| 0 <= k <= |text| && |Encode(text[..k])| == i;
      if k > 0 { EncodeFirst(text, k); }
    }
    if i >= n && Whole(text[1..], i - n) {
      var k :| 0 <= k <= |text[1..]| && |Encode(text[1..][..k])| == i - n;
      EncodeFirst(text, k + 1);
      assert |Encode(text[..k + 1])| == i;
    }
    if i == 0 { assert |Encode(text[..0])| == i; }
  }

  lemma NoChars()
    ensures Encode([]) == []
  {
  }

  /** The boundaries are exactly the places between characters. */
  lemma {:induction false} BoundaryIff(text: seq<nat>, i: nat)
    requires Chars(text) && i <= |Encode(text)|
    ensures CharBoundary(Encode(text), i) <==> Whole(text, i)
    decreases |text|
  {
    hide EncodeChar, Whole, Continuation;
    if text == [] {
      NothingIsWhole();
    } else {
      var first, rest := EncodeChar(text[0]), Encode(text[1..]);
      var n := |first|;
      OnlyTheFirstByteStarts(text[0]);
      WholeAfterFirst(text, i);
      if i >= n {
        BoundaryIff(text[1..], i - n);
        if i - n < |rest| { assert Encode(text)[i] == rest[i - n]; }
        if i == n && rest != [] { OnlyTheFirstByteStarts(text[1]); }
      } else if i > 0 {
        assert Encode(text)[i] == first[i];
      }
    }
  }

  lemma NothingIsWhole()
    ensures Whole([], 0)
  {
    var none: seq<nat> := [];
    assert |Encode(none[..0])| == 0;
  }

  // ---- which text may be quoted ----

  /** The guard on an identifier, but for its length. */
  ghost predicate Clean(s: Bytes) {
    forall i | 0 <= i < |s| :: !ControlAt(s, i) && s[i] != 0x22 && s[i] != 0x27 && s[i] != 0x5C
  }

  /** A control character, by Unicode's general category Cc, or a quote or backslash. */
  predicate Forbidden(c: nat) {
    c < 0x20 || 0x7F <= c < 0xA0 || c == 0x22 || c == 0x27 || c == 0x5C
  }

  lemma CleanChar(c: nat)
    requires c < 0x11_0000
    ensures Clean(EncodeChar(c)) <==> !Forbidden(c)
    ensures var e := EncodeChar(c); e[|e| - 1] != 0xC2
  {
    var e := EncodeChar(c);
    if c < 0x80 || 0x80 <= c < 0xA0 { assert (ControlAt(e, 0) || e[0] in [0x22, 0x27, 0x5C]) <==> Forbidden(c); }
  }

  lemma CleanConcat(a: Bytes, b: Bytes)
    requires a != [] && a[|a| - 1] != 0xC2
    ensures Clean(a + b) <==> Clean(a) && Clean(b)
  {
    var s := a + b;
    forall i | 0 <= i < |a|
      ensures ControlAt(s, i) <==> ControlAt(a, i)
    {
      assert s[i] == a[i] && (i + 1 < |a| ==> s[i + 1] == a[i + 1]);
    }
    forall i | 0 <= i < |b|
      ensures ControlAt(s, |a| + i) <==> ControlAt(b, i)
    {
      assert s[|a| + i] == b[i] && (i + 1 < |b| ==> s[|a| + i + 1] == b[i + 1]);
    }
    if Clean(s) {
      assert forall i | 0 <= i < |a| :: a[i] == s[i];
      assert forall i | 0 <= i < |b| :: b[i] == s[|a| + i] && !ControlAt(s, |a| + i);
    }
    if Clean(a) && Clean(b) {
      forall i | |a| <= i < |s|
        ensures !ControlAt(s, i) && s[i] == b[i - |a|]
      {
        assert !ControlAt(b, i - |a|) && |a| + (i - |a|) == i;
      }
    }
  }

  lemma {:induction false} CleanIff(text: seq<nat>)
    requires Chars(text)
    ensures Clean(Encode(text)) <==> forall i | 0 <= i < |text| :: !Forbidden(text[i])
    decreases |text|
  {
    hide EncodeChar, Clean, Forbidden;
    if text == [] {
      NothingIsClean();
    } else {
      CleanIff(text[1..]);
      CleanChar(text[0]);
      CleanConcat(EncodeChar(text[0]), Encode(text[1..]));
      assert forall i | 0 < i < |text| :: text[i] == text[1..][i - 1];
    }
  }

  lemma NothingIsClean()
    ensures Clean([])
  {
  }

  /** Of the names that are text, exactly those of one to 63 bytes are accepted that have
      no control character, neither quote and no backslash. */
  lemma IdentifierOfCharactersIff(text: seq<nat>)
    requires Chars(text)
    ensures SafeIdentifier(Encode(text)) <==>
      && 1 <= |Encode(text)| <= 63
      && forall i | 0 <= i < |text| ::
           !(text[i] < 0x20 || 0x7F <= text[i] < 0xA0) && text[i] !in {0x22, 0x27, 0x5C}
  {
    hide EncodeChar, Encode, ControlAt;
    CleanIff(text);
    GuardIsClean(Encode(text));
  }

  lemma GuardIsClean(s: Bytes)
    ensures SafeIdentifier(s) <==> 1 <= |s| <= 63 && Clean(s)
  {
    hide ControlAt;
    if SafeIdentifier(s) { assert forall i | 0 <= i < |s| :: s[i] in s; }
  }

  lemma {:induction false} EncodeConcat(a: seq<nat>, b: seq<nat>)
    requires Chars(a) && Chars(b)
    ensures Chars(a + b) && Encode(a + b) == Encode(a) + Encode(b)
    decreases |a|
  {
    hide EncodeChar;
    if a == [] {
      assert a + b == b;
    } else {
      assert (a + b)[1..] == a[1..] + b && (a + b)[0] == a[0];
      EncodeConcat(a[1..], b);
    }
  }

  lemma OneChar(c: nat)
    requires c < 0x11_0000
    ensures Chars([c]) && |Encode([c])| > 0
  {
    assert [c][1..] == [];
  }

  /** One character more ends at a boundary further on. */
  lemma NextCharacter(text: seq<nat>, k: nat)
    requires Chars(text) && k < |text|
    ensures |Encode(text[..k])| < |Encode(text[..k + 1])| <= |Encode(text)|
    ensures CharBoundary(Encode(text), |Encode(text[..k + 1])|)
  {
    hide EncodeChar, Encode;
    var next := |Encode(text[..k + 1])|;
    assert text == text[..k + 1] + text[k + 1..];
    EncodeConcat(text[..k + 1], text[k + 1..]);
    assert Whole(text, next);
    BoundaryIff(text, next);
    assert text[..k + 1] == text[..k] + [text[k]];
    EncodeConcat(text[..k], [text[k]]);
    OneChar(text[k]);
  }

  /** Of a full name that is text, a parked name keeps whole characters, and as many as
      leave room for the nine bytes of the tag. */
  lemma WholeCharactersAreKept(base: Bytes, branch: Bytes, text: seq<nat>) returns (k: nat)
    requires Chars(text) && Full(base, branch) == Encode(text) && !Fits(base, branch)
    ensures k <= |text| && |Encode(text[..k])| <= 54 && (k < |text| ==> |Encode(text[..k + 1])| > 54)
    ensures |ParkedName(base, branch)| == |Encode(text[..k])| + 9 && Encode(text[..k]) <= ParkedName(base, branch)
  {
    hide EncodeChar, Encode, ParkedName;
    var full := Full(base, branch);
    var kept := LongNamesEndInTheirHash(base, branch);
    BoundaryIff(text, kept);
    k :| 0 <= k <= |text| && |Encode(text[..k])| == kept;
    assert text == text[..k] + text[k..];
    EncodeConcat(text[..k], text[k..]);
    assert full[..kept] == Encode(text[..k]);
    if k < |text| { NextCharacter(text, k); }
  }
}
