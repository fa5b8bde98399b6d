/** UTF-8 by the syntax of section 4 of RFC 3629, and the cut that looks for the start of a character. */
module Utf8 {
  type Byte = b: int | 0 <= b < 0x100

  predicate Tail(b: Byte) {
    0x80 <= b <= 0xBF
  }

  /** utf8.RuneStart: anything but a continuation byte. */
  predicate RuneStart(b: Byte) {
    !Tail(b)
  }

  /** The length of a character by its first byte, 0 if none starts with it. */
  function Width(b: Byte): nat {
    if b <= 0x7F then 1
    else if 0xC2 <= b <= 0xDF then 2
    else if 0xE0 <= b <= 0xEF then 3
    else if 0xF0 <= b <= 0xF4 then 4
    else 0
  }

  /** The second byte is limited where longer forms, surrogates and too high code points are shut out. */
  predicate SecondFits(first: Byte, second: Byte) {
    match first
    case 0xE0 => 0xA0 <= second <= 0xBF
    case 0xED => 0x80 <= second <= 0x9F
    case 0xF0 => 0x90 <= second <= 0xBF
    case 0xF4 => 0x80 <= second <= 0x8F
    case _ => Tail(second)
  }

  /** s starts with a whole character. */
  predicate StartsWithChar(s: seq<Byte>) {
    s != [] &&
    var n := Width(s[0]);
    && 1 <= n <= |s|
    && (n >= 2 ==> SecondFits(s[0], s[1]))
    && forall k | 2 <= k < n :: Tail(s[k])
  }

  predicate Valid(s: seq<Byte>) {
    s == [] || (StartsWithChar(s) && Valid(s[Width(s[0])..]))
  }

  lemma CharBytes(s: seq<Byte>)
    requires StartsWithChar(s)
    ensures RuneStart(s[0]) && forall k | 1 <= k < Width(s[0]) :: !RuneStart(s[k])
  {
  }

  /** The place the loop stops at when it starts at k. */
  function CutAt(s: seq<Byte>, k: nat): (cut: nat)
    requires k < |s|
    ensures cut <= k
  {
    if k == 0 || RuneStart(s[k]) then k else CutAt(s, k - 1)
  }

  lemma {:induction false} CutWithin(s: seq<Byte>, n: nat, k: nat)
    requires n <= k < |s| && RuneStart(s[n])
    ensures CutAt(s, k) == n + CutAt(s[n..], k - n)
    decreases k
  {
    if k > n && !RuneStart(s[k]) {
      CutWithin(s, n, k - 1);
    }
  }

  lemma {:induction false} CutInsideFirst(s: seq<Byte>, k: nat)
    requires StartsWithChar(s) && k < Width(s[0])
    ensures CutAt(s, k) == 0
  {
    if k > 0 {
      CharBytes(s);
      CutInsideFirst(s, k - 1);
    }
  }

  lemma NextStart(s: seq<Byte>)
    requires s != [] && Valid(s) && Width(s[0]) < |s|
    ensures RuneStart(s[Width(s[0])])
  {
    CharBytes(s[Width(s[0])..]);
  }

  lemma {:induction false} ValidConcat(a: seq<Byte>, b: seq<Byte>)
    requires Valid(a) && Valid(b)
    ensures Valid(a + b)
    decreases a
  {
    if a == [] {
      assert a + b == b;
    } else {
      var n := Width(a[0]);
      assert (a + b)[n..] == a[n..] + b;
      ValidConcat(a[n..], b);
    }
  }

  lemma FirstCharValid(s: seq<Byte>)
    requires StartsWithChar(s)
    ensures Valid(s[..Width(s[0])])
  {
    var first := s[..Width(s[0])];
    assert first[Width(first[0])..] == [];
  }

  lemma CutBehindFirst(s: seq<Byte>, n: nat, cut: nat)
    requires n <= cut <= |s|
    ensures s[..cut] == s[..n] + s[n..][..cut - n] && s[cut..] == s[n..][cut - n..]
  {
  }

  lemma CutPastFirst(s: seq<Byte>, max: nat)
    requires s != [] && Valid(s) && Width(s[0]) <= max < |s|
    ensures CutAt(s, max) == Width(s[0]) + CutAt(s[Width(s[0])..], max - Width(s[0]))
  {
    NextStart(s);
    CutWithin(s, Width(s[0]), max);
  }

  lemma CutBehindFirstValid(s: seq<Byte>, n: nat, cut: nat)
    requires StartsWithChar(s) && n == Width(s[0]) && n <= cut <= |s|
    requires Valid(s[n..][..cut - n]) && Valid(s[n..][cut - n..])
    ensures Valid(s[..cut]) && Valid(s[cut..])
  {
    FirstCharValid(s);
    ValidConcat(s[..n], s[n..][..cut - n]);
    CutBehindFirst(s, n, cut);
  }

  lemma NothingCut(s: seq<Byte>)
    requires Valid(s)
    ensures Valid(s[..0]) && Valid(s[0..])
  {
    assert s[0..] == s;
  }

  lemma ValidBehindFirst(s: seq<Byte>)
    requires s != [] && Valid(s)
    ensures StartsWithChar(s) && Valid(s[Width(s[0])..])
  {
  }

  lemma {:induction false} CutIsNear(s: seq<Byte>, max: nat)
    requires Valid(s) && max < |s|
    ensures max <= CutAt(s, max) + 3
    decreases |s|
  {
    var n := Width(s[0]);
    if max >= n {
      CutIsNear(s[n..], max - n);
      CutPastFirst(s, max);
    }
  }

  lemma {:induction false} CutIsValid(s: seq<Byte>, max: nat, cut: nat)
    requires Valid(s) && max < |s| && cut == CutAt(s, max)
    ensures Valid(s[..cut]) && Valid(s[cut..])
    decreases |s|
  {
    var n := Width(s[0]);
    ValidBehindFirst(s);
    if max < n {
      CutInsideFirst(s, max);
      NothingCut(s);
    } else {
      CutPastFirst(s, max);
      assert CutAt(s[n..], max - n) == cut - n && n <= cut;
      CutIsValid(s[n..], max - n, cut - n);
      CutBehindFirstValid(s, n, cut);
    }
  }

  /** Cutting valid text loses at most three bytes more than it must, and splits no character. */
  lemma CutIsClean(s: seq<Byte>, max: nat)
    requires Valid(s) && max < |s|
    ensures max <= CutAt(s, max) + 3 && Valid(s[..CutAt(s, max)]) && Valid(s[CutAt(s, max)..])
  {
    CutIsNear(s, max);
    CutIsValid(s, max, CutAt(s, max));
  }

  /** A valid prefix of valid text ends where a character starts. */
  lemma {:induction false} PrefixEndsAtStart(s: seq<Byte>, k: nat)
    requires Valid(s) && k < |s| && Valid(s[..k])
    ensures RuneStart(s[k])
    decreases s
  {
    if k == 0 {
      CharBytes(s);
    } else {
      var n := Width(s[0]);
      assert s[..k][0] == s[0] && s[..k][n..] == s[n..][..k - n];
      PrefixEndsAtStart(s[n..], k - n);
    }
  }

  lemma {:induction false} NoStartBetween(s: seq<Byte>, max: nat, k: nat)
    requires max < |s| && CutAt(s, max) < k <= max
    ensures !RuneStart(s[k])
    decreases max
  {
    if k < max { NoStartBetween(s, max - 1, k); }
  }

  /** No longer prefix within the limit would have been valid. */
  lemma CutIsLongest(s: seq<Byte>, max: nat, k: nat)
    requires Valid(s) && max < |s| && CutAt(s, max) < k <= max
    ensures !Valid(s[..k])
  {
    NoStartBetween(s, max, k);
    if Valid(s[..k]) { PrefixEndsAtStart(s, k); }
  }
}
