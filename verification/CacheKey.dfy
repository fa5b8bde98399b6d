/**
  The cache key of a summary: a text built from the sorted statistics and the inference
  parameters, hashed. Times and the temperature stand for their texts, which identify them and
  are made of the same characters as decimal numerals.
 */
module CacheKeys {
  import opened Text

  datatype DomainStat = DomainStat(domain: string, eventType: string, count: int, firstSeen: int, lastSeen: int)

  /** SHA-256, taken to be free of collisions: a digest is known by the text it was made from. */
  datatype Hash = Sha256(text: string)

  datatype CacheKey = CacheKey(
    domain: string, windowFrom: int, provider: string, model: string, promptVersion: string,
    temperature: int, maxTokens: int, inputHash: Hash)

  // ---- Sorting by domain, then event type ----

  predicate Before(a: DomainStat, b: DomainStat) {
    if a.domain != b.domain then Less(a.domain, b.domain) else Less(a.eventType, b.eventType)
  }

  /** Behind the last element that is not above x. */
  function Placed(sorted: seq<DomainStat>, x: DomainStat): seq<DomainStat> {
    var n := |sorted|;
    if n == 0 || !Before(x, sorted[n - 1]) then sorted + [x]
    else Placed(sorted[..n - 1], x) + [sorted[n - 1]]
  }

  function Sorted(stats: seq<DomainStat>): seq<DomainStat> {
    if stats == [] then [] else Placed(Sorted(stats[..|stats| - 1]), stats[|stats| - 1])
  }

  lemma BeforeStrict(a: DomainStat, b: DomainStat, c: DomainStat)
    ensures !(Before(a, b) && Before(b, a))
    ensures Before(a, b) && Before(b, c) ==> Before(a, c)
    ensures Before(a, b) || Before(b, a) || (a.domain == b.domain && a.eventType == b.eventType)
  {
    LessTotal(a.domain, b.domain);
    LessTotal(a.eventType, b.eventType);
    if Before(a, b) {
      if a.domain != b.domain { LessAsymmetric(a.domain, b.domain); } else { LessAsymmetric(a.eventType, b.eventType); }
      if Before(b, c) {
        if a.domain != b.domain && b.domain != c.domain {
          LessTransitive(a.domain, b.domain, c.domain);
          LessAsymmetric(b.domain, c.domain);
        } else if a.domain == b.domain == c.domain {
          LessTransitive(a.eventType, b.eventType, c.eventType);
        }
      }
    }
  }

  ghost predicate Ordered(s: seq<DomainStat>) {
    forall i, j | 0 <= i < j < |s| :: !Before(s[j], s[i])
  }

  lemma {:induction false} PlacedPermutes(sorted: seq<DomainStat>, x: DomainStat)
    ensures multiset(Placed(sorted, x)) == multiset(sorted) + multiset{x}
  {
    var n := |sorted|;
    if n > 0 && Before(x, sorted[n - 1]) {
      PlacedPermutes(sorted[..n - 1], x);
      assert sorted == sorted[..n - 1] + [sorted[n - 1]];
    }
  }

  lemma {:induction false} PlacedOrdered(sorted: seq<DomainStat>, x: DomainStat)
    requires Ordered(sorted)
    ensures Ordered(Placed(sorted, x))
  {
    var n := |sorted|;
    if n > 0 && Before(x, sorted[n - 1]) {
      var front, last := sorted[..n - 1], sorted[n - 1];
      PlacedOrdered(front, x);
      PlacedPermutes(front, x);
      var placed := Placed(front, x);
      forall i | 0 <= i < |placed|
        ensures !Before(last, placed[i])
      {
        assert placed[i] in multiset(placed);
        BeforeStrict(x, last, x);
      }
    } else if n > 0 {
      forall i | 0 <= i < n { NotBelowEarlier(sorted, x, i); }
    }
  }

  lemma NotBelowEarlier(sorted: seq<DomainStat>, x: DomainStat, i: nat)
    requires Ordered(sorted) && i < |sorted| && !Before(x, sorted[|sorted| - 1])
    ensures !Before(x, sorted[i])
  {
    var last := sorted[|sorted| - 1];
    if i < |sorted| - 1 && Before(x, sorted[i]) {
      assert !Before(last, sorted[i]);
      BeforeStrict(x, sorted[i], last);
      BeforeStrict(sorted[i], last, x);
      BeforeStrict(x, last, last);
    }
  }

  /** Sorting permutes, and puts into order. */
  lemma {:induction false} SortedMeaning(stats: seq<DomainStat>)
    ensures multiset(Sorted(stats)) == multiset(stats) && Ordered(Sorted(stats))
  {
    if stats != [] {
      var front, last := stats[..|stats| - 1], stats[|stats| - 1];
      SortedMeaning(front);
      PlacedPermutes(Sorted(front), last);
      PlacedOrdered(Sorted(front), last);
      assert stats == front + [last];
    }
  }

  ghost predicate UniqueKeys(stats: seq<DomainStat>) {
    forall i, j | 0 <= i < j < |stats| :: stats[i].domain != stats[j].domain || stats[i].eventType != stats[j].eventType
  }

  /** Being distinct by key depends only on which statistics occur how often. */
  lemma UniqueKeysOfPermutation(s: seq<DomainStat>, t: seq<DomainStat>)
    requires multiset(s) == multiset(t) && UniqueKeys(s)
    ensures UniqueKeys(t)
  {
    forall i, j | 0 <= i < j < |t|
      ensures t[i].domain != t[j].domain || t[i].eventType != t[j].eventType
    {
      OccursTwice(t, i, j);
      assert t[i] in multiset(t) && t[j] in multiset(t);
      var a :| 0 <= a < |s| && s[a] == t[i];
      var b :| 0 <= b < |s| && s[b] == t[j];
      if t[i] == t[j] {
        OccursOnce(s, a);
      }
    }
  }

  lemma OccursTwice(t: seq<DomainStat>, i: nat, j: nat)
    requires i < j < |t|
    ensures t[i] == t[j] ==> multiset(t)[t[i]] >= 2
  {
    assert t == t[..i] + [t[i]] + t[i + 1..j] + [t[j]] + t[j + 1..];
  }

  lemma OccursOnce(s: seq<DomainStat>, a: nat)
    requires UniqueKeys(s) && a < |s|
    ensures multiset(s)[s[a]] == 1
  {
    var x := s[a];
    assert s == s[..a] + [x] + s[a + 1..];
    assert x !in s[..a] && x !in s[a + 1..];
  }

  lemma LastIsSame(s: seq<DomainStat>, t: seq<DomainStat>)
    requires multiset(s) == multiset(t) && UniqueKeys(s) && Ordered(s) && Ordered(t) && |s| == |t| > 0
    ensures s[|s| - 1] == t[|t| - 1]
  {
    var n := |s| - 1;
    var x, y := s[n], t[n];
    assert x in multiset(t) && y in multiset(s);
    var i :| 0 <= i <= n && t[i] == x;
    var j :| 0 <= j <= n && s[j] == y;
    BeforeStrict(x, y, x);
  }

  lemma SameFront(s: seq<DomainStat>, t: seq<DomainStat>)
    requires multiset(s) == multiset(t) && |s| == |t| > 0 && s[|s| - 1] == t[|t| - 1]
    ensures multiset(s[..|s| - 1]) == multiset(t[..|t| - 1])
  {
    var n := |s| - 1;
    assert s == s[..n] + [s[n]] && t == t[..n] + [t[n]];
    assert multiset(s[..n]) == multiset(s) - multiset{s[n]} && multiset(t[..n]) == multiset(t) - multiset{t[n]};
  }

  /** With distinct keys there is only one ordered permutation. */
  lemma {:induction false} OrderedUnique(s: seq<DomainStat>, t: seq<DomainStat>)
    requires multiset(s) == multiset(t) && UniqueKeys(s) && Ordered(s) && Ordered(t)
    ensures s == t
  {
    assert |s| == |multiset(s)| == |multiset(t)| == |t|;
    if s != [] {
      var n := |s| - 1;
      LastIsSame(s, t);
      SameFront(s, t);
      OrderedUnique(s[..n], t[..n]);
      assert s == s[..n] + [s[n]] && t == t[..n] + [t[n]];
    }
  }

  // ---- The text ----

  const BAR := '|'
  const NEWLINE := '\n'

  function FiguresOf(count: int, firstSeen: int, lastSeen: int): string {
    [BAR] + Itoa(count) + [BAR] + Itoa(firstSeen) + [BAR] + Itoa(lastSeen)
  }

  function Figures(s: DomainStat): string {
    FiguresOf(s.count, s.firstSeen, s.lastSeen)
  }

  function LineBody(s: DomainStat): string {
    s.domain + [BAR] + s.eventType + Figures(s)
  }

  function Lines(stats: seq<DomainStat>): string
    decreases stats
  {
    if stats == [] then "" else LineBody(stats[0]) + [NEWLINE] + Lines(stats[1..])
  }

  function Header(temperature: int, maxTokens: int): string {
    Itoa(temperature) + [BAR] + Itoa(maxTokens)
  }

  /** What is hashed. */
  function Serialised(stats: seq<DomainStat>, temperature: int, maxTokens: int): string {
    Header(temperature, maxTokens) + [NEWLINE] + Lines(Sorted(stats))
  }

  // ---- The computation ----

  /** The place: behind everything x does not belong before, in front of a tail that it does. */
  lemma {:induction false} PlacedAt(sorted: seq<DomainStat>, j: nat, x: DomainStat)
    requires j <= |sorted| && (j > 0 ==> !Before(x, sorted[j - 1]))
    requires forall k | j <= k < |sorted| :: Before(x, sorted[k])
    ensures Placed(sorted, x) == sorted[..j] + [x] + sorted[j..]
  {
    var n := |sorted|;
    if j < n {
      PlacedAt(sorted[..n - 1], j, x);
      PlacedBefore(sorted, j, x);
    }
  }

  lemma PlacedBefore(sorted: seq<DomainStat>, j: nat, x: DomainStat)
    requires j < |sorted|
    ensures
      var front, last := sorted[..|sorted| - 1], sorted[|sorted| - 1];
      (front[..j] + [x] + front[j..]) + [last] == sorted[..j] + [x] + sorted[j..]
  {
  }

  /** The sequence s with element i moved down to position j. */
  function Moved(s: seq<DomainStat>, i: nat, j: nat): seq<DomainStat>
    requires j <= i < |s|
  {
    s[..j] + [s[i]] + s[j..i] + s[i + 1..]
  }

  lemma MovedAt(s: seq<DomainStat>, i: nat, j: nat)
    requires j <= i < |s|
    ensures |Moved(s, i, j)| == |s| && Moved(s, i, j)[j] == s[i] && (j > 0 ==> Moved(s, i, j)[j - 1] == s[j - 1])
    ensures j > 0 ==> Moved(s, i, j)[j - 1 := s[i]][j := s[j - 1]] == Moved(s, i, j - 1)
  {
  }

  lemma MovedIsPlaced(s: seq<DomainStat>, i: nat, j: nat)
    requires j <= i < |s| && (j > 0 ==> !Before(s[i], s[j - 1])) && forall k | j <= k < i :: Before(s[i], s[k])
    ensures Moved(s, i, j)[..i + 1] == Placed(s[..i], s[i]) && Moved(s, i, j)[i + 1..] == s[i + 1..]
  {
    PlacedAt(s[..i], j, s[i]);
  }

  /** Element i moves down past those in front of it that it belongs before. */
  method MoveDown(a: array<DomainStat>, i: nat)
    requires i < a.Length
    modifies a
    ensures a[..i + 1] == Placed(old(a[..i]), old(a[i]))
    ensures a[i + 1..] == old(a[i + 1..])
  {
    ghost var s := a[..];
    var j := i;
    while j > 0 && Before(a[j], a[j - 1])
      invariant 0 <= j <= i && a[..] == Moved(s, i, j)
      invariant a[j] == s[i] && (j > 0 ==> a[j - 1] == s[j - 1])
      invariant forall k | j <= k < i :: Before(s[i], s[k])
    {
      MovedAt(s, i, j);
      Swap(a, j);
      j := j - 1;
      MovedAt(s, i, j);
      assert a[..][j] == a[j] && (j > 0 ==> a[..][j - 1] == a[j - 1]);
    }
    MovedIsPlaced(s, i, j);
    assert a[..i + 1] == a[..][..i + 1] && a[i + 1..] == a[..][i + 1..];
  }

  method Swap(a: array<DomainStat>, j: nat)
    requires 0 < j < a.Length
    modifies a
    ensures a[..] == old(a[..])[j - 1 := old(a[j])][j := old(a[j - 1])]
  {
    a[j - 1], a[j] := a[j], a[j - 1];
  }

  /** The stable sort, in place. */
  method SortStable(a: array<DomainStat>)
    modifies a
    ensures a[..] == Sorted(old(a[..]))
  {
    ghost var was := a[..];
    for i := 0 to a.Length
      invariant a[..i] == Sorted(was[..i])
      invariant a[i..] == was[i..]
    {
      assert a[i] == a[i..][0] == was[i] && a[i + 1..] == a[i..][1..];
      assert was[..i + 1][..i] == was[..i];
      MoveDown(a, i);
    }
    assert a[..] == a[..a.Length] && was[..a.Length] == was;
  }

  /** Copy, sort, write line by line, hash; the given statistics stay as they are. */
  method ComputeInputHash(stats: seq<DomainStat>, temperature: int, maxTokens: int) returns (hash: Hash)
    ensures hash == Sha256(Serialised(stats, temperature, maxTokens))
  {
    var b := Itoa(temperature) + [BAR] + Itoa(maxTokens) + [NEWLINE];
    if |stats| == 0 {
      assert b == Serialised(stats, temperature, maxTokens);
      return Sha256(b);
    }
    var sorted := new DomainStat[|stats|](i requires 0 <= i < |stats| => stats[i]);
    assert sorted[..] == stats;
    SortStable(sorted);
    b := WriteLines(sorted[..], b);
    return Sha256(b);
  }

  method WriteLines(sorted: seq<DomainStat>, header: string) returns (b: string)
    ensures b == header + Lines(sorted)
  {
    b := header;
    for k := 0 to |sorted|
      invariant b + Lines(sorted[k..]) == header + Lines(sorted)
    {
      var s := sorted[k];
      assert sorted[k..][1..] == sorted[k + 1..];
      ghost var rest := Lines(sorted[k + 1..]);
      assert Lines(sorted[k..]) == LineBody(s) + [NEWLINE] + rest;
      b := b + (LineBody(s) + [NEWLINE]);
    }
  }

  function BuildCacheKey(domain: string, windowFrom: int, provider: string, model: string, promptVersion: string,
                         temperature: int, maxTokens: int, stats: seq<DomainStat>): CacheKey {
    CacheKey(domain, windowFrom, provider, model, promptVersion, temperature, maxTokens,
             Sha256(Serialised(stats, temperature, maxTokens)))
  }
}
