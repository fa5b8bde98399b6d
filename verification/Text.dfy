/**
  Strings the way the stores compare and join them: the order shared by Go's `<` and
  SQLite's BINARY collation, splitting at a delimiter, and decimal numerals.
 */
module Text {

  predicate Less(a: string, b: string) {
    b != "" && (a == "" || a[0] < b[0] || (a[0] == b[0] && Less(a[1..], b[1..])))
  }

  /** The texts agree in front of position k, and there a ends or has the smaller character. */
  ghost predicate FirstSmallerAt(a: string, b: string, k: nat) {
    k <= |a| && k < |b| && a[..k] == b[..k] && (k == |a| || a[k] < b[k])
  }

  lemma SameFirst(a: string, b: string, k: nat)
    requires FirstSmallerAt(a, b, k) && k > 0
    ensures a != "" && b != "" && a[0] == b[0]
  {
    assert a[0] == a[..k][0] && b[0] == b[..k][0];
  }

  /** Where two texts first differ decides, and a text comes behind each of its prefixes. */
  lemma {:induction false} LessMeaning(a: string, b: string)
    ensures Less(a, b) <==> exists k: nat :: FirstSmallerAt(a, b, k)
  {
    if a == "" || b == "" || a[0] != b[0] {
      if Less(a, b) { assert FirstSmallerAt(a, b, 0); }
      forall k: nat | FirstSmallerAt(a, b, k)
        ensures k == 0
      {
        if k > 0 { SameFirst(a, b, k); }
      }
    } else {
      LessMeaning(a[1..], b[1..]);
      assert a == [a[0]] + a[1..] && b == [b[0]] + b[1..];
      if k: nat :| FirstSmallerAt(a[1..], b[1..], k) {
        assert a[..k + 1] == [a[0]] + a[1..][..k] && b[..k + 1] == [b[0]] + b[1..][..k];
        assert FirstSmallerAt(a, b, k + 1);
      }
      if k: nat :| FirstSmallerAt(a, b, k) {
        assert k > 0;
        assert a[1..][..k - 1] == a[..k][1..] && b[1..][..k - 1] == b[..k][1..];
        assert FirstSmallerAt(a[1..], b[1..], k - 1);
      }
    }
  }

  lemma {:induction false} DecidedAt(a: string, b: string, n: nat)
    requires n < |a| && n < |b| && a[..n] == b[..n] && a[n] != b[n]
    ensures Less(a, b) <==> a[n] < b[n]
  {
    if n > 0 {
      assert a[0] == a[..n][0] == b[..n][0] == b[0];
      assert a[1..][..n - 1] == a[..n][1..] == b[..n][1..] == b[1..][..n - 1];
      DecidedAt(a[1..], b[1..], n - 1);
    }
  }

  lemma {:induction false} LessTotal(a: string, b: string)
    ensures a == b || Less(a, b) || Less(b, a)
  {
    if a != "" && b != "" && a[0] == b[0] {
      LessTotal(a[1..], b[1..]);
      assert a == [a[0]] + a[1..] && b == [b[0]] + b[1..];
    }
  }

  lemma {:induction false} LessAsymmetric(a: string, b: string)
    requires Less(a, b)
    ensures !Less(b, a) && a != b
  {
    if a != "" && a[0] == b[0] {
      LessAsymmetric(a[1..], b[1..]);
    }
  }

  lemma {:induction false} LessTransitive(a: string, b: string, c: string)
    requires Less(a, b) && Less(b, c)
    ensures Less(a, c)
  {
    if a != "" && a[0] == b[0] == c[0] {
      LessTransitive(a[1..], b[1..], c[1..]);
    }
  }

  /** Text in front of the first delimiter is determined by the whole. */
  lemma SplitUnique(a: string, x: string, b: string, y: string, d: char)
    requires d !in a && d !in b
    requires a + [d] + x == b + [d] + y
    ensures a == b && x == y
  {
    var s, t := a + [d] + x, b + [d] + y;
    assert s[|a|] == d && t[|b|] == d;
    assert forall k | 0 <= k < |a| :: s[k] == a[k] && a[k] in a;
    assert forall k | 0 <= k < |b| :: t[k] == b[k] && b[k] in b;
    assert |a| == |b|;
    assert a == s[..|a|] && b == t[..|b|];
    assert x == s[|a| + 1..] && y == t[|b| + 1..];
  }

  /** Text behind the last delimiter is determined by the whole. */
  lemma SplitLastUnique(a: string, x: string, b: string, y: string, d: char)
    requires d !in x && d !in y
    requires a + [d] + x == b + [d] + y
    ensures a == b && x == y
  {
    var s, t := a + [d] + x, b + [d] + y;
    assert s[|a|] == d && t[|b|] == d;
    assert forall k | |a| < k < |s| :: s[k] == x[k - |a| - 1] && x[k - |a| - 1] in x;
    assert forall k | |b| < k < |t| :: t[k] == y[k - |b| - 1] && y[k - |b| - 1] in y;
    assert |a| == |b|;
    assert a == s[..|a|] && b == t[..|b|];
    assert x == s[|a| + 1..] && y == t[|b| + 1..];
  }

  /** A numeral's characters: digits, and the sign in front of a negative one. */
  predicate NumeralChar(c: char) {
    '0' <= c <= '9' || c == '-'
  }

  function Digit(n: nat): char
    requires n < 10
  {
    ('0' as int + n) as char
  }

  function Digits(n: nat): (s: string)
    ensures s != "" && forall c | c in s :: '0' <= c <= '9'
  {
    if n < 10 then [Digit(n)] else Digits(n / 10) + [Digit(n % 10)]
  }

  lemma {:induction false} DigitsInjective(m: nat, n: nat)
    requires Digits(m) == Digits(n)
    ensures m == n
  {
    var s, t := Digits(m), Digits(n);
    assert s[|s| - 1] == Digit(m % 10) && t[|t| - 1] == Digit(n % 10);
    assert m < 10 <==> |s| == 1;
    if m >= 10 {
      assert Digits(m / 10) == s[..|s| - 1] == t[..|t| - 1] == Digits(n / 10);
      DigitsInjective(m / 10, n / 10);
    }
  }

  /** strconv.Itoa and strconv.FormatInt in base ten. */
  function Itoa(n: int): (s: string)
    ensures s != "" && forall c | c in s :: NumeralChar(c)
  {
    if n < 0 then "-" + Digits(-n) else Digits(n)
  }

  lemma ItoaInjective(m: int, n: int)
    requires Itoa(m) == Itoa(n)
    ensures m == n
  {
    var s := Itoa(m);
    assert m >= 0 ==> s[0] in Digits(m);
    assert n >= 0 ==> s[0] in Digits(n);
    assert m < 0 <==> n < 0;
    if m < 0 {
      assert Digits(-m) == s[1..] == Digits(-n);
      DigitsInjective(-m, -n);
    } else {
      DigitsInjective(m, n);
    }
  }

  // ---- White space ----

  /** unicode.IsSpace. */
  predicate IsSpace(c: char) {
    || c in {'\t', '\n', '\U{0B}', '\U{0C}', '\r', ' ', '\U{85}', '\U{A0}', '\U{1680}'}
    || '\U{2000}' <= c <= '\U{200A}'
    || c in {'\U{2028}', '\U{2029}', '\U{202F}', '\U{205F}', '\U{3000}'}
  }

  function TrimLeft(text: string): string {
    if text != "" && IsSpace(text[0]) then TrimLeft(text[1..]) else text
  }

  function TrimRight(text: string): string {
    if text != "" && IsSpace(text[|text| - 1]) then TrimRight(text[..|text| - 1]) else text
  }

  /** strings.TrimSpace. */
  function TrimSpace(text: string): string {
    TrimRight(TrimLeft(text))
  }

  predicate AllSpace(text: string) {
    forall c | c in text :: IsSpace(c)
  }

  predicate NoSpaceAround(text: string) {
    text == "" || (!IsSpace(text[0]) && !IsSpace(text[|text| - 1]))
  }

  lemma {:induction false} TrimLeftMeaning(text: string) returns (front: string)
    ensures text == front + TrimLeft(text) && AllSpace(front)
    ensures TrimLeft(text) == "" || !IsSpace(TrimLeft(text)[0])
  {
    front := "";
    if text != "" && IsSpace(text[0]) {
      var rest := TrimLeftMeaning(text[1..]);
      front := [text[0]] + rest;
      assert text == [text[0]] + text[1..];
    }
  }

  lemma {:induction false} TrimRightMeaning(text: string) returns (end: string)
    ensures text == TrimRight(text) + end && AllSpace(end)
    ensures TrimRight(text) == "" || !IsSpace(TrimRight(text)[|TrimRight(text)| - 1])
  {
    end := "";
    if text != "" && IsSpace(text[|text| - 1]) {
      var rest := TrimRightMeaning(text[..|text| - 1]);
      end := rest + [text[|text| - 1]];
      assert text == text[..|text| - 1] + [text[|text| - 1]];
    }
  }

  /** Only white space is taken off, and none is left at either end. */
  lemma TrimSpaceMeaning(text: string) returns (front: string, end: string)
    ensures text == front + TrimSpace(text) + end && AllSpace(front) && AllSpace(end) && NoSpaceAround(TrimSpace(text))
  {
    front := TrimLeftMeaning(text);
    end := TrimRightMeaning(TrimLeft(text));
    var left, trimmed := TrimLeft(text), TrimSpace(text);
    assert front + (trimmed + end) == front + trimmed + end;
    if trimmed != "" { assert left[0] == trimmed[0]; }
  }

  lemma TrimNothing(text: string)
    requires NoSpaceAround(text)
    ensures TrimSpace(text) == text
  {
  }
}
