/** The redacting log handler: a rewrite of attribute trees that replaces listed keys and caps strings. */
module LogHandler {
  import opened Utf8

  /**
    A log value. A Valuer answers LogValue with another value, a Broken one panics; a byte slice and
    anything else that is no string, group or valuer are values of any type to the handler.
   */
  datatype Value =
    | Str(text: seq<Byte>)
    | Bytes(data: seq<Byte>)
    | Group(attrs: seq<Attr>)
    | Other(id: int)
    | Valuer(answer: Value)
    | Broken

  datatype Attr = Attr(key: string, value: Value)

  /** The error values of the resolution. */
  const TOO_MANY := Other(-1)
  const PANICKED := Other(-2)

  const MAX_LOG_VALUES: nat := 100

  /** slog.Value.Resolve: ask at most 100 times; what the last of them answers is not looked at. */
  function ResolveIn(v: Value, calls: nat): (r: Value)
    ensures !r.Valuer? && !r.Broken?
    ensures r.Group? ==> r == v || r < v
    decreases calls
  {
    if calls == 0 then TOO_MANY
    else
      match v
      case Valuer(answer) => ResolveIn(answer, calls - 1)
      case Broken => PANICKED
      case _ => v
  }

  function Resolve(v: Value): (r: Value)
    ensures !r.Valuer? && !r.Broken?
    ensures r.Group? ==> r == v || r < v
  {
    ResolveIn(v, MAX_LOG_VALUES)
  }

  /** A value behind n valuers. */
  function Behind(n: nat, v: Value): Value {
    if n == 0 then v else Valuer(Behind(n - 1, v))
  }

  lemma {:induction false} ResolveInMeaning(v: Value, n: nat, calls: nat)
    requires !v.Valuer?
    ensures ResolveIn(Behind(n, v), calls) ==
              if n >= calls then TOO_MANY else if v.Broken? then PANICKED else v
    decreases n
  {
    if n > 0 && calls > 0 { ResolveInMeaning(v, n - 1, calls - 1); }
  }

  /** A value is found behind at most 99 valuers; one that panics is an error, and so are more of them. */
  lemma ResolveMeaning(v: Value, n: nat)
    requires !v.Valuer?
    ensures Resolve(Behind(n, v)) == if n >= 100 then TOO_MANY else if v.Broken? then PANICKED else v
  {
    ResolveInMeaning(v, n, 100);
  }

  datatype Options = Options(redact: set<string>, maxValueBytes: int)

  /** "[REDACTED]" in ASCII. */
  const REDACTED: seq<Byte> := [0x5B, 0x52, 0x45, 0x44, 0x41, 0x43, 0x54, 0x45, 0x44, 0x5D]
  /** An ellipsis and "[truncated]". */
  const SUFFIX: seq<Byte> := [0xE2, 0x80, 0xA6, 0x5B, 0x74, 0x72, 0x75, 0x6E, 0x63, 0x61, 0x74, 0x65, 0x64, 0x5D]

  /** The characters of both, the ellipsis in its three-byte form. */
  lemma MarkerTexts()
    ensures |REDACTED| == 10 && forall k | 0 <= k < 10 :: REDACTED[k] as int == "[REDACTED]"[k] as int
    ensures |SUFFIX| == 14 && forall k | 3 <= k < 14 :: SUFFIX[k] as int == "[truncated]"[k - 3] as int
    ensures SUFFIX[..3] == [0xE0 + 0x2026 / 0x1000, 0x80 + 0x2026 / 0x40 % 0x40, 0x80 + 0x2026 % 0x40]
  {
  }

  function Cap(text: seq<Byte>, max: int): seq<Byte> {
    if max > 0 && |text| > max then text[..CutAt(text, max)] + SUFFIX else text
  }

  function CapValue(v: Value, max: int): Value {
    if v.Str? then Str(Cap(v.text, max)) else v
  }

  predicate EmptyGroup(v: Value) {
    v == Group([])
  }

  /** slog.GroupValue leaves empty groups out. */
  function WithoutEmpty(attrs: seq<Attr>): seq<Attr> {
    if attrs == [] then []
    else
      var n := |attrs| - 1;
      WithoutEmpty(attrs[..n]) + if EmptyGroup(attrs[n].value) then [] else [attrs[n]]
  }

  function Transformed(o: Options, a: Attr): Attr
    decreases a.value
  {
    var v := Resolve(a.value);
    if a.key in o.redact then Attr(a.key, Str(REDACTED))
    else
      match v
      case Group(attrs) =>
        Attr(a.key, Group(WithoutEmpty(seq(|attrs|, i requires 0 <= i < |attrs| => Transformed(o, attrs[i])))))
      case _ => Attr(a.key, CapValue(v, o.maxValueBytes))
  }

  // ---- What a tree shows ----

  /** The tree has an attribute under this path of keys, valuers resolved. */
  predicate NodeAt(a: Attr, path: seq<string>)
    decreases path
  {
    path != [] && path[0] == a.key &&
    (|path| == 1 ||
     (var v := Resolve(a.value); v.Group? && exists i :: 0 <= i < |v.attrs| && NodeAt(v.attrs[i], path[1..])))
  }

  /** The tree has this value, no group, under this path of keys. */
  predicate LeafAt(a: Attr, path: seq<string>, leaf: Value)
    decreases path
  {
    path != [] && path[0] == a.key &&
    var v := Resolve(a.value);
    if v.Group? then exists i :: 0 <= i < |v.attrs| && LeafAt(v.attrs[i], path[1..], leaf)
    else |path| == 1 && leaf == v
  }

  predicate NoneListed(o: Options, path: seq<string>) {
    forall k | 0 <= k < |path| :: path[k] !in o.redact
  }

  /** The last key is listed, and no key above it. */
  predicate ListedAtEnd(o: Options, path: seq<string>) {
    path != [] && path[|path| - 1] in o.redact && NoneListed(o, path[..|path| - 1])
  }

  /** What the transformed tree has to show, told from the original tree. */
  ghost predicate Shows(o: Options, a: Attr, path: seq<string>, leaf: Value) {
    || (ListedAtEnd(o, path) && NodeAt(a, path) && leaf == Str(REDACTED))
    || (NoneListed(o, path) && exists v :: LeafAt(a, path, v) && leaf == CapValue(v, o.maxValueBytes))
  }

  lemma {:induction false} WithoutEmptyKeeps(attrs: seq<Attr>, x: Attr)
    ensures x in WithoutEmpty(attrs) <==> x in attrs && !EmptyGroup(x.value)
  {
    if attrs != [] {
      var n := |attrs| - 1;
      assert attrs == attrs[..n] + [attrs[n]];
      WithoutEmptyKeeps(attrs[..n], x);
    }
  }

  /**
    The transformed tree shows exactly this: under every path that ends at the first listed key on
    it, the marker and nothing below it; under every path without a listed key, the original value
    with strings capped. Nothing else is lost or added, at any depth.
   */
  lemma {:induction false} TransformedShows(o: Options, a: Attr, path: seq<string>, leaf: Value)
    ensures LeafAt(Transformed(o, a), path, leaf) <==> Shows(o, a, path, leaf)
    decreases path
  {
    if path != [] && path[0] == a.key {
      if a.key in o.redact {
        RedactedShows(o, a, path, leaf);
      } else if Resolve(a.value).Group? {
        GroupShows(o, a, path, leaf);
      } else {
        PlainShows(o, a, path, leaf);
      }
    }
  }

  lemma RedactedShows(o: Options, a: Attr, path: seq<string>, leaf: Value)
    requires path != [] && path[0] == a.key && a.key in o.redact
    ensures LeafAt(Transformed(o, a), path, leaf) <==> Shows(o, a, path, leaf)
  {
    if |path| > 1 { assert path[..|path| - 1][0] in o.redact; }
  }

  lemma PlainShows(o: Options, a: Attr, path: seq<string>, leaf: Value)
    requires path != [] && path[0] == a.key && a.key !in o.redact && !Resolve(a.value).Group?
    ensures LeafAt(Transformed(o, a), path, leaf) <==> Shows(o, a, path, leaf)
  {
    var v := Resolve(a.value);
    assert LeafAt(a, path, v) <==> |path| == 1;
    assert Resolve(CapValue(v, o.maxValueBytes)) == CapValue(v, o.maxValueBytes);
  }

  lemma ShowsBelow(o: Options, a: Attr, path: seq<string>, leaf: Value)
    requires path != [] && path[0] == a.key && a.key !in o.redact && Resolve(a.value).Group?
    ensures
      var attrs := Resolve(a.value).attrs;
      Shows(o, a, path, leaf) <==> |path| > 1 && exists i :: 0 <= i < |attrs| && Shows(o, attrs[i], path[1..], leaf)
  {
    var attrs, rest := Resolve(a.value).attrs, path[1..];
    assert NoneListed(o, path) <==> NoneListed(o, rest) by {
      assert forall k | 0 < k < |path| :: path[k] == rest[k - 1];
    }
    if |path| > 1 {
      var above := path[..|path| - 1];
      assert above[1..] == rest[..|rest| - 1] && above[0] == a.key;
      assert NoneListed(o, above) <==> NoneListed(o, above[1..]) by {
        assert forall k | 0 < k < |above| :: above[k] == above[1..][k - 1];
      }
      assert ListedAtEnd(o, path) <==> ListedAtEnd(o, rest);
      assert NodeAt(a, path) <==> exists i :: 0 <= i < |attrs| && NodeAt(attrs[i], rest);
      if Shows(o, a, path, leaf) && NoneListed(o, path) {
        var v :| LeafAt(a, path, v) && leaf == CapValue(v, o.maxValueBytes);
        var i :| 0 <= i < |attrs| && LeafAt(attrs[i], rest, v);
        assert Shows(o, attrs[i], rest, leaf);
      }
      if i :| 0 <= i < |attrs| && Shows(o, attrs[i], rest, leaf) {
        if NoneListed(o, rest) {
          var v :| LeafAt(attrs[i], rest, v) && leaf == CapValue(v, o.maxValueBytes);
          assert LeafAt(a, path, v);
        }
      }
    } else {
      assert forall v :: !LeafAt(a, path, v) by {
        assert forall i, v | 0 <= i < |attrs| :: !LeafAt(attrs[i], rest, v);
      }
    }
  }

  lemma {:induction false} GroupShows(o: Options, a: Attr, path: seq<string>, leaf: Value)
    requires path != [] && path[0] == a.key && a.key !in o.redact && Resolve(a.value).Group?
    ensures LeafAt(Transformed(o, a), path, leaf) <==> Shows(o, a, path, leaf)
    decreases path, 0
  {
    var attrs, rest := Resolve(a.value).attrs, path[1..];
    var all := seq(|attrs|, i requires 0 <= i < |attrs| => Transformed(o, attrs[i]));
    var kept := WithoutEmpty(all);
    assert Resolve(Group(kept)) == Group(kept);
    assert Transformed(o, a) == Attr(a.key, Group(kept));
    ShowsBelow(o, a, path, leaf);
    forall x
      ensures x in kept <==> x in all && !EmptyGroup(x.value)
    {
      WithoutEmptyKeeps(all, x);
    }
    forall i | 0 <= i < |attrs|
      ensures LeafAt(all[i], rest, leaf) <==> Shows(o, attrs[i], rest, leaf)
    {
      TransformedShows(o, attrs[i], rest, leaf);
    }
    SameLeaves(kept, all, rest, leaf);
  }

  /** An empty group shows nothing, so leaving it out changes nothing. */
  lemma SameLeaves(kept: seq<Attr>, all: seq<Attr>, path: seq<string>, leaf: Value)
    requires forall x :: x in kept <==> x in all && !EmptyGroup(x.value)
    ensures (exists i :: 0 <= i < |kept| && LeafAt(kept[i], path, leaf)) <==>
            (exists i :: 0 <= i < |all| && LeafAt(all[i], path, leaf))
  {
    assert Resolve(Group([])) == Group([]);
    if i :| 0 <= i < |kept| && LeafAt(kept[i], path, leaf) {
      assert kept[i] in all;
    }
    if i :| 0 <= i < |all| && LeafAt(all[i], path, leaf) {
      assert all[i] in kept;
    }
  }

  // ---- The shape of the tree ----

  /**
    A tree read from left to right: groups that hold something, values, and attributes whose value
    is not looked at.
   */
  datatype Token = Open(key: string) | Close | Shown(key: string, value: Value) | Hidden(key: string)

  function Flatten(parts: seq<seq<Token>>): seq<Token> {
    if parts == [] then [] else Flatten(parts[..|parts| - 1]) + parts[|parts| - 1]
  }

  /** The tokens of a tree, hiding the attributes with these keys and everything in them. */
  function Tokens(stop: set<string>, a: Attr): seq<Token>
    decreases a.value
  {
    var v := Resolve(a.value);
    if a.key in stop then [Hidden(a.key)]
    else
      match v
      case Group(attrs) =>
        InGroup(a.key, Flatten(seq(|attrs|, i requires 0 <= i < |attrs| => Tokens(stop, attrs[i]))))
      case _ => [Shown(a.key, v)]
  }

  function InGroup(key: string, inner: seq<Token>): seq<Token> {
    if inner == [] then [] else [Open(key)] + inner + [Close]
  }

  function TokensOfEach(stop: set<string>, attrs: seq<Attr>): seq<seq<Token>> {
    seq(|attrs|, i requires 0 <= i < |attrs| => Tokens(stop, attrs[i]))
  }

  /** What the handler makes of a token. */
  function Handled(o: Options, t: Token): Token {
    match t
    case Hidden(key) => Shown(key, Str(REDACTED))
    case Shown(key, v) => Shown(key, CapValue(v, o.maxValueBytes))
    case _ => t
  }

  function AllHandled(o: Options, ts: seq<Token>): (r: seq<Token>)
    ensures |r| == |ts|
  {
    seq(|ts|, i requires 0 <= i < |ts| => Handled(o, ts[i]))
  }

  lemma {:induction false} HandledFlatten(o: Options, parts: seq<seq<Token>>, others: seq<seq<Token>>)
    requires |parts| == |others| && forall i | 0 <= i < |parts| :: others[i] == AllHandled(o, parts[i])
    ensures Flatten(others) == AllHandled(o, Flatten(parts))
  {
    if parts != [] {
      var n := |parts| - 1;
      HandledFlatten(o, parts[..n], others[..n]);
      assert AllHandled(o, Flatten(parts[..n]) + parts[n]) ==
             AllHandled(o, Flatten(parts[..n])) + AllHandled(o, parts[n]);
    }
  }

  lemma TokensLast(stop: set<string>, front: seq<Attr>, x: Attr)
    ensures Flatten(TokensOfEach(stop, front + [x])) == Flatten(TokensOfEach(stop, front)) + Tokens(stop, x)
  {
    var parts := TokensOfEach(stop, front + [x]);
    assert parts[..|front|] == TokensOfEach(stop, front) && parts[|front|] == Tokens(stop, x);
  }

  /** An empty group has no tokens, so leaving it out changes none. */
  lemma {:induction false} EmptyHaveNoTokens(attrs: seq<Attr>)
    ensures Flatten(TokensOfEach({}, WithoutEmpty(attrs))) == Flatten(TokensOfEach({}, attrs))
  {
    if attrs != [] {
      var n := |attrs| - 1;
      var front, x := attrs[..n], attrs[n];
      EmptyHaveNoTokens(front);
      assert attrs == front + [x];
      TokensLast({}, front, x);
      if EmptyGroup(x.value) {
        EmptyGroupTokens(x);
        assert WithoutEmpty(attrs) == WithoutEmpty(front);
      } else {
        TokensLast({}, WithoutEmpty(front), x);
      }
    }
  }

  lemma EmptyGroupTokens(a: Attr)
    requires EmptyGroup(a.value)
    ensures Tokens({}, a) == []
  {
    assert Resolve(Group([])) == Group([]);
    assert Flatten(seq(0, i requires 0 <= i < 0 => Tokens({}, a))) == [];
  }

  /**
    The transformed tree is the original one read from left to right, with the marker for each
    outermost attribute with a listed key and the other strings capped: order, nesting and number of
    all that it shows are kept, and nothing else is left out than groups with nothing in them.
   */
  lemma {:induction false} TransformedTokens(o: Options, a: Attr)
    ensures Tokens({}, Transformed(o, a)) == AllHandled(o, Tokens(o.redact, a))
    decreases a.value
  {
    var v := Resolve(a.value);
    if a.key !in o.redact && v.Group? {
      var all := seq(|v.attrs|, i requires 0 <= i < |v.attrs| => Transformed(o, v.attrs[i]));
      forall i | 0 <= i < |v.attrs|
        ensures Tokens({}, all[i]) == AllHandled(o, Tokens(o.redact, v.attrs[i]))
      {
        TransformedTokens(o, v.attrs[i]);
      }
      EmptyHaveNoTokens(all);
      HandledFlatten(o, TokensOfEach(o.redact, v.attrs), TokensOfEach({}, all));
      GroupTokens(o, a, all);
    } else if a.key !in o.redact {
      assert Resolve(CapValue(v, o.maxValueBytes)) == CapValue(v, o.maxValueBytes);
    }
  }

  lemma HandledInGroup(o: Options, key: string, inner: seq<Token>)
    ensures AllHandled(o, InGroup(key, inner)) == InGroup(key, AllHandled(o, inner))
  {
    if inner != [] {
      var whole, handled := InGroup(key, inner), InGroup(key, AllHandled(o, inner));
      assert |whole| == |handled| == |inner| + 2;
      forall i | 0 <= i < |whole|
        ensures Handled(o, whole[i]) == handled[i]
      {
        if 0 < i <= |inner| { assert whole[i] == inner[i - 1] && handled[i] == AllHandled(o, inner)[i - 1]; }
      }
    }
  }

  lemma TokensOfGroup(stop: set<string>, a: Attr)
    requires a.key !in stop && Resolve(a.value).Group?
    ensures Tokens(stop, a) == InGroup(a.key, Flatten(TokensOfEach(stop, Resolve(a.value).attrs)))
  {
  }

  lemma GroupTokens(o: Options, a: Attr, all: seq<Attr>)
    requires a.key !in o.redact && Resolve(a.value).Group?
    requires
      var attrs := Resolve(a.value).attrs;
      && all == seq(|attrs|, i requires 0 <= i < |attrs| => Transformed(o, attrs[i]))
      && Flatten(TokensOfEach({}, WithoutEmpty(all))) == AllHandled(o, Flatten(TokensOfEach(o.redact, attrs)))
    ensures Tokens({}, Transformed(o, a)) == AllHandled(o, Tokens(o.redact, a))
  {
    var group := Attr(a.key, Group(WithoutEmpty(all)));
    assert Resolve(group.value) == group.value && Transformed(o, a) == group;
    TokensOfGroup({}, group);
    TokensOfGroup(o.redact, a);
    HandledInGroup(o, a.key, Flatten(TokensOfEach(o.redact, Resolve(a.value).attrs)));
  }

  /** No value is shown under or below a listed key, at any depth: only the marker, at the first listed key. */
  lemma ListedNeverShown(o: Options, a: Attr, path: seq<string>, leaf: Value)
    requires LeafAt(Transformed(o, a), path, leaf) && !NoneListed(o, path)
    ensures leaf == Str(REDACTED) && ListedAtEnd(o, path) && NodeAt(a, path)
  {
    TransformedShows(o, a, path, leaf);
  }

  /** Byte slices are not capped, however long: outside the listed keys they are shown as they are. */
  lemma BytesAreKept(o: Options, a: Attr, path: seq<string>, data: seq<Byte>)
    ensures LeafAt(Transformed(o, a), path, Bytes(data)) <==> NoneListed(o, path) && LeafAt(a, path, Bytes(data))
  {
    TransformedShows(o, a, path, Bytes(data));
    assert CapValue(Bytes(data), o.maxValueBytes) == Bytes(data);
  }

  /**
    A capped string is the original within the limit, or if there is none; otherwise, for valid UTF-8, the longest valid
    prefix within the limit, at most three bytes short of it, with the suffix behind it, still valid.
   */
  lemma CapMeaning(text: seq<Byte>, max: int)
    ensures max <= 0 || |text| <= max ==> Cap(text, max) == text
    ensures 0 < max < |text| ==> |SUFFIX| <= |Cap(text, max)| <= max + |SUFFIX|
    ensures Valid(text) && 0 < max < |text| ==>
              var cut := |Cap(text, max)| - |SUFFIX|;
              && Cap(text, max) == text[..cut] + SUFFIX && max - 3 <= cut <= max
              && Valid(text[..cut]) && (forall k | cut < k <= max :: !Valid(text[..k]))
    ensures Valid(text) ==> Valid(Cap(text, max))
  {
    if Valid(text) && 0 < max < |text| {
      CutIsClean(text, max);
      forall k | CutAt(text, max) < k <= max
        ensures !Valid(text[..k])
      {
        CutIsLongest(text, max, k);
      }
      SuffixValid();
      ValidConcat(text[..CutAt(text, max)], SUFFIX);
    }
  }

  lemma SuffixValid()
    ensures Valid(SUFFIX) && |SUFFIX| == 14
  {
    var ascii := SUFFIX[3..];
    AsciiValid(ascii);
  }

  lemma {:induction false} AsciiValid(s: seq<Byte>)
    requires forall k | 0 <= k < |s| :: s[k] <= 0x7F
    ensures Valid(s)
  {
    if s != [] { AsciiValid(s[1..]); }
  }

  // ---- The handler ----

  /** The loop that moves the cut down to the start of a character. */
  method FindCut(text: seq<Byte>, max: nat) returns (cut: nat)
    requires max < |text|
    ensures cut == CutAt(text, max)
  {
    cut := max;
    while cut > 0 && !RuneStart(text[cut])
      invariant cut <= max && CutAt(text, cut) == CutAt(text, max)
    {
      cut := cut - 1;
    }
  }

  method GroupValue(attrs: seq<Attr>) returns (v: Value)
    ensures v == Group(WithoutEmpty(attrs))
  {
    var kept: seq<Attr> := [];
    for i := 0 to |attrs|
      invariant kept == WithoutEmpty(attrs[..i])
    {
      assert attrs[..i + 1][..i] == attrs[..i];
      if !EmptyGroup(attrs[i].value) {
        kept := kept + [attrs[i]];
      }
    }
    assert attrs[..|attrs|] == attrs;
    return Group(kept);
  }

  method TransformAttr(o: Options, a: Attr) returns (r: Attr)
    ensures r == Transformed(o, a)
    decreases a.value
  {
    var v := Resolve(a.value);
    if a.key in o.redact {
      return Attr(a.key, Str(REDACTED));
    }
    if v.Group? {
      var transformed: seq<Attr> := [];
      for i := 0 to |v.attrs|
        invariant transformed == seq(i, k requires 0 <= k < i => Transformed(o, v.attrs[k]))
      {
        var t := TransformAttr(o, v.attrs[i]);
        transformed := transformed + [t];
      }
      var group := GroupValue(transformed);
      return Attr(a.key, group);
    }
    if o.maxValueBytes > 0 && v.Str? && |v.text| > o.maxValueBytes {
      var cut := FindCut(v.text, o.maxValueBytes);
      return Attr(a.key, Str(v.text[..cut] + SUFFIX));
    }
    return Attr(a.key, v);
  }

  function AllTransformed(o: Options, attrs: seq<Attr>): seq<Attr> {
    seq(|attrs|, i requires 0 <= i < |attrs| => Transformed(o, attrs[i]))
  }

  /** The attributes shown are the original ones, from left to right, redacted and capped, at every depth. */
  ghost predicate ShownAs(o: Options, attrs: seq<Attr>, shown: seq<Attr>) {
    && Flatten(TokensOfEach({}, shown)) == AllHandled(o, Flatten(TokensOfEach(o.redact, attrs)))
    && forall a, path, leaf | a in shown && LeafAt(a, path, leaf) && !NoneListed(o, path) :: leaf == Str(REDACTED)
  }

  lemma AllTransformedShown(o: Options, attrs: seq<Attr>)
    ensures ShownAs(o, attrs, AllTransformed(o, attrs)) && ShownAs(o, attrs, WithoutEmpty(AllTransformed(o, attrs)))
  {
    var all := AllTransformed(o, attrs);
    forall i | 0 <= i < |attrs|
      ensures TokensOfEach({}, all)[i] == AllHandled(o, TokensOfEach(o.redact, attrs)[i])
    {
      TransformedTokens(o, attrs[i]);
    }
    HandledFlatten(o, TokensOfEach(o.redact, attrs), TokensOfEach({}, all));
    EmptyHaveNoTokens(all);
    forall a, path, leaf | a in all && LeafAt(a, path, leaf) && !NoneListed(o, path)
      ensures leaf == Str(REDACTED)
    {
      var i :| 0 <= i < |attrs| && all[i] == a;
      ListedNeverShown(o, attrs[i], path, leaf);
    }
    forall a | a in WithoutEmpty(all)
      ensures a in all
    {
      WithoutEmptyKeeps(all, a);
    }
  }

  /** The record handed on; adding attributes to a record leaves empty groups out as well. */
  method Handle(o: Options, attrs: seq<Attr>) returns (next: seq<Attr>)
    ensures ShownAs(o, attrs, next) && next == WithoutEmpty(AllTransformed(o, attrs))
  {
    next := [];
    for i := 0 to |attrs|
      invariant next == WithoutEmpty(AllTransformed(o, attrs)[..i])
    {
      var t := TransformAttr(o, attrs[i]);
      assert AllTransformed(o, attrs)[..i + 1][..i] == AllTransformed(o, attrs)[..i];
      if !EmptyGroup(t.value) {
        next := next + [t];
      }
    }
    assert AllTransformed(o, attrs)[..|attrs|] == AllTransformed(o, attrs);
    AllTransformedShown(o, attrs);
  }

  /** The attributes of a derived handler. */
  method WithAttrs(o: Options, attrs: seq<Attr>) returns (transformed: seq<Attr>)
    ensures ShownAs(o, attrs, transformed) && |transformed| == |attrs|
    ensures forall i | 0 <= i < |attrs| :: transformed[i].key == attrs[i].key
  {
    transformed := [];
    for i := 0 to |attrs|
      invariant transformed == AllTransformed(o, attrs)[..i]
    {
      var t := TransformAttr(o, attrs[i]);
      transformed := transformed + [t];
    }
    assert AllTransformed(o, attrs)[..|attrs|] == AllTransformed(o, attrs);
    AllTransformedShown(o, attrs);
  }
}
