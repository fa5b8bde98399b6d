/**
  When the text behind a cache key tells its input: a line is a domain, an event type and three
  figures, divided by bars and ended by a newline, and nothing is escaped.
 */
module CacheTexts {
  import opened CacheKeys
  import opened Text

  // ---- One line against another ----

  lemma FiguresEnd(head: string, s: DomainStat, head': string, t: DomainStat)
    requires head + Figures(s) == head' + Figures(t)
    ensures head == head' && Figures(s) == Figures(t)
    ensures s.count == t.count && s.firstSeen == t.firstSeen && s.lastSeen == t.lastSeen
  {
    var count, count' := head + [BAR] + Itoa(s.count), head' + [BAR] + Itoa(t.count);
    var first, first' := count + [BAR] + Itoa(s.firstSeen), count' + [BAR] + Itoa(t.firstSeen);
    EndsInTimes(head, s);
    EndsInTimes(head', t);
    SplitLastUnique(first, Itoa(s.lastSeen), first', Itoa(t.lastSeen), BAR);
    SplitLastUnique(count, Itoa(s.firstSeen), count', Itoa(t.firstSeen), BAR);
    SplitLastUnique(head, Itoa(s.count), head', Itoa(t.count), BAR);
    ItoaInjective(s.lastSeen, t.lastSeen);
    ItoaInjective(s.firstSeen, t.firstSeen);
    ItoaInjective(s.count, t.count);
  }

  lemma EndsInTimes(head: string, s: DomainStat)
    ensures head + Figures(s) ==
              head + [BAR] + Itoa(s.count) + [BAR] + Itoa(s.firstSeen) + [BAR] + Itoa(s.lastSeen)
  {
  }

  lemma FiguresOnOneLine(s: DomainStat)
    ensures NEWLINE !in Figures(s)
  {
    assert NEWLINE !in Itoa(s.count) && NEWLINE !in Itoa(s.firstSeen) && NEWLINE !in Itoa(s.lastSeen);
  }

  /** The text e consists of x, the figures of s, a newline and w: it holds the end of a line. */
  ghost predicate Holds(e: string, x: string, s: DomainStat, w: string) {
    e == x + Figures(s) + [NEWLINE] + w
  }

  ghost predicate HoldsLineEnd(e: string) {
    exists x, s, w :: Holds(e, x, s, w)
  }

  /** What follows an event type: the figures, the newline, and the lines behind. */
  function Ending(s: DomainStat, rest: string): string {
    Figures(s) + [NEWLINE] + rest
  }

  lemma CancelFront(a: string, x: string, y: string)
    requires a + x == a + y
    ensures x == y
  {
    assert (a + x)[|a|..] == x && (a + y)[|a|..] == y;
  }

  lemma LongerFront(a: string, x: string, b: string, y: string) returns (v: string)
    requires a + x == b + y && |a| <= |b|
    ensures b == a + v && x == v + y
  {
    v := b[|a|..];
    assert (a + x)[..|a|] == a && (b + y)[..|a|] == b[..|a|];
    assert a + (v + y) == b + y;
    CancelFront(a, x, v + y);
  }

  lemma SameEnding(s: DomainStat, rest: string, t: DomainStat, rest': string)
    requires Ending(s, rest) == Ending(t, rest')
    ensures Figures(s) == Figures(t) && rest == rest'
    ensures s.count == t.count && s.firstSeen == t.firstSeen && s.lastSeen == t.lastSeen
  {
    FiguresOnOneLine(s);
    FiguresOnOneLine(t);
    SplitUnique(Figures(s), rest, Figures(t), rest', NEWLINE);
    FiguresEnd("", s, "", t);
  }

  lemma ShortOfTheFigures(v: string, s: DomainStat, rest: string, t: DomainStat, rest': string)
    requires Ending(s, rest) == v + Ending(t, rest') && |v| <= |Figures(s)|
    ensures v == ""
  {
    assert Figures(s) + ([NEWLINE] + rest) == Ending(s, rest);
    var u := LongerFront(v, Ending(t, rest'), Figures(s), [NEWLINE] + rest);
    assert u + [NEWLINE] + rest == Ending(t, rest') by { assert u + ([NEWLINE] + rest) == u + [NEWLINE] + rest; }
    FiguresOnOneLine(s);
    FiguresOnOneLine(t);
    assert NEWLINE !in u;
    SplitUnique(u, rest, Figures(t), rest', NEWLINE);
    assert "" + Figures(s) == v + Figures(t);
    FiguresEnd("", s, v, t);
  }

  /** A text in front of an ending that is itself an ending reaches past the figures and the newline. */
  lemma ReachesPast(v: string, s: DomainStat, rest: string, t: DomainStat, rest': string) returns (w: string)
    requires Ending(s, rest) == v + Ending(t, rest') && v != ""
    ensures v == Figures(s) + [NEWLINE] + w && rest == w + Ending(t, rest')
  {
    var line := Figures(s) + [NEWLINE];
    if |v| < |line| { ShortOfTheFigures(v, s, rest, t, rest'); }
    assert line + rest == Ending(s, rest);
    w := LongerFront(line, rest, v, Ending(t, rest'));
  }

  /** Event types in front of endings: they are the same, or the longer one runs on over the line of the other. */
  lemma LongerRunsOn(e: string, s: DomainStat, rest: string, e': string, t: DomainStat, rest': string)
    returns (w: string)
    requires e + Ending(s, rest) == e' + Ending(t, rest') && |e| < |e'|
    ensures Holds(e', e, s, w) && rest == w + Ending(t, rest')
  {
    var v := LongerFront(e, Ending(s, rest), e', Ending(t, rest'));
    w := ReachesPast(v, s, rest, t, rest');
    assert e + (Figures(s) + [NEWLINE] + w) == e + Figures(s) + [NEWLINE] + w;
  }

  lemma SameLength(e: string, s: DomainStat, rest: string, e': string, t: DomainStat, rest': string)
    requires e + Ending(s, rest) == e' + Ending(t, rest') && |e| == |e'|
    ensures e == e' && rest == rest'
    ensures s.count == t.count && s.firstSeen == t.firstSeen && s.lastSeen == t.lastSeen
  {
    var v := LongerFront(e, Ending(s, rest), e', Ending(t, rest'));
    assert v == "" && v + Ending(t, rest') == Ending(t, rest');
    SameEnding(s, rest, t, rest');
  }

  // ---- From the front: domains without a bar ----

  lemma FirstLineOf(s: seq<DomainStat>)
    requires s != []
    ensures Lines(s) == s[0].domain + [BAR] + (s[0].eventType + Ending(s[0], Lines(s[1..])))
  {
    RegroupLine(s[0].domain, s[0].eventType, Figures(s[0]), Lines(s[1..]));
  }

  lemma RegroupLine(d: string, e: string, f: string, rest: string)
    ensures (d + [BAR] + e + f) + [NEWLINE] + rest == d + [BAR] + (e + (f + [NEWLINE] + rest))
  {
  }

  lemma FirstDomains(s: seq<DomainStat>, t: seq<DomainStat>)
    requires s != [] && t != [] && BAR !in s[0].domain && BAR !in t[0].domain && Lines(s) == Lines(t)
    ensures s[0].domain == t[0].domain
    ensures s[0].eventType + Ending(s[0], Lines(s[1..])) == t[0].eventType + Ending(t[0], Lines(t[1..]))
  {
    FirstLineOf(s);
    FirstLineOf(t);
    SplitUnique(s[0].domain, s[0].eventType + Ending(s[0], Lines(s[1..])),
                t[0].domain, t[0].eventType + Ending(t[0], Lines(t[1..])), BAR);
  }

  /** No bar in the domain, and no event type that holds the end of a line. */
  ghost predicate Clean(s: DomainStat) {
    BAR !in s.domain && !HoldsLineEnd(s.eventType)
  }

  ghost predicate AllClean(stats: seq<DomainStat>) {
    forall s | s in stats :: Clean(s)
  }

  lemma FirstLine(s: seq<DomainStat>, t: seq<DomainStat>)
    requires s != [] && t != [] && Clean(s[0]) && Clean(t[0]) && Lines(s) == Lines(t)
    ensures s[0] == t[0] && Lines(s[1..]) == Lines(t[1..])
  {
    var a, b := s[0], t[0];
    FirstDomains(s, t);
    if |a.eventType| < |b.eventType| {
      var w := LongerRunsOn(a.eventType, a, Lines(s[1..]), b.eventType, b, Lines(t[1..]));
      assert HoldsLineEnd(b.eventType);
    } else if |b.eventType| < |a.eventType| {
      var w := LongerRunsOn(b.eventType, b, Lines(t[1..]), a.eventType, a, Lines(s[1..]));
      assert HoldsLineEnd(a.eventType);
    } else {
      SameLength(a.eventType, a, Lines(s[1..]), b.eventType, b, Lines(t[1..]));
    }
  }

  lemma {:induction false} LinesInjective(s: seq<DomainStat>, t: seq<DomainStat>)
    requires AllClean(s) && AllClean(t) && Lines(s) == Lines(t)
    ensures s == t
    decreases s
  {
    NoLines(s);
    NoLines(t);
    if s != [] && t != [] {
      assert s[0] in s && t[0] in t;
      FirstLine(s, t);
      LinesInjective(s[1..], t[1..]);
      SameByFirst(s, t);
    }
  }

  lemma SameByFirst(s: seq<DomainStat>, t: seq<DomainStat>)
    requires s != [] && t != [] && s[0] == t[0] && s[1..] == t[1..]
    ensures s == t
  {
    assert s == [s[0]] + s[1..] && t == [t[0]] + t[1..];
  }

  // ---- From the back: event types without a bar ----

  /** The other way round: no bar in the event type, and no domain that holds the end of a line. */
  ghost predicate CleanBackwards(s: DomainStat) {
    BAR !in s.eventType && !HoldsLineEnd(s.domain)
  }

  ghost predicate AllCleanBackwards(stats: seq<DomainStat>) {
    forall s | s in stats :: CleanBackwards(s)
  }

  lemma {:induction false} LinesAppend(s: seq<DomainStat>, x: DomainStat)
    ensures Lines(s + [x]) == Lines(s) + (LineBody(x) + [NEWLINE])
    decreases s
  {
    if s == [] {
      assert (s + [x])[1..] == [] && s + [x] == [x];
    } else {
      assert (s + [x])[1..] == s[1..] + [x] && (s + [x])[0] == s[0];
      LinesAppend(s[1..], x);
    }
  }

  lemma LastLineOf(s: seq<DomainStat>)
    requires s != []
    ensures Lines(s) == Lines(s[..|s| - 1]) + (LineBody(s[|s| - 1]) + [NEWLINE])
  {
    var front, x := s[..|s| - 1], s[|s| - 1];
    assert s == front + [x];
    LinesAppend(front, x);
  }

  /** Texts that end in a bar-free event type, figures and a newline. */
  lemma LastTypes(x: string, a: DomainStat, y: string, b: DomainStat)
    requires x + (LineBody(a) + [NEWLINE]) == y + (LineBody(b) + [NEWLINE])
    requires BAR !in a.eventType && BAR !in b.eventType
    ensures a.eventType == b.eventType && x + a.domain == y + b.domain
    ensures a.count == b.count && a.firstSeen == b.firstSeen && a.lastSeen == b.lastSeen
  {
    LastRegrouped(x, a);
    LastRegrouped(y, b);
    var p, q := (x + a.domain) + [BAR] + a.eventType, (y + b.domain) + [BAR] + b.eventType;
    CancelBack(p + Figures(a), q + Figures(b), [NEWLINE]);
    FiguresEnd(p, a, q, b);
    SplitLastUnique(x + a.domain, a.eventType, y + b.domain, b.eventType, BAR);
  }

  lemma LastRegrouped(x: string, a: DomainStat)
    ensures x + (LineBody(a) + [NEWLINE]) == ((x + a.domain) + [BAR] + a.eventType) + Figures(a) + [NEWLINE]
  {
  }

  lemma CancelBack(x: string, y: string, end: string)
    requires x + end == y + end
    ensures x == y
  {
    assert |x| == |y|;
    assert (x + end)[..|x|] == x && (y + end)[..|y|] == y;
  }

  lemma EndsInNewline(s: seq<DomainStat>)
    requires s != []
    ensures Lines(s) != "" && Lines(s)[|Lines(s)| - 1] == NEWLINE
  {
    LastLineOf(s);
  }

  lemma InsideLine(front: string, a: DomainStat, lines: string, v: string)
    requires front + (Figures(a) + [NEWLINE]) == lines + v && v != ""
    ensures |lines| > |front| ==> lines[|lines| - 1] != NEWLINE
  {
    var line := Figures(a) + [NEWLINE];
    FiguresOnOneLine(a);
    if |lines| > |front| {
      var k := |lines| - 1;
      assert (lines + v)[k] == lines[k] && (front + line)[k] == line[k - |front|] == Figures(a)[k - |front|];
    }
  }

  /** A text behind whole lines that ends with a line's figures and newline has all of them. */
  lemma TailHolds(front: string, a: DomainStat, lines: string, v: string) returns (x: string)
    requires front + (Figures(a) + [NEWLINE]) == lines + v && v != ""
    requires lines != "" ==> lines[|lines| - 1] == NEWLINE
    ensures v == x + Figures(a) + [NEWLINE]
  {
    var line := Figures(a) + [NEWLINE];
    InsideLine(front, a, lines, v);
    x := LongerFront(lines, v, front, line);
    assert v == x + line;
  }

  /** A domain in front of which fewer lines stand holds the end of the last of the others. */
  lemma LongerDomainHolds(s: seq<DomainStat>, d: string, t: seq<DomainStat>, d': string)
    requires Lines(s) + d == Lines(t) + d' && |d| < |d'|
    ensures HoldsLineEnd(d')
  {
    assert |Lines(t)| < |Lines(s)|;
    var v := LongerFront(Lines(t), d', Lines(s), d);
    if t != [] { EndsInNewline(t); }
    var a := s[|s| - 1];
    var front := InFrontOfFigures(s);
    var x := TailHolds(front, a, Lines(t), v);
    assert Holds(d', x, a, d);
  }

  lemma InFrontOfFigures(s: seq<DomainStat>) returns (front: string)
    requires s != []
    ensures Lines(s) == front + (Figures(s[|s| - 1]) + [NEWLINE])
  {
    LastLineOf(s);
    var a, before := s[|s| - 1], Lines(s[..|s| - 1]);
    front := before + (a.domain + [BAR] + a.eventType);
    assert before + ((a.domain + [BAR] + a.eventType + Figures(a)) + [NEWLINE]) == front + (Figures(a) + [NEWLINE]);
  }

  lemma SameTail(x: string, a: string, y: string, b: string)
    requires x + a == y + b && |a| == |b|
    ensures x == y && a == b
  {
    assert (x + a)[..|x|] == x && (y + b)[..|y|] == y && |x| == |y|;
    CancelFront(x, a, b);
  }

  lemma SameLastDomain(s: seq<DomainStat>, d: string, t: seq<DomainStat>, d': string)
    requires Lines(s) + d == Lines(t) + d' && !HoldsLineEnd(d) && !HoldsLineEnd(d')
    ensures d == d' && Lines(s) == Lines(t)
  {
    if |d| < |d'| { LongerDomainHolds(s, d, t, d'); }
    if |d'| < |d| { LongerDomainHolds(t, d', s, d); }
    SameTail(Lines(s), d, Lines(t), d');
  }

  lemma LastLine(s: seq<DomainStat>, t: seq<DomainStat>)
    requires s != [] && t != [] && Lines(s) == Lines(t)
    requires CleanBackwards(s[|s| - 1]) && CleanBackwards(t[|t| - 1])
    ensures s[|s| - 1] == t[|t| - 1] && Lines(s[..|s| - 1]) == Lines(t[..|t| - 1])
  {
    var a, b := s[|s| - 1], t[|t| - 1];
    LastLineOf(s);
    LastLineOf(t);
    LastTypes(Lines(s[..|s| - 1]), a, Lines(t[..|t| - 1]), b);
    SameLastDomain(s[..|s| - 1], a.domain, t[..|t| - 1], b.domain);
  }

  lemma NoLines(s: seq<DomainStat>)
    ensures Lines(s) == "" <==> s == []
  {
  }

  lemma {:induction false} LinesInjectiveBackwards(s: seq<DomainStat>, t: seq<DomainStat>)
    requires AllCleanBackwards(s) && AllCleanBackwards(t) && Lines(s) == Lines(t)
    ensures s == t
    decreases |s|
  {
    NoLines(s);
    NoLines(t);
    if s != [] && t != [] {
      LastLine(s, t);
      LinesInjectiveBackwards(s[..|s| - 1], t[..|t| - 1]);
      SameByLast(s, t);
    }
  }

  lemma SameByLast(s: seq<DomainStat>, t: seq<DomainStat>)
    requires s != [] && t != [] && s[..|s| - 1] == t[..|t| - 1] && s[|s| - 1] == t[|t| - 1]
    ensures s == t
  {
    assert s == s[..|s| - 1] + [s[|s| - 1]] && t == t[..|t| - 1] + [t[|t| - 1]];
  }

  // ---- The canonical text ----

  lemma HeaderInjective(temperature: int, maxTokens: int, temperature': int, maxTokens': int)
    requires Header(temperature, maxTokens) == Header(temperature', maxTokens')
    ensures temperature == temperature' && maxTokens == maxTokens'
  {
    SplitUnique(Itoa(temperature), Itoa(maxTokens), Itoa(temperature'), Itoa(maxTokens'), BAR);
    ItoaInjective(temperature, temperature');
    ItoaInjective(maxTokens, maxTokens');
  }

  /** Both inputs are clean in the same way. */
  ghost predicate Decodable(s: seq<DomainStat>, t: seq<DomainStat>) {
    (AllClean(s) && AllClean(t)) || (AllCleanBackwards(s) && AllCleanBackwards(t))
  }

  lemma SortedClean(s: seq<DomainStat>)
    ensures AllClean(s) ==> AllClean(Sorted(s))
    ensures AllCleanBackwards(s) ==> AllCleanBackwards(Sorted(s))
  {
    SortedMeaning(s);
    forall x | x in Sorted(s)
      ensures x in s
    {
      assert x in multiset(Sorted(s));
    }
  }

  lemma SplitHeader(temperature: int, maxTokens: int, lines: string, temperature': int, maxTokens': int, lines': string)
    requires Header(temperature, maxTokens) + [NEWLINE] + lines == Header(temperature', maxTokens') + [NEWLINE] + lines'
    ensures temperature == temperature' && maxTokens == maxTokens' && lines == lines'
  {
    assert NEWLINE !in Header(temperature, maxTokens) && NEWLINE !in Header(temperature', maxTokens');
    SplitUnique(Header(temperature, maxTokens), lines, Header(temperature', maxTokens'), lines', NEWLINE);
    HeaderInjective(temperature, maxTokens, temperature', maxTokens');
  }

  /** The text determines the parameters and the statistics up to their order. */
  lemma SerialisedInjective(
      s: seq<DomainStat>, temperature: int, maxTokens: int, t: seq<DomainStat>, temperature': int, maxTokens': int)
    requires Decodable(s, t)
    requires Serialised(s, temperature, maxTokens) == Serialised(t, temperature', maxTokens')
    ensures multiset(s) == multiset(t) && temperature == temperature' && maxTokens == maxTokens'
  {
    SplitHeader(temperature, maxTokens, Lines(Sorted(s)), temperature', maxTokens', Lines(Sorted(t)));
    SortedMeaning(s);
    SortedMeaning(t);
    SortedClean(s);
    SortedClean(t);
    SameLines(Sorted(s), Sorted(t));
  }

  lemma SameLines(s: seq<DomainStat>, t: seq<DomainStat>)
    requires Decodable(s, t) && Lines(s) == Lines(t)
    ensures s == t
  {
    if AllClean(s) && AllClean(t) { LinesInjective(s, t); } else { LinesInjectiveBackwards(s, t); }
  }

  lemma PermutationsAgree(s: seq<DomainStat>, t: seq<DomainStat>)
    requires multiset(s) == multiset(t) && UniqueKeys(s)
    ensures Sorted(s) == Sorted(t)
  {
    SortedMeaning(s);
    SortedMeaning(t);
    UniqueKeysOfPermutation(s, Sorted(s));
    OrderedUnique(Sorted(s), Sorted(t));
  }

  /**
    The text is canonical: two inputs with distinct keys that are clean in the same way give the
    same text exactly if their statistics are permutations of each other and their parameters agree.
   */
  lemma Canonical(
      s: seq<DomainStat>, temperature: int, maxTokens: int, t: seq<DomainStat>, temperature': int, maxTokens': int)
    requires Decodable(s, t) && UniqueKeys(s)
    ensures Serialised(s, temperature, maxTokens) == Serialised(t, temperature', maxTokens') <==>
              multiset(s) == multiset(t) && temperature == temperature' && maxTokens == maxTokens'
  {
    if Serialised(s, temperature, maxTokens) == Serialised(t, temperature', maxTokens') {
      SerialisedInjective(s, temperature, maxTokens, t, temperature', maxTokens');
    }
    if multiset(s) == multiset(t) { PermutationsAgree(s, t); }
  }

  // ---- Where it is not ----

  lemma OneLine(s: DomainStat)
    ensures Lines(Sorted([s])) == LineBody(s) + [NEWLINE]
  {
    assert Sorted([s]) == [s];
  }

  lemma TwoLines(s: DomainStat, t: DomainStat)
    requires !Before(t, s)
    ensures Lines(Sorted([s, t])) == LineBody(s) + [NEWLINE] + LineBody(t) + [NEWLINE]
  {
    assert [s, t][..1] == [s] && Sorted([s]) == [s] && Sorted([s, t]) == [s, t];
    assert [s, t][1..] == [t] && Lines([t]) == LineBody(t) + [NEWLINE];
    assert Lines([s, t]) == LineBody(s) + [NEWLINE] + Lines([t]);
  }

  /** Bars in both fields: the boundary between the domain and the event type is lost. */
  lemma BarsCollide(a: string, b: string, c: string, s: DomainStat, temperature: int, maxTokens: int)
    ensures
      var x := s.(domain := a + [BAR] + b, eventType := c);
      var y := s.(domain := a, eventType := b + [BAR] + c);
      x != y && Serialised([x], temperature, maxTokens) == Serialised([y], temperature, maxTokens)
  {
    var x := s.(domain := a + [BAR] + b, eventType := c);
    var y := s.(domain := a, eventType := b + [BAR] + c);
    assert |x.domain| != |y.domain|;
    assert x.domain + [BAR] + x.eventType == y.domain + [BAR] + y.eventType;
    OneLine(x);
    OneLine(y);
  }

  /** The event type of a statistic that looks like s and t together. */
  function TypeOfBoth(s: DomainStat, t: DomainStat): string {
    s.eventType + Figures(s) + [NEWLINE] + t.domain + [BAR] + t.eventType
  }

  /** An event type with a line's end in it: any two statistics in order can be the text of a single one. */
  lemma LineEndInTypeCollides(s: DomainStat, t: DomainStat, temperature: int, maxTokens: int)
    requires !Before(t, s)
    ensures
      var both := t.(domain := s.domain, eventType := TypeOfBoth(s, t));
      Serialised([both], temperature, maxTokens) == Serialised([s, t], temperature, maxTokens)
  {
    var both := t.(domain := s.domain, eventType := TypeOfBoth(s, t));
    RegroupType(s.domain, s.eventType, Figures(s), t.domain, t.eventType, Figures(t));
    OneLine(both);
    TwoLines(s, t);
  }

  lemma RegroupType(d: string, e: string, f: string, d': string, e': string, f': string)
    ensures d + [BAR] + (e + f + [NEWLINE] + d' + [BAR] + e') + f' ==
              d + [BAR] + e + f + [NEWLINE] + (d' + [BAR] + e' + f')
  {
  }

  function DomainOfBoth(s: DomainStat, t: DomainStat): string {
    LineBody(s) + [NEWLINE] + t.domain
  }

  /** The same with a domain. */
  lemma LineEndInDomainCollides(s: DomainStat, t: DomainStat, temperature: int, maxTokens: int)
    requires !Before(t, s)
    ensures Serialised([t.(domain := DomainOfBoth(s, t))], temperature, maxTokens) ==
              Serialised([s, t], temperature, maxTokens)
  {
    var both := t.(domain := DomainOfBoth(s, t));
    RegroupDomain(LineBody(s), t.domain, t.eventType, Figures(t));
    OneLine(both);
    TwoLines(s, t);
  }

  lemma RegroupDomain(line: string, d: string, e: string, f: string)
    ensures (line + [NEWLINE] + d) + [BAR] + e + f == line + [NEWLINE] + (d + [BAR] + e + f)
  {
  }

  /**
    The transformer gives every message of an unlisted type the domain "unknown" and its own type:
    a type with a line's end in it is then taken for two others.
   */
  lemma UnknownTypesCollide(x: string, y: string, s: DomainStat, t: DomainStat, temperature: int, maxTokens: int)
    requires Less(x, y) && s.domain == "unknown" == t.domain && s.eventType == x && t.eventType == y
    ensures
      var both := t.(eventType := x + Figures(s) + [NEWLINE] + "unknown" + [BAR] + y);
      Serialised([both], temperature, maxTokens) == Serialised([s, t], temperature, maxTokens)
  {
    LessAsymmetric(x, y);
    LineEndInTypeCollides(s, t, temperature, maxTokens);
    assert t.(domain := s.domain, eventType := TypeOfBoth(s, t)) == t.(eventType := TypeOfBoth(s, t));
  }

  // ---- Exactly where: the characters that domains and event types may have ----

  predicate MadeOf(chars: set<char>, text: string) {
    forall c | c in text :: c in chars
  }

  ghost predicate AllOver(domainChars: set<char>, typeChars: set<char>, stats: seq<DomainStat>) {
    forall s | s in stats :: MadeOf(domainChars, s.domain) && MadeOf(typeChars, s.eventType)
  }

  predicate SomeDigit(chars: set<char>) {
    exists n | 0 <= n < 10 :: Digit(n) in chars
  }

  /** Enough characters to write the end of a line: a bar, a digit and a newline. */
  predicate WritesLineEnds(chars: set<char>) {
    BAR in chars && NEWLINE in chars && SomeDigit(chars)
  }

  predicate Unambiguous(domainChars: set<char>, typeChars: set<char>) {
    !(BAR in domainChars && BAR in typeChars) && !WritesLineEnds(domainChars) && !WritesLineEnds(typeChars)
  }

  /** Two inputs give the same text exactly if they are permutations with the same parameters. */
  ghost predicate SameExactly(
      s: seq<DomainStat>, temperature: int, maxTokens: int, t: seq<DomainStat>, temperature': int, maxTokens': int)
  {
    Serialised(s, temperature, maxTokens) == Serialised(t, temperature', maxTokens') <==>
    multiset(s) == multiset(t) && temperature == temperature' && maxTokens == maxTokens'
  }

  ghost predicate CanonicalOver(domainChars: set<char>, typeChars: set<char>) {
    forall s, temperature, maxTokens, t, temperature', maxTokens' |
      AllOver(domainChars, typeChars, s) && AllOver(domainChars, typeChars, t) && UniqueKeys(s) && UniqueKeys(t) ::
      SameExactly(s, temperature, maxTokens, t, temperature', maxTokens')
  }

  lemma ItoaHasDigit(n: int)
    ensures exists d | 0 <= d < 10 :: Digit(d) in Itoa(n)
  {
    var m := if n < 0 then -n else n;
    assert Digits(m)[|Digits(m)| - 1] == Digit(m % 10);
    assert Digit(m % 10) in Digits(m);
    assert forall c | c in Digits(m) :: c in Itoa(n);
  }

  lemma HeldIsWritten(chars: set<char>, text: string)
    requires MadeOf(chars, text) && HoldsLineEnd(text)
    ensures WritesLineEnds(chars)
  {
    var x, s, w :| Holds(text, x, s, w);
    ItoaHasDigit(s.count);
    var d :| 0 <= d < 10 && Digit(d) in Itoa(s.count);
    assert Digit(d) in Figures(s) && BAR in Figures(s);
    assert forall c | c in Figures(s) :: c in text;
    assert NEWLINE in text && SomeDigit(chars);
  }

  lemma OverUnambiguousIsClean(domainChars: set<char>, typeChars: set<char>, stats: seq<DomainStat>)
    requires Unambiguous(domainChars, typeChars) && AllOver(domainChars, typeChars, stats)
    ensures if BAR in domainChars then AllCleanBackwards(stats) else AllClean(stats)
  {
    forall s | s in stats
      ensures if BAR in domainChars then CleanBackwards(s) else Clean(s)
    {
      if HoldsLineEnd(s.eventType) { HeldIsWritten(typeChars, s.eventType); }
      if HoldsLineEnd(s.domain) { HeldIsWritten(domainChars, s.domain); }
    }
  }

  lemma ItoaOfDigit(n: nat)
    requires n < 10
    ensures Itoa(n) == [Digit(n)]
  {
  }

  lemma Disagree(domainChars: set<char>, typeChars: set<char>, s: seq<DomainStat>, t: seq<DomainStat>)
    requires AllOver(domainChars, typeChars, s) && AllOver(domainChars, typeChars, t) && UniqueKeys(s) && UniqueKeys(t)
    requires Serialised(s, 0, 0) == Serialised(t, 0, 0) && multiset(s) != multiset(t)
    ensures !CanonicalOver(domainChars, typeChars)
  {
    assert !SameExactly(s, 0, 0, t, 0, 0);
  }

  lemma BarsDisagree(domainChars: set<char>, typeChars: set<char>)
    requires BAR in domainChars && BAR in typeChars
    ensures !CanonicalOver(domainChars, typeChars)
  {
    var s := DomainStat("", "", 0, 0, 0);
    BarsCollide("", "", "", s, 0, 0);
    var x, y := s.(domain := [BAR], eventType := ""), s.(domain := "", eventType := [BAR]);
    assert x == s.(domain := "" + [BAR] + "", eventType := "") && y == s.(domain := "", eventType := "" + [BAR] + "");
    assert x in multiset([x]) && x !in multiset([y]);
    Disagree(domainChars, typeChars, [x], [y]);
  }

  lemma FiguresMadeOf(chars: set<char>, s: DomainStat, n: nat)
    requires n < 10 && s.count == n && s.firstSeen == n && s.lastSeen == n && BAR in chars && Digit(n) in chars
    ensures MadeOf(chars, Figures(s))
  {
    ItoaOfDigit(n);
  }

  lemma TwoAreNotOne(x: DomainStat, y: DomainStat, both: DomainStat)
    ensures multiset([both]) != multiset([x, y])
  {
    assert |multiset([both])| == 1 && |multiset([x, y])| == 2;
  }

  lemma LineEndsInTypesDisagree(domainChars: set<char>, typeChars: set<char>)
    requires WritesLineEnds(typeChars)
    ensures !CanonicalOver(domainChars, typeChars)
  {
    var n :| 0 <= n < 10 && Digit(n) in typeChars;
    var s := DomainStat("", "", n, n, n);
    var t := s.(eventType := [BAR]);
    var both := t.(domain := s.domain, eventType := TypeOfBoth(s, t));
    FiguresMadeOf(typeChars, s, n);
    LineEndInTypeCollides(s, t, 0, 0);
    TwoAreNotOne(s, t, both);
    Disagree(domainChars, typeChars, [both], [s, t]);
  }

  lemma LineEndsInDomainsDisagree(domainChars: set<char>, typeChars: set<char>)
    requires WritesLineEnds(domainChars)
    ensures !CanonicalOver(domainChars, typeChars)
  {
    var n :| 0 <= n < 10 && Digit(n) in domainChars;
    var s := DomainStat("", "", n, n, n);
    var t := s.(domain := [BAR]);
    var both := t.(domain := DomainOfBoth(s, t));
    FiguresMadeOf(domainChars, s, n);
    LineEndInDomainCollides(s, t, 0, 0);
    TwoAreNotOne(s, t, both);
    Disagree(domainChars, typeChars, [both], [s, t]);
  }

  /**
    The text is canonical over all statistics whose domains and event types are made of given
    characters if and only if not both may have a bar and neither can write the end of a line.
   */
  lemma CanonicalExactly(domainChars: set<char>, typeChars: set<char>)
    ensures CanonicalOver(domainChars, typeChars) <==> Unambiguous(domainChars, typeChars)
  {
    if Unambiguous(domainChars, typeChars) {
      forall s, temperature, maxTokens, t, temperature', maxTokens' |
        AllOver(domainChars, typeChars, s) && AllOver(domainChars, typeChars, t) && UniqueKeys(s) && UniqueKeys(t)
        ensures SameExactly(s, temperature, maxTokens, t, temperature', maxTokens')
      {
        OverUnambiguousIsClean(domainChars, typeChars, s);
        OverUnambiguousIsClean(domainChars, typeChars, t);
        Canonical(s, temperature, maxTokens, t, temperature', maxTokens');
      }
    } else if BAR in domainChars && BAR in typeChars {
      BarsDisagree(domainChars, typeChars);
    } else if WritesLineEnds(typeChars) {
      LineEndsInTypesDisagree(domainChars, typeChars);
    } else {
      LineEndsInDomainsDisagree(domainChars, typeChars);
    }
  }

  // ---- Exactly which event types, where no domain has a bar ----

  ghost predicate AllIn(domains: set<string>, stats: seq<DomainStat>) {
    forall s | s in stats :: s.domain in domains
  }

  /** Some statistic of this event type has the text of others, with distinct keys as a grouping has them. */
  ghost predicate Collides(domains: set<string>, eventType: string) {
    exists t: DomainStat, others ::
      && t.domain in domains && t.eventType == eventType
      && AllIn(domains, others) && UniqueKeys(others) && others != [t]
      && Serialised(others, 0, 0) == Serialised([t], 0, 0)
  }

  /** The event type looks like two statistics of different keys, in order. */
  ghost predicate LooksLikeTwo(domains: set<string>, eventType: string) {
    exists s: DomainStat, t: DomainStat ::
      s.domain in domains && t.domain in domains && Before(s, t) && eventType == TypeOfBoth(s, t)
  }

  lemma {:induction false} LessLonger(a: string, b: string, z: string)
    requires Less(a, b)
    ensures Less(a, b + z)
  {
    if a != "" && a[0] == b[0] {
      assert (b + z)[1..] == b[1..] + z;
      LessLonger(a[1..], b[1..], z);
    }
  }

  lemma SortedSingle(others: seq<DomainStat>, t: DomainStat)
    ensures Sorted(others) == [t] ==> others == [t]
  {
    SortedMeaning(others);
    if Sorted(others) == [t] {
      assert |others| == |multiset(others)| == |multiset([t])| == 1;
      assert others[0] in multiset(others);
    }
  }

  lemma SingleText(t: DomainStat, others: seq<DomainStat>)
    requires Serialised(others, 0, 0) == Serialised([t], 0, 0) && others != [t]
    ensures Lines(Sorted(others)) == Lines([t]) && Sorted(others) != [t] && Sorted(others) != []
  {
    SplitHeader(0, 0, Lines(Sorted(others)), 0, 0, Lines(Sorted([t])));
    assert Sorted([t]) == [t];
    SortedSingle(others, t);
    NoLines(Sorted(others));
  }

  lemma FirstIsAll(o: seq<DomainStat>, t: DomainStat)
    requires Lines(o) == Lines([t]) && o != [] && BAR !in o[0].domain && BAR !in t.domain
    ensures |o[0].eventType| == |t.eventType| ==> o == [t]
  {
    FirstDomains(o, [t]);
    assert Lines([t][1..]) == "";
    if |o[0].eventType| == |t.eventType| {
      SameLength(o[0].eventType, o[0], Lines(o[1..]), t.eventType, t, "");
      NoLines(o[1..]);
      assert o == [o[0]] + o[1..];
    }
  }

  /** Lines that are together the one line of t: the first is shorter, and t's event type goes on over the second. */
  lemma SecondLine(o: seq<DomainStat>, t: DomainStat) returns (z: string)
    requires Lines(o) == Lines([t]) && o != [] && o != [t] && BAR !in o[0].domain && BAR !in t.domain
    ensures |o| >= 2 && t.domain == o[0].domain
    ensures t.eventType == TypeOfBoth(o[0], o[1].(eventType := o[1].eventType + z))
  {
    var a, e, rest := o[0], t.eventType, Lines(o[1..]);
    FirstDomains(o, [t]);
    assert Lines([t][1..]) == "";
    FirstIsAll(o, t);
    if |e| < |a.eventType| { var w := LongerRunsOn(e, t, "", a.eventType, a, rest); }
    var w := LongerRunsOn(a.eventType, a, rest, e, t, "");
    NoLines(o[1..]);
    z := RestOfSecond(o[1..], w, t);
  }

  lemma RestOfSecond(p: seq<DomainStat>, w: string, t: DomainStat) returns (z: string)
    requires p != [] && Lines(p) == w + Ending(t, "")
    ensures w == p[0].domain + [BAR] + (p[0].eventType + z)
  {
    var d, e, end := p[0].domain, p[0].eventType, Ending(p[0], Lines(p[1..]));
    FirstLineOf(p);
    Regroup(d, e, end);
    z := EndsLater(d + [BAR] + e, p[0], Lines(p[1..]), w, t);
    Regroup(d, e, z);
  }

  lemma Regroup(d: string, e: string, x: string)
    ensures d + [BAR] + (e + x) == d + [BAR] + e + x
  {
  }

  /** An ending with nothing behind it is the last one. */
  lemma EndsLater(front: string, s: DomainStat, rest: string, w: string, t: DomainStat) returns (z: string)
    requires front + Ending(s, rest) == w + Ending(t, "")
    ensures w == front + z
  {
    if |w| < |front| { var x := LongerRunsOn(w, t, "", front, s, rest); }
    z := LongerFront(front, Ending(s, rest), w, Ending(t, ""));
  }

  lemma BeforeMeansDistinct(s: DomainStat, t: DomainStat)
    requires Before(s, t)
    ensures !Before(t, s) && UniqueKeys([s, t])
  {
    BeforeStrict(s, t, s);
    assert Alike(s, t) ==> Before(t, s);
  }

  /**
    Where no domain has a bar, exactly the event types collide that look like two statistics of
    different keys, in order.
   */
  lemma CollidesExactly(domains: set<string>, eventType: string)
    requires forall d | d in domains :: BAR !in d
    ensures Collides(domains, eventType) <==> LooksLikeTwo(domains, eventType)
  {
    if Collides(domains, eventType) {
      var t: DomainStat, others :|
        && t.domain in domains && t.eventType == eventType
        && AllIn(domains, others) && UniqueKeys(others) && others != [t]
        && Serialised(others, 0, 0) == Serialised([t], 0, 0);
      SingleText(t, others);
      CollidingType(domains, t, others);
    }
    if LooksLikeTwo(domains, eventType) {
      var s: DomainStat, t: DomainStat :|
        s.domain in domains && t.domain in domains && Before(s, t) && eventType == TypeOfBoth(s, t);
      var both := t.(domain := s.domain, eventType := TypeOfBoth(s, t));
      BeforeMeansDistinct(s, t);
      LineEndInTypeCollides(s, t, 0, 0);
      assert AllIn(domains, [s, t]) && [s, t] != [both];
    }
  }

  lemma CollidingType(domains: set<string>, t: DomainStat, others: seq<DomainStat>)
    requires (forall d | d in domains :: BAR !in d) && t.domain in domains
    requires AllIn(domains, others) && UniqueKeys(others)
    requires Lines(Sorted(others)) == Lines([t]) && Sorted(others) != [t] && Sorted(others) != []
    ensures LooksLikeTwo(domains, t.eventType)
  {
    var o := Sorted(others);
    SortedMeaning(others);
    SortedAscending(others);
    forall x | x in o
      ensures x.domain in domains
    {
      assert x in multiset(o);
    }
    assert o[0] in o;
    var z := SecondLine(o, t);
    assert o[1] in o && Before(o[0], o[1]);
    var b := o[1].(eventType := o[1].eventType + z);
    if o[0].domain == o[1].domain { LessLonger(o[0].eventType, o[1].eventType, z); }
    assert Before(o[0], b) && t.eventType == TypeOfBoth(o[0], b);
  }

  // ---- Statistics that only grow ----

  function Newlines(text: string): nat {
    if text == "" then 0
    else Newlines(text[..|text| - 1]) + if text[|text| - 1] == NEWLINE then 1 else 0
  }

  lemma {:induction false} NewlinesConcat(a: string, b: string)
    ensures Newlines(a + b) == Newlines(a) + Newlines(b)
  {
    if b == "" {
      assert a + b == a;
    } else {
      assert (a + b)[..|a + b| - 1] == a + b[..|b| - 1];
      NewlinesConcat(a, b[..|b| - 1]);
    }
  }

  lemma {:induction false} NoNewlines(text: string)
    requires NEWLINE !in text
    ensures Newlines(text) == 0
  {
    if text != "" { NoNewlines(text[..|text| - 1]); }
  }

  /** The newlines of a statistic's line: those of its key and the one at the end, whatever its figures. */
  function Height(s: DomainStat): nat {
    Newlines(s.domain) + Newlines(s.eventType) + 1
  }

  function HeightOfAll(stats: seq<DomainStat>): nat
    decreases stats
  {
    if stats == [] then 0 else Height(stats[0]) + HeightOfAll(stats[1..])
  }

  lemma LineHeight(s: DomainStat)
    ensures Newlines(LineBody(s) + [NEWLINE]) == Height(s)
  {
    NewlinesConcat(LineBody(s), [NEWLINE]);
    NewlinesConcat(s.domain + [BAR] + s.eventType, Figures(s));
    NewlinesConcat(s.domain + [BAR], s.eventType);
    NewlinesConcat(s.domain, [BAR]);
    FiguresOnOneLine(s);
    NoNewlines(Figures(s));
    NoNewlines([BAR]);
    assert [NEWLINE][..0] == [];
  }

  lemma {:induction false} LinesHeight(stats: seq<DomainStat>)
    ensures Newlines(Lines(stats)) == HeightOfAll(stats)
    decreases stats
  {
    if stats != [] {
      NewlinesConcat(LineBody(stats[0]) + [NEWLINE], Lines(stats[1..]));
      LineHeight(stats[0]);
      LinesHeight(stats[1..]);
    }
  }

  predicate Alike(s: DomainStat, t: DomainStat) {
    s.domain == t.domain && s.eventType == t.eventType
  }

  ghost predicate HasAlike(stats: seq<DomainStat>, s: DomainStat) {
    exists t :: t in stats && Alike(s, t)
  }

  /** Every key of the one occurs in the other. */
  ghost predicate KeysWithin(stats: seq<DomainStat>, others: seq<DomainStat>) {
    forall s | s in stats :: HasAlike(others, s)
  }

  ghost predicate Ascending(stats: seq<DomainStat>) {
    forall i, j | 0 <= i < j < |stats| :: Before(stats[i], stats[j])
  }

  lemma SortedAscending(stats: seq<DomainStat>)
    requires UniqueKeys(stats)
    ensures Ascending(Sorted(stats))
  {
    SortedMeaning(stats);
    UniqueKeysOfPermutation(stats, Sorted(stats));
    var o := Sorted(stats);
    forall i, j | 0 <= i < j < |o|
      ensures Before(o[i], o[j])
    {
      BeforeStrict(o[i], o[j], o[i]);
    }
  }

  /** What comes behind the head of an ascending sequence does not have the head's key. */
  lemma TailWithin(s: seq<DomainStat>, t: seq<DomainStat>)
    requires s != [] && t != [] && Ascending(s) && Ascending(t) && KeysWithin(s, t)
    ensures Alike(s[0], t[0]) ==> KeysWithin(s[1..], t[1..])
    ensures !Alike(s[0], t[0]) ==> KeysWithin(s, t[1..])
  {
    forall x | x in s && !Alike(x, t[0])
      ensures HasAlike(t[1..], x)
    {
      var y :| y in t && Alike(x, y);
      assert y in t[1..];
    }
    if Alike(s[0], t[0]) {
      forall x | x in s[1..]
        ensures x in s && !Alike(x, t[0])
      {
        BehindHead(s, x);
      }
    } else {
      HeadComesFirst(s, t);
    }
  }

  lemma BehindHead(s: seq<DomainStat>, x: DomainStat)
    requires s != [] && Ascending(s) && x in s[1..]
    ensures x in s && Before(s[0], x) && !Alike(s[0], x)
  {
    var k :| 0 <= k < |s[1..]| && s[1..][k] == x;
    assert s[k + 1] == x;
    BeforeStrict(s[0], x, s[0]);
    if Alike(s[0], x) { BeforeStrict(x, x, x); }
  }

  lemma HeadComesFirst(s: seq<DomainStat>, t: seq<DomainStat>)
    requires s != [] && t != [] && Ascending(s) && Ascending(t) && KeysWithin(s, t) && !Alike(s[0], t[0])
    ensures forall x | x in s :: !Alike(x, t[0])
  {
    assert HasAlike(t, s[0]);
    var y :| y in t && Alike(s[0], y);
    assert y in t[1..];
    BehindHead(t, y);
    forall x | x in s
      ensures !Alike(x, t[0])
    {
      if x in s[1..] { BehindHead(s, x); }
      BeforeStrict(t[0], s[0], x);
      BeforeStrict(t[0], x, t[0]);
    }
  }

  lemma NoKeysInNone(s: seq<DomainStat>)
    ensures KeysWithin(s, []) <==> s == []
  {
    if s != [] { assert s[0] in s && !HasAlike([], s[0]); }
  }

  /** Fewer keys take fewer lines; with as many lines the keys are the same, in the same places. */
  lemma {:induction false} FewerKeysFewerLines(s: seq<DomainStat>, t: seq<DomainStat>)
    requires Ascending(s) && Ascending(t) && KeysWithin(s, t)
    ensures HeightOfAll(s) <= HeightOfAll(t)
    ensures HeightOfAll(s) == HeightOfAll(t) ==> |s| == |t| && forall k | 0 <= k < |s| :: Alike(s[k], t[k])
    decreases |t|
  {
    if t == [] {
      NoKeysInNone(s);
    } else if s != [] {
      TailWithin(s, t);
      if Alike(s[0], t[0]) {
        FewerKeysFewerLines(s[1..], t[1..]);
        assert forall k | 0 < k < |s| :: s[k] == s[1..][k - 1];
        assert forall k | 0 < k < |t| :: t[k] == t[1..][k - 1];
      } else {
        FewerKeysFewerLines(s, t[1..]);
      }
    }
  }

  lemma AlikeFirst(s: seq<DomainStat>, t: seq<DomainStat>)
    requires s != [] && t != [] && Alike(s[0], t[0]) && Lines(s) == Lines(t)
    ensures s[0] == t[0] && Lines(s[1..]) == Lines(t[1..])
  {
    FirstLineOf(s);
    FirstLineOf(t);
    var front := s[0].domain + [BAR];
    CancelFront(front, s[0].eventType + Ending(s[0], Lines(s[1..])), t[0].eventType + Ending(t[0], Lines(t[1..])));
    CancelFront(s[0].eventType, Ending(s[0], Lines(s[1..])), Ending(t[0], Lines(t[1..])));
    SameEnding(s[0], Lines(s[1..]), t[0], Lines(t[1..]));
  }

  lemma {:induction false} AlikeLines(s: seq<DomainStat>, t: seq<DomainStat>)
    requires |s| == |t| && (forall k | 0 <= k < |s| :: Alike(s[k], t[k])) && Lines(s) == Lines(t)
    ensures s == t
    decreases s
  {
    if s != [] {
      AlikeFirst(s, t);
      AlikeLines(s[1..], t[1..]);
      SameByFirst(s, t);
    }
  }

  /**
    Whatever is in the fields: statistics whose keys only became more have the same text only if
    they are the same.
   */
  lemma GrownTextTells(s: seq<DomainStat>, t: seq<DomainStat>)
    requires UniqueKeys(s) && UniqueKeys(t) && KeysWithin(s, t) && Lines(Sorted(s)) == Lines(Sorted(t))
    ensures multiset(s) == multiset(t)
  {
    SortedMeaning(s);
    SortedMeaning(t);
    SortedAscending(s);
    SortedAscending(t);
    SortedWithin(s, t);
    LinesHeight(Sorted(s));
    LinesHeight(Sorted(t));
    FewerKeysFewerLines(Sorted(s), Sorted(t));
    AlikeLines(Sorted(s), Sorted(t));
  }

  lemma SortedWithin(s: seq<DomainStat>, t: seq<DomainStat>)
    requires KeysWithin(s, t)
    ensures KeysWithin(Sorted(s), Sorted(t))
  {
    SortedMeaning(s);
    SortedMeaning(t);
    forall x | x in Sorted(s)
      ensures HasAlike(Sorted(t), x)
    {
      assert x in multiset(Sorted(s)) && x in s;
      var y :| y in t && Alike(x, y);
      assert y in multiset(t) && y in Sorted(t);
    }
  }
}
