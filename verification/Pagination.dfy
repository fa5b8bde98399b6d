/**
  Keyset pagination over the events table: what the two list queries return, what ListEvents makes
  of them, and what a client collects that follows the cursors, also while rows are being inserted.
 */
module Pagination {
  import opened EventStore
  import opened Options
  import opened Text

  // ---- ORDER BY ingested_at DESC, event_id DESC ----

  predicate Above(a: Row, b: Row) {
    a.ingestedAt > b.ingestedAt || (a.ingestedAt == b.ingestedAt && Less(b.id, a.id))
  }

  ghost predicate StrictlyDescending(s: seq<Row>) {
    forall i, j | 0 <= i < j < |s| :: Above(s[i], s[j])
  }

  lemma AboveOrder(a: Row, b: Row, c: Row)
    ensures a.id != b.id ==> Above(a, b) || Above(b, a)
    ensures Above(a, b) ==> !Above(b, a) && a != b
    ensures Above(a, b) && Above(b, c) ==> Above(a, c)
  {
    LessTotal(a.id, b.id);
    if Less(b.id, a.id) { LessAsymmetric(b.id, a.id); }
    if Less(c.id, b.id) && Less(b.id, a.id) { LessTransitive(c.id, b.id, a.id); }
  }

  function InsertDesc(s: seq<Row>, r: Row): seq<Row> {
    if s == [] || Above(r, s[0]) then [r] + s else [s[0]] + InsertDesc(s[1..], r)
  }

  /** The table in the order of the list queries. */
  function Desc(t: Table): seq<Row> {
    if t == [] then [] else InsertDesc(Desc(t[..|t| - 1]), t[|t| - 1])
  }

  lemma {:induction false} InsertDescElements(s: seq<Row>, r: Row)
    ensures multiset(InsertDesc(s, r)) == multiset(s) + multiset{r}
    ensures |InsertDesc(s, r)| == |s| + 1
    ensures forall x :: x in InsertDesc(s, r) <==> x in s || x == r
  {
    if s != [] && !Above(r, s[0]) {
      assert s == [s[0]] + s[1..];
      InsertDescElements(s[1..], r);
    }
  }

  lemma {:induction false} InsertDescMeaning(s: seq<Row>, r: Row)
    requires StrictlyDescending(s) && forall x | x in s :: x.id != r.id
    ensures StrictlyDescending(InsertDesc(s, r))
  {
    if s != [] {
      AboveOrder(r, s[0], r);
      if Above(r, s[0]) {
        forall x | x in s { AboveOrder(r, s[0], x); }
      } else {
        assert s == [s[0]] + s[1..];
        InsertDescMeaning(s[1..], r);
        InsertDescElements(s[1..], r);
        var rest := InsertDesc(s[1..], r);
        assert forall x | x in rest :: Above(s[0], x);
      }
    }
  }

  lemma {:induction false} DescMeaning(t: Table)
    requires UniqueIds(t)
    ensures StrictlyDescending(Desc(t)) && |Desc(t)| == |t|
    ensures multiset(Desc(t)) == multiset(t)
    ensures forall x :: x in Desc(t) <==> x in t
  {
    if t != [] {
      var before, last := t[..|t| - 1], t[|t| - 1];
      assert t == before + [last];
      DescMeaning(before);
      InsertDescMeaning(Desc(before), last);
      InsertDescElements(Desc(before), last);
    }
  }

  /** A strictly descending sequence is determined by its elements. */
  lemma {:induction false} DescendingUnique(a: seq<Row>, b: seq<Row>)
    requires StrictlyDescending(a) && StrictlyDescending(b)
    requires forall x :: x in a <==> x in b
    ensures a == b
    decreases |a|
  {
    if b != [] {
      assert b[0] in a;
    }
    if a != [] {
      assert a[0] in b && b[0] in a;
      AboveOrder(a[0], b[0], a[0]);
      assert a[0] == b[0];
      forall x
        ensures x in a[1..] <==> x in b[1..]
      {
        AboveOrder(a[0], x, x);
        assert x in a <==> x == a[0] || x in a[1..];
        assert x in b <==> x == b[0] || x in b[1..];
      }
      DescendingUnique(a[1..], b[1..]);
      assert a == [a[0]] + a[1..] && b == [b[0]] + b[1..];
    }
  }

  // ---- WHERE (ingested_at, event_id) < (?, ?) ----

  datatype Bound = Bound(ingestedAt: int, id: string)

  predicate Below(r: Row, b: Bound) {
    r.ingestedAt < b.ingestedAt || (r.ingestedAt == b.ingestedAt && Less(r.id, b.id))
  }

  function Filter(t: Table, b: Bound): Table {
    if t == [] then []
    else
      var rest := Filter(t[..|t| - 1], b);
      if Below(t[|t| - 1], b) then rest + [t[|t| - 1]] else rest
  }

  lemma {:induction false} FilterMeaning(t: Table, b: Bound)
    ensures forall x :: x in Filter(t, b) <==> x in t && Below(x, b)
    ensures UniqueIds(t) ==> UniqueIds(Filter(t, b))
  {
    if t != [] {
      FilterMeaning(t[..|t| - 1], b);
      assert t == t[..|t| - 1] + [t[|t| - 1]];
      if UniqueIds(t) {
        forall x | x in Filter(t[..|t| - 1], b)
          ensures x.id != t[|t| - 1].id
        {
          assert x in t[..|t| - 1];
        }
      }
    }
  }

  /** The position of the first row below the bound, or the length. */
  function FirstBelow(s: seq<Row>, b: Bound): (j: nat)
    ensures j <= |s| && (forall i | 0 <= i < j :: !Below(s[i], b)) && (j < |s| ==> Below(s[j], b))
  {
    FirstBelowFrom(s, b, 0)
  }

  function FirstBelowFrom(s: seq<Row>, b: Bound, i: nat): (j: nat)
    requires i <= |s|
    ensures i <= j <= |s| && (forall k | i <= k < j :: !Below(s[k], b)) && (j < |s| ==> Below(s[j], b))
    decreases |s| - i
  {
    if i == |s| || Below(s[i], b) then i else FirstBelowFrom(s, b, i + 1)
  }

  lemma BelowGoesOn(a: Row, c: Row, b: Bound)
    requires Above(a, c) && Below(a, b)
    ensures Below(c, b)
  {
    if Less(c.id, a.id) && Less(a.id, b.id) { LessTransitive(c.id, a.id, b.id); }
  }

  /** In a descending sequence, the rows below a bound are those from the first one on. */
  lemma TailIsBelow(s: seq<Row>, b: Bound, x: Row)
    requires StrictlyDescending(s)
    ensures x in s[FirstBelow(s, b)..] <==> x in s && Below(x, b)
  {
    var j := FirstBelow(s, b);
    if x in s {
      var i :| 0 <= i < |s| && s[i] == x;
      if j < i { BelowGoesOn(s[j], s[i], b); }
      if j <= i { assert s[j..][i - j] == x; }
    }
    if x in s[j..] {
      var i :| 0 <= i < |s[j..]| && s[j..][i] == x;
      assert s[j + i] == x;
      if 0 < i { BelowGoesOn(s[j], s[j + i], b); }
    }
  }

  /** What comes after a bound is a tail of the whole listing. */
  lemma AfterBoundIsTail(t: Table, b: Bound)
    requires UniqueIds(t)
    ensures Desc(Filter(t, b)) == Desc(t)[FirstBelow(Desc(t), b)..]
  {
    DescMeaning(t);
    FilterMeaning(t, b);
    DescMeaning(Filter(t, b));
    var all, tail := Desc(t), Desc(t)[FirstBelow(Desc(t), b)..];
    assert StrictlyDescending(tail);
    forall x { TailIsBelow(all, b, x); }
    DescendingUnique(Desc(Filter(t, b)), tail);
  }

  // ---- ListEvents ----

  /** Text that decodes to a cursor, text that does not, or no text. */
  datatype Cursor = NoCursor | Malformed | Encoded(ingestedAt: int, id: string)

  datatype Page = Page(items: seq<Row>, next: Cursor, hasMore: bool)

  function Clamp(v: int, min: int, max: int, fallback: int): int {
    if v <= 0 then fallback else if v < min then min else if v > max then max else v
  }

  const MAX_PAGE_SIZE := 100
  const DEFAULT_PAGE_SIZE := 20

  function PageSize(requested: int): (n: nat)
    ensures 1 <= requested <= 100 ==> n == requested
    ensures requested <= 0 ==> n == 20
    ensures requested > 100 ==> n == 100
  {
    Clamp(requested, 1, MAX_PAGE_SIZE, DEFAULT_PAGE_SIZE)
  }

  /**
    What the query's second parameter is bound to: the id of the cursor's row, or, as ListEvents
    leaves that parameter unset, the zero time in the text form the driver writes.
   */
  datatype SecondBound = CursorId | ZeroTime

  const ZERO_TIME_TEXT: string := "0001-01-01 00:00:00 +0000 UTC"

  predicate HexDigit(c: char) {
    '0' <= c <= '9' || 'a' <= c <= 'f'
  }

  predicate InYearOne(text: string) {
    |text| >= 5 && text[0] == text[1] == text[2] == '0' && text[3] == '1' && text[4] == '-'
  }

  lemma YearOne()
    ensures InYearOne(ZERO_TIME_TEXT)
  {
  }

  lemma BelowYearOne(id: string, year: string)
    requires |id| >= 5 && InYearOne(year) && forall k | 0 <= k < 5 :: HexDigit(id[k])
    ensures Less(id, year) <==> id[0] == id[1] == id[2] == id[3] == '0'
  {
    if id[0] != '0' {
      DecidedAt(id, year, 0);
    } else if id[1] != '0' {
      DecidedAt(id, year, 1);
    } else if id[2] != '0' {
      DecidedAt(id, year, 2);
    } else if id[3] != '1' {
      DecidedAt(id, year, 3);
    } else {
      assert HexDigit(id[4]);
      DecidedAt(id, year, 4);
    }
  }

  function BoundOf(c: Cursor, second: SecondBound): Bound
    requires c.Encoded?
  {
    Bound(c.ingestedAt, if second.CursorId? then c.id else ZERO_TIME_TEXT)
  }

  /**
    Of ids that begin with five hexadecimal digits, as the text form of a UUID does, those that begin
    with 0000 are below the zero time.
   */
  lemma LowUuids(id: string, c: Cursor)
    requires |id| >= 5 && forall k | 0 <= k < 5 :: HexDigit(id[k])
    requires c.Encoded?
    ensures Less(id, BoundOf(c, ZeroTime).id) <==> id[0] == id[1] == id[2] == id[3] == '0'
  {
    YearOne();
    BelowYearOne(id, ZERO_TIME_TEXT);
  }

  function Min(a: nat, b: nat): nat {
    if a < b then a else b
  }

  function Take(s: seq<Row>, n: nat): seq<Row> {
    s[..Min(n, |s|)]
  }

  /** The rows a request's query returns, one more than the page at most; none for a malformed cursor. */
  function QueryRows(t: Table, cursor: Cursor, size: nat, second: SecondBound): Option<seq<Row>> {
    match cursor
    case NoCursor => Some(Take(Desc(t), size + 1))
    case Malformed => None
    case Encoded(_, _) => Some(Take(Desc(Filter(t, BoundOf(cursor, second))), size + 1))
  }

  function CursorOf(r: Row): Cursor {
    Encoded(r.ingestedAt, r.id)
  }

  function Trim(rows: seq<Row>, size: nat): Page
    requires size >= 1
  {
    if |rows| > size then Page(rows[..size], CursorOf(rows[size - 1]), true) else Page(rows, NoCursor, false)
  }

  function PageOf(t: Table, cursor: Cursor, size: nat, second: SecondBound): Option<Page>
    requires size >= 1
  {
    match QueryRows(t, cursor, size, second)
    case None => None
    case Some(rows) => Some(Trim(rows, size))
  }

  lemma {:induction false} FilterWithin(t: Table, b: Bound)
    ensures forall r | r in Filter(t, b) :: r in t
  {
    if t != [] { FilterWithin(t[..|t| - 1], b); }
  }

  lemma {:induction false} DescWithin(t: Table)
    ensures forall r | r in Desc(t) :: r in t
  {
    if t != [] {
      DescWithin(t[..|t| - 1]);
      InsertDescElements(Desc(t[..|t| - 1]), t[|t| - 1]);
    }
  }

  /** A page has at most as many rows as asked for, all of the table; there is none for a malformed cursor only. */
  lemma PageWithin(t: Table, cursor: Cursor, size: nat, second: SecondBound)
    requires size >= 1
    ensures PageOf(t, cursor, size, second) == None <==> cursor.Malformed?
    ensures PageOf(t, cursor, size, second).Some? ==>
              var items := PageOf(t, cursor, size, second).value.items;
              |items| <= size && forall r | r in items :: r in t
  {
    DescWithin(t);
    if cursor.Encoded? {
      FilterWithin(t, BoundOf(cursor, second));
      DescWithin(Filter(t, BoundOf(cursor, second)));
    }
  }

  // ---- A client that follows the cursors ----

  /** The page behind `prev`, asked for while the table is t; none if there was no more. */
  function Follow(t: Table, prev: Option<Page>, size: nat, second: SecondBound): Option<Page>
    requires size >= 1
  {
    if prev.Some? && prev.value.hasMore then PageOf(t, prev.value.next, size, second) else None
  }

  /** The k-th page of a walk whose k-th request sees `tables(k)`. */
  function PageAt(tables: nat -> Table, size: nat, second: SecondBound, k: nat): Option<Page>
    requires size >= 1
  {
    if k == 0 then PageOf(tables(0), NoCursor, size, second)
    else Follow(tables(k), PageAt(tables, size, second, k - 1), size, second)
  }

  function Walk(tables: nat -> Table, size: nat, second: SecondBound): nat -> Option<Page>
    requires size >= 1
  {
    (k: nat) => PageAt(tables, size, second, k)
  }

  function ItemsOf(page: Option<Page>): seq<Row> {
    if page.Some? then page.value.items else []
  }

  /** The rows of the first n pages. */
  function Collected(pages: nat -> Option<Page>, n: nat): seq<Row> {
    if n == 0 then [] else Collected(pages, n - 1) + ItemsOf(pages(n - 1))
  }

  lemma {:induction false} CollectedGrows(pages: nat -> Option<Page>, k: nat, n: nat)
    requires k <= n
    ensures Collected(pages, k) <= Collected(pages, n)
    decreases n
  {
    if k < n {
      CollectedGrows(pages, k, n - 1);
    }
  }

  predicate Ended(page: Option<Page>) {
    page.None? || !page.value.hasMore
  }

  predicate EndsFrom(pages: nat -> Option<Page>, k: nat) {
    Ended(pages(k)) ==> pages(k + 1) == None
  }

  /** A walk that has ended collects nothing more. */
  lemma {:induction false} EndedStaysEnded(pages: nat -> Option<Page>, k: nat, n: nat)
    requires k < n && Ended(pages(k)) && forall j: nat :: EndsFrom(pages, j)
    ensures pages(n) == None
    ensures Collected(pages, n) == Collected(pages, k + 1)
    decreases n
  {
    assert EndsFrom(pages, n - 1);
    if k + 1 < n { EndedStaysEnded(pages, k, n - 1); }
  }

  // ---- Walks over a table that does not change ----

  /** The page that starts at position p of the listing. */
  function Slice(s: seq<Row>, p: nat, size: nat): Page
    requires size >= 1 && p <= |s|
  {
    if p + size < |s| then Page(s[p..p + size], CursorOf(s[p + size - 1]), true)
    else Page(s[p..|s|], NoCursor, false)
  }

  lemma SliceIsTrimmed(s: seq<Row>, p: nat, size: nat)
    requires size >= 1 && p <= |s|
    ensures Trim(Take(s[p..], size + 1), size) == Slice(s, p, size)
  {
  }

  /** A request with the cursor of a row gets the rows from the first one below the cursor's bound on. */
  lemma ResumePage(t: Table, c: Cursor, size: nat, second: SecondBound)
    requires UniqueIds(t) && size >= 1 && c.Encoded?
    ensures PageOf(t, c, size, second) == Some(Slice(Desc(t), FirstBelow(Desc(t), BoundOf(c, second)), size))
  {
    AfterBoundIsTail(t, BoundOf(c, second));
    SliceIsTrimmed(Desc(t), FirstBelow(Desc(t), BoundOf(c, second)), size);
  }

  lemma FirstPage(t: Table, size: nat, second: SecondBound)
    requires size >= 1
    ensures PageOf(t, NoCursor, size, second) == Some(Slice(Desc(t), 0, size))
  {
    assert Desc(t)[0..] == Desc(t);
    SliceIsTrimmed(Desc(t), 0, size);
  }

  /** Page k of a walk over the listing s. */
  function ListPage(s: seq<Row>, size: nat, second: SecondBound, k: nat): (page: Option<Page>)
    requires size >= 1
    ensures page.Some? && page.value.hasMore ==> page.value.next.Encoded?
  {
    if k == 0 then
      Some(Slice(s, 0, size))
    else
      var prev := ListPage(s, size, second, k - 1);
      if Ended(prev) then None else Some(Slice(s, FirstBelow(s, BoundOf(prev.value.next, second)), size))
  }

  function ListWalk(s: seq<Row>, size: nat, second: SecondBound): nat -> Option<Page>
    requires size >= 1
  {
    (k: nat) => ListPage(s, size, second, k)
  }

  /** Every request of the walk sees the table t. */
  ghost predicate Unchanging(tables: nat -> Table, t: Table) {
    forall k: nat :: tables(k) == t
  }

  lemma FollowOverListing(t: Table, prev: Option<Page>, size: nat, second: SecondBound)
    requires UniqueIds(t) && size >= 1
    requires !Ended(prev) ==> prev.value.next.Encoded?
    ensures Follow(t, prev, size, second) ==
              if Ended(prev) then None
              else Some(Slice(Desc(t), FirstBelow(Desc(t), BoundOf(prev.value.next, second)), size))
  {
    if !Ended(prev) { ResumePage(t, prev.value.next, size, second); }
  }

  /** Page k of the walk over an unchanging table is page k of the walk over its listing. */
  ghost predicate OnListing(tables: nat -> Table, t: Table, size: nat, second: SecondBound, k: nat)
    requires size >= 1
  {
    PageAt(tables, size, second, k) == ListPage(Desc(t), size, second, k)
  }

  lemma FirstOnListing(tables: nat -> Table, t: Table, size: nat, second: SecondBound)
    requires size >= 1 && Unchanging(tables, t)
    ensures OnListing(tables, t, size, second, 0)
  {
    assert tables(0) == t;
    FirstPage(t, size, second);
  }

  lemma NextOnListing(tables: nat -> Table, t: Table, size: nat, second: SecondBound, k: nat)
    requires UniqueIds(t) && size >= 1 && k > 0 && Unchanging(tables, t) && OnListing(tables, t, size, second, k - 1)
    ensures OnListing(tables, t, size, second, k)
  {
    assert tables(k) == t;
    FollowOverListing(t, ListPage(Desc(t), size, second, k - 1), size, second);
  }

  lemma {:induction false} PageIsListPage(tables: nat -> Table, t: Table, size: nat, second: SecondBound, k: nat)
    requires UniqueIds(t) && size >= 1 && Unchanging(tables, t)
    ensures OnListing(tables, t, size, second, k)
  {
    if k == 0 {
      FirstOnListing(tables, t, size, second);
    } else {
      PageIsListPage(tables, t, size, second, k - 1);
      NextOnListing(tables, t, size, second, k);
    }
  }

  lemma {:induction false} CollectedSame(pages: nat -> Option<Page>, others: nat -> Option<Page>, n: nat)
    requires forall k: nat | k < n :: pages(k) == others(k)
    ensures Collected(pages, n) == Collected(others, n)
  {
    if n > 0 { CollectedSame(pages, others, n - 1); }
  }

  /** A walk over an unchanging table collects what the walk over its listing collects. */
  lemma WalkIsListWalk(tables: nat -> Table, t: Table, size: nat, second: SecondBound, n: nat)
    requires UniqueIds(t) && size >= 1 && Unchanging(tables, t)
    ensures Collected(Walk(tables, size, second), n) == Collected(ListWalk(Desc(t), size, second), n)
  {
    forall k: nat | k < n
      ensures Walk(tables, size, second)(k) == ListWalk(Desc(t), size, second)(k)
    {
      PageIsListPage(tables, t, size, second, k);
    }
    CollectedSame(Walk(tables, size, second), ListWalk(Desc(t), size, second), n);
  }

  lemma LessIrreflexive(a: string)
    ensures !Less(a, a)
  {
    if Less(a, a) { LessAsymmetric(a, a); }
  }

  /** With the cursor's own id as second bound, a row is below the cursor exactly if it comes after the cursor's row. */
  lemma BelowOwnCursor(a: Row, c: Row)
    ensures Below(a, BoundOf(CursorOf(c), CursorId)) <==> Above(c, a)
    ensures a == c || Above(a, c) ==> !Above(c, a)
  {
    AboveOrder(a, c, a);
    LessIrreflexive(c.id);
  }

  lemma ExactResume(s: seq<Row>, p: nat)
    requires StrictlyDescending(s) && 0 < p <= |s|
    ensures FirstBelow(s, BoundOf(CursorOf(s[p - 1]), CursorId)) == p
  {
    var b := BoundOf(CursorOf(s[p - 1]), CursorId);
    BelowOwnCursor(s[p - 1], s[p - 1]);
    if p < |s| { BelowOwnCursor(s[p], s[p - 1]); }
    BreaksAt(s, b, p);
  }

  /** A bound falls in front of position p exactly if it keeps row p and drops row p - 1. */
  lemma BreaksAt(s: seq<Row>, b: Bound, p: nat)
    requires StrictlyDescending(s) && 0 < p <= |s|
    ensures FirstBelow(s, b) == p <==> !Below(s[p - 1], b) && (p < |s| ==> Below(s[p], b))
  {
    var j := FirstBelow(s, b);
    if j < p - 1 { BelowGoesOn(s[j], s[p - 1], b); }
  }

  /** Where page k of an undisturbed walk starts: k * size. */
  function Start(k: nat, size: nat): nat {
    if k == 0 then 0 else Start(k - 1, size) + size
  }

  lemma {:induction false} StartIsProduct(k: nat, size: nat)
    ensures Start(k, size) == k * size
  {
    if k > 0 {
      StartIsProduct(k - 1, size);
      assert k * size == (k - 1) * size + size;
    }
  }

  /** Page k holds the rows from k * size on; there is no such page if the listing ends before. */
  predicate InStep(s: seq<Row>, size: nat, k: nat, page: Option<Page>)
    requires size >= 1
  {
    var p := Start(k, size);
    if p == 0 || p < |s| then page == Some(Slice(s, p, size)) else page == None
  }

  /** The page is followed by another and ends with the row in front of page k. */
  predicate ComesTo(s: seq<Row>, size: nat, k: nat, page: Option<Page>)
    requires 0 < Start(k, size) <= |s|
  {
    !Ended(page) && page.value.next == CursorOf(s[Start(k, size) - 1])
  }

  lemma InStepNext(s: seq<Row>, size: nat, k: nat, page: Option<Page>)
    requires size >= 1 && k > 0 && InStep(s, size, k - 1, page) && Start(k, size) < |s|
    ensures ComesTo(s, size, k, page)
  {
  }

  /** A walk in step stays in step if its bound falls exactly behind the last row it returned. */
  lemma StayInStep(s: seq<Row>, size: nat, second: SecondBound, k: nat)
    requires size >= 1 && k > 0 && InStep(s, size, k - 1, ListPage(s, size, second, k - 1))
    requires
      var p := Start(k, size);
      p < |s| ==> FirstBelow(s, BoundOf(CursorOf(s[p - 1]), second)) == p
    ensures InStep(s, size, k, ListPage(s, size, second, k))
  {
    if Start(k, size) < |s| { InStepNext(s, size, k, ListPage(s, size, second, k - 1)); }
  }

  lemma ExactNext(s: seq<Row>, size: nat, k: nat)
    requires StrictlyDescending(s) && size >= 1 && k > 0 && InStep(s, size, k - 1, ListPage(s, size, CursorId, k - 1))
    ensures InStep(s, size, k, ListPage(s, size, CursorId, k))
  {
    var p := Start(k, size);
    if p < |s| { ExactResume(s, p); }
    StayInStep(s, size, CursorId, k);
  }

  lemma ListPageZero(s: seq<Row>, size: nat, second: SecondBound)
    requires size >= 1
    ensures InStep(s, size, 0, ListPage(s, size, second, 0))
  {
  }

  lemma {:induction false} ExactPage(s: seq<Row>, size: nat, k: nat)
    requires StrictlyDescending(s) && size >= 1
    ensures InStep(s, size, k, ListPage(s, size, CursorId, k))
  {
    if k == 0 {
      ListPageZero(s, size, CursorId);
    } else {
      ExactPage(s, size, k - 1);
      ExactNext(s, size, k);
    }
  }

  lemma Glue(s: seq<Row>, p: nat, q: nat)
    requires p <= q <= |s|
    ensures s[..p] + s[p..q] == s[..q]
  {
  }

  lemma InStepItems(s: seq<Row>, size: nat, k: nat, page: Option<Page>)
    requires size >= 1 && InStep(s, size, k, page)
    ensures ItemsOf(page) == s[Min(Start(k, size), |s|)..Min(Start(k + 1, size), |s|)]
  {
  }

  lemma CollectOneMore(s: seq<Row>, size: nat, pages: nat -> Option<Page>, k: nat)
    requires size >= 1 && InStep(s, size, k, pages(k)) && Collected(pages, k) == Take(s, Start(k, size))
    ensures Collected(pages, k + 1) == Take(s, Start(k + 1, size))
  {
    OneMore(pages, k);
    InStepItems(s, size, k, pages(k));
    Glue(s, Min(Start(k, size), |s|), Min(Start(k + 1, size), |s|));
  }

  ghost predicate AllInStep(s: seq<Row>, size: nat, pages: nat -> Option<Page>, n: nat)
    requires size >= 1
  {
    forall k: nat | k < n :: InStep(s, size, k, pages(k))
  }

  lemma InStepAt(s: seq<Row>, size: nat, pages: nat -> Option<Page>, n: nat, k: nat)
    requires size >= 1 && AllInStep(s, size, pages, n) && k < n
    ensures InStep(s, size, k, pages(k))
  {
  }

  lemma {:induction false} CollectFirst(s: seq<Row>, size: nat, pages: nat -> Option<Page>, n: nat, k: nat)
    requires size >= 1 && AllInStep(s, size, pages, n) && k <= n
    ensures Collected(pages, k) == Take(s, Start(k, size))
    decreases k
  {
    if k > 0 {
      var j := k - 1;
      CollectFirst(s, size, pages, n, j);
      InStepAt(s, size, pages, n, j);
      CollectOneMore(s, size, pages, j);
    }
  }

  lemma CollectInStep(s: seq<Row>, size: nat, pages: nat -> Option<Page>, n: nat)
    requires size >= 1 && AllInStep(s, size, pages, n)
    ensures Collected(pages, n) == Take(s, Start(n, size))
  {
    CollectFirst(s, size, pages, n, n);
  }

  /**
    With the cursor's id as second bound, following the cursors to the end returns every row once,
    in the order of the listing: n requests give its first n * size rows, and page k exists
    exactly if k = 0 or k * size is below the number of rows, so there are max(1, ceil(rows / size)).
   */
  lemma ExactWalk(tables: nat -> Table, t: Table, size: nat, n: nat)
    requires UniqueIds(t) && size >= 1 && Unchanging(tables, t)
    ensures Collected(Walk(tables, size, CursorId), n) == Take(Desc(t), n * size)
    ensures PageAt(tables, size, CursorId, n).Some? <==> n == 0 || n * size < |t|
    ensures n > 0 && Ended(PageAt(tables, size, CursorId, n - 1)) ==>
              Collected(Walk(tables, size, CursorId), n) == Desc(t)
  {
    var s := Desc(t);
    DescMeaning(t);
    forall k: nat { ExactPage(s, size, k); }
    WalkIsListWalk(tables, t, size, CursorId, n);
    CollectInStep(s, size, ListWalk(s, size, CursorId), n);
    PageIsListPage(tables, t, size, CursorId, n);
    StartIsProduct(n, size);
    assert InStep(s, size, n, ListPage(s, size, CursorId, n));
    if n > 0 {
      PageIsListPage(tables, t, size, CursorId, n - 1);
      assert InStep(s, size, n - 1, ListPage(s, size, CursorId, n - 1));
    }
  }

  // ---- The second bound as ListEvents passes it ----

  /**
    At a page break in front of position p, the zero-time bound keeps row p and drops row p - 1:
    row p is older, or its id sorts below the zero-time text, and the id of row p - 1 does not.
   */
  predicate CleanBreak(s: seq<Row>, p: nat)
    requires 0 < p < |s|
  {
    && !Less(s[p - 1].id, ZERO_TIME_TEXT)
    && (s[p].ingestedAt < s[p - 1].ingestedAt || Less(s[p].id, ZERO_TIME_TEXT))
  }

  lemma ZeroTimeResume(s: seq<Row>, p: nat)
    requires StrictlyDescending(s) && 0 < p < |s|
    ensures FirstBelow(s, BoundOf(CursorOf(s[p - 1]), ZeroTime)) == p <==> CleanBreak(s, p)
  {
    assert Above(s[p - 1], s[p]);
    BreaksAt(s, BoundOf(CursorOf(s[p - 1]), ZeroTime), p);
  }

  /** The break in front of page k, if there is one, is clean. */
  predicate CleanPage(s: seq<Row>, size: nat, k: nat)
    requires size >= 1 && k > 0
  {
    Start(k, size) < |s| ==> CleanBreak(s, Start(k, size))
  }

  ghost predicate CleanBefore(s: seq<Row>, size: nat, k: nat)
    requires size >= 1
  {
    forall i: nat | 0 < i < k :: CleanPage(s, size, i)
  }

  lemma ZeroTimeNext(s: seq<Row>, size: nat, k: nat)
    requires StrictlyDescending(s) && size >= 1 && k > 0 && CleanPage(s, size, k)
    requires InStep(s, size, k - 1, ListPage(s, size, ZeroTime, k - 1))
    ensures InStep(s, size, k, ListPage(s, size, ZeroTime, k))
  {
    if Start(k, size) < |s| { ZeroTimeResume(s, Start(k, size)); }
    StayInStep(s, size, ZeroTime, k);
  }

  lemma {:induction false} ZeroTimePage(s: seq<Row>, size: nat, k: nat)
    requires StrictlyDescending(s) && size >= 1 && CleanBefore(s, size, k + 1)
    ensures InStep(s, size, k, ListPage(s, size, ZeroTime, k))
  {
    if k > 0 {
      ZeroTimePage(s, size, k - 1);
      assert CleanPage(s, size, k);
      ZeroTimeNext(s, size, k);
    }
  }

  lemma DistinctRows(s: seq<Row>, i: nat, j: nat)
    requires StrictlyDescending(s) && i < |s| && j < |s| && s[i] == s[j]
    ensures i == j
  {
    AboveOrder(s[i], s[j], s[i]);
  }

  lemma CleanSoFar(s: seq<Row>, size: nat, k: nat)
    requires StrictlyDescending(s) && size >= 1 && CleanBefore(s, size, k)
    requires Start(k, size) <= |s|
    ensures Collected(ListWalk(s, size, ZeroTime), k) == s[..Start(k, size)]
  {
    forall i: nat | i < k
      ensures InStep(s, size, i, ListWalk(s, size, ZeroTime)(i))
    {
      ZeroTimePage(s, size, i);
    }
    CollectInStep(s, size, ListWalk(s, size, ZeroTime), k);
  }

  lemma PageBehind(s: seq<Row>, size: nat, k: nat, c: Cursor)
    requires size >= 1 && k > 0 && c.Encoded?
    requires var prev := ListPage(s, size, ZeroTime, k - 1); !Ended(prev) && prev.value.next == c
    ensures ListPage(s, size, ZeroTime, k) == Some(Slice(s, FirstBelow(s, BoundOf(c, ZeroTime)), size))
  {
  }

  lemma InStepSoFar(s: seq<Row>, size: nat, k: nat)
    requires StrictlyDescending(s) && size >= 1
    requires 0 < k && Start(k, size) < |s| && CleanBefore(s, size, k)
    ensures ComesTo(s, size, k, ListPage(s, size, ZeroTime, k - 1))
  {
    ZeroTimePage(s, size, k - 1);
    InStepNext(s, size, k, ListPage(s, size, ZeroTime, k - 1));
  }

  /** At the first break that is not clean the walk is in step, and its next page starts elsewhere. */
  lemma UncleanPage(s: seq<Row>, size: nat, k: nat) returns (j: nat)
    requires StrictlyDescending(s) && size >= 1
    requires 0 < k && Start(k, size) < |s| && !CleanBreak(s, Start(k, size))
    requires CleanBefore(s, size, k)
    ensures j <= |s| && j != Start(k, size)
    ensures ListPage(s, size, ZeroTime, k) == Some(Slice(s, j, size))
  {
    var p := Start(k, size);
    j := FirstBelow(s, BoundOf(CursorOf(s[p - 1]), ZeroTime));
    ZeroTimeResume(s, p);
    InStepSoFar(s, size, k);
    PageBehind(s, size, k, CursorOf(s[p - 1]));
  }

  lemma DiffersAt(s: seq<Row>, p: nat, items: seq<Row>, whole: seq<Row>)
    requires p < |s| && items != [] && items[0] != s[p]
    requires s[..p] + items <= whole
    ensures whole != s
  {
    assert (s[..p] + items)[p] == items[0];
  }

  lemma OneMore(pages: nat -> Option<Page>, k: nat)
    ensures Collected(pages, k + 1) == Collected(pages, k) + ItemsOf(pages(k))
  {
  }

  /** A walk that returns another row than the listing's next one does not return the listing. */
  lemma OtherRow(s: seq<Row>, pages: nat -> Option<Page>, p: nat, k: nat, n: nat)
    requires k < n && p < |s| && Collected(pages, k) == s[..p]
    requires ItemsOf(pages(k)) != [] && ItemsOf(pages(k))[0] != s[p]
    ensures Collected(pages, n) != s
  {
    OneMore(pages, k);
    CollectedGrows(pages, k + 1, n);
    DiffersAt(s, p, ItemsOf(pages(k)), Collected(pages, n));
  }

  /** Nor does one that ends early. */
  lemma EndsEarly(s: seq<Row>, pages: nat -> Option<Page>, p: nat, k: nat, n: nat)
    requires k < n && p < |s| && Collected(pages, k) == s[..p] && forall i: nat :: EndsFrom(pages, i)
    requires ItemsOf(pages(k)) == [] && Ended(pages(k))
    ensures Collected(pages, n) != s
  {
    OneMore(pages, k);
    EndedStaysEnded(pages, k, n);
    assert |Collected(pages, n)| == p;
  }

  lemma SliceHead(s: seq<Row>, p: nat, j: nat, size: nat)
    requires StrictlyDescending(s) && size >= 1 && p < |s| && j <= |s| && j != p
    ensures
      var page := Slice(s, j, size);
      if page.items == [] then !page.hasMore else page.items[0] != s[p]
  {
    if j < |s| && s[p] == s[j] { DistinctRows(s, p, j); }
  }

  lemma ListPageEnds(s: seq<Row>, size: nat, k: nat)
    requires size >= 1
    ensures EndsFrom(ListWalk(s, size, ZeroTime), k)
  {
  }

  /** The first break that is not clean makes the walk repeat or skip rows, or end early. */
  lemma UncleanBreakShows(s: seq<Row>, size: nat, k: nat, n: nat)
    requires StrictlyDescending(s) && size >= 1
    requires 0 < k < n && !CleanPage(s, size, k) && CleanBefore(s, size, k)
    ensures Collected(ListWalk(s, size, ZeroTime), n) != s
  {
    var p := Start(k, size);
    var j := UncleanPage(s, size, k);
    CleanSoFar(s, size, k);
    SliceHead(s, p, j, size);
    var pages := ListWalk(s, size, ZeroTime);
    assert pages(k) == Some(Slice(s, j, size));
    if Slice(s, j, size).items == [] {
      forall i: nat
        ensures EndsFrom(pages, i)
      {
        ListPageEnds(s, size, i);
      }
      EndsEarly(s, pages, p, k, n);
    } else {
      OtherRow(s, pages, p, k, n);
    }
  }

  /**
    With the bound as ListEvents passes it, a client that follows the cursors gets every row once,
    in order, exactly if every page break of the listing is clean.
   */
  lemma ZeroTimeWalk(tables: nat -> Table, t: Table, size: nat, n: nat)
    requires UniqueIds(t) && size >= 1 && Unchanging(tables, t)
    requires n > 0 && n * size >= |t|
    ensures Collected(Walk(tables, size, ZeroTime), n) == Desc(t) <==>
            forall k: nat | k > 0 :: CleanPage(Desc(t), size, k)
  {
    var s := Desc(t);
    DescMeaning(t);
    StartIsProduct(n, size);
    WalkIsListWalk(tables, t, size, ZeroTime, n);
    if forall k: nat | k > 0 :: CleanPage(s, size, k) {
      forall k: nat { ZeroTimePage(s, size, k); }
      CollectInStep(s, size, ListWalk(s, size, ZeroTime), n);
    } else {
      var k: nat :| k > 0 && !CleanPage(s, size, k);
      var first := FirstUnclean(s, size, k);
      if first >= n { StartGrows(n, first, size); }
      UncleanBreakShows(s, size, first, n);
    }
  }

  lemma {:induction false} StartGrows(j: nat, k: nat, size: nat)
    requires j <= k
    ensures Start(j, size) <= Start(k, size)
    decreases k
  {
    if j < k { StartGrows(j, k - 1, size); }
  }

  lemma {:induction false} FirstUnclean(s: seq<Row>, size: nat, k: nat) returns (first: nat)
    requires size >= 1 && k > 0 && !CleanPage(s, size, k)
    ensures first > 0 && !CleanPage(s, size, first) && CleanBefore(s, size, first)
  {
    if j: nat :| 0 < j < k && !CleanPage(s, size, j) {
      first := FirstUnclean(s, size, j);
    } else {
      first := k;
    }
  }

  ghost predicate DistinctTimes(t: Table) {
    forall a, b | a in t && b in t && a.ingestedAt == b.ingestedAt :: a == b
  }

  ghost predicate IdsAboveZeroTime(t: Table) {
    forall r | r in t :: !Less(r.id, ZERO_TIME_TEXT)
  }

  lemma DistinctBreakIsClean(t: Table, s: seq<Row>, p: nat)
    requires 0 < p < |s| && s[p - 1] in t && s[p] in t && Above(s[p - 1], s[p])
    requires DistinctTimes(t) && IdsAboveZeroTime(t)
    ensures CleanBreak(s, p)
  {
    AboveOrder(s[p - 1], s[p], s[p]);
  }

  /** Distinct ingestion times and ids above the zero-time text make every break clean, whatever the page size. */
  lemma DistinctTimesAreClean(t: Table, size: nat, k: nat)
    requires UniqueIds(t) && size >= 1 && k > 0 && DistinctTimes(t) && IdsAboveZeroTime(t)
    ensures CleanPage(Desc(t), size, k)
  {
    var s, p := Desc(t), Start(k, size);
    DescMeaning(t);
    if p < |s| {
      assert s[p - 1] in s && s[p] in s;
      DistinctBreakIsClean(t, s, p);
    }
  }

  /** The premise is needed: of two rows ingested at the same time, one to a page, the second is never returned. */
  lemma TieLosesRow(tables: nat -> Table, a: Row, b: Row)
    requires a.ingestedAt == b.ingestedAt && Less(b.id, a.id)
    requires !Less(a.id, ZERO_TIME_TEXT) && !Less(b.id, ZERO_TIME_TEXT)
    requires Unchanging(tables, [a, b])
    ensures PageAt(tables, 1, ZeroTime, 0) == Some(Page([a], CursorOf(a), true))
    ensures PageAt(tables, 1, ZeroTime, 1) == Some(Page([], NoCursor, false))
    ensures !CleanPage(Desc([a, b]), 1, 1)
  {
    var s, b0 := [a, b], BoundOf(CursorOf(a), ZeroTime);
    LessAsymmetric(b.id, a.id);
    ListingOfTwo(a, b);
    assert s[0..1] == [a] && s[2..2] == [];
    assert !Below(s[0], b0) && !Below(s[1], b0);
    assert FirstBelow(s, b0) == 2;
    PageIsListPage(tables, s, 1, ZeroTime, 0);
    PageIsListPage(tables, s, 1, ZeroTime, 1);
    assert Start(1, 1) == 1;
  }

  lemma ListingOfTwo(a: Row, b: Row)
    requires Above(a, b) && a.id != b.id
    ensures UniqueIds([a, b]) && Desc([a, b]) == [a, b]
  {
    AboveOrder(a, b, a);
    LessIrreflexive(a.id);
    assert [a, b][..1] == [a] && [a][..0] == [] && [a][1..] == [];
    assert Desc([a]) == [a];
    assert InsertDesc([a], b) == [a] + InsertDesc([], b);
  }

  /**
    Nor can the ids be dropped from it: the cursor of a row whose id sorts below the zero-time text
    returns that row again, for ever.
   */
  lemma LowIdRepeats(tables: nat -> Table, a: Row, b: Row, k: nat)
    requires Above(a, b) && a.id != b.id && Less(a.id, ZERO_TIME_TEXT)
    requires Unchanging(tables, [a, b])
    ensures PageAt(tables, 1, ZeroTime, k) == Some(Page([a], CursorOf(a), true))
  {
    ListingOfTwo(a, b);
    PageIsListPage(tables, [a, b], 1, ZeroTime, k);
    LowIdListPage([a, b], k);
  }

  lemma {:induction false} LowIdListPage(s: seq<Row>, k: nat)
    requires |s| >= 2 && Less(s[0].id, ZERO_TIME_TEXT)
    ensures ListPage(s, 1, ZeroTime, k) == Some(Page([s[0]], CursorOf(s[0]), true))
  {
    assert s[0..1] == [s[0]];
    if k > 0 {
      LowIdListPage(s, k - 1);
      assert Below(s[0], BoundOf(CursorOf(s[0]), ZeroTime));
    }
  }

  // ---- Walks while rows are inserted ----

  /** Request k + 1 sees the table of request k with rows inserted behind it. */
  ghost predicate GrowsAt(tables: nat -> Table, k: nat) {
    UniqueIds(tables(k)) && tables(k) <= tables(k + 1)
  }

  ghost predicate Growing(tables: nat -> Table) {
    forall k: nat :: GrowsAt(tables, k)
  }

  lemma {:induction false} GrowingKeeps(tables: nat -> Table, k: nat)
    requires Growing(tables)
    ensures tables(0) <= tables(k)
  {
    if k > 0 {
      GrowingKeeps(tables, k - 1);
      assert GrowsAt(tables, k - 1);
    }
  }

  /** The rows so far descend; no row of the first table is missing that does not come after the last of them. */
  ghost predicate Covers(t: Table, rows: seq<Row>, page: Option<Page>) {
    && StrictlyDescending(rows)
    && page.Some?
    && (page.value.hasMore ==> rows != [] && page.value.next == CursorOf(rows[|rows| - 1]))
    && (forall r | r in t :: r in rows || (page.value.hasMore && Above(rows[|rows| - 1], r)))
  }

  lemma PageCovers(t: Table, size: nat)
    requires UniqueIds(t) && size >= 1
    ensures Covers(t, ItemsOf(PageOf(t, NoCursor, size, CursorId)), PageOf(t, NoCursor, size, CursorId))
  {
    FirstPage(t, size, CursorId);
    DescMeaning(t);
    var s := Desc(t);
    SliceInTail(s, 0, size);
    assert s[0..] == s;
    forall r | r in t { TailCovered(s, 0, size, r); }
  }

  lemma TailCovered(s: seq<Row>, j: nat, size: nat, r: Row)
    requires StrictlyDescending(s) && size >= 1 && j <= |s| && r in s[j..]
    ensures r in Slice(s, j, size).items || (j + size < |s| && Above(s[j + size - 1], r))
  {
    var i :| 0 <= i < |s[j..]| && s[j..][i] == r;
    var items := Slice(s, j, size).items;
    if i < |items| { assert items[i] == s[j + i]; }
  }

  lemma NextPageCovers(start: Table, t: Table, rows: seq<Row>, prev: Page, size: nat)
    requires UniqueIds(t) && size >= 1 && start <= t
    requires Covers(start, rows, Some(prev)) && prev.hasMore
    ensures
      var page := PageOf(t, prev.next, size, CursorId);
      Covers(start, rows + ItemsOf(page), page)
  {
    var last, b := rows[|rows| - 1], BoundOf(prev.next, CursorId);
    var s, j := Desc(t), FirstBelow(Desc(t), b);
    DescMeaning(t);
    forall r: Row
      ensures r in s[j..] <==> r in t && Above(last, r)
    {
      TailIsBelow(s, b, r);
      BelowOwnCursor(r, last);
    }
    ResumePage(t, prev.next, size, CursorId);
    var page := Slice(s, j, size);
    SliceInTail(s, j, size);
    AppendDescending(rows, page.items);
    forall r | r in start && r !in rows
      ensures r in page.items || (page.hasMore && Above(s[j + size - 1], r))
    {
      assert r in t;
      TailCovered(s, j, size, r);
    }
  }

  lemma SliceInTail(s: seq<Row>, j: nat, size: nat)
    requires StrictlyDescending(s) && size >= 1 && j <= |s|
    ensures
      var page := Slice(s, j, size);
      && StrictlyDescending(page.items)
      && (forall r | r in page.items :: r in s[j..])
      && (page.hasMore ==>
            && page.items != [] && page.items[|page.items| - 1] == s[j + size - 1]
            && page.next == CursorOf(s[j + size - 1]))
  {
    var items := Slice(s, j, size).items;
    assert forall i | 0 <= i < |items| :: items[i] == s[j + i] && s[j + i] == s[j..][i];
  }

  lemma AppendDescending(a: seq<Row>, b: seq<Row>)
    requires StrictlyDescending(a) && StrictlyDescending(b)
    requires a != [] && forall r | r in b :: Above(a[|a| - 1], r)
    ensures StrictlyDescending(a + b)
  {
    forall i, j | 0 <= i < j < |a + b|
      ensures Above((a + b)[i], (a + b)[j])
    {
      if i < |a| <= j {
        assert b[j - |a|] in b;
        AboveOrder(a[i], a[|a| - 1], b[j - |a|]);
      }
    }
  }

  lemma NextWalkCovers(start: Table, tables: nat -> Table, size: nat, k: nat)
    requires k > 0 && size >= 1 && UniqueIds(tables(k)) && start <= tables(k)
    requires PageAt(tables, size, CursorId, k).Some?
    requires Covers(start, Collected(Walk(tables, size, CursorId), k), PageAt(tables, size, CursorId, k - 1))
    ensures Covers(start, Collected(Walk(tables, size, CursorId), k + 1), PageAt(tables, size, CursorId, k))
  {
    var pages := Walk(tables, size, CursorId);
    var rows, prev := Collected(pages, k), PageAt(tables, size, CursorId, k - 1);
    NextPageCovers(start, tables(k), rows, prev.value, size);
    assert Collected(pages, k + 1) == rows + ItemsOf(pages(k));
  }

  lemma FirstWalkCovers(tables: nat -> Table, size: nat)
    requires size >= 1 && UniqueIds(tables(0))
    ensures Covers(tables(0), Collected(Walk(tables, size, CursorId), 1), PageAt(tables, size, CursorId, 0))
  {
    var pages := Walk(tables, size, CursorId);
    PageCovers(tables(0), size);
    assert Collected(pages, 1) == [] + ItemsOf(pages(0));
  }

  lemma {:induction false} WalkCovers(tables: nat -> Table, size: nat, k: nat)
    requires Growing(tables) && size >= 1 && PageAt(tables, size, CursorId, k).Some?
    ensures Covers(tables(0), Collected(Walk(tables, size, CursorId), k + 1), PageAt(tables, size, CursorId, k))
  {
    assert GrowsAt(tables, k);
    if k == 0 {
      FirstWalkCovers(tables, size);
    } else {
      assert PageAt(tables, size, CursorId, k - 1).Some?;
      WalkCovers(tables, size, k - 1);
      GrowingKeeps(tables, k);
      NextWalkCovers(tables(0), tables, size, k);
    }
  }

  /**
    Rows inserted between the requests do not disturb a walk with the cursor's id as second bound:
    what it returns strictly descends, so no row comes twice, and once it has ended it has returned
    every row that was there at its first request.
   */
  lemma WalkStableUnderInserts(tables: nat -> Table, size: nat, k: nat)
    requires Growing(tables) && size >= 1
    requires PageAt(tables, size, CursorId, k).Some?
    ensures
      var rows := Collected(Walk(tables, size, CursorId), k + 1);
      && StrictlyDescending(rows)
      && (Ended(PageAt(tables, size, CursorId, k)) ==> forall r | r in tables(0) :: r in rows)
  {
    WalkCovers(tables, size, k);
  }

  /**
    Where times are distinct and ids sort above the zero-time text, both second bounds select the
    same rows behind a row of the table.
   */
  lemma BoundsAgree(t: Table, r: Row)
    requires r in t && DistinctTimes(t) && IdsAboveZeroTime(t)
    ensures Filter(t, BoundOf(CursorOf(r), ZeroTime)) == Filter(t, BoundOf(CursorOf(r), CursorId))
  {
    LessIrreflexive(r.id);
    FilterAgrees(t, BoundOf(CursorOf(r), ZeroTime), BoundOf(CursorOf(r), CursorId));
  }

  lemma {:induction false} FilterAgrees(t: Table, b: Bound, c: Bound)
    requires forall x | x in t :: Below(x, b) <==> Below(x, c)
    ensures Filter(t, b) == Filter(t, c)
  {
    if t != [] { FilterAgrees(t[..|t| - 1], b, c); }
  }

  lemma FollowAgrees(t: Table, prev: Option<Page>, r: Row, size: nat)
    requires size >= 1 && r in t && DistinctTimes(t) && IdsAboveZeroTime(t)
    requires !Ended(prev) && prev.value.next == CursorOf(r)
    ensures Follow(t, prev, size, ZeroTime) == Follow(t, prev, size, CursorId)
  {
    BoundsAgree(t, r);
  }

  lemma {:induction false} CursorNamesRow(tables: nat -> Table, size: nat, k: nat)
    requires Growing(tables) && size >= 1 && !Ended(PageAt(tables, size, CursorId, k))
    ensures exists r :: r in tables(k) && PageAt(tables, size, CursorId, k).value.next == CursorOf(r)
  {
    assert GrowsAt(tables, k);
    DescMeaning(tables(k));
    if k == 0 {
      FirstPage(tables(0), size, CursorId);
      assert Desc(tables(0))[size - 1] in tables(0);
    } else {
      CursorNamesRow(tables, size, k - 1);
      var c := PageAt(tables, size, CursorId, k - 1).value.next;
      ResumePage(tables(k), c, size, CursorId);
      var j := FirstBelow(Desc(tables(k)), BoundOf(c, CursorId));
      assert Desc(tables(k))[j + size - 1] in tables(k);
    }
  }

  ghost predicate PlainAt(tables: nat -> Table, k: nat) {
    DistinctTimes(tables(k)) && IdsAboveZeroTime(tables(k))
  }

  lemma ZeroTimeStep(tables: nat -> Table, size: nat, k: nat)
    requires k > 0 && size >= 1 && DistinctTimes(tables(k)) && IdsAboveZeroTime(tables(k))
    requires PageAt(tables, size, ZeroTime, k - 1) == PageAt(tables, size, CursorId, k - 1)
    requires
      var prev := PageAt(tables, size, CursorId, k - 1);
      Ended(prev) || exists r :: r in tables(k) && prev.value.next == CursorOf(r)
    ensures PageAt(tables, size, ZeroTime, k) == PageAt(tables, size, CursorId, k)
  {
    var prev := PageAt(tables, size, CursorId, k - 1);
    if !Ended(prev) {
      var r :| r in tables(k) && prev.value.next == CursorOf(r);
      FollowAgrees(tables(k), prev, r, size);
    }
  }

  /**
    Under those premises on every snapshot the walk with the bound as passed is, page by page, the
    walk with the cursor's id.
   */
  lemma {:induction false} ZeroTimeWalkIsExact(tables: nat -> Table, size: nat, k: nat)
    requires Growing(tables) && size >= 1
    requires forall j: nat :: PlainAt(tables, j)
    ensures PageAt(tables, size, ZeroTime, k) == PageAt(tables, size, CursorId, k)
  {
    if k > 0 {
      ZeroTimeWalkIsExact(tables, size, k - 1);
      if !Ended(PageAt(tables, size, CursorId, k - 1)) {
        CursorNamesRow(tables, size, k - 1);
        assert GrowsAt(tables, k - 1);
      }
      assert PlainAt(tables, k);
      ZeroTimeStep(tables, size, k);
    }
  }

  /** So the walk as ListEvents makes it is stable under inserts as well. */
  lemma ZeroTimeWalkStable(tables: nat -> Table, size: nat, k: nat)
    requires Growing(tables) && size >= 1
    requires forall j: nat :: PlainAt(tables, j)
    requires PageAt(tables, size, ZeroTime, k).Some?
    ensures
      var rows := Collected(Walk(tables, size, ZeroTime), k + 1);
      && StrictlyDescending(rows)
      && (Ended(PageAt(tables, size, ZeroTime, k)) ==> forall r | r in tables(0) :: r in rows)
  {
    forall j: nat { ZeroTimeWalkIsExact(tables, size, j); }
    CollectedSame(Walk(tables, size, ZeroTime), Walk(tables, size, CursorId), k + 1);
    WalkStableUnderInserts(tables, size, k);
  }

  // ---- How long a walk over a growing table can be ----

  lemma {:induction false} DistinctFit(a: seq<Row>, t: Table)
    requires StrictlyDescending(a) && forall r | r in a :: r in t
    ensures |a| <= |t|
  {
    if a != [] {
      var n := |a| - 1;
      assert a[n] in a;
      var i :| 0 <= i < |t| && t[i] == a[n];
      forall r | r in a[..n]
        ensures r in t[..i] + t[i + 1..]
      {
        var k :| 0 <= k < n && a[k] == r;
        if r == a[n] { DistinctRows(a, k, n); }
        assert r in t && r != t[i];
      }
      DistinctFit(a[..n], t[..i] + t[i + 1..]);
    }
  }

  /** The rows so far are those of full pages and of the table, and the table has one more behind them. */
  ghost predicate Full(t: Table, rows: seq<Row>, n: nat) {
    && |rows| == n && n > 0 && (forall r | r in rows :: r in t)
    && exists r :: r in t && Above(rows[n - 1], r)
  }

  /** A page that is followed by another one is full, and the table has a row behind it. */
  lemma FollowedPageIsFull(t: Table, c: Cursor, size: nat)
    requires UniqueIds(t) && size >= 1 && !c.Malformed? && !Ended(PageOf(t, c, size, CursorId))
    ensures Full(t, ItemsOf(PageOf(t, c, size, CursorId)), size) && PageOf(t, c, size, CursorId).value.next.Encoded?
  {
    var s := Desc(t);
    DescMeaning(t);
    var j := if c.NoCursor? then 0 else FirstBelow(s, BoundOf(c, CursorId));
    if c.NoCursor? { FirstPage(t, size, CursorId); } else { ResumePage(t, c, size, CursorId); }
    SliceIsFull(s, j, size);
    assert forall r | r in s :: r in t;
  }

  lemma SliceIsFull(s: seq<Row>, j: nat, size: nat)
    requires StrictlyDescending(s) && size >= 1 && j <= |s| && Slice(s, j, size).hasMore
    ensures Full(s, Slice(s, j, size).items, size) && Slice(s, j, size).next.Encoded?
  {
    assert s[j + size] in s && Above(s[j + size - 1], s[j + size]);
  }

  lemma FullGrows(t: Table, rows: seq<Row>, n: nat, u: Table, page: seq<Row>, size: nat)
    requires Full(t, rows, n) && t <= u && Full(u, page, size)
    ensures Full(u, rows + page, n + size)
  {
    assert (rows + page)[n + size - 1] == page[size - 1];
  }

  /** Behind the first k pages, all followed by others, stands a row of the table. */
  ghost predicate FullWalk(tables: nat -> Table, size: nat, k: nat)
    requires size >= 1
  {
    && !Ended(PageAt(tables, size, CursorId, k)) && PageAt(tables, size, CursorId, k).value.next.Encoded?
    && Full(tables(k), Collected(Walk(tables, size, CursorId), k + 1), Start(k + 1, size))
  }

  lemma FirstFull(tables: nat -> Table, size: nat)
    requires size >= 1 && UniqueIds(tables(0)) && !Ended(PageAt(tables, size, CursorId, 0))
    ensures FullWalk(tables, size, 0)
  {
    var pages := Walk(tables, size, CursorId);
    FollowedPageIsFull(tables(0), NoCursor, size);
    OneMore(pages, 0);
    assert Collected(pages, 1) == ItemsOf(pages(0)) && Start(1, size) == Start(0, size) + size;
  }

  lemma NextFull(tables: nat -> Table, size: nat, k: nat)
    requires size >= 1 && k > 0 && UniqueIds(tables(k)) && tables(k - 1) <= tables(k)
    requires FullWalk(tables, size, k - 1) && !Ended(PageAt(tables, size, CursorId, k))
    ensures FullWalk(tables, size, k)
  {
    var pages := Walk(tables, size, CursorId);
    assert pages(k) == PageAt(tables, size, CursorId, k);
    FollowedPageIsFull(tables(k), PageAt(tables, size, CursorId, k - 1).value.next, size);
    OneMore(pages, k);
    FullGrows(tables(k - 1), Collected(pages, k), Start(k, size), tables(k), ItemsOf(pages(k)), size);
  }

  lemma {:induction false} FollowedWalkIsFull(tables: nat -> Table, size: nat, k: nat)
    requires Growing(tables) && size >= 1 && !Ended(PageAt(tables, size, CursorId, k))
    ensures FullWalk(tables, size, k)
  {
    assert GrowsAt(tables, k);
    if k == 0 {
      FirstFull(tables, size);
    } else {
      assert GrowsAt(tables, k - 1);
      FollowedWalkIsFull(tables, size, k - 1);
      NextFull(tables, size, k);
    }
  }

  /**
    Whatever rows are inserted meanwhile, a walk with the cursor's id as second bound is no longer
    than the table allows: a page behind k others means more than k * limit rows. It ends as soon as
    the table stops outgrowing it.
   */
  lemma WalkBound(tables: nat -> Table, size: nat, k: nat)
    requires Growing(tables) && size >= 1 && k > 0 && PageAt(tables, size, CursorId, k).Some?
    ensures k * size < |tables(k - 1)| <= |tables(k)|
  {
    var rows := Collected(Walk(tables, size, CursorId), k);
    assert GrowsAt(tables, k - 1);
    assert !Ended(PageAt(tables, size, CursorId, k - 1));
    FollowedWalkIsFull(tables, size, k - 1);
    WalkCovers(tables, size, k - 1);
    StartIsProduct(k, size);
    assert Full(tables(k - 1), rows, Start(k, size)) && StrictlyDescending(rows);
    RowsAndOneMore(tables(k - 1), rows, Start(k, size));
  }

  lemma RowsAndOneMore(t: Table, rows: seq<Row>, n: nat)
    requires Full(t, rows, n) && StrictlyDescending(rows)
    ensures n < |t|
  {
    var r :| r in t && Above(rows[n - 1], r);
    AppendDescending(rows, [r]);
    DistinctFit(rows + [r], t);
  }

  /** And so is the walk as ListEvents makes it, with distinct times and ids above the zero-time text. */
  lemma ZeroTimeWalkBound(tables: nat -> Table, size: nat, k: nat)
    requires Growing(tables) && size >= 1 && k > 0 && (forall j: nat :: PlainAt(tables, j))
    requires PageAt(tables, size, ZeroTime, k).Some?
    ensures k * size < |tables(k - 1)| <= |tables(k)|
  {
    ZeroTimeWalkIsExact(tables, size, k);
    WalkBound(tables, size, k);
  }
}
