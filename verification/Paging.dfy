/** `SearchIndex::search`: the count, the order and the pages of a search. */
module Paging {
  import opened Seqs
  import opened Messages
  import opened Search
  import opened SearchProofs
  import Order

  const DEFAULT_LIMIT: nat := 25
  const MAX_LIMIT: nat := 200

  datatype SearchResult = SearchResult(totalMatches: nat, returned: nat, offset: nat, hits: seq<MessageRow>)

  // ── the order ──────────────────────────────────────────────────────────

  /** NULL sorts before every date. */
  predicate DateBefore(a: Option<int>, b: Option<int>) {
    b.Some? && (a.None? || a.value < b.value)
  }

  /** ORDER BY date_unix (DESC or ASC), canonical_id ASC */
  predicate Precedes(ascending: bool, a: MessageRow, b: MessageRow) {
    || (if ascending then DateBefore(a.dateUnix, b.dateUnix) else DateBefore(b.dateUnix, a.dateUnix))
    || (a.dateUnix == b.dateUnix && Order.Before(a.canonicalId, b.canonicalId))
  }

  /** The order is strict and total: the canonical id breaks every tie. */
  lemma StrictTotalOrder(asc: bool, a: MessageRow, b: MessageRow, c: MessageRow)
    ensures !Precedes(asc, a, a)
    ensures Precedes(asc, a, b) && Precedes(asc, b, c) ==> Precedes(asc, a, c)
    ensures a.canonicalId == b.canonicalId || Precedes(asc, a, b) || Precedes(asc, b, a)
  {
    Order.BeforeIrreflexive(a.canonicalId);
    Order.BeforeTotal(a.canonicalId, b.canonicalId);
    if Order.Before(a.canonicalId, b.canonicalId) && Order.Before(b.canonicalId, c.canonicalId) {
      Order.BeforeTransitive(a.canonicalId, b.canonicalId, c.canonicalId);
    }
  }

  predicate InOrder(asc: bool, hits: seq<MessageRow>) {
    forall i, j :: 0 <= i < j < |hits| ==> Precedes(asc, hits[i], hits[j])
  }

  /** `canonical_id` is the primary key. */
  predicate UniqueIds(rows: seq<MessageRow>) {
    forall i, j :: 0 <= i < j < |rows| ==> rows[i].canonicalId != rows[j].canonicalId
  }

  // ── SELECT ─────────────────────────────────────────────────────────────

  function Keep(rows: seq<MessageRow>, keep: MessageRow -> bool): (r: seq<MessageRow>)
    ensures forall x :: x in r <==> x in rows && keep(x)
  {
    if rows == [] then [] else if keep(rows[0]) then [rows[0]] + Keep(rows[1..], keep) else Keep(rows[1..], keep)
  }

  lemma {:induction false} KeepUnique(rows: seq<MessageRow>, keep: MessageRow -> bool)
    requires UniqueIds(rows)
    ensures UniqueIds(Keep(rows, keep))
  {
    if rows != [] {
      KeepUnique(rows[1..], keep);
      var rest := Keep(rows[1..], keep);
      assert forall x <- rest :: x.canonicalId != rows[0].canonicalId;
      assert forall i :: 0 <= i < |rest| ==> rest[i] in rest;
    }
  }

  lemma {:induction false} KeepSame(rows: seq<MessageRow>, f: MessageRow -> bool, g: MessageRow -> bool)
    requires forall r <- rows :: f(r) == g(r)
    ensures Keep(rows, f) == Keep(rows, g)
  {
    if rows != [] {
      assert rows[0] in rows;
      KeepSame(rows[1..], f, g);
    }
  }

  function Insert(asc: bool, x: MessageRow, ys: seq<MessageRow>): (r: seq<MessageRow>)
    ensures |r| == |ys| + 1 && forall y :: y in r <==> y == x || y in ys
  {
    if ys == [] then [x] else if Precedes(asc, x, ys[0]) then [x] + ys else [ys[0]] + Insert(asc, x, ys[1..])
  }

  function Sorted(asc: bool, rows: seq<MessageRow>): (r: seq<MessageRow>)
    ensures |r| == |rows| && forall y :: y in r <==> y in rows
  {
    if rows == [] then [] else Insert(asc, rows[0], Sorted(asc, rows[1..]))
  }

  lemma {:induction false} InsertInOrder(asc: bool, x: MessageRow, ys: seq<MessageRow>)
    requires InOrder(asc, ys) && forall y <- ys :: y.canonicalId != x.canonicalId
    ensures InOrder(asc, Insert(asc, x, ys))
  {
    if ys != [] {
      StrictTotalOrder(asc, x, ys[0], ys[0]);
      if Precedes(asc, x, ys[0]) {
        forall j | 0 <= j < |ys| ensures Precedes(asc, x, ys[j]) {
          StrictTotalOrder(asc, x, ys[0], ys[j]);
        }
      } else {
        InsertInOrder(asc, x, ys[1..]);
        var rest := Insert(asc, x, ys[1..]);
        forall j | 0 <= j < |rest| ensures Precedes(asc, ys[0], rest[j]) {
          assert rest[j] in rest;
          assert forall y <- ys[1..] :: Precedes(asc, ys[0], y);
        }
      }
    }
  }

  lemma {:induction false} SortedInOrder(asc: bool, rows: seq<MessageRow>)
    requires UniqueIds(rows)
    ensures InOrder(asc, Sorted(asc, rows))
  {
    if rows != [] {
      SortedInOrder(asc, rows[1..]);
      forall y | y in Sorted(asc, rows[1..]) ensures y.canonicalId != rows[0].canonicalId {
        assert y in rows[1..];
      }
      InsertInOrder(asc, rows[0], Sorted(asc, rows[1..]));
    }
  }

  predicate SameRows(a: seq<MessageRow>, b: seq<MessageRow>) {
    (forall r <- a :: r in b) && (forall r <- b :: r in a)
  }

  lemma HasElement(a: seq<MessageRow>)
    ensures a == [] || exists r :: r in a
  {
    if a != [] { assert a[0] in a; }
  }

  lemma FirstIsLeast(asc: bool, a: seq<MessageRow>, r: MessageRow)
    requires InOrder(asc, a) && r in a
    ensures r == a[0] || Precedes(asc, a[0], r)
  {}

  /** A set of rows can be listed in order in one way only. */
  lemma {:induction false} ListingUnique(asc: bool, a: seq<MessageRow>, b: seq<MessageRow>)
    requires InOrder(asc, a) && InOrder(asc, b) && SameRows(a, b)
    ensures a == b
    decreases |a|
  {
    HasElement(a);
    HasElement(b);
    if a != [] {
      assert a[0] in a;
      assert b[0] in b;
      FirstIsLeast(asc, a, b[0]);
      FirstIsLeast(asc, b, a[0]);
      StrictTotalOrder(asc, a[0], b[0], a[0]);
      assert a[0] == b[0];
      TailKeepsRows(asc, a, b);
      ListingUnique(asc, a[1..], b[1..]);
      assert a == [a[0]] + a[1..] && b == [b[0]] + b[1..];
    }
  }

  lemma TailKeepsRows(asc: bool, a: seq<MessageRow>, b: seq<MessageRow>)
    requires InOrder(asc, a) && InOrder(asc, b) && SameRows(a, b) && a != [] && b != [] && a[0] == b[0]
    ensures InOrder(asc, a[1..]) && InOrder(asc, b[1..]) && SameRows(a[1..], b[1..])
  {
    StrictTotalOrder(asc, a[0], a[0], a[0]);
    forall r | r in a[1..] ensures r in b[1..] {
      assert Precedes(asc, a[0], r) && r in b;
    }
    forall r | r in b[1..] ensures r in a[1..] {
      assert Precedes(asc, b[0], r) && r in a;
    }
  }

  function Slice(rows: seq<MessageRow>, limit: nat, offset: nat): seq<MessageRow> {
    if offset >= |rows| then [] else if offset + limit >= |rows| then rows[offset..] else rows[offset..offset + limit]
  }

  // ── search ─────────────────────────────────────────────────────────────

  function EffectiveLimit(q: SearchQuery): (n: nat)
    ensures 1 <= n <= MAX_LIMIT
  {
    var n := if q.limit.Some? then q.limit.value else DEFAULT_LIMIT;
    if n < 1 then 1 else if n > MAX_LIMIT then MAX_LIMIT else n
  }

  function Offset(q: SearchQuery): nat { if q.offset.Some? then q.offset.value else 0 }

  function SortOf(q: SearchQuery): SortOrder { if q.sort.Some? then q.sort.value else DateDesc }

  function Ordered(q: SearchQuery, e: Engine, rows: seq<MessageRow>): seq<MessageRow> {
    match SortOf(q)
    case DateDesc => Sorted(false, rows)
    case DateAsc => Sorted(true, rows)
    case Relevance => e.ranked(rows)
  }

  /** The rows a query selects, by the meaning of its filters. */
  function Selected(rows: seq<MessageRow>, q: SearchQuery, e: Engine): seq<MessageRow> {
    Keep(rows, r => Matches(q, r, e))
  }

  function Listing(rows: seq<MessageRow>, q: SearchQuery, e: Engine): seq<MessageRow> {
    Ordered(q, e, Selected(rows, q, e))
  }

  function Answer(rows: seq<MessageRow>, q: SearchQuery, e: Engine): Option<SearchResult> {
    if q.sort == Some(Relevance) && q.query.None? then None
    else if q.countOnly == Some(true) then Some(SearchResult(|Selected(rows, q, e)|, 0, Offset(q), []))
    else
      var hits := Slice(Listing(rows, q, e), EffectiveLimit(q), Offset(q));
      Some(SearchResult(|Selected(rows, q, e)|, |hits|, Offset(q), hits))
  }

  /** `search` over the rows of the table in any stored order; None is the error
      of a relevance sort without a query. The two statements run the compiled
      clause over its arguments; the answer is by the meaning of the query. */
  method RunSearch(rows: seq<MessageRow>, q: SearchQuery, e: Engine) returns (result: Option<SearchResult>)
    ensures result == Answer(rows, q, e)
  {
    if q.sort == Some(Relevance) && q.query.None? { return None; }
    var clauses, args := BuildWhere(q, e);
    var selected := Keep(rows, r => EvalAll(clauses, r, args, e) == True);
    forall r | r in rows ensures (EvalAll(clauses, r, args, e) == True) == Matches(q, r, e) {
      CompilerPreservesMeaning(q, r, e);
    }
    KeepSame(rows, r => EvalAll(clauses, r, args, e) == True, r => Matches(q, r, e));
    var total := |selected|;
    if q.countOnly.Some? && q.countOnly.value {
      return Some(SearchResult(total, 0, Offset(q), []));
    }
    var hits := Slice(Ordered(q, e, selected), EffectiveLimit(q), Offset(q));
    result := Some(SearchResult(total, |hits|, Offset(q), hits));
  }

  /** How many hits a search returns: 25 when no limit is given, at least 1 and at
      most 200, and no more than there are from the offset on. */
  lemma PageSize(rows: seq<MessageRow>, q: SearchQuery, e: Engine)
    requires SortOf(q) != Relevance && q.countOnly != Some(true)
    ensures var a := Answer(rows, q, e);
      var asked := match q.limit case None => 25 case Some(n) => if n == 0 then 1 else if n > 200 then 200 else n;
      var start := match q.offset case None => 0 case Some(n) => n;
      && a.Some? && a.value.offset == start && a.value.returned == |a.value.hits|
      && |a.value.hits| == if start >= a.value.totalMatches then 0
                           else if a.value.totalMatches - start < asked then a.value.totalMatches - start else asked
  {}

  /** A search fails only when it asks for relevance without a query; a count returns
      no hits; and relevance is the engine's ranking of the matching rows. */
  lemma OtherSearches(rows: seq<MessageRow>, q: SearchQuery, e: Engine)
    ensures var a := Answer(rows, q, e);
      var start := match q.offset case None => 0 case Some(n) => n;
      && (a.None? <==> q.sort == Some(Relevance) && q.query.None?)
      && (a.Some? && q.countOnly == Some(true) ==>
            a.value == SearchResult(|Selected(rows, q, e)|, 0, start, []))
      && (a.Some? && q.countOnly != Some(true) && q.sort == Some(Relevance) ==>
            a.value.hits == Slice(e.ranked(Selected(rows, q, e)), EffectiveLimit(q), start))
  {}

  /** Later dates first, a missing date last, and by id where the dates are the same. */
  predicate NewerFirst(a: MessageRow, b: MessageRow) {
    match (a.dateUnix, b.dateUnix)
    case (Some(x), Some(y)) => x > y || (x == y && Order.Before(a.canonicalId, b.canonicalId))
    case (Some(_), None) => true
    case (None, Some(_)) => false
    case (None, None) => Order.Before(a.canonicalId, b.canonicalId)
  }

  /** Earlier dates first, a missing date before all. */
  predicate OlderFirst(a: MessageRow, b: MessageRow) {
    match (a.dateUnix, b.dateUnix)
    case (Some(x), Some(y)) => x < y || (x == y && Order.Before(a.canonicalId, b.canonicalId))
    case (Some(_), None) => false
    case (None, Some(_)) => true
    case (None, None) => Order.Before(a.canonicalId, b.canonicalId)
  }

  /** Hits come newest first unless the oldest are asked for. */
  lemma HitsInOrder(rows: seq<MessageRow>, q: SearchQuery, e: Engine)
    requires UniqueIds(rows) && q.sort != Some(Relevance) && q.countOnly != Some(true)
    ensures var hits := Answer(rows, q, e).value.hits; forall i, j :: 0 <= i < j < |hits| ==>
      if q.sort == Some(DateAsc) then OlderFirst(hits[i], hits[j]) else NewerFirst(hits[i], hits[j])
  {
    hide Listing, UniqueIds, Matches;
    ListingByDate(rows, rows, q, e);
    var all, hits := Listing(rows, q, e), Answer(rows, q, e).value.hits;
    forall i, j | 0 <= i < j < |hits|
      ensures if q.sort == Some(DateAsc) then OlderFirst(hits[i], hits[j]) else NewerFirst(hits[i], hits[j])
    {
      assert Precedes(SortOf(q) == DateAsc, all[Offset(q) + i], all[Offset(q) + j]);
    }
  }

  // ── pages ──────────────────────────────────────────────────────────────

  predicate ByDate(q: SearchQuery) { SortOf(q) != Relevance && q.countOnly != Some(true) }

  /** The listing of a date sort holds exactly the matching rows, in order, and
      depends on the set of rows alone, not on how the table stores them. */
  lemma ListingByDate(rows: seq<MessageRow>, other: seq<MessageRow>, q: SearchQuery, e: Engine)
    requires ByDate(q) && UniqueIds(rows) && UniqueIds(other) && SameRows(rows, other)
    ensures InOrder(SortOf(q) == DateAsc, Listing(rows, q, e))
    ensures forall r :: r in Listing(rows, q, e) <==> r in rows && Matches(q, r, e)
    ensures |Listing(rows, q, e)| == |Selected(rows, q, e)|
    ensures Listing(other, q, e) == Listing(rows, q, e)
  {
    var asc := SortOf(q) == DateAsc;
    KeepUnique(rows, r => Matches(q, r, e));
    KeepUnique(other, r => Matches(q, r, e));
    SortedInOrder(asc, Selected(rows, q, e));
    SortedInOrder(asc, Selected(other, q, e));
    ListingUnique(asc, Listing(rows, q, e), Listing(other, q, e));
  }

  function PageQuery(q: SearchQuery, k: nat): SearchQuery { q.(offset := Some(k * EffectiveLimit(q))) }

  /** The hits of page `k`. */
  function Page(stored: seq<MessageRow>, q: SearchQuery, k: nat, e: Engine): seq<MessageRow> {
    var a := Answer(stored, PageQuery(q, k), e);
    if a.Some? then a.value.hits else []
  }

  /** Successive pages, page `k` asked of `stored[k]`. */
  function Pages(stored: seq<seq<MessageRow>>, q: SearchQuery, e: Engine): seq<MessageRow> {
    if stored == [] then []
    else
      var k := |stored| - 1;
      Pages(stored[..k], q, e) + Page(stored[k], q, k, e)
  }

  function Prefix(rows: seq<MessageRow>, n: nat): seq<MessageRow> { if n >= |rows| then rows else rows[..n] }

  /** The first `k` pages and the next one. */
  lemma PrefixThenSlice(rows: seq<MessageRow>, k: nat, limit: nat)
    ensures Prefix(rows, k * limit) + Slice(rows, limit, k * limit) == Prefix(rows, (k + 1) * limit)
  {
    assert (k + 1) * limit == k * limit + limit;
    SliceExtends(rows, k * limit, limit);
  }

  lemma NoPages(rows: seq<MessageRow>)
    ensures Prefix(rows, 0) == []
  {}

  lemma SliceExtends(rows: seq<MessageRow>, n: nat, limit: nat)
    ensures Prefix(rows, n) + Slice(rows, limit, n) == Prefix(rows, n + limit)
  {}

  lemma SameListing(rows: seq<MessageRow>, q: SearchQuery, k: nat, e: Engine)
    ensures Selected(rows, PageQuery(q, k), e) == Selected(rows, q, e)
    ensures Listing(rows, PageQuery(q, k), e) == Listing(rows, q, e)
  {
    KeepSame(rows, r => Matches(PageQuery(q, k), r, e), r => Matches(q, r, e));
  }

  /** One page, of whatever stored order: its slice of the one listing, and the
      number of matching rows. */
  lemma OnePage(stored: seq<MessageRow>, rows: seq<MessageRow>, q: SearchQuery, k: nat, e: Engine)
    requires ByDate(q) && UniqueIds(rows) && UniqueIds(stored) && SameRows(rows, stored)
    ensures var a := Answer(stored, PageQuery(q, k), e);
      && a.Some? && a.value.totalMatches == |Listing(rows, q, e)|
      && a.value.hits == Page(stored, q, k, e) == Slice(Listing(rows, q, e), EffectiveLimit(q), k * EffectiveLimit(q))
  {
    ListingByDate(rows, stored, q, e);
    ListingByDate(stored, rows, q, e);
    SameListing(stored, q, k, e);
  }

  predicate StoredAs(stored: seq<seq<MessageRow>>, rows: seq<MessageRow>) {
    forall k :: 0 <= k < |stored| ==> UniqueIds(stored[k]) && SameRows(rows, stored[k])
  }

  /** While the rows stay the same, successive pages concatenate to the listing
      cut at the number of rows asked for: no row is missed or seen twice. */
  lemma {:induction false} PagesPartition(stored: seq<seq<MessageRow>>, rows: seq<MessageRow>, q: SearchQuery,
                                          e: Engine)
    requires ByDate(q) && UniqueIds(rows) && StoredAs(stored, rows)
    ensures Pages(stored, q, e) == Prefix(Listing(rows, q, e), |stored| * EffectiveLimit(q))
    decreases |stored|
  {
    hide Listing, Answer, Prefix, Slice, UniqueIds, SameRows, EffectiveLimit, ByDate;
    if stored == [] {
      NoPages(Listing(rows, q, e));
    } else {
      var k := |stored| - 1;
      PagesPartition(stored[..k], rows, q, e);
      OnePage(stored[k], rows, q, k, e);
      PrefixThenSlice(Listing(rows, q, e), k, EffectiveLimit(q));
    }
  }

  /** Enough pages give exactly the matching rows, in order, each once. */
  lemma AllPages(stored: seq<seq<MessageRow>>, rows: seq<MessageRow>, q: SearchQuery, e: Engine)
    requires ByDate(q) && UniqueIds(rows) && StoredAs(stored, rows)
    requires |stored| * EffectiveLimit(q) >= |Selected(rows, q, e)|
    ensures Pages(stored, q, e) == Listing(rows, q, e)
    ensures forall r :: r in Pages(stored, q, e) <==> r in rows && Matches(q, r, e)
    ensures UniqueIds(Pages(stored, q, e))
  {
    PagesPartition(stored, rows, q, e);
    ListingByDate(rows, rows, q, e);
    OrderedUnique(SortOf(q) == DateAsc, rows, Listing(rows, q, e));
  }

  lemma OrderedUnique(asc: bool, rows: seq<MessageRow>, hits: seq<MessageRow>)
    requires InOrder(asc, hits) && UniqueIds(rows) && forall r <- hits :: r in rows
    ensures UniqueIds(hits)
  {
    forall i, j | 0 <= i < j < |hits| ensures hits[i].canonicalId != hits[j].canonicalId {
      StrictTotalOrder(asc, hits[i], hits[j], hits[i]);
      SameIdSameRow(rows, hits[i], hits[j]);
    }
  }

  lemma SameIdSameRow(rows: seq<MessageRow>, a: MessageRow, b: MessageRow)
    requires UniqueIds(rows) && a in rows && b in rows
    ensures a == b || a.canonicalId != b.canonicalId
  {
    var i :| 0 <= i < |rows| && rows[i] == a;
    var j :| 0 <= j < |rows| && rows[j] == b;
    assert i < j || j < i || i == j;
  }
}
