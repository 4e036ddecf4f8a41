/**
 db/page.go: pages of an ordered list of rows, with the offset computed in 64 bits.

 What the database returns for a query is given as a list for every way it may be ordered.
 */
module Page {
  import opened Options
  import opened Text

  const TWO_63 := 0x8000_0000_0000_0000
  const TWO_64 := 0x1_0000_0000_0000_0000
  const MAX_INT64 := TWO_63 - 1

  newtype int64 = x: int | -TWO_63 <= x < TWO_63

  function Wrap(x: int): int64 {
    ((x + TWO_63) % TWO_64 - TWO_63) as int64
  }

  datatype PageRequest = PageRequest(page: int64, size: int64)

  predicate Normal(req: PageRequest) {
    1 <= req.page && 1 <= req.size <= 200
  }

  function NormalizePage(req: PageRequest): (r: PageRequest)
    ensures Normal(r) && (Normal(req) ==> r == req)
    ensures r.page == 1 || r.page == req.page
    ensures r.size == req.size || (r.size == 20 && req.size <= 0) || (r.size == 200 && req.size > 200)
  {
    var page := if req.page <= 0 then 1 else req.page;
    var size := if req.size <= 0 then 20 else req.size;
    PageRequest(page, if size > 200 then 200 else size)
  }

  function Offset(req: PageRequest): int64
    requires Normal(req)
  {
    Wrap((req.page - 1) as int * req.size as int)
  }

  /** The query with an offset, which is left out unless positive, and a limit. */
  function Select<T>(rows: seq<T>, offset: int64, limit: int64): seq<T>
    requires 0 < limit
  {
    var skip := if offset <= 0 then 0 else if offset as int < |rows| then offset as int else |rows|;
    if skip + limit as int < |rows| then rows[skip..skip + limit as int] else rows[skip..]
  }

  function Items<T>(rows: seq<T>, req: PageRequest): seq<T> {
    var r := NormalizePage(req);
    Select(rows, Offset(r), r.size)
  }

  datatype PageResult<T> = PageResult(items: seq<T>, total: nat, page: int64, size: int64)

  datatype Failure = CountFailed | FindFailed

  /** The order of a query: none, SQL text as it stands, or a column. */
  datatype Order = AsIs | Raw(clause: string) | By(column: string, desc: bool)

  datatype Sorting = Sorting(sort: string, sortBy: string, sortOrder: string)

  /** strings.EqualFold with "desc"; the long s folds to an s. */
  predicate IsDesc(s: string) {
    |s| == 4 && var t := ToLower(s); t[0] == 'd' && t[1] == 'e' && (t[2] == 's' || t[2] == '\U{17F}') && t[3] == 'c'
  }

  function ApplySort(s: Sorting, allowed: map<string, string>): Order {
    if allowed != map[] then
      if s.sortBy !in allowed || TrimSpace(allowed[s.sortBy]) == "" then AsIs
      else By(allowed[s.sortBy], IsDesc(s.sortOrder))
    else if s.sort != "" then Raw(s.sort)
    else AsIs
  }

  /** The direction is the word desc in any case, and any other text means ascending. */
  lemma DescSpelling(s: string)
    ensures IsDesc(s) <==> ToLower(s) in ["desc", "de\U{17F}c"]
  {
    if |s| == 4 {
      var t := ToLower(s);
      assert t == [t[0], t[1], t[2], t[3]];
    }
  }

  /** The order in terms of the request: its raw text only without an allowlist. */
  lemma SortExactly(s: Sorting, allowed: map<string, string>, column: string, desc: bool)
    ensures ApplySort(s, allowed) == Raw(column) <==> allowed == map[] && column == s.sort && s.sort != ""
    ensures ApplySort(s, allowed) == By(column, desc)
       <==> s.sortBy in allowed && column == allowed[s.sortBy] && !Blank(column)
            && desc == (ToLower(s.sortOrder) in ["desc", "de\U{17F}c"])
  {
    TrimSpaceTrims(column);
    DescSpelling(s.sortOrder);
    if s.sortBy in allowed {
      TrimSpaceTrims(allowed[s.sortBy]);
    }
  }

  /** With an allowlist no text of the request gets into the query: the order is none or an allowed
      column, and which column depends on the request by its key only. */
  lemma OnlyAllowedSorts(s: Sorting, allowed: map<string, string>)
    requires allowed != map[]
    ensures var o := ApplySort(s, allowed);
      && !o.Raw?
      && (o.By? <==> s.sortBy in allowed && !Blank(allowed[s.sortBy]))
      && (o.By? ==> o.column in allowed.Values && forall t: Sorting :: t.sortBy == s.sortBy ==>
            ApplySort(t, allowed).By? && ApplySort(t, allowed).column == o.column)
  {
    if s.sortBy in allowed {
      TrimSpaceTrims(allowed[s.sortBy]);
    }
  }

  /** paginateWithSort: count, then find. */
  method Paginate<T>(table: Order -> seq<T>, req: PageRequest, s: Sorting, allowed: map<string, string>,
                     counts: bool, finds: bool)
    returns (r: Result<PageResult<T>, Failure>)
    ensures r.Err? <==> !counts || !finds
    ensures r.Err? ==> (r.error == CountFailed <==> !counts)
    ensures r.Ok? ==> r.value.total == |table(AsIs)|
    ensures r.Ok? ==> r.value.items == Items(table(ApplySort(s, allowed)), req)
    ensures r.Ok? ==> |r.value.items| <= r.value.size as int
    ensures r.Ok? ==> PageRequest(r.value.page, r.value.size) == NormalizePage(req)
  {
    var n := NormalizePage(req);
    if !counts {
      return Err(CountFailed);
    }
    var total := |table(AsIs)|;
    var items := Select(table(ApplySort(s, allowed)), Offset(n), n.size);
    if !finds {
      return Err(FindFailed);
    }
    r := Ok(PageResult(items, total, n.page, n.size));
  }

  // ---------------------------------------------------------------------------------------------
  // The offset
  // ---------------------------------------------------------------------------------------------

  lemma ProductBound(a: nat, s: nat, m: nat)
    requires s > 0
    ensures a * s <= m <==> a <= m / s
  {
    assert m == m / s * s + m % s;
    if a <= m / s {
      MulMonotone(a, m / s, s);
    } else {
      MulMonotone(m / s + 1, a, s);
    }
  }

  lemma MulMonotone(a: int, b: int, s: nat)
    requires a <= b
    ensures a * s <= b * s
  {
  }

  /** The offset is the product exactly if the page is small enough for its size. */
  lemma OffsetExact(req: PageRequest)
    requires Normal(req)
    ensures Offset(req) as int == (req.page as int - 1) * req.size as int
      <==> req.page as int - 1 <= MAX_INT64 / req.size as int
  {
    ProductBound(req.page as int - 1, req.size as int, MAX_INT64);
    assert 0 <= (req.page as int - 1) * req.size as int;
  }

  const SAFE_PAGE := MAX_INT64 / 200 + 1

  /** Up to this page that is so for every size. */
  lemma SafePages(req: PageRequest)
    requires req.page as int <= SAFE_PAGE
    ensures var r := NormalizePage(req); Offset(r) as int == (r.page as int - 1) * r.size as int
  {
    var r := NormalizePage(req);
    DivideByLess(MAX_INT64, r.size as int, 200);
    OffsetExact(r);
  }

  lemma DivideByLess(m: nat, s: nat, t: nat)
    requires 0 < s <= t
    ensures m / t <= m / s
  {
    assert m / t * t <= m;
    MulMonotone(s, t, m / t);
    ProductBound(m / t, s, m);
  }

  /** On the next page of the largest size it is not. */
  lemma SafePagesEnd()
    ensures SAFE_PAGE < MAX_INT64 && Offset(PageRequest((SAFE_PAGE + 1) as int64, 200)) as int != SAFE_PAGE * 200
  {
    OffsetExact(PageRequest((SAFE_PAGE + 1) as int64, 200));
  }

  // ---------------------------------------------------------------------------------------------
  // The pages
  // ---------------------------------------------------------------------------------------------

  function Ceil(n: nat, s: nat): nat
    requires s > 0
  {
    (n + s - 1) / s
  }

  /** Pages 1 to n one after the other. */
  function Pages<T>(rows: seq<T>, size: int64, n: nat): seq<T>
    requires n <= MAX_INT64
  {
    if n == 0 then [] else Pages(rows, size, n - 1) + Items(rows, PageRequest(n as int64, size))
  }

  function Min(a: int, b: int): int {
    if a < b then a else b
  }

  lemma SelectAre<T>(rows: seq<T>, offset: int64, limit: int64)
    requires 0 <= offset && 0 < limit
    ensures var from := offset as int;
      Select(rows, offset, limit) == rows[Min(from, |rows|)..Min(from + limit as int, |rows|)]
  {
  }

  lemma ItemsAre<T>(rows: seq<T>, req: PageRequest)
    requires Normal(req) && req.page as int - 1 <= MAX_INT64 / req.size as int
    ensures var from := (req.page as int - 1) * req.size as int;
      0 <= from && Items(rows, req) == rows[Min(from, |rows|)..Min(from + req.size as int, |rows|)]
  {
    OffsetExact(req);
    MulMonotone(0, req.page as int - 1, req.size as int);
    SelectAre(rows, Offset(req), req.size);
  }

  lemma NextMultiple(n: nat, s: nat)
    requires n > 0
    ensures n * s == (n - 1) * s + s && 0 <= (n - 1) * s
  {
  }

  lemma Extend<T>(rows: seq<T>, a: nat, b: nat)
    requires a <= b
    ensures rows[..Min(a, |rows|)] + rows[Min(a, |rows|)..Min(b, |rows|)] == rows[..Min(b, |rows|)]
  {
  }

  lemma {:induction false} PagesAre<T>(rows: seq<T>, size: int64, n: nat)
    requires 1 <= size <= 200 && n <= MAX_INT64 / size as int + 1 && n <= MAX_INT64
    ensures Pages(rows, size, n) == rows[..Min(n * size as int, |rows|)]
  {
    if n > 0 {
      PagesAre(rows, size, n - 1);
      ItemsAre(rows, PageRequest(n as int64, size));
      NextMultiple(n, size as int);
      Extend(rows, (n - 1) * size as int, n * size as int);
    }
  }

  lemma CeilBounds(n: nat, s: nat)
    requires s > 0
    ensures n <= Ceil(n, s) * s && (n > 0 ==> (Ceil(n, s) - 1) * s < n) && Ceil(n, s) <= n
  {
    var c := Ceil(n, s);
    assert n + s - 1 == c * s + (n + s - 1) % s;
    assert (c - 1) * s == c * s - s;
    MulMonotone(1, s, n);
    ProductBound(n + 1, s, n + s - 1);
    assert (n + 1) * s == n * s + s;
  }

  lemma CeilPages(n: nat, s: nat)
    requires s > 0 && n <= MAX_INT64
    ensures Ceil(n, s) <= MAX_INT64 && Ceil(n, s) <= MAX_INT64 / s + 1 && Min(Ceil(n, s) * s, n) == n
  {
    CeilBounds(n, s);
    if n > 0 {
      ProductBound(Ceil(n, s) - 1, s, MAX_INT64);
    }
  }

  /** The number of pages at a requested size. */
  function PageCount(n: nat, size: int64): nat {
    Ceil(n, NormalizePage(PageRequest(1, size)).size as int)
  }

  /** For any requested size: the pages up to the last one are the list, without overlap or gap. */
  lemma PagesPartition<T>(rows: seq<T>, size: int64)
    requires |rows| <= MAX_INT64
    ensures PageCount(|rows|, size) <= MAX_INT64 && Pages(rows, size, PageCount(|rows|, size)) == rows
  {
    var s := NormalizePage(PageRequest(1, size)).size;
    var n := PageCount(|rows|, size);
    CeilPages(|rows|, s as int);
    SameSize(rows, size, s, n);
    PagesAre(rows, s, n);
    assert rows[..|rows|] == rows;
  }

  lemma {:induction false} SameSize<T>(rows: seq<T>, size: int64, s: int64, n: nat)
    requires s == NormalizePage(PageRequest(1, size)).size && n <= MAX_INT64
    ensures Pages(rows, size, n) == Pages(rows, s, n)
  {
    if n > 0 {
      SameSize(rows, size, s, n - 1);
    }
  }

  /** A page after the last one is empty, except for those far-off pages whose offset comes round
      to a row again, or to a negative number. */
  lemma LaterPages<T>(rows: seq<T>, req: PageRequest)
    requires 0 < |rows| <= MAX_INT64
    requires req.page as int > PageCount(|rows|, req.size)
    ensures var r := NormalizePage(req);
      var m := (r.page as int - 1) * r.size as int % TWO_64;
      && (Items(rows, req) != [] <==> m < |rows| || m >= TWO_63)
      && (r.page as int - 1 <= MAX_INT64 / r.size as int ==> Items(rows, req) == [])
  {
    var r := NormalizePage(req);
    CeilBounds(|rows|, r.size as int);
    MulMonotone(Ceil(|rows|, r.size as int), r.page as int - 1, r.size as int);
    OffsetExact(r);
    WrapIs((r.page as int - 1) * r.size as int);
  }

  lemma WrapIs(x: nat)
    ensures var m := x % TWO_64; Wrap(x) as int == if m < TWO_63 then m else m - TWO_64
  {
  }

  /** Such a page shows the first rows again. */
  lemma WrappedPage<T>(rows: seq<T>)
    ensures Items(rows, PageRequest(0x4000_0000_0000_0001, 4)) == Items(rows, PageRequest(1, 4))
  {
    assert Offset(PageRequest(0x4000_0000_0000_0001, 4)) == 0;
  }
}
