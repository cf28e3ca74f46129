/** The list handler, GET / (server/src/routes/projectRoutes.js:26-128): a
    plain owner-scoped listing when the search text is empty, a hybrid
    title/vector search when the vector service answers, and a keyword-only
    search when it does not. The table is a sequence of rows; the model
    takes its order as the order of a scan, which PostgreSQL leaves
    unspecified. */
module Retrieval {
  import opened Common
  import opened Text
  import opened Params
  import opened Missions

  const DefaultPage := 1
  const DefaultLimit := 5
  const DefaultSort := "desc"
  const AllStatuses := "All"

  /** Cosine distances are given in thousandths: 500 is the 0.5 threshold. */
  const DistanceScale := 1000
  const RelevanceThreshold := 500

  /** The stand-in total of a hybrid search that filled its page. */
  const ApproximateTotal := 100

  const SearchFailed := ApiError(500, "Database search failed")

  datatype SortOrder = Asc | Desc

  /** Prisma's `orderBy` accepts only these two directions; anything else
      fails the query. */
  function ParseSort(s: string): (r: Option<SortOrder>)
    ensures r.Some? <==> s == "asc" || s == "desc"
  {
    if s == "asc" then Some(Asc) else if s == "desc" then Some(Desc) else None
  }

  /** A sort key. `Unranked` comes after every `At`, as NULL does in an
      ascending PostgreSQL ORDER BY. */
  datatype Rank = At(n: int) | Unranked

  predicate RankLe(a: Rank, b: Rank) {
    match (a, b)
    case (At(x), At(y)) => x <= y
    case (_, Unranked) => true
    case (Unranked, At(_)) => false
  }

  predicate SortedBy(s: seq<Mission>, key: Mission -> Rank) {
    forall i, j :: 0 <= i < j < |s| ==> RankLe(key(s[i]), key(s[j]))
  }

  // ---------------------------------------------------------------------
  // Query building blocks: WHERE, COUNT, ORDER BY, OFFSET/LIMIT

  /** The number of rows that satisfy `p` (`prisma.project.count`). */
  function Count(xs: seq<Mission>, p: Mission -> bool): (c: nat)
    ensures c <= |xs|
  {
    if xs == [] then 0 else (if p(xs[0]) then 1 else 0) + Count(xs[1..], p)
  }

  /** The count is zero exactly when no row satisfies the condition. */
  lemma {:induction false} CountZero(xs: seq<Mission>, p: Mission -> bool)
    ensures Count(xs, p) == 0 <==> forall i :: 0 <= i < |xs| ==> !p(xs[i])
  {
    if xs != [] {
      CountZero(xs[1..], p);
      assert forall i :: 1 <= i < |xs| ==> xs[i] == xs[1..][i - 1];
    }
  }

  /** The rows that satisfy `p`, in table order (a WHERE clause). */
  function Filter(xs: seq<Mission>, p: Mission -> bool): (r: seq<Mission>)
    ensures |r| == Count(xs, p)
    ensures forall m :: m in r <==> m in xs && p(m)
  {
    if xs == [] then []
    else if p(xs[0]) then [xs[0]] + Filter(xs[1..], p)
    else Filter(xs[1..], p)
  }

  /** A row no later than every row of a sorted sequence may lead it. */
  lemma ConsSorted(y: Mission, rest: seq<Mission>, key: Mission -> Rank)
    requires SortedBy(rest, key)
    requires forall m :: m in rest ==> RankLe(key(y), key(m))
    ensures SortedBy([y] + rest, key)
  {
    var r := [y] + rest;
    forall i, j | 0 <= i < j < |r| ensures RankLe(key(r[i]), key(r[j])) {
      assert r[j] == rest[j - 1];
      if i > 0 {
        assert r[i] == rest[i - 1];
      }
    }
  }

  /** The first row of a sorted sequence is no later than any row. */
  lemma HeadLeads(s: seq<Mission>, key: Mission -> Rank)
    requires SortedBy(s, key) && s != []
    ensures forall m :: m in s ==> RankLe(key(s[0]), key(m))
  {
    forall m | m in s ensures RankLe(key(s[0]), key(m)) {
      var j :| 0 <= j < |s| && s[j] == m;
    }
  }

  /** A row no later than every row of `xs` and than `x` is no later than
      any row of a sequence holding exactly those. */
  lemma LeadsAll(y: Mission, x: Mission, xs: seq<Mission>, ys: seq<Mission>, key: Mission -> Rank)
    requires multiset(ys) == multiset(xs) + multiset{x}
    requires RankLe(key(y), key(x))
    requires forall m :: m in xs ==> RankLe(key(y), key(m))
    ensures forall m :: m in ys ==> RankLe(key(y), key(m))
  {
    forall m | m in ys ensures RankLe(key(y), key(m)) {
      assert m in multiset(ys);
      if m != x {
        assert m in multiset(xs);
      }
    }
  }

  function Insert(x: Mission, s: seq<Mission>, key: Mission -> Rank): (r: seq<Mission>)
    requires SortedBy(s, key)
    ensures SortedBy(r, key)
    ensures multiset(r) == multiset(s) + multiset{x}
  {
    if s == [] then [x]
    else if RankLe(key(x), key(s[0])) then
      HeadLeads(s, key);
      ConsSorted(x, s, key);
      [x] + s
    else
      var rest := Insert(x, s[1..], key);
      HeadLeads(s, key);
      assert forall m :: m in s[1..] ==> m in s;
      LeadsAll(s[0], x, s[1..], rest, key);
      ConsSorted(s[0], rest, key);
      assert s == [s[0]] + s[1..];
      [s[0]] + rest
  }

  /** The rows in ascending order of `key` (an ORDER BY). Rows with equal
      keys keep their order in `xs`, a choice of the model: SQL leaves the
      order of ties open. */
  function SortBy(xs: seq<Mission>, key: Mission -> Rank): (r: seq<Mission>)
    ensures SortedBy(r, key)
    ensures multiset(r) == multiset(xs)
  {
    if xs == [] then []
    else
      assert xs == [xs[0]] + xs[1..];
      Insert(xs[0], SortBy(xs[1..], key), key)
  }

  /** Sorting neither adds nor drops a row. */
  lemma SortByKeepsMembers(xs: seq<Mission>, key: Mission -> Rank)
    ensures forall m :: m in SortBy(xs, key) <==> m in xs
  {
    forall m ensures m in SortBy(xs, key) <==> m in xs {
      assert m in SortBy(xs, key) <==> m in multiset(SortBy(xs, key));
      assert m in xs <==> m in multiset(xs);
    }
  }

  /** Prisma's `skip`/`take`: a negative `skip` is refused; a non-negative
      `take` reads forward from `skip`; a negative `take` reads `-take` rows
      backward from `skip` rows before the end. */
  function Window(xs: seq<Mission>, skip: int, take: int): (r: Option<seq<Mission>>)
    ensures r.Some? <==> skip >= 0
    ensures r.Some? ==> |r.value| <= Abs(take)
    ensures r.Some? ==> forall m :: m in r.value ==> m in xs
    ensures r.Some? && take >= 0 ==>
      && |r.value| == Min(take, Max(0, |xs| - skip))
      && forall i :: 0 <= i < |r.value| ==> r.value[i] == xs[skip + i]
  {
    if skip < 0 then None
    else if take >= 0 then Some(xs[Min(skip, |xs|)..Min(skip + take, |xs|)])
    else
      var end := Max(0, |xs| - skip);
      Some(xs[Max(0, end + take)..end])
  }

  /** SQL's `LIMIT limit OFFSET offset`: PostgreSQL refuses negative values. */
  function SqlWindow(xs: seq<Mission>, offset: int, limit: int): (r: Option<seq<Mission>>)
    ensures r.Some? <==> offset >= 0 && limit >= 0
    ensures r.Some? ==> r == Window(xs, offset, limit)
  {
    if offset < 0 || limit < 0 then None else Window(xs, offset, limit)
  }

  /** A window of a sorted sequence is sorted. */
  lemma WindowKeepsOrder(xs: seq<Mission>, skip: int, take: int, key: Mission -> Rank)
    requires SortedBy(xs, key) && skip >= 0
    ensures SortedBy(Window(xs, skip, take).value, key)
  {
    var r := Window(xs, skip, take).value;
    var lo := if take >= 0 then Min(skip, |xs|) else Max(0, Max(0, |xs| - skip) + take);
    assert forall i :: 0 <= i < |r| ==> r[i] == xs[lo + i];
    forall i, j | 0 <= i < j < |r| ensures RankLe(key(r[i]), key(r[j])) {
      assert r[i] == xs[lo + i] && r[j] == xs[lo + j];
    }
  }

  /** `Math.ceil(total / limit) || 1`, for the non-zero limits the handler sees. */
  function PageCount(total: nat, limit: int): (pages: int)
    requires limit != 0
    ensures limit > 0 ==> pages >= 1
  {
    var c := if limit > 0 then (total + limit - 1) / limit else -(total / -limit);
    if c == 0 then 1 else c
  }

  /** For a positive limit the page count is the least number of pages of
      `limit` rows that hold `total` rows, and one when there are none. */
  lemma PageCountIsCeiling(total: nat, limit: int)
    requires limit > 0
    ensures var pages := PageCount(total, limit);
      && pages >= 1
      && (total == 0 ==> pages == 1)
      && (total > 0 ==> (pages - 1) * limit < total <= pages * limit)
      && (pages == 1 <==> total <= limit)
  {
    var c := (total + limit - 1) / limit;
    var rem := (total + limit - 1) % limit;
    assert c * limit + rem == total + limit - 1 && 0 <= rem < limit;
    MultipleBounds(c, limit);
    MultipleBounds(c - 1, limit);
    if total == 0 {
      assert c == 0;
    } else {
      assert c >= 1;
    }
  }

  /** The facts about a multiple of a positive number that the page count needs. */
  lemma MultipleBounds(c: int, limit: int)
    requires limit > 0
    ensures c >= 1 ==> c * limit >= limit
    ensures c <= -1 ==> c * limit <= -limit
    ensures c == 0 ==> c * limit == 0
    ensures (c - 1) * limit == c * limit - limit
  {
  }

  // ---------------------------------------------------------------------
  // The three strategies

  /** Owner scope and the `status` filter, where "All" filters nothing. */
  predicate Visible(m: Mission, owner: UserId, status: string) {
    m.owner == owner && (status == AllStatuses || m.status == status)
  }

  function VisibleTo(owner: UserId, status: string): Mission -> bool {
    (m: Mission) => Visible(m, owner, status)
  }

  predicate KeywordHit(m: Mission, owner: UserId, status: string, search: string) {
    Visible(m, owner, status) && ContainsIgnoringCase(m.title, search)
  }

  function KeywordMatch(owner: UserId, status: string, search: string): Mission -> bool {
    (m: Mission) => KeywordHit(m, owner, status, search)
  }

  /** The WHERE clause of the hybrid query: the title contains the search text,
      or the stored embedding lies within the relevance threshold of the query
      vector. A NULL embedding compares as unknown, so only its title counts. */
  predicate HybridHit(m: Mission, owner: UserId, status: string, search: string,
                      query: Vector, dist: (Vector, Vector) -> int) {
    && Visible(m, owner, status)
    && (ContainsIgnoringCase(m.title, search)
        || (m.embedding.Some? && dist(m.embedding.value, query) < RelevanceThreshold))
  }

  function HybridMatch(owner: UserId, status: string, search: string,
                       query: Vector, dist: (Vector, Vector) -> int): Mission -> bool {
    (m: Mission) => HybridHit(m, owner, status, search, query, dist)
  }

  /** `orderBy: { createdAt: sort }`; a descending order ranks by the negated time. */
  function CreatedKey(order: SortOrder): Mission -> Rank {
    (m: Mission) => if order == Asc then At(m.createdAt) else At(-m.createdAt)
  }

  /** `ORDER BY (embedding <=> query) ASC`: closest first, NULL embeddings last. */
  function DistanceKey(query: Vector, dist: (Vector, Vector) -> int): Mission -> Rank {
    (m: Mission) => if m.embedding.Some? then At(dist(m.embedding.value, query)) else Unranked
  }

  /** The rows a strategy returns and the total it reports. */
  datatype Found = Found(rows: seq<Mission>, total: nat)

  /** The owner's rows that pass the status filter, in creation-date order. */
  function DateOrdered(table: seq<Mission>, owner: UserId, status: string, order: SortOrder): seq<Mission> {
    SortBy(Filter(table, VisibleTo(owner, status)), CreatedKey(order))
  }

  /** Strategy A (lines 41-58): `findMany` with owner/status filter, date
      order and skip/take, and an exact `count` of the same filter. */
  function PlainListing(table: seq<Mission>, owner: UserId, status: string, sort: string,
                        offset: int, limit: int): (r: Result<Found>)
    ensures r.Ok? <==> ParseSort(sort).Some? && offset >= 0
    ensures r.Err? ==> r.error == SearchFailed
    ensures r.Ok? ==>
      var ordered := DateOrdered(table, owner, status, ParseSort(sort).value);
      && (forall m :: m in r.value.rows ==> m in table && Visible(m, owner, status))
      && SortedBy(r.value.rows, CreatedKey(ParseSort(sort).value))
      && |r.value.rows| <= Abs(limit)
      && r.value.total == Count(table, VisibleTo(owner, status))
      && (limit >= 0 ==>
            && |r.value.rows| == Min(limit, Max(0, |ordered| - offset))
            && forall i :: 0 <= i < |r.value.rows| ==> r.value.rows[i] == ordered[offset + i])
  {
    match ParseSort(sort)
    case None => Err(SearchFailed)
    case Some(order) =>
      match Window(DateOrdered(table, owner, status, order), offset, limit)
      case None => Err(SearchFailed)
      case Some(rows) =>
        var ordered := DateOrdered(table, owner, status, order);
        WindowKeepsOrder(ordered, offset, limit, CreatedKey(order));
        SortByKeepsMembers(Filter(table, VisibleTo(owner, status)), CreatedKey(order));
        Ok(Found(rows, Count(table, VisibleTo(owner, status))))
  }

  /** The hybrid ranking: every row the hybrid WHERE admits, closest first. */
  function HybridRanking(table: seq<Mission>, owner: UserId, status: string, search: string,
                         query: Vector, dist: (Vector, Vector) -> int): (ranking: seq<Mission>)
    ensures SortedBy(ranking, DistanceKey(query, dist))
    ensures |ranking| == Count(table, HybridMatch(owner, status, search, query, dist))
  {
    var hits := Filter(table, HybridMatch(owner, status, search, query, dist));
    var sorted := SortBy(hits, DistanceKey(query, dist));
    assert |sorted| == |multiset(sorted)| == |multiset(hits)| == |hits|;
    sorted
  }

  /** The hybrid ranking holds every row of the table the hybrid WHERE
      admits, each as often as the table does, and nothing else. */
  lemma HybridRankingIsComplete(table: seq<Mission>, owner: UserId, status: string, search: string,
                                query: Vector, dist: (Vector, Vector) -> int)
    ensures var ranking := HybridRanking(table, owner, status, search, query, dist);
      && multiset(ranking) == multiset(Filter(table, HybridMatch(owner, status, search, query, dist)))
      && forall m :: m in ranking <==> m in table && HybridHit(m, owner, status, search, query, dist)
  {
    var hits := Filter(table, HybridMatch(owner, status, search, query, dist));
    var ranking := HybridRanking(table, owner, status, search, query, dist);
    forall m ensures m in ranking <==> m in table && HybridHit(m, owner, status, search, query, dist) {
      assert m in ranking <==> m in multiset(ranking);
      assert m in hits <==> m in multiset(hits);
    }
  }

  /** Strategy B (lines 79-98): the raw hybrid query; its total is exact only
      when the page is not full, and 100 otherwise. */
  function HybridSearch(table: seq<Mission>, owner: UserId, status: string, search: string,
                        query: Vector, dist: (Vector, Vector) -> int,
                        offset: int, limit: int): (r: Result<Found>)
    ensures r.Ok? <==> offset >= 0 && limit >= 0
    ensures r.Err? ==> r.error == SearchFailed
    ensures r.Ok? ==>
      var ranking := HybridRanking(table, owner, status, search, query, dist);
      && (forall m :: m in r.value.rows ==> m in table && HybridHit(m, owner, status, search, query, dist))
      && SortedBy(r.value.rows, DistanceKey(query, dist))
      && |r.value.rows| == Min(limit, Max(0, |ranking| - offset))
      && (forall i :: 0 <= i < |r.value.rows| ==> r.value.rows[i] == ranking[offset + i])
      && r.value.total == (if |r.value.rows| < limit then |r.value.rows| else ApproximateTotal)
  {
    var ranking := HybridRanking(table, owner, status, search, query, dist);
    match SqlWindow(ranking, offset, limit)
    case None => Err(SearchFailed)
    case Some(rows) =>
      WindowKeepsOrder(ranking, offset, limit, DistanceKey(query, dist));
      HybridRankingIsComplete(table, owner, status, search, query, dist);
      Ok(Found(rows, if |rows| < limit then |rows| else ApproximateTotal))
  }

  /** The keyword-only fallback (lines 100-112): no ORDER BY, so the model
      returns the matches in table order, and the total is the number of
      rows returned. */
  function KeywordSearch(table: seq<Mission>, owner: UserId, status: string, search: string,
                         offset: int, limit: int): (r: Result<Found>)
    ensures r.Ok? <==> offset >= 0
    ensures r.Err? ==> r.error == SearchFailed
    ensures r.Ok? ==>
      var hits := Filter(table, KeywordMatch(owner, status, search));
      && (forall m :: m in r.value.rows ==> m in table && KeywordHit(m, owner, status, search))
      && |r.value.rows| <= Abs(limit)
      && r.value.total == |r.value.rows|
      && (limit >= 0 ==>
            && |r.value.rows| == Min(limit, Max(0, |hits| - offset))
            && forall i :: 0 <= i < |r.value.rows| ==> r.value.rows[i] == hits[offset + i])
  {
    match Window(Filter(table, KeywordMatch(owner, status, search)), offset, limit)
    case None => Err(SearchFailed)
    case Some(rows) => Ok(Found(rows, |rows|))
  }

  // ---------------------------------------------------------------------
  // The handler

  /** The query string; an absent parameter is None. */
  datatype ListQuery = ListQuery(
    page: Option<string>,
    limit: Option<string>,
    search: Option<string>,
    sort: Option<string>,
    status: Option<string>)

  datatype Pagination = Pagination(total: nat, page: int, pages: int)

  datatype Listing = Listing(items: seq<Mission>, pagination: Pagination)

  /** The reply, and the texts sent to the vector service's /create-vector. */
  datatype ListOutcome = ListOutcome(response: Result<Listing>, vectorRequests: seq<string>)

  /** The parameters after defaulting (lines 29-33). */
  datatype ListParams = ListParams(page: int, limit: int, search: string, sort: string, status: string)

  function ParamsOf(q: ListQuery): (p: ListParams)
    ensures p.page != 0 && p.limit != 0
  {
    ListParams(
      IntParamOr(q.page, DefaultPage),
      IntParamOr(q.limit, DefaultLimit),
      StringParamOr(q.search, ""),
      StringParamOr(q.sort, DefaultSort),
      StringParamOr(q.status, AllStatuses))
  }

  /** The reply of lines 115-122, or the error of the strategy that failed. */
  function Respond(found: Result<Found>, page: int, limit: int): (r: Result<Listing>)
    requires limit != 0
    ensures found.Err? ==> r == Err(found.error)
    ensures found.Ok? ==>
      && r.Ok? && r.value.items == found.value.rows
      && r.value.pagination.total == found.value.total && r.value.pagination.page == page
      && (limit > 0 ==> r.value.pagination.pages >= 1)
  {
    match found
    case Err(e) => Err(e)
    case Ok(f) => Ok(Listing(f.rows, Pagination(f.total, page, PageCount(f.total, limit))))
  }

  /** The handler once its parameters are read. */
  function Serve(table: seq<Mission>, owner: UserId, p: ListParams, aiServiceUrl: string,
                 vectorReply: Option<Vector>, dist: (Vector, Vector) -> int): (o: ListOutcome)
    requires p.limit != 0
    ensures o.vectorRequests == if p.search != "" && aiServiceUrl != "" then [p.search] else []
    ensures o.response.Err? ==> o.response.error == SearchFailed
  {
    var offset := Offset(p.page, p.limit);
    var requests := if p.search != "" && aiServiceUrl != "" then [p.search] else [];
    var vector := if requests != [] then vectorReply else None;
    var found :=
      if p.search == "" then PlainListing(table, owner, p.status, p.sort, offset, p.limit)
      else if vector.Some? then HybridSearch(table, owner, p.status, p.search, vector.value, dist, offset, p.limit)
      else KeywordSearch(table, owner, p.status, p.search, offset, p.limit);
    ListOutcome(Respond(found, p.page, p.limit), requests)
  }

  /** GET / for the requester `owner`. `aiServiceUrl` is the configured
      service address ("" when unset); `vectorReply` is what /create-vector
      answers, None when the call throws or the reply has no vector; `dist`
      is the cosine distance of a stored embedding to the query vector. */
  function List(table: seq<Mission>, owner: UserId, q: ListQuery, aiServiceUrl: string,
                vectorReply: Option<Vector>, dist: (Vector, Vector) -> int): (o: ListOutcome)
    ensures o.vectorRequests != [] ==> q.search.Some? && o.vectorRequests == [q.search.value]
    ensures o.vectorRequests != [] <==> q.search.Some? && q.search.value != "" && aiServiceUrl != ""
    ensures o.response.Err? ==> o.response.error == SearchFailed
  {
    Serve(table, owner, ParamsOf(q), aiServiceUrl, vectorReply, dist)
  }

  // ---------------------------------------------------------------------
  // Properties of the handler

  /** A missing, empty, non-numeric or zero `page`/`limit` reads as 1/5;
      missing or empty `search`, `sort` and `status` read as "", "desc" and
      "All". */
  lemma ParamsDefaults(q: ListQuery)
    ensures var p := ParamsOf(q);
      && (q.page.None? || ParseInt(q.page.value) in {None, Some(0)} ==> p.page == DefaultPage)
      && (q.limit.None? || ParseInt(q.limit.value) in {None, Some(0)} ==> p.limit == DefaultLimit)
      && (q.search.None? || q.search.value == "" ==> p.search == "")
      && (q.sort.None? || q.sort.value == "" ==> p.sort == DefaultSort)
      && (q.status.None? || q.status.value == "" ==> p.status == AllStatuses)
  {
  }

  /** Every row the handler returns is one of the requester's rows of the
      table, at most |limit| of them; for a positive limit the page count is
      at least one, and one when the total is zero. */
  lemma ListedRowsComeFromTable(table: seq<Mission>, owner: UserId, p: ListParams, aiServiceUrl: string,
                                vectorReply: Option<Vector>, dist: (Vector, Vector) -> int)
    requires p.limit != 0
    ensures var o := Serve(table, owner, p, aiServiceUrl, vectorReply, dist);
      o.response.Ok? ==>
        var listing := o.response.value;
        && (forall m :: m in listing.items ==> m in table && m.owner == owner)
        && |listing.items| <= Abs(p.limit)
        && listing.pagination.page == p.page
        && (p.limit > 0 ==> |listing.items| <= p.limit && listing.pagination.pages >= 1
                            && (listing.pagination.total == 0 ==> listing.pagination.pages == 1))
  {
    var o := Serve(table, owner, p, aiServiceUrl, vectorReply, dist);
    if o.response.Ok? && p.limit > 0 {
      PageCountIsCeiling(o.response.value.pagination.total, p.limit);
    }
  }

  /** A mission that is not in the table (a deleted one) is never listed. */
  lemma AbsentMissionIsNeverListed(table: seq<Mission>, owner: UserId, q: ListQuery, aiServiceUrl: string,
                                   vectorReply: Option<Vector>, dist: (Vector, Vector) -> int, id: MissionId)
    requires forall m :: m in table ==> m.id != id
    ensures var o := List(table, owner, q, aiServiceUrl, vectorReply, dist);
      o.response.Ok? ==> forall m :: m in o.response.value.items ==> m.id != id
  {
    ListedRowsComeFromTable(table, owner, ParamsOf(q), aiServiceUrl, vectorReply, dist);
  }

  /** Strategy A: an empty search text never consults the vector service;
      the rows are the requester's, with the requested status unless it is
      "All", in creation-date order; the total is the exact number of such
      rows. The query fails only for an unknown sort direction or a negative
      offset. */
  lemma PlainListingIsExact(table: seq<Mission>, owner: UserId, p: ListParams, aiServiceUrl: string,
                            vectorReply: Option<Vector>, dist: (Vector, Vector) -> int)
    requires p.limit != 0 && p.search == ""
    ensures var o := Serve(table, owner, p, aiServiceUrl, vectorReply, dist);
      && o.vectorRequests == []
      && (o.response.Ok? <==> ParseSort(p.sort).Some? && Offset(p.page, p.limit) >= 0)
      && (o.response.Err? ==> o.response.error == SearchFailed)
      && (o.response.Ok? ==>
            var listing := o.response.value;
            && (forall m :: m in listing.items ==> m in table && Visible(m, owner, p.status))
            && SortedBy(listing.items, CreatedKey(ParseSort(p.sort).value))
            && listing.pagination.total == Count(table, VisibleTo(owner, p.status))
            && (p.limit > 0 ==>
                  var ordered := DateOrdered(table, owner, p.status, ParseSort(p.sort).value);
                  var offset := Offset(p.page, p.limit);
                  && |listing.items| == Min(p.limit, Max(0, |ordered| - offset))
                  && forall i :: 0 <= i < |listing.items| ==> listing.items[i] == ordered[offset + i]))
  {
    var offset := Offset(p.page, p.limit);
    var found := PlainListing(table, owner, p.status, p.sort, offset, p.limit);
    var o := Serve(table, owner, p, aiServiceUrl, vectorReply, dist);
    assert o.response == Respond(found, p.page, p.limit);
    if found.Ok? {
      assert o.response.value.items == found.value.rows;
    }
  }

  /** Two plain listings with the same parameters agree whatever the vector
      service is configured to be or would answer. */
  lemma PlainListingIgnoresVectorService(table: seq<Mission>, owner: UserId, p: ListParams,
                                         url1: string, reply1: Option<Vector>, dist1: (Vector, Vector) -> int,
                                         url2: string, reply2: Option<Vector>, dist2: (Vector, Vector) -> int)
    requires p.limit != 0 && p.search == ""
    ensures Serve(table, owner, p, url1, reply1, dist1) == Serve(table, owner, p, url2, reply2, dist2)
  {
  }

  /** A plain listing of a page and a limit of at least one never fails
      for a known sort direction: its offset `(page - 1) * limit` is never
      negative. */
  lemma PlainListingPage(table: seq<Mission>, owner: UserId, p: ListParams, aiServiceUrl: string,
                         vectorReply: Option<Vector>, dist: (Vector, Vector) -> int)
    requires p.search == "" && ParseSort(p.sort).Some?
    requires p.page >= 1 && p.limit >= 1
    ensures Offset(p.page, p.limit) >= 0
    ensures Serve(table, owner, p, aiServiceUrl, vectorReply, dist).response.Ok?
  {
    OffsetOfFirstPages(p.page, p.limit);
    PlainListingIsExact(table, owner, p, aiServiceUrl, vectorReply, dist);
  }

  /** Strategy B with a query vector: one request to the vector service
      carrying the search text; every row is the requester's, passes the
      status filter and either has the search text in its title or an
      embedding within the threshold; rows are closest first; the page is a
      slice of the whole ranking; the total is the row count when the page is
      not full and 100 when it is. The raw query fails only for a negative
      offset or a negative limit. */
  lemma HybridSearchRanksByDistance(table: seq<Mission>, owner: UserId, p: ListParams, aiServiceUrl: string,
                                    query: Vector, dist: (Vector, Vector) -> int)
    requires p.limit != 0 && p.search != "" && aiServiceUrl != ""
    ensures var o := Serve(table, owner, p, aiServiceUrl, Some(query), dist);
      var offset := Offset(p.page, p.limit);
      var ranking := HybridRanking(table, owner, p.status, p.search, query, dist);
      && o.vectorRequests == [p.search]
      && (o.response.Ok? <==> offset >= 0 && p.limit > 0)
      && (o.response.Ok? ==>
            var items := o.response.value.items;
            && (forall m :: m in items ==> m in table && HybridHit(m, owner, p.status, p.search, query, dist))
            && SortedBy(items, DistanceKey(query, dist))
            && |items| == Min(p.limit, Max(0, |ranking| - offset))
            && (forall i :: 0 <= i < |items| ==> items[i] == ranking[offset + i])
            && o.response.value.pagination.total == (if |items| < p.limit then |items| else ApproximateTotal))
  {
    var o := Serve(table, owner, p, aiServiceUrl, Some(query), dist);
    if o.response.Ok? {
      var ranking := HybridRanking(table, owner, p.status, p.search, query, dist);
      WindowKeepsOrder(ranking, Offset(p.page, p.limit), p.limit, DistanceKey(query, dist));
      HybridRankingIsComplete(table, owner, p.status, p.search, query, dist);
    }
  }

  /** The keyword fallback: with no service configured (no request at all)
      or no vector in its answer, the rows are the requester's, pass the
      status filter and contain the search text in their title ignoring
      case; the total is the number of rows returned. */
  lemma KeywordFallback(table: seq<Mission>, owner: UserId, p: ListParams, aiServiceUrl: string,
                        vectorReply: Option<Vector>, dist: (Vector, Vector) -> int)
    requires p.limit != 0 && p.search != "" && (aiServiceUrl == "" || vectorReply.None?)
    ensures var o := Serve(table, owner, p, aiServiceUrl, vectorReply, dist);
      var offset := Offset(p.page, p.limit);
      var hits := Filter(table, KeywordMatch(owner, p.status, p.search));
      && o.vectorRequests == (if aiServiceUrl == "" then [] else [p.search])
      && (o.response.Ok? <==> offset >= 0)
      && (o.response.Ok? ==>
            var items := o.response.value.items;
            && (forall m :: m in items ==> m in table && KeywordHit(m, owner, p.status, p.search))
            && o.response.value.pagination.total == |items|
            && (p.limit > 0 ==>
                  && |items| == Min(p.limit, Max(0, |hits| - offset))
                  && forall i :: 0 <= i < |items| ==> items[i] == hits[offset + i]))
  {
    var o := Serve(table, owner, p, aiServiceUrl, vectorReply, dist);
    var offset := Offset(p.page, p.limit);
    KeywordPath(table, owner, p, aiServiceUrl, vectorReply, dist);
    KeywordReply(table, owner, p.status, p.search, offset, p.page, p.limit);
    assert o.response == Respond(KeywordSearch(table, owner, p.status, p.search, offset, p.limit), p.page, p.limit);
  }

  /** Without a query vector, the handler answers with the keyword search. */
  lemma KeywordPath(table: seq<Mission>, owner: UserId, p: ListParams, aiServiceUrl: string,
                    vectorReply: Option<Vector>, dist: (Vector, Vector) -> int)
    requires p.limit != 0 && p.search != "" && (aiServiceUrl == "" || vectorReply.None?)
    ensures Serve(table, owner, p, aiServiceUrl, vectorReply, dist)
         == ListOutcome(Respond(KeywordSearch(table, owner, p.status, p.search, Offset(p.page, p.limit), p.limit), p.page, p.limit),
                        if aiServiceUrl == "" then [] else [p.search])
  {
  }

  /** The reply built from the keyword search. */
  lemma KeywordReply(table: seq<Mission>, owner: UserId, status: string, search: string,
                     offset: int, page: int, limit: int)
    requires limit != 0
    ensures var r := Respond(KeywordSearch(table, owner, status, search, offset, limit), page, limit);
      var hits := Filter(table, KeywordMatch(owner, status, search));
      && (r.Ok? <==> offset >= 0)
      && (r.Ok? ==>
            var items := r.value.items;
            && (forall m :: m in items ==> m in table && KeywordHit(m, owner, status, search))
            && r.value.pagination.total == |items|
            && (limit > 0 ==>
                  && |items| == Min(limit, Max(0, |hits| - offset))
                  && forall i :: 0 <= i < |items| ==> items[i] == hits[offset + i]))
  {
  }

  /** `?page=2&limit=5` reads as page 2 of five rows, date-descending, all statuses. */
  lemma PageTwoOfFive()
    ensures ParamsOf(ListQuery(Some("2"), Some("5"), None, None, None))
         == ListParams(2, 5, "", DefaultSort, AllStatuses)
  {
    assert Decimal(2) == "2" && Decimal(5) == "5";
    IntParamDecimal(2, DefaultPage);
    IntParamDecimal(5, DefaultLimit);
  }

  /** Scenario: seven matching missions, `?page=2&limit=5` → two rows, two pages. */
  lemma SecondPageOfSeven(table: seq<Mission>, owner: UserId, aiServiceUrl: string,
                          vectorReply: Option<Vector>, dist: (Vector, Vector) -> int)
    requires Count(table, VisibleTo(owner, AllStatuses)) == 7
    ensures var o := List(table, owner, ListQuery(Some("2"), Some("5"), None, None, None),
                          aiServiceUrl, vectorReply, dist);
      && o.response.Ok?
      && |o.response.value.items| == 2
      && o.response.value.pagination == Pagination(7, 2, 2)
  {
    var p := ListParams(2, 5, "", DefaultSort, AllStatuses);
    PageTwoOfFive();
    assert Offset(2, 5) == 5;
    var visible := Filter(table, VisibleTo(owner, AllStatuses));
    var ordered := SortBy(visible, CreatedKey(Desc));
    assert |ordered| == |multiset(ordered)| == |multiset(visible)| == 7;
    PlainListingIsExact(table, owner, p, aiServiceUrl, vectorReply, dist);
    PageCountIsCeiling(7, 5);
  }
}
