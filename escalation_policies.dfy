/**
 * GET /api/escalation-policies/list: the caller's page/size contract turned into the
 * upstream directory's offset/limit contract, and the upstream answer turned back
 * into page metadata.
 */
module EscalationPolicies {
  import opened Wrappers

  /** The bound query parameters (`EscalationPolicyRequest`). */
  datatype PageRequest = PageRequest(page: int, size: int, includeTotal: bool, query: string, teamIds: seq<string>)

  /** A request carrying only the declared defaults. */
  const DefaultRequest := PageRequest(1, 10, false, "", [])

  const MaxPageSize := 100

  /** What the handler asks the external directory for. */
  datatype UpstreamQuery = UpstreamQuery(limit: int, offset: int, includeTotal: bool, query: string)

  /** An escalation policy, passed through untouched. */
  datatype Policy = Policy(id: string, name: string, summary: string)

  /** The upstream response body; every field may be absent. */
  datatype PolicyPage = PolicyPage(policies: Option<seq<Policy>>, limit: Option<int>, offset: Option<int>, more: Option<bool>, total: Option<int>)

  /** The external client's three outcomes: a body, an empty `Optional`, or an exception. */
  datatype Upstream = Answered(data: PolicyPage) | NoAnswer | Threw(message: string)

  datatype Pagination = Pagination(
    currentPage: int, pageSize: int, totalRecords: int, totalPages: int,
    hasNext: bool, hasPrevious: bool, offset: int, limit: int)

  datatype Response =
    | BadRequest(error: string)
    | Ok(policies: seq<Policy>, pagination: Pagination)
    | ServerError(error: string, details: string)

  const PageInvalid := "Page number must be greater than 0"
  const SizeInvalid := "Page size must be between 1 and 100"
  const FetchFailed := "Failed to retrieve escalation policies. Please try again."

  /** Both parameter checks pass. */
  predicate ValidRequest(req: PageRequest) {
    req.page >= 1 && 1 <= req.size <= MaxPageSize
  }

  /** The 0-based position of the page's first record, computed without overflow. */
  function Offset(page: int, size: int): (offset: int)
    requires page >= 1 && size >= 1
    ensures offset >= 0
    ensures offset == 0 <==> page == 1
  {
    MulPositive(page - 1, size);
    (page - 1) * size
  }

  lemma MulPositive(a: int, b: int)
    requires a >= 0 && b >= 1
    ensures a * b >= 0 && (a * b == 0 <==> a == 0)
  {
    if a > 0 {
      MulMonotone(1, a, b);
    }
  }

  /** Multiplying by a positive factor keeps the order. */
  lemma MulMonotone(x: int, y: int, b: int)
    requires x <= y && b >= 1
    ensures x * b <= y * b
  {
    assert y * b - x * b == (y - x) * b;
  }

  /** The query sent for a valid request: the page size as limit, the total always requested. */
  function QueryFor(req: PageRequest): (q: UpstreamQuery)
    requires ValidRequest(req)
    ensures q.limit == req.size && q.offset == (req.page - 1) * req.size >= 0
    ensures q.offset == 0 <==> req.page == 1
    ensures q.includeTotal && q.query == req.query
  {
    UpstreamQuery(req.size, Offset(req.page, req.size), true, req.query)
  }

  /**
   * `(int) Math.ceil((double) total / size)`. The quotient of an int by a size of at most
   * 100 is never within rounding distance of an integer it is not equal to, so the
   * double computation is exact and this is the integer ceiling.
   */
  function CeilDiv(total: int, size: int): (pages: int)
    requires size >= 1
    ensures (pages - 1) * size < total <= pages * size
  {
    var q := (total + size - 1) / size;
    assert q * size + (total + size - 1) % size == total + size - 1;
    q
  }

  /** The number of pages is zero exactly when there are no records, and never negative for a real count. */
  lemma CeilDivZero(total: int, size: int)
    requires size >= 1 && total >= 0
    ensures CeilDiv(total, size) >= 0
    ensures CeilDiv(total, size) == 0 <==> total == 0
  {
    var q := CeilDiv(total, size);
    if q < 0 {
      MulMonotone(q, -1, size);
    } else if q > 0 {
      MulMonotone(0, q - 1, size);
    }
  }

  /** The metadata reported for an upstream answer. */
  function PageMetadata(req: PageRequest, data: PolicyPage): (p: Pagination)
    requires ValidRequest(req)
    ensures p.currentPage == req.page && p.pageSize == req.size && p.limit == req.size
    ensures p.totalRecords == data.total.GetOr(0)
    ensures (p.totalPages - 1) * req.size < p.totalRecords <= p.totalPages * req.size
    ensures p.hasNext <==> req.page < p.totalPages
    ensures p.offset == (req.page - 1) * req.size
    ensures p.hasPrevious <==> req.page > 1
    ensures p.hasPrevious <==> p.offset > 0
  {
    var total := data.total.GetOr(0);
    var pages := CeilDiv(total, req.size);
    Pagination(req.page, req.size, total, pages, req.page < pages, req.page > 1, Offset(req.page, req.size), req.size)
  }

  /** `listEscalationPolicies`, with the external client as the function `fetch`. */
  function ListEscalationPolicies(req: PageRequest, fetch: UpstreamQuery -> Upstream): (r: Response)
    ensures req.page < 1 ==> r == BadRequest(PageInvalid)
    ensures req.page >= 1 && !(1 <= req.size <= MaxPageSize) ==> r == BadRequest(SizeInvalid)
    ensures r.BadRequest? <==> !ValidRequest(req)
    ensures ValidRequest(req) && fetch(QueryFor(req)).Threw? ==>
      r == ServerError(FetchFailed, fetch(QueryFor(req)).message)
    ensures r.Ok? ==>
      && ValidRequest(req)
      && r.pagination.currentPage == req.page && r.pagination.pageSize == req.size
      && r.pagination.offset == (req.page - 1) * req.size >= 0
      && r.pagination.limit == req.size
    ensures ValidRequest(req) && fetch(QueryFor(req)).NoAnswer? ==>
      r == Ok([], Pagination(req.page, req.size, 0, 0, false, false, Offset(req.page, req.size), req.size))
    ensures ValidRequest(req) && fetch(QueryFor(req)).Answered? ==>
      var data := fetch(QueryFor(req)).data;
      && r.Ok?
      && r.policies == data.policies.GetOr([])
      && r.pagination.totalRecords == data.total.GetOr(0)
      && (r.pagination.totalPages - 1) * req.size < r.pagination.totalRecords <= r.pagination.totalPages * req.size
      && (r.pagination.hasNext <==> req.page < r.pagination.totalPages)
      && (r.pagination.hasPrevious <==> req.page > 1)
  {
    if req.page < 1 then BadRequest(PageInvalid)
    else if req.size < 1 || req.size > MaxPageSize then BadRequest(SizeInvalid)
    else match fetch(QueryFor(req))
      case Threw(m) => ServerError(FetchFailed, m)
      case NoAnswer => Ok([], Pagination(req.page, req.size, 0, 0, false, false, Offset(req.page, req.size), req.size))
      case Answered(data) => Ok(data.policies.GetOr([]), PageMetadata(req, data))
  }

  /** A request that fails validation gets the same answer whatever the upstream would say: it is never asked. */
  lemma InvalidRequestIgnoresUpstream(req: PageRequest, f: UpstreamQuery -> Upstream, g: UpstreamQuery -> Upstream)
    requires !ValidRequest(req)
    ensures ListEscalationPolicies(req, f) == ListEscalationPolicies(req, g)
  {
  }

  /**
   * The upstream is asked one thing: limit = size, offset = (page-1)*size, the total,
   * and the query unchanged, whatever `includeTotal` and `teamIds` the caller sent.
   */
  lemma OnlyQueryForIsAsked(req: PageRequest, f: UpstreamQuery -> Upstream, g: UpstreamQuery -> Upstream)
    requires ValidRequest(req) && f(QueryFor(req)) == g(QueryFor(req))
    ensures ListEscalationPolicies(req, f) == ListEscalationPolicies(req, g)
    ensures QueryFor(req) == UpstreamQuery(req.size, (req.page - 1) * req.size, true, req.query)
  {
  }

  /** The defaults pass both checks and ask for the first ten records. */
  lemma DefaultRequestQuery()
    ensures ValidRequest(DefaultRequest)
    ensures QueryFor(DefaultRequest) == UpstreamQuery(10, 0, true, "")
  {
  }

  /** There is a next page exactly when some record lies beyond the current one. */
  lemma HasNextIffMoreRecords(req: PageRequest, data: PolicyPage)
    requires ValidRequest(req)
    ensures var p := PageMetadata(req, data);
      p.hasNext <==> req.page * req.size < p.totalRecords
  {
    var p := PageMetadata(req, data);
    var q := p.totalPages;
    if req.page < q {
      MulMonotone(req.page, q - 1, req.size);
    } else {
      MulMonotone(q, req.page, req.size);
    }
  }

  /** Page 3 of size 10 starts at record 20; 21 records in pages of 5 make 5 pages, the last one partial. */
  lemma PaginationExamples()
    ensures QueryFor(PageRequest(3, 10, false, "", [])).offset == 20
    ensures CeilDiv(21, 5) == 5
    ensures CeilDiv(20, 5) == 4
  {
  }

  // ---------------------------------------------------------------- 32-bit offset

  predicate IsInt32(x: int) {
    -0x8000_0000 <= x < 0x8000_0000
  }

  /** Java `int` arithmetic: the mathematical result reduced into the 32-bit range. */
  function WrapInt32(x: int): (r: int)
    ensures IsInt32(r)
    ensures IsInt32(x) ==> r == x
    ensures (r - x) % 0x1_0000_0000 == 0
  {
    (x + 0x8000_0000) % 0x1_0000_0000 - 0x8000_0000
  }

  /** `(page - 1) * size` as the handler computes it, in 32-bit `int`. */
  function AsWrittenOffset(page: int, size: int): (offset: int)
    requires page >= 1 && size >= 1
    ensures IsInt32(offset)
    ensures IsInt32((page - 1) * size) ==> offset == Offset(page, size)
    ensures (offset - (page - 1) * size) % 0x1_0000_0000 == 0
  {
    WrapInt32((page - 1) * size)
  }

  /**
   * A page number that passes validation and is a valid `int` still overflows the
   * 32-bit product, and the upstream is sent a negative offset.
   */
  lemma AsWrittenOffsetOverflows()
    ensures ValidRequest(PageRequest(21474838, 100, false, "", []))
    ensures IsInt32(21474838)
    ensures AsWrittenOffset(21474838, 100) == -2147483596 < 0
    ensures Offset(21474838, 100) == 2147483700
  {
  }
}
