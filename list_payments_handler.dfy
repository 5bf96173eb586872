/**
 * ListPaymentsHandler: pass the query's filters and page to `findAll` and wrap its answer
 * with the page metadata, `totalPages` being `Math.ceil(total / limit)`.
 */
module ListPayments {
  import opened Results
  import opened PaymentEvents
  import opened PaymentReadRepositoryImpl

  datatype PageMeta = PageMeta(total: nat, page: int, limit: int, totalPages: nat)

  datatype PaginatedPayments = PaginatedPayments(data: seq<PaymentReadModel>, meta: PageMeta)

  /** `Math.ceil(n / d)` for a positive divisor: the least `k` with `k * d >= n`. */
  function CeilDiv(n: nat, d: int): (k: nat)
    requires d >= 1
    ensures k * d >= n
    ensures k == 0 || (k - 1) * d < n
  {
    if n == 0 then 0
    else
      var q := (n - 1) / d;
      assert n - 1 == q * d + (n - 1) % d;
      assert (q + 1) * d == q * d + d;
      q + 1
  }

  /** No smaller page count covers `n` rows. */
  lemma CeilDivIsLeast(n: nat, d: int, k: nat)
    requires d >= 1 && k * d >= n
    ensures CeilDiv(n, d) <= k
  {
    var c := CeilDiv(n, d);
    if c > k {
      MultiplyMonotone(k, c - 1, d);
    }
  }

  lemma MultiplyMonotone(a: nat, b: nat, d: int)
    requires a <= b && d >= 1
    ensures a * d <= b * d
  {
  }

  lemma OffsetOfValidPage(page: int, limit: int)
    requires page >= 1 && limit >= 1
    ensures Offset(page, limit) >= 0
  {
    MultiplyMonotone(0, page - 1, limit);
  }

  /** The filters `findAll` receives: the query's fields unchanged, the status as its stored name. */
  function FiltersOf(query: ListPaymentsQuery): FindAllFilters {
    FindAllFilters(query.walletId,
                   if query.status.Some? then Some(StatusName(query.status.value)) else None,
                   query.page, query.limit)
  }

  class ListPaymentsHandler {
    const paymentReadRepository: PaymentReadRepository

    constructor (paymentReadRepository: PaymentReadRepository)
      ensures this.paymentReadRepository == paymentReadRepository
    {
      this.paymentReadRepository := paymentReadRepository;
    }

    /**
     * `execute`: data and total exactly as `findAll` returned them for the query's own
     * filters and page, page and limit echoed, and the least page count that holds `total`.
     */
    function Execute(query: ListPaymentsQuery): (r: PaginatedPayments)
      reads paymentReadRepository
      requires query.page >= 1 && query.limit >= 1
      ensures Offset(query.page, query.limit) >= 0
      ensures var found := paymentReadRepository.FindAll(FiltersOf(query));
              r.data == found.data && r.meta.total == found.total
      ensures r.meta.page == query.page && r.meta.limit == query.limit
      ensures r.meta.totalPages == CeilDiv(r.meta.total, query.limit)
    {
      OffsetOfValidPage(query.page, query.limit);
      var found := paymentReadRepository.FindAll(FiltersOf(query));
      PaginatedPayments(found.data, PageMeta(found.total, query.page, query.limit, CeilDiv(found.total, query.limit)))
    }
  }
}
