/**
 * The `payments_read_model` table and its repository. The table is a sequence of rows in
 * insertion order with the primary key `payment_id`, kept as the class invariant. `upsert`
 * inserts a new payment or, on a key conflict, overwrites only the status; `updateStatus`
 * overwrites the status of an existing row and never inserts. `findAll` filters, counts,
 * orders by `created_at DESC` and returns one `LIMIT`/`OFFSET` page.
 */
module PaymentReadRepositoryImpl {
  import opened Results

  /** A row of the read table; `createdAt` is a timestamp. */
  datatype PaymentReadModel = PaymentReadModel(
    paymentId: string,
    walletId: string,
    amount: int,
    currency: string,
    recipientWalletId: string,
    concept: string,
    status: string,
    createdAt: int)

  /** `walletId` and `status` are optional filters; `None` and `""` impose nothing. */
  datatype FindAllFilters = FindAllFilters(walletId: Option<string>, status: Option<string>, page: int, limit: int)

  datatype FindAllResult = FindAllResult(data: seq<PaymentReadModel>, total: nat)

  /** The primary key `payment_id`: no two rows share a payment id. */
  ghost predicate UniqueIds(rows: seq<PaymentReadModel>) {
    forall i, j :: 0 <= i < j < |rows| ==> rows[i].paymentId != rows[j].paymentId
  }

  /** The position of the row keyed `paymentId`, if any. */
  function IndexOf(rows: seq<PaymentReadModel>, paymentId: string): (r: Option<nat>)
    ensures r.None? <==> forall i :: 0 <= i < |rows| ==> rows[i].paymentId != paymentId
    ensures r.Some? ==> r.value < |rows| && rows[r.value].paymentId == paymentId
    ensures r.Some? ==> forall i :: 0 <= i < r.value ==> rows[i].paymentId != paymentId
  {
    if rows == [] then None
    else if rows[0].paymentId == paymentId then Some(0)
    else
      match IndexOf(rows[1..], paymentId)
      case None => None
      case Some(k) => Some(k + 1)
  }

  /** The lookup by primary key: the row keyed `paymentId`, or nothing. */
  function Lookup(rows: seq<PaymentReadModel>, paymentId: string): (r: Option<PaymentReadModel>)
    ensures r.None? <==> forall i :: 0 <= i < |rows| ==> rows[i].paymentId != paymentId
    ensures r.Some? ==> r.value in rows && r.value.paymentId == paymentId
  {
    match IndexOf(rows, paymentId)
    case None => None
    case Some(i) => Some(rows[i])
  }

  /** Under the primary key, the row `Lookup` finds is the only one with that id. */
  lemma LookupIsTheKeyedRow(rows: seq<PaymentReadModel>, paymentId: string, i: nat)
    requires UniqueIds(rows) && i < |rows| && rows[i].paymentId == paymentId
    ensures Lookup(rows, paymentId) == Some(rows[i])
  {
  }

  /** The table after an insert that, on a clash of payment ids, only overwrites the status. */
  function Upserted(rows: seq<PaymentReadModel>, payment: PaymentReadModel): seq<PaymentReadModel> {
    match IndexOf(rows, payment.paymentId)
    case None => rows + [payment]
    case Some(i) => rows[i := rows[i].(status := payment.status)]
  }

  /** The table after a status-only update of the row keyed `paymentId`. */
  function StatusUpdated(rows: seq<PaymentReadModel>, paymentId: string, status: string): seq<PaymentReadModel> {
    seq(|rows|, i requires 0 <= i < |rows| =>
      if rows[i].paymentId == paymentId then rows[i].(status := status) else rows[i])
  }

  /** An upsert keeps the primary key. */
  lemma UpsertKeepsUniqueIds(rows: seq<PaymentReadModel>, payment: PaymentReadModel)
    requires UniqueIds(rows)
    ensures UniqueIds(Upserted(rows, payment))
  {
  }

  /**
   * What an upsert does to each key: a new payment is stored as given; an existing one keeps
   * every field but the status, which takes the new value; every other payment is untouched.
   */
  lemma UpsertLookup(rows: seq<PaymentReadModel>, payment: PaymentReadModel, q: string)
    ensures Lookup(Upserted(rows, payment), q) ==
      if q != payment.paymentId then Lookup(rows, q)
      else if Lookup(rows, q).None? then Some(payment)
      else Some(Lookup(rows, q).value.(status := payment.status))
  {
    var u := Upserted(rows, payment);
    match IndexOf(rows, payment.paymentId)
    case None =>
      assert u == rows + [payment];
      if q == payment.paymentId {
        assert forall k :: 0 <= k < |rows| ==> u[k] == rows[k];
        assert u[|rows|] == payment;
      } else {
        IndexOfSnocOther(rows, payment, q);
      }
    case Some(i) =>
      IndexOfSameIds(rows, u, q);
  }

  lemma IndexOfSnocOther(rows: seq<PaymentReadModel>, e: PaymentReadModel, q: string)
    requires e.paymentId != q
    ensures IndexOf(rows + [e], q) == IndexOf(rows, q)
  {
    match IndexOf(rows, q)
    case None =>
    case Some(i) => assert (rows + [e])[i] == rows[i];
  }

  /** Two tables with the same ids in the same places find a key at the same place. */
  lemma IndexOfSameIds(a: seq<PaymentReadModel>, b: seq<PaymentReadModel>, q: string)
    requires |a| == |b| && forall i :: 0 <= i < |a| ==> a[i].paymentId == b[i].paymentId
    ensures IndexOf(a, q) == IndexOf(b, q)
  {
    match IndexOf(a, q)
    case None =>
    case Some(i) =>
  }

  /** The insert adds one row; the conflict branch keeps the row count. */
  lemma UpsertRowCount(rows: seq<PaymentReadModel>, payment: PaymentReadModel)
    ensures |Upserted(rows, payment)| == if Lookup(rows, payment.paymentId).None? then |rows| + 1 else |rows|
  {
  }

  /** Upserting the same row twice leaves the table as one upsert does. */
  lemma UpsertIdempotent(rows: seq<PaymentReadModel>, payment: PaymentReadModel)
    ensures Upserted(Upserted(rows, payment), payment) == Upserted(rows, payment)
  {
    var u := Upserted(rows, payment);
    match IndexOf(rows, payment.paymentId)
    case None =>
      assert forall k :: 0 <= k < |rows| ==> u[k] == rows[k];
      assert u[|rows|] == payment;
    case Some(i) =>
      IndexOfSameIds(rows, u, payment.paymentId);
  }

  /** A status update keeps the primary key. */
  lemma StatusUpdateKeepsUniqueIds(rows: seq<PaymentReadModel>, paymentId: string, status: string)
    requires UniqueIds(rows)
    ensures UniqueIds(StatusUpdated(rows, paymentId, status))
  {
  }

  /**
   * What a status update does to each key: the row keyed `paymentId`, if there is one, gets
   * the new status and keeps its other fields; no row is added and every other key is untouched.
   */
  lemma StatusUpdateLookup(rows: seq<PaymentReadModel>, paymentId: string, status: string, q: string)
    ensures |StatusUpdated(rows, paymentId, status)| == |rows|
    ensures Lookup(StatusUpdated(rows, paymentId, status), q) ==
      if q == paymentId && Lookup(rows, q).Some? then Some(Lookup(rows, q).value.(status := status))
      else Lookup(rows, q)
  {
    IndexOfSameIds(rows, StatusUpdated(rows, paymentId, status), q);
  }

  /** Updating the status of a payment the table does not hold changes nothing. */
  lemma StatusUpdateOfAbsentKey(rows: seq<PaymentReadModel>, paymentId: string, status: string)
    requires Lookup(rows, paymentId).None?
    ensures StatusUpdated(rows, paymentId, status) == rows
  {
  }

  /** Setting the same status twice equals setting it once. */
  lemma StatusUpdateIdempotent(rows: seq<PaymentReadModel>, paymentId: string, status: string)
    ensures StatusUpdated(StatusUpdated(rows, paymentId, status), paymentId, status)
            == StatusUpdated(rows, paymentId, status)
  {
  }

  /** `if (filters.x)`: a filter constrains only when it is present and not the empty string. */
  predicate FilterAdmits(filter: Option<string>, value: string) {
    filter.None? || filter.value == "" || value == filter.value
  }

  /** The `WHERE` clause `findAll` assembles. */
  predicate Matches(row: PaymentReadModel, filters: FindAllFilters) {
    FilterAdmits(filters.walletId, row.walletId) && FilterAdmits(filters.status, row.status)
  }

  /** The rows the `WHERE` clause keeps, in table order: each matching row as often as it occurs. */
  function Matching(rows: seq<PaymentReadModel>, filters: FindAllFilters): (r: seq<PaymentReadModel>)
    ensures forall x :: multiset(r)[x] == if Matches(x, filters) then multiset(rows)[x] else 0
    ensures |r| <= |rows|
  {
    if rows == [] then []
    else
      assert rows == [rows[0]] + rows[1..];
      (if Matches(rows[0], filters) then [rows[0]] else []) + Matching(rows[1..], filters)
  }

  /** The count query of `findAll`: one for every matching row. */
  function MatchCount(rows: seq<PaymentReadModel>, filters: FindAllFilters): nat {
    if rows == [] then 0
    else MatchCount(rows[1..], filters) + (if Matches(rows[0], filters) then 1 else 0)
  }

  /** The count query and the data query see the same rows. */
  lemma {:induction false} MatchCountIsMatchingLength(rows: seq<PaymentReadModel>, filters: FindAllFilters)
    ensures MatchCount(rows, filters) == |Matching(rows, filters)|
    decreases |rows|
  {
    if rows != [] {
      MatchCountIsMatchingLength(rows[1..], filters);
    }
  }

  /** `ORDER BY created_at DESC`. */
  ghost predicate NewestFirst(s: seq<PaymentReadModel>) {
    forall i, j :: 0 <= i < j < |s| ==> s[i].createdAt >= s[j].createdAt
  }

  /** Places `x` after the rows newer than it. */
  function InsertByNewest(x: PaymentReadModel, s: seq<PaymentReadModel>): (r: seq<PaymentReadModel>)
    ensures multiset(r) == multiset(s) + multiset{x}
  {
    if s == [] then [x]
    else if x.createdAt >= s[0].createdAt then [x] + s
    else
      assert s == [s[0]] + s[1..];
      [s[0]] + InsertByNewest(x, s[1..])
  }

  /** No row of `s` is newer than `c`. */
  ghost predicate NoneNewerThan(s: seq<PaymentReadModel>, c: int) {
    forall k :: 0 <= k < |s| ==> s[k].createdAt <= c
  }

  /** A row followed by rows no newer than it, themselves newest-first, is newest-first. */
  lemma ConsNewestFirst(h: PaymentReadModel, t: seq<PaymentReadModel>)
    requires NewestFirst(t) && NoneNewerThan(t, h.createdAt)
    ensures NewestFirst([h] + t)
  {
    var r := [h] + t;
    forall i, j | 0 <= i < j < |r| ensures r[i].createdAt >= r[j].createdAt {
      assert r[j] == t[j - 1];
      if i > 0 {
        assert r[i] == t[i - 1];
      }
    }
  }

  /** Inserting a row no newer than `c` into rows no newer than `c` gives rows no newer than `c`. */
  lemma InsertNoneNewerThan(x: PaymentReadModel, s: seq<PaymentReadModel>, c: int)
    requires NoneNewerThan(s, c) && x.createdAt <= c
    ensures NoneNewerThan(InsertByNewest(x, s), c)
  {
    var t := InsertByNewest(x, s);
    forall k | 0 <= k < |t| ensures t[k].createdAt <= c {
      assert t[k] in multiset(t);
      if t[k] != x {
        assert t[k] in multiset(s);
        var j :| 0 <= j < |s| && s[j] == t[k];
      }
    }
  }

  /** Inserting into a newest-first sequence keeps it newest-first. */
  lemma {:induction false} InsertKeepsNewestFirst(x: PaymentReadModel, s: seq<PaymentReadModel>)
    requires NewestFirst(s)
    ensures NewestFirst(InsertByNewest(x, s))
    decreases |s|
  {
    if s == [] {
    } else if x.createdAt >= s[0].createdAt {
      ConsNewestFirst(x, s);
    } else {
      var tail := s[1..];
      InsertKeepsNewestFirst(x, tail);
      assert NoneNewerThan(tail, s[0].createdAt);
      InsertNoneNewerThan(x, tail, s[0].createdAt);
      ConsNewestFirst(s[0], InsertByNewest(x, tail));
    }
  }

  /** The order the data query returns; rows with equal `created_at` keep no particular order in the source. */
  function ByNewest(s: seq<PaymentReadModel>): (r: seq<PaymentReadModel>)
    ensures NewestFirst(r) && multiset(r) == multiset(s)
  {
    if s == [] then []
    else
      assert s == [s[0]] + s[1..];
      InsertKeepsNewestFirst(s[0], ByNewest(s[1..]));
      InsertByNewest(s[0], ByNewest(s[1..]))
  }

  /** `OFFSET (page - 1) * limit`. */
  function Offset(page: int, limit: int): int {
    (page - 1) * limit
  }

  /** `LIMIT limit OFFSET offset` over the ordered rows; an offset past the end gives nothing. */
  function Window(s: seq<PaymentReadModel>, offset: nat, limit: nat): (r: seq<PaymentReadModel>)
    ensures forall x :: x in r ==> x in s
    ensures NewestFirst(s) ==> NewestFirst(r)
    ensures |r| == if offset >= |s| then 0 else if offset + limit <= |s| then limit else |s| - offset
    ensures forall k :: 0 <= k < |r| ==> r[k] == s[offset + k]
  {
    var lo := if offset < |s| then offset else |s|;
    var hi := if offset + limit < |s| then offset + limit else |s|;
    s[lo..hi]
  }

  /** `findAll` over a table: the page of ordered matching rows and the count of all matching rows. */
  function FindAllOver(rows: seq<PaymentReadModel>, filters: FindAllFilters): (r: FindAllResult)
    requires filters.limit >= 0 && Offset(filters.page, filters.limit) >= 0
    ensures r.total == MatchCount(rows, filters) && r.total <= |rows|
    ensures forall x :: x in r.data ==> x in rows && Matches(x, filters)
    ensures NewestFirst(r.data)
    ensures |r.data| <= filters.limit
    ensures var offset := Offset(filters.page, filters.limit);
            |r.data| == if offset >= r.total then 0
                        else if offset + filters.limit <= r.total then filters.limit
                        else r.total - offset
    ensures r.data == Window(ByNewest(Matching(rows, filters)), Offset(filters.page, filters.limit), filters.limit)
  {
    MatchCountIsMatchingLength(rows, filters);
    SortedMatchesFacts(rows, filters);
    FindAllResult(Window(ByNewest(Matching(rows, filters)), Offset(filters.page, filters.limit), filters.limit),
                  |Matching(rows, filters)|)
  }

  /** The ordered matching rows are as many as the matching rows, and each is a matching row of the table. */
  lemma SortedMatchesFacts(rows: seq<PaymentReadModel>, filters: FindAllFilters)
    ensures |ByNewest(Matching(rows, filters))| == |Matching(rows, filters)|
    ensures forall x :: x in ByNewest(Matching(rows, filters)) ==> x in rows && Matches(x, filters)
  {
    var m := Matching(rows, filters);
    var sorted := ByNewest(m);
    assert |multiset(sorted)| == |multiset(m)|;
    forall x | x in sorted ensures x in rows && Matches(x, filters) {
      assert x in multiset(m);
    }
  }

  /** For a positive limit, every matching row shows up on some page: the one `page` names. */
  lemma PagesCoverEveryMatch(rows: seq<PaymentReadModel>, filters: FindAllFilters, x: PaymentReadModel)
    returns (page: int)
    requires filters.limit >= 1 && x in rows && Matches(x, filters)
    ensures page >= 1 && x in FindAllOver(rows, filters.(page := page)).data
  {
    var m := Matching(rows, filters);
    var sorted := ByNewest(m);
    assert x in multiset(sorted);
    var i :| 0 <= i < |sorted| && sorted[i] == x;
    var limit := filters.limit;
    page := i / limit + 1;
    PageOfIndex(i, limit);
    var offset := Offset(page, limit);
    var f := filters.(page := page);
    MatchingSameFilter(rows, filters, f);
    var w := FindAllOver(rows, f).data;
    assert w == Window(sorted, offset, limit);
    WindowHoldsIndex(sorted, offset, limit, i);
    assert x in w;
  }

  lemma WindowHoldsIndex(s: seq<PaymentReadModel>, offset: nat, limit: nat, i: nat)
    requires offset <= i < offset + limit && i < |s|
    ensures s[i] in Window(s, offset, limit)
  {
    assert Window(s, offset, limit)[i - offset] == s[i];
  }

  lemma PageOfIndex(i: nat, limit: int)
    requires limit >= 1
    ensures i / limit >= 0
    ensures 0 <= Offset(i / limit + 1, limit) <= i < Offset(i / limit + 1, limit) + limit
  {
    assert i == (i / limit) * limit + i % limit;
  }

  /** The filters decide the matching rows; page and limit play no part. */
  lemma {:induction false} MatchingSameFilter(rows: seq<PaymentReadModel>, f: FindAllFilters, g: FindAllFilters)
    requires f.walletId == g.walletId && f.status == g.status
    ensures Matching(rows, f) == Matching(rows, g)
    decreases |rows|
  {
    if rows != [] {
      MatchingSameFilter(rows[1..], f, g);
    }
  }

  class PaymentReadRepository {
    var rows: seq<PaymentReadModel>

    ghost predicate Valid()
      reads this
    {
      UniqueIds(rows)
    }

    constructor ()
      ensures Valid() && rows == []
    {
      rows := [];
    }

    /** `findById`: the row keyed `paymentId`, null when the table has none. */
    function FindById(paymentId: string): (r: Option<PaymentReadModel>)
      reads this
      ensures r.None? <==> forall i :: 0 <= i < |rows| ==> rows[i].paymentId != paymentId
      ensures r.Some? ==> r.value in rows && r.value.paymentId == paymentId
      ensures Valid() ==> forall i :: 0 <= i < |rows| && rows[i].paymentId == paymentId ==> r == Some(rows[i])
    {
      forall i | 0 <= i < |rows| && rows[i].paymentId == paymentId && Valid()
        ensures Lookup(rows, paymentId) == Some(rows[i])
      {
        LookupIsTheKeyedRow(rows, paymentId, i);
      }
      Lookup(rows, paymentId)
    }

    /** `findAll`: the database refuses a negative `LIMIT` or `OFFSET`. */
    function FindAll(filters: FindAllFilters): (r: FindAllResult)
      reads this
      requires filters.limit >= 0 && Offset(filters.page, filters.limit) >= 0
      ensures r == FindAllOver(rows, filters)
    {
      FindAllOver(rows, filters)
    }

    /** `upsert`: the table becomes `Upserted(rows, payment)`; the primary key still holds. */
    method Upsert(payment: PaymentReadModel)
      requires Valid()
      modifies this
      ensures Valid()
      ensures rows == Upserted(old(rows), payment)
    {
      UpsertKeepsUniqueIds(rows, payment);
      var i := IndexOf(rows, payment.paymentId);
      if i.None? {
        rows := rows + [payment];
      } else {
        rows := rows[i.value := rows[i.value].(status := payment.status)];
      }
    }

    /** `updateStatus`: the table becomes `StatusUpdated(rows, paymentId, status)`. */
    method UpdateStatus(paymentId: string, status: string)
      requires Valid()
      modifies this
      ensures Valid()
      ensures rows == StatusUpdated(old(rows), paymentId, status)
    {
      StatusUpdateKeepsUniqueIds(rows, paymentId, status);
      rows := StatusUpdated(rows, paymentId, status);
    }
  }
}
