/**
 * The filtered listing of the index action: the query is built one `where`
 * clause at a time, one clause for each parameter the request carries, and
 * the rows that satisfy every clause are returned.
 */
module Listing {
  import opened Wrappers
  import opened Invoices

  /** The listing's query parameters; None where the request does not carry one. */
  datatype Filter = Filter(status: Option<string>, dueFrom: Option<Time>, dueTo: Option<Time>)

  /** A request with no query parameters. */
  const NoFilter: Filter := Filter(None, None, None)

  /** One `where` clause of the query. */
  datatype Condition = StatusIs(name: string) | DueOnOrAfter(from: Time) | DueOnOrBefore(to: Time)

  /** Whether a row satisfies a clause; a null due date satisfies no comparison, as in SQL. */
  predicate Holds(c: Condition, inv: Invoice)
  {
    match c
    case StatusIs(name) => StatusName(inv.status) == name
    case DueOnOrAfter(from) => inv.dueDate.Some? && inv.dueDate.value >= from
    case DueOnOrBefore(to) => inv.dueDate.Some? && inv.dueDate.value <= to
  }

  /** The query as the index action builds it: status, then the lower bound, then the upper bound. */
  function Query(f: Filter): seq<Condition>
  {
    var byStatus := if f.status.Some? then [StatusIs(f.status.value)] else [];
    var byFrom := if f.dueFrom.Some? then byStatus + [DueOnOrAfter(f.dueFrom.value)] else byStatus;
    if f.dueTo.Some? then byFrom + [DueOnOrBefore(f.dueTo.value)] else byFrom
  }

  /** A row satisfies every clause of a query. */
  predicate SatisfiesAll(query: seq<Condition>, inv: Invoice)
  {
    forall i :: 0 <= i < |query| ==> Holds(query[i], inv)
  }

  /**
   * What the listing promises, stated without the query: the status equals
   * the requested one and the due date lies within the requested bounds,
   * both inclusive, each constraint applying only when its parameter is
   * present.
   */
  predicate Matches(inv: Invoice, f: Filter)
  {
    && (f.status.Some? ==> StatusName(inv.status) == f.status.value)
    && (f.dueFrom.Some? ==> inv.dueDate.Some? && f.dueFrom.value <= inv.dueDate.value)
    && (f.dueTo.Some? ==> inv.dueDate.Some? && inv.dueDate.value <= f.dueTo.value)
  }

  /** The query built from the parameters selects exactly the rows the listing promises. */
  lemma QueryMeansMatches(f: Filter, inv: Invoice)
    ensures SatisfiesAll(Query(f), inv) <==> Matches(inv, f)
  {
    var q := Query(f);
    var byStatus := if f.status.Some? then [StatusIs(f.status.value)] else [];
    var byFrom := if f.dueFrom.Some? then byStatus + [DueOnOrAfter(f.dueFrom.value)] else byStatus;
    if SatisfiesAll(q, inv) {
      if f.status.Some? {
        assert q[0] == StatusIs(f.status.value);
      }
      if f.dueFrom.Some? {
        assert q[|byStatus|] == DueOnOrAfter(f.dueFrom.value);
      }
      if f.dueTo.Some? {
        assert q[|byFrom|] == DueOnOrBefore(f.dueTo.value);
      }
    }
  }

  /** Every row is stored under its own id. */
  predicate Keyed(rows: map<int, Invoice>)
  {
    forall id :: id in rows ==> rows[id].id == id
  }

  /** The record is in the table, under its own id. */
  predicate Stored(rows: map<int, Invoice>, inv: Invoice)
  {
    inv.id in rows && rows[inv.id] == inv
  }

  /** The rows with ids from 1 up to, not including, `bound` that satisfy the query, by ascending id. */
  function Select(rows: map<int, Invoice>, query: seq<Condition>, bound: int): (r: seq<Invoice>)
    requires Keyed(rows)
    ensures forall inv :: inv in r <==>
      (inv.id in rows && rows[inv.id] == inv && 1 <= inv.id < bound && SatisfiesAll(query, inv))
    ensures forall i, j :: 0 <= i < j < |r| ==> r[i].id < r[j].id
    decreases bound
  {
    if bound <= 1 then []
    else
      var id := bound - 1;
      Select(rows, query, id) + if id in rows && SatisfiesAll(query, rows[id]) then [rows[id]] else []
  }

  /** The listing: the rows the query built from the parameters selects. */
  function List(rows: map<int, Invoice>, f: Filter, bound: int): seq<Invoice>
    requires Keyed(rows)
  {
    Select(rows, Query(f), bound)
  }

  /**
   * When every id lies below `bound`, the listing holds exactly the stored
   * records that match the parameters, each once, by ascending id.
   */
  lemma ListIsMatchingSubset(rows: map<int, Invoice>, f: Filter, bound: int)
    requires Keyed(rows)
    requires forall id :: id in rows ==> 1 <= id < bound
    ensures forall inv :: inv in List(rows, f, bound) <==> Stored(rows, inv) && Matches(inv, f)
    ensures forall i, j :: 0 <= i < j < |List(rows, f, bound)| ==> List(rows, f, bound)[i].id < List(rows, f, bound)[j].id
  {
    forall inv
      ensures inv in List(rows, f, bound) <==> Stored(rows, inv) && Matches(inv, f)
    {
      QueryMeansMatches(f, inv);
    }
  }

  /** An absent parameter constrains nothing: without parameters every record matches. */
  lemma NoFilterMatchesAll(inv: Invoice)
    ensures Matches(inv, NoFilter)
  {
  }

  /** Both bounds are inclusive: a record due exactly on a bound is kept. */
  lemma BoundsInclusive(inv: Invoice, t: Time)
    requires inv.dueDate == Some(t)
    ensures Matches(inv, Filter(None, Some(t), Some(t)))
  {
  }

  /** A record without a due date is dropped by either bound. */
  lemma UndatedFailsBounds(inv: Invoice, f: Filter)
    requires inv.dueDate.None?
    requires f.dueFrom.Some? || f.dueTo.Some?
    ensures !Matches(inv, f)
  {
  }
}
