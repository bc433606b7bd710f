/**
 * The invoice resource: an in-memory invoice table and the four actions of
 * its controller. Index and show only read the table; store adds one row
 * under a fresh id after validation; destroy removes one row for good.
 */
module InvoiceApi {
  import opened Wrappers
  import opened Invoices
  import opened Validation
  import opened Listing

  /** The message the destroy action answers with. */
  const DeletedMessage: string := "Invoice deleted successfully"

  /** What an action answers; the HTTP status of each outcome is its Code. */
  datatype Response =
    | Listed(records: seq<Invoice>)
    | Shown(invoice: Invoice)
    | Created(invoice: Invoice)
    | Deleted(message: string, id: int)
    | NotFound
    | Invalid(errors: map<string, seq<Rule>>)
  {
    function Code(): int
    {
      match this
      case Listed(_) => 200
      case Shown(_) => 200
      case Created(_) => 201
      case Deleted(_, _) => 200
      case NotFound => 404
      case Invalid(_) => 422
    }
  }

  /** The invoices table: rows by id, and the id the next insert receives. */
  class InvoiceTable {
    var rows: map<int, Invoice>
    var nextId: int

    /** Ids start at 1, every row lies below the next id and is stored under its own id. */
    ghost predicate Valid()
      reads this
    {
      && 1 <= nextId
      && Keyed(rows)
      && forall id :: id in rows ==> 1 <= id < nextId
    }

    constructor ()
      ensures Valid() && rows == map[] && nextId == 1
    {
      rows := map[];
      nextId := 1;
    }

    /** The index action: exactly the stored rows that match the parameters, by ascending id. */
    method Index(f: Filter) returns (r: Response)
      requires Valid()
      ensures r.Listed? && r.Code() == 200
      ensures forall inv :: inv in r.records <==> Stored(rows, inv) && Matches(inv, f)
      ensures forall i, j :: 0 <= i < j < |r.records| ==> r.records[i].id < r.records[j].id
    {
      ListIsMatchingSubset(rows, f, nextId);
      r := Listed(Listing.List(rows, f, nextId));
    }

    /** The show action: the row stored under the id, or not-found; never a default row. */
    method Show(id: int) returns (r: Response)
      requires Valid()
      ensures r.Shown? || r.NotFound?
      ensures r.Shown? <==> id in rows
      ensures r.Shown? ==> r.invoice == rows[id] && r.invoice.id == id && r.Code() == 200
      ensures r.NotFound? ==> r.Code() == 404
    {
      if id in rows {
        r := Shown(rows[id]);
      } else {
        r := NotFound;
      }
    }

    /**
     * The store action. A request the rules reject changes nothing and is
     * answered with its error bag. An accepted one becomes exactly one new
     * row, under an id no row has had, holding the request's fillable
     * values and `now` as both timestamps; every other row stays as it was.
     */
    method Store(input: Input, parse: DateParser, now: Time) returns (r: Response)
      requires Valid()
      modifies this
      ensures Valid()
      ensures r.Created? || r.Invalid?
      ensures r.Invalid? <==> !Acceptable(input, parse)
      ensures r.Invalid? ==>
        && rows == old(rows) && nextId == old(nextId)
        && r.Code() == 422
        && (forall key :: key in r.errors <==> key in Rules && !FieldOk(input, key, parse))
      ensures r.Created? ==>
        && r.invoice.id == old(nextId) && old(nextId) !in old(rows)
        && rows == old(rows)[r.invoice.id := r.invoice]
        && nextId == old(nextId) + 1
        && Echoes(input, parse, AttributesOf(r.invoice))
        && r.invoice.createdAt == now && r.invoice.updatedAt == now
        && r.Code() == 201
    {
      var checked := Validate(input, parse);
      if checked.Failure? {
        r := Invalid(checked.error);
        return;
      }
      var inv := Create(nextId, checked.value, now);
      rows := rows[nextId := inv];
      nextId := nextId + 1;
      r := Created(inv);
    }

    /**
     * The destroy action: an existing row is removed, and only that row, and
     * the answer carries its id; a missing id is not-found and changes
     * nothing. Ids are not handed out again.
     */
    method Destroy(id: int) returns (r: Response)
      requires Valid()
      modifies this
      ensures Valid()
      ensures nextId == old(nextId)
      ensures r.Deleted? || r.NotFound?
      ensures r.Deleted? <==> id in old(rows)
      ensures r.Deleted? ==> r == Deleted(DeletedMessage, id) && rows == old(rows) - {id} && r.Code() == 200
      ensures r.NotFound? ==> rows == old(rows) && r.Code() == 404
    {
      if id !in rows {
        r := NotFound;
        return;
      }
      rows := rows - {id};
      r := Deleted(DeletedMessage, id);
    }
  }

  /** Storing then showing the id the table was about to hand out. */
  method StoreThenShow(table: InvoiceTable, input: Input, parse: DateParser, now: Time)
    returns (created: Response, shown: Response)
    requires table.Valid()
    modifies table
    ensures table.Valid()
    ensures created.Created? ==> shown == Shown(created.invoice)
    ensures created.Invalid? ==> shown == NotFound
  {
    var id := table.nextId;
    created := table.Store(input, parse, now);
    shown := table.Show(id);
  }

  /** Destroying an id, then showing it and destroying it again. */
  method DestroyThenShow(table: InvoiceTable, id: int)
    returns (deleted: Response, shown: Response, again: Response)
    requires table.Valid()
    modifies table
    ensures table.Valid()
    ensures shown == NotFound && again == NotFound
    ensures deleted.Deleted? ==> deleted.id == id
  {
    deleted := table.Destroy(id);
    shown := table.Show(id);
    again := table.Destroy(id);
  }
}
