/**
 * The invoice record as the Eloquent model declares it: the six fields a
 * caller may fill, the system-assigned id and timestamps, `due_date` held as
 * a point in time rather than as text, and the many-to-many association
 * with tags through the single join table `invoice_tag`.
 */
module Invoices {
  import opened Wrappers

  /** A point in time. Only its total order matters to this model. */
  type Time = int

  /** The closed set of statuses an invoice may carry. */
  datatype Status = Draft | Sent | Paid | Overdue | Cancelled

  /** The name under which a status is written and compared. */
  function StatusName(s: Status): string
  {
    match s
    case Draft => "draft"
    case Sent => "sent"
    case Paid => "paid"
    case Overdue => "overdue"
    case Cancelled => "cancelled"
  }

  /** The names accepted for `status`, in the order the rule lists them. */
  const StatusNames: seq<string> := ["draft", "sent", "paid", "overdue", "cancelled"]

  /** Reads a status back from its name; every other text has no status. */
  function ParseStatus(name: string): (r: Option<Status>)
    ensures r.Some? <==> name in StatusNames
    ensures r.Some? ==> StatusName(r.value) == name
  {
    if name == "draft" then Some(Draft)
    else if name == "sent" then Some(Sent)
    else if name == "paid" then Some(Paid)
    else if name == "overdue" then Some(Overdue)
    else if name == "cancelled" then Some(Cancelled)
    else None
  }

  /** Naming a status and reading the name back gives the same status. */
  lemma StatusNameRoundTrip(s: Status)
    ensures StatusName(s) in StatusNames
    ensures ParseStatus(StatusName(s)) == Some(s)
  {
  }

  /** The attribute names the model lets a caller fill; nothing else is taken from input. */
  const Fillable: set<string> :=
    {"invoice_number", "customer_name", "title", "description", "status", "due_date"}

  /** The attributes the system assigns itself: `id`, `createdAt` and `updatedAt` of a record. */
  const Managed: set<string> := {"id", "created_at", "updated_at"}

  /** Neither the key nor a timestamp can come from the caller. */
  lemma ManagedNotFillable()
    ensures Fillable !! Managed
    ensures |Fillable| == 6
  {
  }

  /** The fillable part of an invoice, after validation and casting (the validated draft). */
  datatype Attributes = Attributes(
    invoiceNumber: string,
    customerName: string,
    title: string,
    description: Option<string>,
    status: Status,
    dueDate: Option<Time>)

  /** A stored invoice. */
  datatype Invoice = Invoice(
    id: int,
    invoiceNumber: string,
    customerName: string,
    title: string,
    description: Option<string>,
    status: Status,
    dueDate: Option<Time>,
    createdAt: Time,
    updatedAt: Time)

  /**
   * The record created from validated attributes: the key and both
   * timestamps come from the system, every fillable field from the attributes.
   */
  function Create(id: int, a: Attributes, now: Time): (inv: Invoice)
    ensures inv.id == id && inv.createdAt == now && inv.updatedAt == now
    ensures AttributesOf(inv) == a
  {
    Invoice(id, a.invoiceNumber, a.customerName, a.title, a.description, a.status, a.dueDate, now, now)
  }

  /** The fillable fields of a stored invoice. */
  function AttributesOf(inv: Invoice): Attributes
  {
    Attributes(inv.invoiceNumber, inv.customerName, inv.title, inv.description, inv.status, inv.dueDate)
  }

  /** The join table `invoice_tag`: one (invoice id, tag id) pair per association. */
  type Pivot = set<(int, int)>

  /** The tags of an invoice, read through the join table. */
  function TagsOf(pivot: Pivot, invoiceId: int): (tags: set<int>)
    ensures forall t :: t in tags <==> (invoiceId, t) in pivot
  {
    set p | p in pivot && p.0 == invoiceId :: p.1
  }

  /** The invoices of a tag, read through the same join table. */
  function InvoicesOf(pivot: Pivot, tagId: int): (invoices: set<int>)
    ensures forall i :: i in invoices <==> (i, tagId) in pivot
  {
    set p | p in pivot && p.1 == tagId :: p.0
  }

  /** The two sides of the relation agree: a tag of an invoice has that invoice among its own. */
  lemma TagRelationSymmetric(pivot: Pivot, invoiceId: int, tagId: int)
    ensures tagId in TagsOf(pivot, invoiceId) <==> invoiceId in InvoicesOf(pivot, tagId)
  {
  }
}
