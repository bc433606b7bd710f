# Invoice resource — a Dafny model

This project models the invoice resource of a small Laravel API: the
`Invoice` Eloquent model and the four actions of its API controller.

- **Record** (`invoice.dfy`, module `Invoices`): an invoice has a
  system-assigned integer id, six fillable attributes (`invoice_number`,
  `customer_name`, `title`, `description`, `status`, `due_date`) and the
  `created_at`/`updated_at` timestamps. `status` is one of draft, sent, paid,
  overdue and cancelled. `due_date` is cast to a point in time and is held as
  `Option<Time>`, not as text. Invoices and tags are associated many-to-many
  through the join table `invoice_tag`, and the model proves that the two
  directions of that relation agree.
- **Validation** (`validation.dfy`, module `Validation`): the store action's
  rule table, and the part of the framework's rule engine that this table
  uses. That part covers `required`, `string`, `max`, `nullable`, `in` and
  `date`, with the framework's skipping and stopping behaviour. All failing
  attributes are collected into an error bag. A second predicate,
  `Acceptable`, restates the table attribute by attribute. The model proves
  that the engine and `Acceptable` agree. Accepted requests are mass-assigned
  into the six fillable attributes. Keys outside the fillable set, including
  `id` and the timestamps, change nothing.
- **Listing** (`listing.dfy`, module `Listing`): the index action builds its
  query one `where` clause at a time, one clause for each parameter present.
  The parameters are `status` (equality), `due_date_from` (`>=`) and
  `due_date_to` (`<=`). The listing holds exactly the stored rows that
  satisfy every clause.
- **Controller** (`invoice_controller.dfy`, module `InvoiceApi`): the table is
  a class `InvoiceTable` that holds an id-keyed map of rows and the next id.
  `Index` and `Show` only read it. `Store` validates the request and then
  adds exactly one row under a fresh id. `Destroy` removes exactly one row.
  Each action answers with a `Response` whose `Code` is the HTTP status
  (200, 201, 404 or 422).

Where the controller's doc comments and its code disagree, the model follows
the code:
- The index action returns a bare array, not a `{"data": [...]}` envelope.
- The bounds `due_date_from` and `due_date_to` are inclusive (`>=`, `<=`), not
  "after" and "before".

Destroy answers with the message "Invoice deleted successfully" and the
deleted id, as both its doc comment and its code say; it does not return the
deleted record.

Abstractions:
- The clock is a `now` parameter of `Store`.
- The `date` rule and the `datetime` cast share one abstract parser
  (`DateParser`, a function parameter).
- `Time` is an integer; only its order matters.
- Without an ORDER BY clause the database promises no row order. The listing
  returns rows by ascending id.

## Model

| member | source | states |
|---|---|---|
| `Invoices.ParseStatus` | app/Http/Controllers/Api/InvoiceController.php:118 | a text names a status exactly when it is one of draft, sent, paid, overdue, cancelled, and the status read back carries that name |
| `Invoices.StatusNameRoundTrip` | app/Http/Controllers/Api/InvoiceController.php:118 | every status is named by one of the five accepted texts and reads back as itself |
| `Invoices.ManagedNotFillable` | app/Models/Invoice.php:12-19 | the six fillable attributes do not include `id`, `created_at` or `updated_at` |
| `Invoices.Create` | app/Http/Controllers/Api/InvoiceController.php:122 | a created record takes its key and both timestamps from the system and every fillable field from the validated attributes, with created_at equal to updated_at |
| `Invoices.TagsOf` | app/Models/Invoice.php:25-28 | the tags of an invoice are exactly the tags paired with it in `invoice_tag` |
| `Invoices.InvoicesOf` | app/Models/Tag.php:11-14 | the invoices of a tag are exactly the invoices paired with it in `invoice_tag` |
| `Invoices.TagRelationSymmetric` | app/Models/Invoice.php:25-28 | t is a tag of invoice i exactly when i is an invoice of tag t |
| `Validation.RulesCoverFillable` | app/Http/Controllers/Api/InvoiceController.php:113-120 | the rule table validates exactly the fillable attributes |
| `Validation.FieldErrorsMeanFieldFails` | app/Http/Controllers/Api/InvoiceController.php:113-120 | for each attribute of the table, the rule engine reports no failure exactly when the attribute meets its restated demand |
| `Validation.StatusErrors` | app/Http/Controllers/Api/InvoiceController.php:118 | `required|in:...` passes exactly when status is present as one of the five names; numbers, booleans, arrays and null never pass |
| `Validation.AbsentRequiredReported` | app/Http/Controllers/Api/InvoiceController.php:101-109 | an absent required attribute is in the error bag with `required` as its only failure |
| `Validation.EmptyRequestReported` | app/Http/Controllers/Api/InvoiceController.php:101-109 | an empty request is reported on exactly invoice_number, customer_name, title and status, each with `required`, all together |
| `Validation.Validated` | app/Http/Controllers/Api/InvoiceController.php:113-120 | the validated data holds exactly the request's attributes that the rule table names, each with its value unchanged |
| `Validation.AcceptableOnlyReadsRules` | app/Http/Controllers/Api/InvoiceController.php:113-120 | whether a request is accepted depends only on the attributes the table names |
| `Validation.ErrorsNameFailingFields` | app/Http/Controllers/Api/InvoiceController.php:113-120 | the error bag names exactly the attributes whose demands fail |
| `Validation.NoErrorsMeansAcceptable` | app/Http/Controllers/Api/InvoiceController.php:113-120 | the error bag is empty exactly when the request is acceptable |
| `Validation.FillEchoes` | app/Http/Controllers/Api/InvoiceController.php:122 | mass assignment of an accepted request yields attributes equal to the request's texts, its status by name and its due date as parsed |
| `Validation.Validate` | app/Http/Controllers/Api/InvoiceController.php:113-122 | succeeds exactly on acceptable requests, with attributes echoing the request; otherwise fails with a non-empty bag naming exactly the failing attributes, each with at least one failed rule |
| `Validation.TitleLengthLimit` | app/Http/Controllers/Api/InvoiceController.php:116 | with the rest acceptable, a non-blank title is accepted exactly when it has at most 255 characters |
| `Validation.StatusChoice` | app/Http/Controllers/Api/InvoiceController.php:118 | with the rest acceptable, a status text is accepted exactly when it is one of the five names |
| `Validation.UnfillableKeysIgnored` | app/Models/Invoice.php:12-19 | setting any attribute outside the fillable set, such as id or a timestamp, leaves the validation outcome and the stored attributes unchanged |
| `Validation.ManagedKeysIgnored` | app/Models/Invoice.php:12-19 | an `id`, `created_at` or `updated_at` sent in a request leaves the validation outcome and the stored attributes unchanged |
| `Listing.QueryMeansMatches` | app/Http/Controllers/Api/InvoiceController.php:38-48 | a row satisfies the query built from the present parameters exactly when it matches the conjunction of status equality and the inclusive due-date bounds |
| `Listing.Select` | app/Http/Controllers/Api/InvoiceController.php:36-50 | the selection holds exactly the rows stored under their id within the id range that satisfy the query, in strictly ascending id |
| `Listing.ListIsMatchingSubset` | app/Http/Controllers/Api/InvoiceController.php:36-50 | the listing holds exactly the stored records that match the parameters, each once, by ascending id |
| `Listing.NoFilterMatchesAll` | app/Http/Controllers/Api/InvoiceController.php:38-48 | absent parameters constrain nothing: without parameters every record matches |
| `Listing.BoundsInclusive` | app/Http/Controllers/Api/InvoiceController.php:42-48 | a record due exactly on both bounds is kept |
| `Listing.UndatedFailsBounds` | app/Http/Controllers/Api/InvoiceController.php:42-48 | a record without a due date is excluded by any present bound, as a SQL comparison with NULL is |
| `InvoiceApi.InvoiceTable.Index` | app/Http/Controllers/Api/InvoiceController.php:34-51 | answers 200 with exactly the stored rows that match, by ascending id, and changes nothing |
| `InvoiceApi.InvoiceTable.Show` | app/Http/Controllers/Api/InvoiceController.php:70-77 | answers 200 with the row stored under the id, or 404 when there is none; never a default row |
| `InvoiceApi.InvoiceTable.Store` | app/Http/Controllers/Api/InvoiceController.php:111-125 | rejected requests answer 422 with the error bag and leave the table unchanged; accepted ones answer 201 with exactly one new row under a fresh id holding the request's values and `now` as both timestamps, all other rows unchanged |
| `InvoiceApi.InvoiceTable.Destroy` | app/Http/Controllers/Api/InvoiceController.php:141-148 | an existing id is removed, alone, and answered with the message and that id; a missing id answers 404 and changes nothing; the next id is kept, so ids are never reused |
| `InvoiceApi.StoreThenShow` | app/Http/Controllers/Api/InvoiceController.php:122-124 | showing the id a store just assigned returns the created record; after a rejected store that id is not found |
| `InvoiceApi.DestroyThenShow` | app/Http/Controllers/Api/InvoiceController.php:141-147 | after a destroy, showing or destroying the same id again is not found |

## Left out

- Route registration in `routes/api.php` is framework wiring and is not part of this model. So is the `auth:sanctum` `/user` route.
- The seeder `database/seeders/InvoiceSeeder.php` only generates random rows.
- HTTP and JSON serialisation and the date format of the output are left out. The exact error message texts are left out too; the error bag names the failed rules instead.
- Date parsing is an abstract parser parameter. The date rule parses a numeric `due_date` with `strtotime`, while the datetime cast reads it as a UNIX timestamp. The one parser does not tell these apart.
- The clock is a parameter. The timestamps are never updated, because no update action exists.
- The framework's input middleware trims texts and turns empty texts into null. It is not modelled. Instead, a blank or null `description` or `due_date` is stored as null, and required texts are kept as given.
- Floating-point numbers and JSON objects as request values are left out.
- Listing bounds are given as times. An empty bound parameter becomes null, and the query builder rejects `>=`/`<=` against null; that error path is left out.
- A bound that is text but not a date reaches the database and is compared as text; that comparison is left out.
- A `status` parameter given as an array, and collation-dependent case-insensitive matching, are left out.
- Listing order is ascending id, which is the model's choice.
- Route model binding resolves any path segment. The model takes an integer id, and every id not in the table is not found.
- The `invoice_tag` rows are kept out of the table class. No action reads or writes them, and the migration that would decide whether deleting an invoice cascades to them is not part of this model.
- Concurrency, transactions and storage failures are left out.
