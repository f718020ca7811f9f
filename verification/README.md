# Invoice store of the faktura-service, in Dafny

The faktura-service (`app.py`) keeps invoices in one SQLite table,
`invoices`, behind four HTTP handlers: `create_invoice`, `get_invoice`,
`update_status` and `report`. This project models the store logic of those
handlers as pure functions over an abstract table and proves what they promise.

- `wrappers.dfy`, module `Wrappers`: `Option`, the model of Python's `None`
  and SQL's `NULL`.
- `status.dfy`, module `InvoiceStatus`: the closed enumeration `FakturaStatus`
  ("Ikke betalt", "Betalt", "Forfalden") and the exact-match membership test
  that guards every status update.
- `store.dfy`, module `InvoiceStore`: the table as a map from the integer
  primary key (SQLite's rowid) to the row, plus the AUTOINCREMENT counter
  `nextId`. It also holds the store invariant `Valid` and the operations
  `CreateInvoice`, `GetInvoice` and `UpdateStatus`. Their responses are
  201/500, 200/404/500 and 200/400/404/500, and each write also returns the
  store it leaves behind. Integers are bounded as in SQLite: a parameter
  outside signed 64 bits cannot be bound, and the query raises.
- `report.dfy`, module `InvoiceReport`: the three aggregate queries of
  `report`, written as loops over the table. The reference functions they are
  proved against are `AmountWhere`, a sum that does not depend on visiting
  order, and `Matching`, the rows with a given status.
- `lifecycle.dfy`, module `InvoiceLifecycle`: properties across operations.
  These cover the invariant, read-after-write, idempotence, ids that are
  never reused over any run of requests, and the report's response to each
  write.

The status column is kept as text, as in the table. That it only ever holds
one of the three status texts is the invariant `Valid`. It holds because
create writes a constant and update validates first.

## Model

| member | source | states |
|---|---|---|
| `InvoiceStatus.Text` | app.py:49-52 | each state's stored text is one of the three exact status texts |
| `InvoiceStatus.Parse` | app.py:126-129 | a "Status" value is accepted exactly when it is present and equal to one of the three texts, and then names the state with that text; a missing key is rejected |
| `InvoiceStatus.ParseText` | app.py:49-52 | the text of every state passes the membership test and names that same state |
| `InvoiceStatus.TextInjective` | app.py:49-52 | the three states have three distinct texts |
| `InvoiceStore.CreateInvoice` | app.py:77-107 | 201 exactly when the body is an object carrying all four fields (for text that Dafny strings can represent; see Left out), every integer among them fits in signed 64 bits, and the rowid range is not exhausted; otherwise 500. On success it stores one row under id `nextId` with the caller's two ids and due-date text unchanged, the amount as its real value, status "Ikke betalt" and the given timestamp. It advances the counter and leaves every other row alone. On 500 the store is unchanged |
| `InvoiceStore.GetInvoice` | app.py:110-119 | for a route id (non-negative): 500 exactly when the id does not fit in signed 64 bits; otherwise 200 with that id's stored row unchanged exactly when the id is stored, and 404 when it is not. It has no store result, so it cannot write |
| `InvoiceStore.ExecUpdateStatus` | app.py:133 | the UPDATE on the primary key matches one row exactly when the id is stored and none otherwise. It sets that row's status and leaves its other columns, every other row and the set of ids unchanged |
| `InvoiceStore.UpdateStatus` | app.py:122-139 | 400 exactly when the status is missing or not one of the three texts. Otherwise 500 exactly when the id does not fit in signed 64 bits, 404 exactly when the id is absent, and 200 when it is present. Every error leaves the store unchanged. On 200 only that row's status changes, to the given text; every other column and row and the counter stay the same |
| `InvoiceReport.AmountWhereRemove` | app.py:146 | the paid sum is independent of the order in which rows are visited |
| `InvoiceReport.SumAmountWhere` | app.py:146 | SUM is NULL exactly when no row has the status, and otherwise equals the sum of matching amounts |
| `InvoiceReport.CountWhere` | app.py:147-148 | COUNT(*) equals the number of rows with the status |
| `InvoiceReport.CountsPartition` | app.py:146-148 | in a valid store the paid, unpaid and overdue counts add up to the number of rows |
| `InvoiceReport.ComputeReport` | app.py:144-156 | returns the paid sum (0 when nothing is paid), the unpaid count and the overdue count; in a valid store they partition the rows; an empty table reports (0, 0, 0) |
| `InvoiceReport.ReportEmpty` | app.py:146-148 | an empty table has paid total 0 and zero invoices in every state |
| `InvoiceReport.CreateReportEffect` | app.py:88-97 | a successful create raises the unpaid count by one and leaves the paid total and the other counts unchanged |
| `InvoiceReport.UpdateReportEffect` | app.py:133 | a successful update moves one invoice from its old state's count to its new one's, and changes the paid total by that invoice's amount accordingly |
| `InvoiceLifecycle.EmptyValid` | app.py:32-42 | the freshly created empty table satisfies the store invariant |
| `InvoiceLifecycle.CreatePreservesValid` | app.py:88-97 | create keeps the invariant: ids below the counter, only the three status texts stored |
| `InvoiceLifecycle.UpdatePreservesValid` | app.py:126-133 | update_status keeps the invariant, because it writes only a validated text |
| `InvoiceLifecycle.CreateFreshId` | app.py:34 | the id a successful create returns is absent from the store and greater than every stored id, and the store grows by exactly one row |
| `InvoiceLifecycle.GetAfterCreate` | app.py:83-100 | reading back a created id gives the caller's two ids and due-date text unchanged, the amount as its real value, status "Ikke betalt" and the creation timestamp |
| `InvoiceLifecycle.GetNeverIssued` | app.py:114-117 | an id never issued (0, or at or above the counter) finds no invoice, and within 64 bits the answer is 404 |
| `InvoiceLifecycle.UpdateAnyTransition` | app.py:128-139 | no transition order is enforced: any state may replace any other on an existing invoice, and reading it back shows only the status changed |
| `InvoiceLifecycle.UpdateIdempotent` | app.py:131-139 | applying the same status update twice gives the same store and the same response as applying it once |
| `InvoiceLifecycle.StepFacts` | app.py:34 | one request from a valid store keeps the invariant and every row, and changes at most a row's status. It never lowers the counter and issues at most the current counter value as an id, which is then stored with the counter moved past it |
| `InvoiceLifecycle.RunFacts` | app.py:32-42 | over any sequence of requests from a valid store the invariant holds and no row disappears. Of every row, only the status may change; the four caller fields and the creation timestamp stay as written. Issued ids are strictly increasing, never below the starting counter, and all present at the end, so no id is reused |
| `InvoiceLifecycle.ThreeCreated` | app.py:83-102 | three creates on an empty table answer with ids 1, 2 and 3, which are then exactly the stored ids, all unpaid, with nothing paid or overdue |
| `InvoiceLifecycle.ThreeInvoiceReport` | app.py:144-154 | after three creates, marking id 1 paid and id 2 overdue, the report shows id 1's amount paid, one unpaid and one overdue |

## Left out

- HTTP and JSON: routing, `request.get_json`, `jsonify`, the message bodies and the `home` endpoint listing are not modelled. Responses carry only their status code and, for create and get, the id or the row.
- A JSON body that is not an object is modelled for create, as `None`: the handler's `try` turns it into 500. For update_status the failure happens outside any `try` and is the web framework's own 500. It is not modelled, because `UpdateStatus` receives only the "Status" field.
- InvoiceStore.CreateInvoice: a due-date text holding a lone UTF-16 surrogate (JSON `"\ud800"`, which Python's JSON parser accepts) cannot be encoded as UTF-8 when it is bound. The insert raises and create answers 500 with nothing stored. A Dafny `string` cannot hold such a character, so the model has no such input, and its "201 exactly when" covers only texts Dafny can represent.
- InvoiceStore.CreateInvoice: the due date is stored as the caller's text, without SQLite's NUMERIC affinity. The `betalingsdato` column is declared `DATETIME` (app.py:38), so SQLite stores a text that is a well-formed integer or real literal as a number. For example, "20250101" is stored as the integer 20250101 and "1e3" as 1000. Modelling that conversion would mean modelling SQLite's numeric-literal grammar and float rounding. Ordinary date texts such as "2025-01-01" are not numeric literals and are stored unchanged, as the model says.
- InvoiceLifecycle.GetAfterCreate: for the same reason, reading back a numeric-looking due date gives a JSON number (app.py:119), not the text the model returns; the lemma's claim holds only for due-date texts that are not numeric literals.
- JSON values of other types in the create fields are not modelled (a number as `betalingsdato`, for one); the request fields are typed. Strings, floats or booleans in the integer fields would be bound and stored under SQLite's type affinity. An object or array cannot be bound at all and makes create answer 500. A non-string "Status" value fails the membership test like any other non-member, so `Parse` rejecting every text outside the three covers it.
- Negative ids: the route converter `<int:...>` matches only non-negative ids, so `/get_invoice/-1` and `/update_status/-1` never reach the handlers and the web framework answers 404. The model's id parameters are therefore `nat`, and that framework 404 is not modelled.
- Swagger/flasgger setup, `load_dotenv`, connection handling, cursors, commits and `init_db` are not modelled. The table is abstracted as a map plus a counter.
- The clock: the creation timestamp is a parameter (`now`). No claim is made that it is no earlier than the call.
- Floating point: amounts are exact `real`s, an integer amount is stored as its exact real value, so SUM rounding and summation order effects are not modelled. A NaN amount (Python's JSON parser accepts `NaN`) is bound as NULL and makes create answer 500 through the NOT NULL constraint on `beloeb`; not modelled. An infinite amount (`Infinity`, or a literal such as `1e400`) is bound and stored. A `real` cannot hold it, so neither that nor its effect on the report is modelled. A paid infinite amount makes the SUM infinite, and paid `+inf` and `-inf` together make it NULL, which `or 0` reads as 0. Python's `or 0` yields the integer 0 for a NULL or zero sum; the model yields the same value as a real.
- Concurrency: requests are handled one at a time. Isolation between concurrent writers is left to SQLite and not modelled.
- The error log line `print(f"Error: {e}")` in create_invoice is output only.
- The in-memory, JWT-authenticated variant of the service is not part of this model.
- Response bodies are not modelled. create answers with the new id only (app.py:102), update_status with a confirmation only (app.py:139), and the report has three fields (app.py:150-154).
