/**
 * The invoice store behind the create, get and update-status handlers of
 * app.py. The SQLite `invoices` table is abstracted as a map from the integer
 * primary key (which SQLite uses as the rowid) to the remaining columns, plus
 * the AUTOINCREMENT counter: ids are handed out in increasing order and never
 * reused.
 */
module InvoiceStore {
  import opened Wrappers
  import opened InvoiceStatus

  /** The largest rowid SQLite can hand out (a signed 64-bit integer). */
  const MaxRowId: int := 0x7FFF_FFFF_FFFF_FFFF

  /**
   * One row of the `invoices` table, without its id. Every column is
   * NOT NULL. The status column is plain text: that it only ever holds one of
   * the three status texts is an invariant (`Valid`), not a type. The due
   * date is kept as the caller's text; the conversion SQLite's NUMERIC
   * affinity applies to numeric-looking text in that column is not modelled.
   */
  datatype Invoice = Invoice(
    abonnementsId: int,
    kundeId: int,
    beloeb: real,
    betalingsdato: string,
    status: string,
    oprettetTidspunkt: string)

  /**
   * The table: `rows` maps each id to its row, and `nextId` is the id the
   * next successful insert receives (one more than the largest id ever issued).
   */
  datatype Store = Store(rows: map<int, Invoice>, nextId: int)

  /** A freshly created table: no rows, and the first id issued is 1. */
  const Empty: Store := Store(map[], 1)

  /** The invariant every reachable store keeps. */
  predicate Valid(st: Store) {
    && 1 <= st.nextId <= MaxRowId + 1
    && (forall id :: id in st.rows ==> 1 <= id < st.nextId)
    && (forall id :: id in st.rows ==> IsStatusText(st.rows[id].status))
  }

  /** The smallest integer SQLite stores (a signed 64-bit integer). */
  const MinInt64: int := -0x8000_0000_0000_0000

  /**
   * Python's sqlite3 binds an `int` parameter only when it fits in a signed
   * 64-bit integer; any other value raises `OverflowError`.
   */
  predicate InInt64(x: int) {
    MinInt64 <= x <= MaxRowId
  }

  /** A JSON number as the request parser delivers it: a Python `int` or a `float`. */
  datatype JsonNumber = JsonInt(i: int) | JsonFloat(f: real) {
    /** It can be bound as a query parameter. */
    predicate Bindable() {
      JsonInt? ==> InInt64(i)
    }

    /** The value the REAL column `beloeb` holds for it. */
    function AsReal(): real {
      match this
      case JsonInt(i) => i as real
      case JsonFloat(f) => f
    }
  }

  /**
   * The four caller fields of a create request; `None` marks a key the JSON
   * body does not carry or carries as `null` (`data.get` gives `None` for both).
   */
  datatype CreateRequest = CreateRequest(
    abonnementsId: Option<int>,
    kundeId: Option<int>,
    beloeb: Option<JsonNumber>,
    betalingsdato: Option<string>)

  /** All four NOT NULL columns receive a value. */
  predicate Complete(req: CreateRequest) {
    && req.abonnementsId.Some?
    && req.kundeId.Some?
    && req.beloeb.Some?
    && req.betalingsdato.Some?
  }

  /** Every integer among the present fields can be bound as a query parameter. */
  predicate Bindable(req: CreateRequest) {
    && (req.abonnementsId.Some? ==> InInt64(req.abonnementsId.value))
    && (req.kundeId.Some? ==> InInt64(req.kundeId.value))
    && (req.beloeb.Some? ==> req.beloeb.value.Bindable())
  }

  /** The row a complete create request inserts at time `now`. */
  function NewRow(req: CreateRequest, now: string): Invoice
    requires Complete(req)
  {
    Invoice(req.abonnementsId.value, req.kundeId.value, req.beloeb.value.AsReal(),
            req.betalingsdato.value, Text(IkkeBetalt), now)
  }

  /** Outcome of create_invoice: 201 with the new id, or the generic 500. */
  datatype CreateResponse = Created(invoiceId: int) | CreateFailed {
    function Code(): int {
      if Created? then 201 else 500
    }
  }

  /**
   * Outcome of get_invoice: 200 with the whole row, 404, or 500 when the id
   * cannot be bound as a query parameter.
   */
  datatype GetResponse = Found(id: int, invoice: Invoice) | NotFound | LookupFailed {
    function Code(): int {
      match this
      case Found(_, _) => 200
      case NotFound => 404
      case LookupFailed => 500
    }
  }

  /**
   * Outcome of update_status: 200, 400 for a status outside the enumeration,
   * 404, or 500 when the id cannot be bound as a query parameter.
   */
  datatype UpdateResponse = StatusUpdated | InvalidStatus | UnknownInvoice | UpdateFailed {
    function Code(): int {
      match this
      case StatusUpdated => 200
      case InvalidStatus => 400
      case UnknownInvoice => 404
      case UpdateFailed => 500
    }
  }

  /** A response together with the store the operation leaves behind. */
  datatype Step<R> = Step(response: R, store: Store)

  /**
   * create_invoice. `body` is `None` when the request body is not a JSON
   * object (reading it raises inside the handler's `try`); `now` is the
   * server clock's ISO timestamp. A missing field violates a NOT NULL
   * constraint, an integer outside 64 bits cannot be bound, and an exhausted
   * rowid range makes SQLite refuse the insert; each raises, the handler
   * answers 500, and nothing is stored.
   */
  function CreateInvoice(st: Store, body: Option<CreateRequest>, now: string): (r: Step<CreateResponse>)
    ensures r.response.Created? <==>
              body.Some? && Complete(body.value) && Bindable(body.value) && st.nextId <= MaxRowId
    ensures r.response.Code() == (if r.response.Created? then 201 else 500)
    ensures r.response.CreateFailed? ==> r.store == st
    ensures r.response.Created? ==>
              var id := r.response.invoiceId;
              var req := body.value;
              && id == st.nextId
              && r.store.nextId == id + 1
              && r.store.rows.Keys == st.rows.Keys + {id}
              && r.store.rows[id].abonnementsId == req.abonnementsId.value
              && r.store.rows[id].kundeId == req.kundeId.value
              && r.store.rows[id].beloeb == req.beloeb.value.AsReal()
              && r.store.rows[id].betalingsdato == req.betalingsdato.value
              && r.store.rows[id].status == "Ikke betalt"
              && r.store.rows[id].oprettetTidspunkt == now
              && (forall k :: k in st.rows && k != id ==> r.store.rows[k] == st.rows[k])
  {
    match body
    case None => Step(CreateFailed, st)
    case Some(req) =>
      if !Complete(req) || !Bindable(req) || st.nextId > MaxRowId then
        Step(CreateFailed, st)
      else
        Step(Created(st.nextId), Store(st.rows[st.nextId := NewRow(req, now)], st.nextId + 1))
  }

  /**
   * get_invoice. The route only admits non-negative ids, hence `nat`. An id
   * beyond 64 bits makes the query raise outside any handler, and the web
   * framework answers 500. Reads only.
   */
  function GetInvoice(st: Store, id: nat): (r: GetResponse)
    ensures r.Code() == 500 <==> id > MaxRowId
    ensures r.Code() == 200 <==> id <= MaxRowId && id in st.rows
    ensures r.Code() == 404 <==> id <= MaxRowId && id !in st.rows
    ensures r.Found? ==> r.id == id && r.invoice == st.rows[id]
  {
    if id > MaxRowId then LookupFailed
    else if id in st.rows then Found(id, st.rows[id])
    else NotFound
  }

  /**
   * The statement `UPDATE invoices SET status = ? WHERE id = ?`: the number
   * of rows it matched, and the table afterwards.
   */
  function ExecUpdateStatus(rows: map<int, Invoice>, id: int, status: string): (r: (nat, map<int, Invoice>))
    ensures r.0 == 1 <==> id in rows
    ensures r.0 == 0 <==> id !in rows
    ensures r.1.Keys == rows.Keys
    ensures id in rows ==> r.1[id] == rows[id].(status := status)
    ensures forall k :: k in rows && k != id ==> r.1[k] == rows[k]
  {
    if id in rows then (1, rows[id := rows[id].(status := status)]) else (0, rows)
  }

  /**
   * update_status. `raw` is the request's "Status" field (`None` when the key
   * is absent or null). It is checked against the enumeration before the table is
   * touched. An id beyond 64 bits makes the UPDATE raise outside any handler
   * (the web framework answers 500); a row count of zero after the UPDATE
   * means the id is unknown.
   */
  function UpdateStatus(st: Store, id: nat, raw: Option<string>): (r: Step<UpdateResponse>)
    ensures r.response.Code() == 400 <==> Parse(raw).None?
    ensures r.response.Code() == 500 <==> Parse(raw).Some? && id > MaxRowId
    ensures r.response.Code() == 404 <==> Parse(raw).Some? && id <= MaxRowId && id !in st.rows
    ensures r.response.Code() == 200 <==> Parse(raw).Some? && id <= MaxRowId && id in st.rows
    ensures !r.response.StatusUpdated? ==> r.store == st
    ensures r.response.StatusUpdated? ==>
              && raw.Some? && IsStatusText(raw.value)
              && r.store.nextId == st.nextId
              && r.store.rows.Keys == st.rows.Keys
              && r.store.rows[id] == st.rows[id].(status := raw.value)
              && (forall k :: k in st.rows && k != id ==> r.store.rows[k] == st.rows[k])
  {
    if Parse(raw).None? then
      Step(InvalidStatus, st)
    else if id > MaxRowId then
      Step(UpdateFailed, st)
    else
      var (rowcount, rows') := ExecUpdateStatus(st.rows, id, raw.value);
      var st' := Store(rows', st.nextId);
      if rowcount == 0 then Step(UnknownInvoice, st') else Step(StatusUpdated, st')
  }
}
