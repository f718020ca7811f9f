/**
 * Properties of the invoice store across operations: the invariant every
 * operation keeps, what a read sees after a write, and what a whole sequence
 * of requests does to ids and to the report.
 */
module InvoiceLifecycle {
  import opened Wrappers
  import opened InvoiceStatus
  import opened InvoiceStore
  import opened InvoiceReport

  /** The empty table satisfies the store invariant. */
  lemma EmptyValid()
    ensures Valid(Empty)
    ensures Empty.rows == map[]
  {
  }

  /**
   * create keeps the invariant: the new row's status is the constant
   * "Ikke betalt", and its id lies below the advanced counter.
   */
  lemma CreatePreservesValid(st: Store, body: Option<CreateRequest>, now: string)
    requires Valid(st)
    ensures Valid(CreateInvoice(st, body, now).store)
  {
  }

  /** update_status keeps the invariant: only a validated status text is written. */
  lemma UpdatePreservesValid(st: Store, id: nat, raw: Option<string>)
    requires Valid(st)
    ensures Valid(UpdateStatus(st, id, raw).store)
  {
  }

  /** The id a successful create returns was never issued before: it exceeds every stored id. */
  lemma CreateFreshId(st: Store, body: Option<CreateRequest>, now: string)
    requires Valid(st)
    requires CreateInvoice(st, body, now).response.Created?
    ensures var id := CreateInvoice(st, body, now).response.invoiceId;
            && id !in st.rows
            && (forall k :: k in st.rows ==> k < id)
            && |CreateInvoice(st, body, now).store.rows| == |st.rows| + 1
  {
  }

  /** Reading back a just-created invoice gives the caller's fields, status "Ikke betalt" and the timestamp. */
  lemma GetAfterCreate(st: Store, req: CreateRequest, now: string)
    requires Valid(st) && Complete(req) && Bindable(req) && st.nextId <= MaxRowId
    ensures var r := CreateInvoice(st, Some(req), now);
            && r.response.Created?
            && GetInvoice(r.store, r.response.invoiceId)
               == Found(r.response.invoiceId,
                        Invoice(req.abonnementsId.value, req.kundeId.value, req.beloeb.value.AsReal(),
                                req.betalingsdato.value, "Ikke betalt", now))
  {
  }

  /**
   * An id that was never issued (0, or not yet reached by the counter) finds
   * no invoice: 404, or 500 when it does not fit in 64 bits.
   */
  lemma GetNeverIssued(st: Store, id: nat)
    requires Valid(st)
    requires id < 1 || id >= st.nextId
    ensures !GetInvoice(st, id).Found?
    ensures id <= MaxRowId ==> GetInvoice(st, id) == NotFound
  {
  }

  /**
   * Any state may replace any other: a valid status on an existing invoice
   * is always accepted, and reading the invoice back shows the new status
   * with every other column unchanged.
   */
  lemma UpdateAnyTransition(st: Store, id: nat, s: Status)
    requires Valid(st) && id in st.rows
    ensures var r := UpdateStatus(st, id, Some(Text(s)));
            && r.response == StatusUpdated
            && GetInvoice(r.store, id) == Found(id, st.rows[id].(status := Text(s)))
  {
  }

  /** Applying the same update twice leaves the same store, and answers the same, as applying it once. */
  lemma UpdateIdempotent(st: Store, id: nat, raw: Option<string>)
    ensures var once := UpdateStatus(st, id, raw);
            var twice := UpdateStatus(once.store, id, raw);
            && twice.store == once.store
            && twice.response == once.response
  {
  }

  /** One request to the service; get and report only read. */
  datatype Command =
    | CreateCmd(body: Option<CreateRequest>, now: string)
    | GetCmd(id: nat)
    | UpdateCmd(id: nat, raw: Option<string>)
    | ReportCmd

  /** `after` is `before` with at most its status changed. */
  predicate OnlyStatusChanged(before: Invoice, after: Invoice) {
    after == before.(status := after.status)
  }

  /** The store after one request. */
  function Apply(st: Store, c: Command): Store {
    match c
    case CreateCmd(body, now) => CreateInvoice(st, body, now).store
    case GetCmd(_) => st
    case UpdateCmd(id, raw) => UpdateStatus(st, id, raw).store
    case ReportCmd => st
  }

  /** The store after a sequence of requests, handled one at a time. */
  function Run(st: Store, cmds: seq<Command>): Store
    decreases |cmds|
  {
    if cmds == [] then st else Run(Apply(st, cmds[0]), cmds[1..])
  }

  /** The id one request issues: the new id of a successful create, nothing otherwise. */
  function IssuedBy(st: Store, c: Command): seq<int> {
    if c.CreateCmd? && CreateInvoice(st, c.body, c.now).response.Created?
    then [CreateInvoice(st, c.body, c.now).response.invoiceId]
    else []
  }

  /** The ids that the successful creates in a sequence of requests return, in order. */
  function Issued(st: Store, cmds: seq<Command>): seq<int>
    decreases |cmds|
  {
    if cmds == [] then [] else IssuedBy(st, cmds[0]) + Issued(Apply(st, cmds[0]), cmds[1..])
  }

  /**
   * One request from a valid store keeps the invariant, keeps every row and
   * never lowers the counter; an id it issues is the old counter, now stored,
   * and the counter moves past it.
   */
  lemma StepFacts(st: Store, c: Command)
    requires Valid(st)
    ensures Valid(Apply(st, c))
    ensures st.rows.Keys <= Apply(st, c).rows.Keys
    ensures st.nextId <= Apply(st, c).nextId
    ensures IssuedBy(st, c) == [] || IssuedBy(st, c) == [st.nextId]
    ensures IssuedBy(st, c) != [] ==> Apply(st, c).nextId == st.nextId + 1 && st.nextId in Apply(st, c).rows
    ensures forall k :: k in st.rows ==> OnlyStatusChanged(st.rows[k], Apply(st, c).rows[k])
  {
  }

  /**
   * Over any sequence of requests from a valid store: the invariant holds
   * at the end, no row disappears, no id is issued twice (issued ids are
   * strictly increasing and all above the ids already present), every
   * issued id is a row of the final store, and of every row present at the
   * start only the status may have changed: the caller's four fields and
   * the creation timestamp are fixed once written.
   */
  lemma {:induction false} RunFacts(st: Store, cmds: seq<Command>)
    requires Valid(st)
    ensures Valid(Run(st, cmds))
    ensures st.rows.Keys <= Run(st, cmds).rows.Keys
    ensures st.nextId <= Run(st, cmds).nextId
    ensures forall i :: 0 <= i < |Issued(st, cmds)| ==>
              st.nextId <= Issued(st, cmds)[i] < Run(st, cmds).nextId
    ensures forall i :: 0 <= i < |Issued(st, cmds)| ==> Issued(st, cmds)[i] in Run(st, cmds).rows
    ensures forall i, j :: 0 <= i < j < |Issued(st, cmds)| ==> Issued(st, cmds)[i] < Issued(st, cmds)[j]
    ensures forall k :: k in st.rows ==> OnlyStatusChanged(st.rows[k], Run(st, cmds).rows[k])
    decreases |cmds|
  {
    if cmds != [] {
      var mid := Apply(st, cmds[0]);
      StepFacts(st, cmds[0]);
      RunFacts(mid, cmds[1..]);
      assert Run(st, cmds) == Run(mid, cmds[1..]);
      assert Issued(st, cmds) == IssuedBy(st, cmds[0]) + Issued(mid, cmds[1..]);
    }
  }

  /** Three creates on an empty store give ids 1, 2 and 3, all unpaid. */
  lemma ThreeCreated(a: CreateRequest, b: CreateRequest, c: CreateRequest, now: string)
    requires Complete(a) && Complete(b) && Complete(c)
    requires Bindable(a) && Bindable(b) && Bindable(c)
    ensures var r1 := CreateInvoice(Empty, Some(a), now);
            var r2 := CreateInvoice(r1.store, Some(b), now);
            var r3 := CreateInvoice(r2.store, Some(c), now);
            var s3 := r3.store;
            && r1.response == Created(1) && r2.response == Created(2) && r3.response == Created(3)
            && s3.rows.Keys == {1, 2, 3}
            && Valid(s3)
            && s3.rows[1].beloeb == a.beloeb.value.AsReal()
            && s3.rows[1].status == "Ikke betalt" && s3.rows[2].status == "Ikke betalt"
            && PaidTotal(s3) == 0.0
            && CountOf(s3, IkkeBetalt) == 3
            && CountOf(s3, Betalt) == 0
            && CountOf(s3, Forfalden) == 0
  {
    var r1 := CreateInvoice(Empty, Some(a), now);
    assert r1.response == Created(1) && r1.store.rows.Keys == {1} && r1.store.nextId == 2;
    var r2 := CreateInvoice(r1.store, Some(b), now);
    assert r2.response == Created(2) && r2.store.rows.Keys == {1, 2} && r2.store.nextId == 3;
    var r3 := CreateInvoice(r2.store, Some(c), now);
    assert r3.response == Created(3) && r3.store.rows.Keys == {1, 2, 3};
    ReportEmpty();
    EmptyValid();
    CreateReportEffect(Empty, Some(a), now);
    CreatePreservesValid(Empty, Some(a), now);
    CreateReportEffect(r1.store, Some(b), now);
    CreatePreservesValid(r1.store, Some(b), now);
    CreateReportEffect(r2.store, Some(c), now);
    CreatePreservesValid(r2.store, Some(c), now);
  }

  /**
   * The example run: three invoices created on an empty store, the first
   * marked paid and the second overdue. The report then shows the first
   * invoice's amount as paid, one unpaid and one overdue invoice.
   */
  lemma ThreeInvoiceReport(a: CreateRequest, b: CreateRequest, c: CreateRequest, now: string)
    requires Complete(a) && Complete(b) && Complete(c)
    requires Bindable(a) && Bindable(b) && Bindable(c)
    ensures var s1 := CreateInvoice(Empty, Some(a), now).store;
            var s2 := CreateInvoice(s1, Some(b), now).store;
            var s3 := CreateInvoice(s2, Some(c), now).store;
            var s4 := UpdateStatus(s3, 1, Some("Betalt")).store;
            var s5 := UpdateStatus(s4, 2, Some("Forfalden")).store;
            && PaidTotal(s5) == a.beloeb.value.AsReal()
            && CountOf(s5, IkkeBetalt) == 1
            && CountOf(s5, Forfalden) == 1
            && CountOf(s5, Betalt) == 1
  {
    var s1 := CreateInvoice(Empty, Some(a), now).store;
    var s2 := CreateInvoice(s1, Some(b), now).store;
    var s3 := CreateInvoice(s2, Some(c), now).store;
    ThreeCreated(a, b, c, now);
    var u4 := UpdateStatus(s3, 1, Some("Betalt"));
    var s4 := u4.store;
    assert u4.response.StatusUpdated?;
    UpdateReportEffect(s3, 1, Some("Betalt"), IkkeBetalt);
    UpdateReportEffect(s3, 1, Some("Betalt"), Betalt);
    UpdateReportEffect(s3, 1, Some("Betalt"), Forfalden);
    assert PaidTotal(s4) == a.beloeb.value.AsReal();
    assert CountOf(s4, IkkeBetalt) == 2 && CountOf(s4, Betalt) == 1 && CountOf(s4, Forfalden) == 0;
    assert s4.rows[2].status == "Ikke betalt";
    var u5 := UpdateStatus(s4, 2, Some("Forfalden"));
    assert u5.response.StatusUpdated?;
    UpdateReportEffect(s4, 2, Some("Forfalden"), IkkeBetalt);
    UpdateReportEffect(s4, 2, Some("Forfalden"), Betalt);
    UpdateReportEffect(s4, 2, Some("Forfalden"), Forfalden);
  }
}
