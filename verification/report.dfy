/**
 * The report handler of app.py: three aggregate queries over the whole
 * `invoices` table. It reads the store and never changes it.
 */
module InvoiceReport {
  import opened Wrappers
  import opened InvoiceStatus
  import opened InvoiceStore

  /** The three figures the report returns. */
  datatype Report = Report(totalBetalt: real, ubetalteFakturaer: nat, forfaldneFakturaer: nat)

  /** The ids among `keys` whose row has status text `t` (`WHERE status = t`). */
  function Matching(rows: map<int, Invoice>, keys: set<int>, t: string): set<int> {
    set id | id in keys && id in rows && rows[id].status == t
  }

  /** What one row adds to `SUM(beloeb) ... WHERE status = t`. */
  function AmountIf(inv: Invoice, t: string): real {
    if inv.status == t then inv.beloeb else 0.0
  }

  /** A non-empty set has an element. */
  lemma HasElement(keys: set<int>)
    requires keys != {}
    ensures exists k :: k in keys
  {
    if forall k :: k !in keys {
      assert false;
    }
  }

  /** Some element of a non-empty set. */
  ghost function Pick(keys: set<int>): (k: int)
    requires keys != {}
    ensures k in keys
  {
    HasElement(keys);
    var k :| k in keys; k
  }

  /** The sum of `beloeb` over the rows among `keys` with status `t`, in no particular order. */
  ghost function AmountWhere(rows: map<int, Invoice>, keys: set<int>, t: string): real
    requires keys <= rows.Keys
    decreases keys
  {
    if keys == {} then 0.0
    else
      var k := Pick(keys);
      AmountIf(rows[k], t) + AmountWhere(rows, keys - {k}, t)
  }

  /** The sum does not depend on the order rows are visited: any row may be taken out first. */
  lemma {:induction false} AmountWhereRemove(rows: map<int, Invoice>, keys: set<int>, k: int, t: string)
    requires keys <= rows.Keys && k in keys
    ensures AmountWhere(rows, keys, t) == AmountIf(rows[k], t) + AmountWhere(rows, keys - {k}, t)
    decreases keys
  {
    var j := Pick(keys);
    if j != k {
      AmountWhereRemove(rows, keys - {j}, k, t);
      AmountWhereRemove(rows, keys - {k}, j, t);
      assert keys - {j} - {k} == keys - {k} - {j};
    }
  }

  /** The sum over `keys` only sees the rows at `keys`. */
  lemma {:induction false} AmountWhereFrame(rows: map<int, Invoice>, rows': map<int, Invoice>, keys: set<int>, t: string)
    requires keys <= rows.Keys && keys <= rows'.Keys
    requires forall k :: k in keys ==> rows[k] == rows'[k]
    ensures AmountWhere(rows, keys, t) == AmountWhere(rows', keys, t)
    decreases keys
  {
    if keys != {} {
      var k := Pick(keys);
      AmountWhereFrame(rows, rows', keys - {k}, t);
      AmountWhereRemove(rows', keys, k, t);
    }
  }

  /** Rows whose status is not `t` add nothing to the sum. */
  lemma {:induction false} AmountWhereNoMatch(rows: map<int, Invoice>, keys: set<int>, t: string)
    requires keys <= rows.Keys && Matching(rows, keys, t) == {}
    ensures AmountWhere(rows, keys, t) == 0.0
    decreases keys
  {
    if keys != {} {
      var k := Pick(keys);
      assert k !in Matching(rows, keys, t);
      assert Matching(rows, keys - {k}, t) <= Matching(rows, keys, t);
      AmountWhereNoMatch(rows, keys - {k}, t);
    }
  }

  /**
   * `SELECT SUM(beloeb) FROM invoices WHERE status = t`: SQL's SUM is NULL
   * (here `None`) when no row matches.
   */
  method SumAmountWhere(rows: map<int, Invoice>, t: string) returns (s: Option<real>)
    ensures s.None? <==> Matching(rows, rows.Keys, t) == {}
    ensures s.Some? ==> s.value == AmountWhere(rows, rows.Keys, t)
  {
    var remaining := rows.Keys;
    var total := 0.0;
    var any := false;
    while remaining != {}
      invariant remaining <= rows.Keys
      invariant total + AmountWhere(rows, remaining, t) == AmountWhere(rows, rows.Keys, t)
      invariant any <==> Matching(rows, rows.Keys - remaining, t) != {}
      decreases remaining
    {
      HasElement(remaining);
      var k :| k in remaining;
      AmountWhereRemove(rows, remaining, k, t);
      if rows[k].status == t {
        total := total + rows[k].beloeb;
        any := true;
        assert k in Matching(rows, rows.Keys - (remaining - {k}), t);
      } else {
        assert Matching(rows, rows.Keys - (remaining - {k}), t) == Matching(rows, rows.Keys - remaining, t);
      }
      remaining := remaining - {k};
    }
    assert rows.Keys - remaining == rows.Keys;
    s := if any then Some(total) else None;
  }

  /** `SELECT COUNT(*) FROM invoices WHERE status = t`. */
  method CountWhere(rows: map<int, Invoice>, t: string) returns (n: nat)
    ensures n == |Matching(rows, rows.Keys, t)|
  {
    var remaining := rows.Keys;
    n := 0;
    while remaining != {}
      invariant remaining <= rows.Keys
      invariant n == |Matching(rows, rows.Keys - remaining, t)|
      decreases remaining
    {
      HasElement(remaining);
      var k :| k in remaining;
      ghost var before := Matching(rows, rows.Keys - remaining, t);
      ghost var after := Matching(rows, rows.Keys - (remaining - {k}), t);
      assert k !in before;
      if rows[k].status == t {
        assert after == before + {k};
        n := n + 1;
      } else {
        assert after == before;
      }
      remaining := remaining - {k};
    }
    assert rows.Keys - remaining == rows.Keys;
  }

  /** Python's `x or 0` on the SUM result: NULL (and a zero sum) read as 0. */
  function OrZero(v: Option<real>): real {
    match v
    case None => 0.0
    case Some(x) => x
  }

  /** The amount paid: the sum of `beloeb` over the rows with status "Betalt". */
  ghost function PaidTotal(st: Store): real {
    AmountWhere(st.rows, st.rows.Keys, Text(Betalt))
  }

  /** The number of rows in each state. */
  function CountOf(st: Store, s: Status): nat {
    |Matching(st.rows, st.rows.Keys, Text(s))|
  }

  /**
   * In a valid store every row is in exactly one of the three states, so the
   * three counts add up to the number of rows.
   */
  lemma CountsPartition(st: Store)
    requires Valid(st)
    ensures CountOf(st, Betalt) + CountOf(st, IkkeBetalt) + CountOf(st, Forfalden) == |st.rows|
  {
    var keys := st.rows.Keys;
    var paid := Matching(st.rows, keys, Text(Betalt));
    var unpaid := Matching(st.rows, keys, Text(IkkeBetalt));
    var overdue := Matching(st.rows, keys, Text(Forfalden));
    forall id | id in keys
      ensures id in paid + unpaid + overdue
    {
      assert IsStatusText(st.rows[id].status);
    }
    assert paid + unpaid + overdue == keys;
    assert paid !! unpaid && (paid + unpaid) !! overdue;
    assert |paid + unpaid| == |paid| + |unpaid|;
    assert |keys| == |st.rows|;
  }

  /**
   * report: the sum of the amounts of paid invoices (0 when there are none),
   * the number of unpaid invoices and the number of overdue invoices. The
   * store is a value parameter: the report cannot change it.
   */
  method ComputeReport(st: Store) returns (rep: Report)
    ensures rep.totalBetalt == PaidTotal(st)
    ensures CountOf(st, Betalt) == 0 ==> rep.totalBetalt == 0.0
    ensures rep.ubetalteFakturaer == CountOf(st, IkkeBetalt)
    ensures rep.forfaldneFakturaer == CountOf(st, Forfalden)
    ensures Valid(st) ==> CountOf(st, Betalt) + rep.ubetalteFakturaer + rep.forfaldneFakturaer == |st.rows|
    ensures st.rows == map[] ==> rep == Report(0.0, 0, 0)
  {
    var paid := SumAmountWhere(st.rows, Text(Betalt));
    var unpaid := CountWhere(st.rows, Text(IkkeBetalt));
    var overdue := CountWhere(st.rows, Text(Forfalden));
    if paid.None? {
      AmountWhereNoMatch(st.rows, st.rows.Keys, Text(Betalt));
    }
    if Valid(st) {
      CountsPartition(st);
    }
    rep := Report(OrZero(paid), unpaid, overdue);
  }

  /** A store without rows reports nothing paid, nothing unpaid and nothing overdue. */
  lemma ReportEmpty()
    ensures PaidTotal(Empty) == 0.0
    ensures forall s :: CountOf(Empty, s) == 0
  {
  }

  /** Inserting a row under a new id adds it to the rows matching its status, and only there. */
  lemma MatchingInsert(rows: map<int, Invoice>, id: int, row: Invoice, t: string)
    requires id !in rows
    ensures |Matching(rows[id := row], rows[id := row].Keys, t)|
            == |Matching(rows, rows.Keys, t)| + (if row.status == t then 1 else 0)
  {
    var before := Matching(rows, rows.Keys, t);
    var after := Matching(rows[id := row], rows[id := row].Keys, t);
    assert id !in before;
    if row.status == t {
      assert after == before + {id};
    } else {
      assert after == before;
    }
  }

  /** The rows matching `t` among `keys` are those among `keys - {id}` plus, if it matches, `id`. */
  lemma MatchingSplit(rows: map<int, Invoice>, keys: set<int>, id: int, t: string)
    requires id in keys && id in rows
    ensures |Matching(rows, keys, t)|
            == |Matching(rows, keys - {id}, t)| + (if rows[id].status == t then 1 else 0)
  {
    var rest := Matching(rows, keys - {id}, t);
    assert id !in rest;
    if rows[id].status == t {
      assert Matching(rows, keys, t) == rest + {id};
    } else {
      assert Matching(rows, keys, t) == rest;
    }
  }

  /** Replacing the row at an existing id moves it from the old status's rows to the new one's. */
  lemma MatchingReplace(rows: map<int, Invoice>, id: int, row: Invoice, t: string)
    requires id in rows
    ensures |Matching(rows[id := row], rows.Keys, t)| + (if rows[id].status == t then 1 else 0)
            == |Matching(rows, rows.Keys, t)| + (if row.status == t then 1 else 0)
  {
    var rows' := rows[id := row];
    MatchingSplit(rows, rows.Keys, id, t);
    MatchingSplit(rows', rows.Keys, id, t);
    assert Matching(rows, rows.Keys - {id}, t) == Matching(rows', rows.Keys - {id}, t);
  }

  /** Inserting a row under a new id adds its contribution to the sum. */
  lemma AmountInsert(rows: map<int, Invoice>, id: int, row: Invoice, t: string)
    requires id !in rows
    ensures AmountWhere(rows[id := row], rows[id := row].Keys, t)
            == AmountWhere(rows, rows.Keys, t) + AmountIf(row, t)
  {
    var rows' := rows[id := row];
    AmountWhereRemove(rows', rows'.Keys, id, t);
    assert rows'.Keys - {id} == rows.Keys;
    AmountWhereFrame(rows, rows', rows.Keys, t);
  }

  /** Replacing the row at an existing id swaps its old contribution to the sum for the new one. */
  lemma AmountReplace(rows: map<int, Invoice>, id: int, row: Invoice, t: string)
    requires id in rows
    ensures AmountWhere(rows[id := row], rows.Keys, t) + AmountIf(rows[id], t)
            == AmountWhere(rows, rows.Keys, t) + AmountIf(row, t)
  {
    var rows' := rows[id := row];
    assert rows'.Keys == rows.Keys;
    AmountWhereRemove(rows, rows.Keys, id, t);
    AmountWhereRemove(rows', rows.Keys, id, t);
    AmountWhereFrame(rows, rows', rows.Keys - {id}, t);
  }

  /**
   * A successful create adds one unpaid invoice: the unpaid count grows by
   * one, and the paid total and the other counts stay as they were.
   */
  lemma CreateReportEffect(st: Store, body: Option<CreateRequest>, now: string)
    requires Valid(st)
    requires CreateInvoice(st, body, now).response.Created?
    ensures var st' := CreateInvoice(st, body, now).store;
            && CountOf(st', IkkeBetalt) == CountOf(st, IkkeBetalt) + 1
            && CountOf(st', Betalt) == CountOf(st, Betalt)
            && CountOf(st', Forfalden) == CountOf(st, Forfalden)
            && PaidTotal(st') == PaidTotal(st)
  {
    var st' := CreateInvoice(st, body, now).store;
    var id := st.nextId;
    var row := st'.rows[id];
    assert id !in st.rows;
    assert st'.rows == st.rows[id := row];
    assert row.status == Text(IkkeBetalt);
    MatchingInsert(st.rows, id, row, Text(IkkeBetalt));
    MatchingInsert(st.rows, id, row, Text(Betalt));
    MatchingInsert(st.rows, id, row, Text(Forfalden));
    AmountInsert(st.rows, id, row, Text(Betalt));
  }

  /**
   * A successful status update moves one invoice between states: each count
   * loses it if the old status matched and gains it if the new one does, and
   * the paid total changes by that invoice's amount accordingly.
   */
  lemma UpdateReportEffect(st: Store, id: nat, raw: Option<string>, s: Status)
    requires UpdateStatus(st, id, raw).response.StatusUpdated?
    ensures var st' := UpdateStatus(st, id, raw).store;
            && CountOf(st', s) + (if st.rows[id].status == Text(s) then 1 else 0)
               == CountOf(st, s) + (if raw.value == Text(s) then 1 else 0)
            && PaidTotal(st') + AmountIf(st.rows[id], Text(Betalt))
               == PaidTotal(st) + AmountIf(st'.rows[id], Text(Betalt))
  {
    var st' := UpdateStatus(st, id, raw).store;
    var row := st'.rows[id];
    assert st'.rows == st.rows[id := row];
    MatchingReplace(st.rows, id, row, Text(s));
    AmountReplace(st.rows, id, row, Text(Betalt));
  }
}
