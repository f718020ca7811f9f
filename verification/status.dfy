/**
 * The closed enumeration of invoice payment states (`FakturaStatus` in app.py)
 * and the membership test that guards every status update.
 */
module InvoiceStatus {
  import opened Wrappers

  /** The three payment states an invoice can be in. */
  datatype Status = IkkeBetalt | Betalt | Forfalden

  /** The exact texts the status column may hold. */
  predicate IsStatusText(t: string) {
    t == "Ikke betalt" || t == "Betalt" || t == "Forfalden"
  }

  /** The text written to the status column for each state. */
  function Text(s: Status): (t: string)
    ensures IsStatusText(t)
  {
    match s
    case IkkeBetalt => "Ikke betalt"
    case Betalt => "Betalt"
    case Forfalden => "Forfalden"
  }

  /**
   * The membership test on the "Status" field of an update request. `None`
   * stands for a request without that key or with it set to null (`data.get`
   * gives `None` for both), which is never a member. The comparison is
   * exact: no trimming, no case folding.
   */
  function Parse(raw: Option<string>): (r: Option<Status>)
    ensures r.Some? <==> raw.Some? && IsStatusText(raw.value)
    ensures r.Some? ==> Text(r.value) == raw.value
  {
    match raw
    case None => None
    case Some(t) =>
      if t == Text(IkkeBetalt) then Some(IkkeBetalt)
      else if t == Text(Betalt) then Some(Betalt)
      else if t == Text(Forfalden) then Some(Forfalden)
      else None
  }

  /** Every state's text passes the membership test and names that state again. */
  lemma ParseText(s: Status)
    ensures Parse(Some(Text(s))) == Some(s)
  {
  }

  /** Distinct states are stored as distinct texts. */
  lemma TextInjective(a: Status, b: Status)
    ensures Text(a) == Text(b) <==> a == b
  {
  }
}
