/** Laws of the API transactions that relate one call to another. */
module Responses {
  import opened Wrappers
  import opened Tables
  import opened Messages
  import opened Money
  import opened Programs
  import opened Snapshot
  import opened Transactions
  import opened Accounts

  /** Releasing again changes nothing and answers the same. */
  lemma ReleaseIsIdempotent(a: Account, k: InvoiceId)
    requires ReleaseOn(a, k).Done?
    ensures ReleaseOn(ReleaseOn(a, k).account, k) == ReleaseOn(a, k)
  {
  }

  /** The account a release of a new reservation leaves, when it commits. */
  lemma ReleaseAfterCreate(a: Account, req: CreateRequest, found: Lookups)
    requires Kept(a) && CreateOn(a, req, found).Done?
    ensures
      var b := CreateOn(a, req, found).account;
      var undone := ReleaseOn(b, req.invoice);
      && (undone.Done? <==> SafeNumber(Available(a.program)))
      && (undone.Done? ==>
            && undone.account.program == a.program.(version := a.program.version + 2)
            && undone.account.rows == a.rows[req.invoice := ReleasedRow(b.rows[req.invoice])]
            && |undone.account.ledger| == |b.ledger| + 1
            && undone.account.ledger[..|b.ledger|] == b.ledger
            && undone.account.ledger[|b.ledger|].event == ReservationReleased(req.invoice)
            && undone.account.ledger[|b.ledger|].amount == -b.ledger[|a.ledger|].amount)
  {
  }

  /**
    A release undoes a create, except that it is refused when the capacity it would report
    is no safe integer: then the created reservation cannot be released as things stand.
   */
  lemma ReleaseUndoesCreate(a: Account, req: CreateRequest, found: Lookups)
    requires Kept(a) && CreateOn(a, req, found).Done?
    ensures
      var undone := ReleaseOn(CreateOn(a, req, found).account, req.invoice);
      && (undone.Done? <==> SafeNumber(Available(a.program)))
      && (undone.Done? ==>
            && undone.account.program == a.program.(version := a.program.version + 2)
            && ReservedFold(undone.account.ledger) == ReservedFold(a.ledger)
            && HitsReleased(undone.account.rows, req.invoice)
            && (forall k | k in a.rows :: undone.account.rows[k] == a.rows[k]))
  {
    ReleaseAfterCreate(a, req, found);
    var b := CreateOn(a, req, found).account;
    Append(a.ledger, b.ledger[|a.ledger|], req.invoice);
    var undone := ReleaseOn(b, req.invoice);
    if undone.Done? {
      var l := undone.account.ledger;
      assert l == l[..|b.ledger|] + [l[|b.ledger|]];
      Append(b.ledger, l[|b.ledger|], req.invoice);
    }
  }

  /** The refusal does occur: after one create from a clean start. */
  lemma UnreleasableReservation()
    ensures
      var p := "PROGRAM-ABC";
      var start := Db(map[p := Account(Program("USD", 2, MAX_SAFE_INTEGER + 3, 0, ProgramActive, 0, None), map[], [])],
                      map[], {});
      var end := After(start, CreateOp(CreateRequest(p, "A", 10, "USD"), Lookups(Some(2), None)));
      && Initial(start)
      && p in end.accounts && "A" in end.accounts[p].rows && end.accounts[p].rows["A"].status.Active?
      && Release(end, p, "A") == Failed(UnsafeNumber)
  {
  }
}
