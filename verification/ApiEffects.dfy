/**
  What a create and a release do, column by column, and exactly when they fail: in terms of
  the request, the lookups and the tables before, not of the functions that compute it.
 */
module ApiEffects {
  import opened Wrappers
  import opened Tables
  import opened Messages
  import opened Money
  import opened MoneyLaws
  import opened Transactions
  import opened Accounts

  /** The number answered is the capacity left, and 0 over the limit. */
  predicate AnswersCapacity(p: Program, available: int) {
    if p.reserved > p.limit then available == 0 else available + p.reserved == p.limit
  }

  // ---------- create ----------

  /** The row of a new reservation: the request, the currencies' exponents, and the rate used. */
  lemma CreateStoresRow(a: Account, req: CreateRequest, found: Lookups)
    requires CreateOn(a, req, found).Done?
    ensures
      var b := CreateOn(a, req, found).account;
      && req.invoice !in a.rows && b.rows.Keys == a.rows.Keys + {req.invoice}
      && (forall k | k in a.rows :: b.rows[k] == a.rows[k])
      && var row := b.rows[req.invoice];
      && row.invoiceAmount == req.amount && row.invoiceCurrency == req.currency
      && found.exponent == Some(row.invoiceExponent)
      && row.programCurrency == a.program.currency && row.programExponent == a.program.exponent
      && row.status == ReservationStatus.Active && row.source == Api && row.reconciliation == None
      && (req.currency == a.program.currency ==>
            row.reserved == req.amount && row.rate == 10_000_000_000 && row.rateSource == Identity)
      && (req.currency != a.program.currency ==>
            && found.quote.Some?
            && row.rate == found.quote.value.rate && row.rateSource == FxTable(found.quote.value.name)
            && req.amount > 0
            && row.reserved == Convert(req.amount, found.exponent.value, a.program.exponent, found.quote.value.rate))
  {
  }

  /** A reservation in another currency is within 1/2 + 1/1000 of the exact conversion of the request. */
  lemma CreateConverts(a: Account, req: CreateRequest, found: Lookups)
    requires CreateOn(a, req, found).Done? && req.currency != a.program.currency
    ensures
      && req.amount > 0 && found.exponent.Some? && found.quote.Some?
      && var reserved := CreateOn(a, req, found).account.rows[req.invoice].reserved;
      && var s, t := found.exponent.value, a.program.exponent;
      && 1000 * Abs(reserved * Scale(s, t) - Exact(req.amount, s, t, found.quote.value.rate)) <= 501 * Scale(s, t)
  {
    CreateStoresRow(a, req, found);
    SafeConversionError(req.amount, found.exponent.value, a.program.exponent, found.quote.value.rate);
  }

  /** The program, the ledger and the answer after a create. */
  lemma CreateBooks(a: Account, req: CreateRequest, found: Lookups)
    requires CreateOn(a, req, found).Done?
    ensures
      var Done(b, available) := CreateOn(a, req, found);
      var reserved := b.rows[req.invoice].reserved;
      && b.program == a.program.(reserved := a.program.reserved + reserved, version := a.program.version + 1)
      && b.program.reserved <= b.program.limit
      && b.ledger == a.ledger + [LedgerEntry(ReservationCreated(req.invoice), reserved, a.program.currency)]
      && AnswersCapacity(b.program, available)
  {
  }

  /** The amount a create asks for, when currency and rate are known. */
  function Wanted(a: Account, req: CreateRequest, found: Lookups): Option<int> {
    if found.exponent.None? then None
    else if req.currency == a.program.currency then Some(req.amount)
    else if found.quote.None? then None
    else Some(Convert(if req.amount > 0 then req.amount else 0, found.exponent.value, a.program.exponent,
                      found.quote.value.rate))
  }

  /** The errors of a create before it comes to the capacity, in the order in which they are looked for. */
  lemma CreateRefusedIff(a: Account, req: CreateRequest, found: Lookups)
    requires Kept(a)
    ensures
      var r := CreateOn(a, req, found);
      var over, listed := a.program.reserved > a.program.limit, req.invoice in a.rows;
      && (r == Failed(ProgramIsOverLimit) <==> over)
      && (r == Failed(InvoiceAlreadyReserved) <==> !over && listed && a.rows[req.invoice].status.Active?)
      && (r == Failed(InvoiceAlreadyProcessed) <==> !over && listed && !a.rows[req.invoice].status.Active?)
      && (r == Failed(UnsupportedCurrency) <==> !over && !listed && found.exponent.None?)
      && (r == Failed(FxRateNotFound) <==>
            !over && !listed && found.exponent.Some? && req.currency != a.program.currency && found.quote.None?)
      && r !in {Failed(ProgramNotFound), Failed(ProgramNotActive), Failed(ReservationNotFound), Failed(ReconciliationConflict)}
  {
  }

  predicate FitsThreeCharacters(code: string) {
    forall i | 3 <= i < |code| :: code[i] == ' '
  }

  /** A create that gets as far as the capacity: exactly when it succeeds, */
  lemma CreateSucceedsIff(a: Account, req: CreateRequest, found: Lookups)
    requires Kept(a) && a.program.reserved <= a.program.limit && req.invoice !in a.rows
    requires Wanted(a, req, found).Some?
    ensures
      var wanted, left := Wanted(a, req, found).value, a.program.limit - a.program.reserved;
      CreateOn(a, req, found).Done? <==>
        && 0 < wanted <= left
        && 0 < req.amount < 0x20_0000_0000_0000 && wanted < 0x20_0000_0000_0000
        && left - wanted < 0x20_0000_0000_0000
        && FitsThreeCharacters(req.currency)
  {
  }

  /** how it fails for a lack of capacity, */
  lemma CreateLacksCapacityIff(a: Account, req: CreateRequest, found: Lookups)
    requires Kept(a) && a.program.reserved <= a.program.limit && req.invoice !in a.rows
    requires Wanted(a, req, found).Some?
    ensures
      var wanted, left := Wanted(a, req, found).value, a.program.limit - a.program.reserved;
      CreateOn(a, req, found) == Failed(InsufficientCapacity) <==>
        left < wanted < 0x20_0000_0000_0000 && left < 0x20_0000_0000_0000
  {
  }

  /** and on a value no column takes; what is left is a number no response takes. */
  lemma CreateViolatesIff(a: Account, req: CreateRequest, found: Lookups)
    requires Kept(a) && a.program.reserved <= a.program.limit && req.invoice !in a.rows
    requires Wanted(a, req, found).Some?
    ensures
      var r := CreateOn(a, req, found);
      var wanted, left := Wanted(a, req, found).value, a.program.limit - a.program.reserved;
      && (r == Failed(ConstraintViolation) <==>
            || wanted < -0x8000_0000_0000_0000 || wanted >= 0x8000_0000_0000_0000
            || (wanted <= left
                && !(0 < wanted && 0 < req.amount < 0x8000_0000_0000_0000 && FitsThreeCharacters(req.currency))))
      && (r.Failed? ==> r.error in {InsufficientCapacity, ConstraintViolation, UnsafeNumber})
  {
  }

  /** A create for a program that does not exist, and only that, is PROGRAM_NOT_FOUND. */
  lemma CreateFindsProgram(db: Db, req: CreateRequest, found: Lookups)
    ensures Create(db, req, found) == Failed(ProgramNotFound) <==> req.program !in db.accounts
    ensures req.program in db.accounts ==> Create(db, req, found) == CreateOn(db.accounts[req.program], req, found)
  {
  }

  // ---------- release ----------

  /** What a release of an ACTIVE reservation changes. */
  lemma ReleaseBooks(a: Account, k: InvoiceId)
    requires ReleaseOn(a, k).Done? && a.rows[k].status.Active?
    ensures
      var b := ReleaseOn(a, k).account;
      var amount := a.rows[k].reserved;
      && b.rows == a.rows[k := a.rows[k].(status := ReservationStatus.Released)]
      && b.program.reserved == (if a.program.reserved >= amount then a.program.reserved - amount else 0)
      && b.program.status == (if b.program.reserved > b.program.limit then ProgramOverLimit else ProgramActive)
      && b.program == a.program.(reserved := b.program.reserved, status := b.program.status,
                                 version := a.program.version + 1)
      && b.ledger == a.ledger + [LedgerEntry(ReservationReleased(k), -amount, a.rows[k].programCurrency)]
  {
  }

  /** A second release changes nothing. */
  lemma ReleaseAgainBooksNothing(a: Account, k: InvoiceId)
    requires k in a.rows && a.rows[k].status.Released? && ReleaseOn(a, k).Done?
    ensures ReleaseOn(a, k).account == a
  {
  }

  lemma ReleaseAnswersCapacity(a: Account, k: InvoiceId)
    requires ReleaseOn(a, k).Done?
    ensures AnswersCapacity(ReleaseOn(a, k).account.program, ReleaseOn(a, k).available)
  {
  }

  /** Exactly when a release is refused; otherwise it fails only on a number that is no safe integer. */
  lemma ReleaseRefusedIff(a: Account, k: InvoiceId)
    requires Kept(a)
    ensures
      var r := ReleaseOn(a, k);
      && (r == Failed(ReservationNotFound) <==> k !in a.rows)
      && (r == Failed(ReconciliationConflict) <==> k in a.rows && a.rows[k].status.Reconciled?)
      && (k in a.rows && !a.rows[k].status.Reconciled? ==>
            var amount := a.rows[k].reserved;
            var held := if a.rows[k].status.Released? then a.program.reserved else a.program.reserved - amount;
            var left := a.program.limit - if held > 0 then held else 0;
            if amount < 0x20_0000_0000_0000 && left < 0x20_0000_0000_0000 then r.Done?
            else r == Failed(UnsafeNumber))
  {
  }

  /** A reservation that is in no program's table is RESERVATION_NOT_FOUND. */
  lemma ReleaseFindsReservation(db: Db, p: ProgramId, k: InvoiceId)
    requires p in db.accounts ==> Kept(db.accounts[p])
    ensures Release(db, p, k) == Failed(ReservationNotFound) <==> p !in db.accounts || k !in db.accounts[p].rows
    ensures p in db.accounts ==> Release(db, p, k) == ReleaseOn(db.accounts[p], k)
  {
  }
}
