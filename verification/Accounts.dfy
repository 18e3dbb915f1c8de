/** What every transaction keeps about the program it touches. */
module Accounts {
  import opened Wrappers
  import opened Tables
  import opened Messages
  import opened Programs
  import opened Snapshot
  import opened Sums
  import opened Transactions

  /** The amounts of the RESERVATION_RELEASED entries for one reservation. */
  function ReleaseEntries(ledger: seq<LedgerEntry>, k: InvoiceId): seq<int> {
    if ledger == [] then []
    else
      var last := ledger[|ledger| - 1];
      ReleaseEntries(ledger[..|ledger| - 1], k) + if last.event == ReservationReleased(k) then [last.amount] else []
  }

  /** The ledger's account of the reserved amount. */
  function ReservedFold(ledger: seq<LedgerEntry>): int {
    if ledger == [] then 0
    else
      var last := ledger[|ledger| - 1];
      var counts := last.event.ReservationCreated? || last.event.ReservationReleased?
                    || last.event.TreasuryReconciliationApplied?;
      ReservedFold(ledger[..|ledger| - 1]) + if counts then last.amount else 0
  }

  /** The ledger's account of the limit. */
  function LimitFold(ledger: seq<LedgerEntry>): int {
    if ledger == [] then 0
    else
      var last := ledger[|ledger| - 1];
      LimitFold(ledger[..|ledger| - 1])
      + if last.event.ProgramCreated? || last.event.TreasuryUpdateApplied? then last.amount
        else if last.event.TreasuryReconciliationApplied? then last.event.limitDifference
        else 0
  }

  lemma Append(ledger: seq<LedgerEntry>, entry: LedgerEntry, k: InvoiceId)
    ensures ReleaseEntries(ledger + [entry], k)
         == ReleaseEntries(ledger, k) + if entry.event == ReservationReleased(k) then [entry.amount] else []
    ensures ReservedFold(ledger + [entry])
         == ReservedFold(ledger)
          + if entry.event.ReservationCreated? || entry.event.ReservationReleased?
               || entry.event.TreasuryReconciliationApplied? then entry.amount else 0
    ensures LimitFold(ledger + [entry])
         == LimitFold(ledger)
          + if entry.event.ProgramCreated? || entry.event.TreasuryUpdateApplied? then entry.amount
            else if entry.event.TreasuryReconciliationApplied? then entry.event.limitDifference else 0
  {
    assert (ledger + [entry])[..|ledger|] == ledger;
  }

  /** A reservation is RELEASED iff the ledger gives its amount back exactly once. */
  predicate ReleasedOnce(a: Account, k: InvoiceId) {
    ReleaseEntries(a.ledger, k) == if HitsReleased(a.rows, k) then [-a.rows[k].reserved] else []
  }

  /** What holds of every program, whatever the messages contain. */
  ghost predicate Kept(a: Account) {
    && ProgramChecks(a.program)
    && a.program.status == StatusFor(a.program.reserved, a.program.limit)
    && (forall k | k in a.rows :: ReservationChecks(a.rows[k]))
    && (forall k :: ReleasedOnce(a, k))
  }

  /** The part of the reserved amount that no ACTIVE row accounts for. */
  ghost function Phantom(a: Account): int {
    a.program.reserved - SumActive(a.rows)
  }

  /** The part of the reserved amount that the ledger does not explain. */
  function LedgerGap(a: Account): int {
    a.program.reserved - ReservedFold(a.ledger)
  }

  /** The part of the limit that the ledger does not explain. */
  function UnexplainedLimit(a: Account): int {
    a.program.limit - LimitFold(a.ledger)
  }

  /** The aggregate agrees with the rows and with the ledger. */
  ghost predicate Balanced(a: Account) {
    Phantom(a) >= 0 && LedgerGap(a) == 0
  }

  /** What the GREATEST in releaseCapacity adds to the plain subtraction when k is released. */
  function Clamped(a: Account, k: InvoiceId): nat {
    if k in a.rows && a.rows[k].status.Active? then Max(a.rows[k].reserved - a.program.reserved, 0) else 0
  }

  /** The GREATEST in releaseCapacity never takes effect. */
  lemma ClampIdle(a: Account, k: InvoiceId)
    requires Kept(a) && Phantom(a) >= 0 && k in a.rows && a.rows[k].status.Active?
    ensures Clamped(a, k) == 0
  {
    HeldAtMostSum(a.rows, k);
  }

  /** An entry that is not a release leaves the releases as they are. */
  lemma OtherEntryKeepsReleases(a: Account, b: Account, entry: LedgerEntry)
    requires b.ledger == a.ledger + [entry] && !entry.event.ReservationReleased?
    requires forall k | HitsReleased(b.rows, k) :: HitsReleased(a.rows, k)
    requires forall k | HitsReleased(a.rows, k) :: HitsReleased(b.rows, k) && b.rows[k] == a.rows[k]
    requires forall k :: ReleasedOnce(a, k)
    ensures forall k :: ReleasedOnce(b, k)
  {
    forall k
      ensures ReleasedOnce(b, k)
    {
      assert ReleasedOnce(a, k);
      Append(a.ledger, entry, k);
    }
  }

  lemma SameReleases(a: Account, b: Account)
    requires b.ledger == a.ledger && forall k :: ReleasedOnce(a, k)
    requires forall k | HitsReleased(b.rows, k) :: HitsReleased(a.rows, k)
    requires forall k | HitsReleased(a.rows, k) :: HitsReleased(b.rows, k) && b.rows[k] == a.rows[k]
    ensures forall k :: ReleasedOnce(b, k)
  {
    assert forall k :: ReleasedOnce(a, k) ==> ReleasedOnce(b, k);
  }

  // ---------- create ----------

  lemma CreateKeeps(a: Account, req: CreateRequest, found: Lookups)
    requires Kept(a) && CreateOn(a, req, found).Done?
    ensures
      var b := CreateOn(a, req, found).account;
      && Kept(b)
      && Phantom(b) == Phantom(a)
      && LedgerGap(b) == LedgerGap(a)
      && UnexplainedLimit(b) == UnexplainedLimit(a)
  {
    var b := CreateOn(a, req, found).account;
    SumActiveWrite(a.rows, req.invoice, b.rows[req.invoice]);
    Append(a.ledger, b.ledger[|a.ledger|], req.invoice);
    OtherEntryKeepsReleases(a, b, b.ledger[|a.ledger|]);
  }

  // ---------- release ----------

  /** The release's own entry is the one its row needs. */
  lemma OwnEntryIsRecorded(a: Account, b: Account, k: InvoiceId, entry: LedgerEntry)
    requires k in a.rows && !HitsReleased(a.rows, k) && forall j :: ReleasedOnce(a, j)
    requires entry.event == ReservationReleased(k) && entry.amount == -a.rows[k].reserved
    requires b.ledger == a.ledger + [entry] && b.rows == a.rows[k := ReleasedRow(a.rows[k])]
    ensures forall j :: ReleasedOnce(b, j)
  {
    forall j
      ensures ReleasedOnce(b, j)
    {
      assert ReleasedOnce(a, j);
      Append(a.ledger, entry, j);
    }
  }

  lemma ReleaseIsRecorded(a: Account, k: InvoiceId)
    requires ReleaseOn(a, k).Done? && forall j :: ReleasedOnce(a, j)
    ensures forall j :: ReleasedOnce(ReleaseOn(a, k).account, j)
  {
    if !HitsReleased(a.rows, k) {
      var b := ReleaseOn(a, k).account;
      OwnEntryIsRecorded(a, b, k, b.ledger[|a.ledger|]);
    }
  }

  lemma ReleaseKeeps(a: Account, k: InvoiceId)
    requires Kept(a) && ReleaseOn(a, k).Done?
    ensures
      var b := ReleaseOn(a, k).account;
      && Kept(b)
      && Phantom(b) == Phantom(a) + Clamped(a, k)
      && LedgerGap(b) == LedgerGap(a) + Clamped(a, k)
      && UnexplainedLimit(b) == UnexplainedLimit(a)
  {
    var b := ReleaseOn(a, k).account;
    ReleaseIsRecorded(a, k);
    if a.rows[k].status.Active? {
      SumActiveWrite(a.rows, k, b.rows[k]);
      Append(a.ledger, b.ledger[|a.ledger|], k);
    }
  }

  // ---------- capacity update ----------

  lemma CapacityKeeps(a: Account, e: Event)
    requires e.CapacityUpdate? && CapacityWork(Some(a), e).Work? && Kept(a)
    ensures
      var b := CapacityWork(Some(a), e).account;
      && Kept(b)
      && b.rows == a.rows
      && Phantom(b) == Phantom(a)
      && LedgerGap(b) == LedgerGap(a)
      && UnexplainedLimit(b) == UnexplainedLimit(a)
  {
    var b := CapacityWork(Some(a), e).account;
    if |b.ledger| == |a.ledger| {
      assert b.ledger == a.ledger;
      SameReleases(a, b);
    } else {
      Append(a.ledger, b.ledger[|a.ledger|], "");
      OtherEntryKeepsReleases(a, b, b.ledger[|a.ledger|]);
    }
  }

  lemma CapacityCreates(e: Event)
    requires e.CapacityUpdate? && CapacityWork(None, e).Work?
    ensures
      var b := CapacityWork(None, e).account;
      Kept(b) && Balanced(b) && Phantom(b) == 0 && UnexplainedLimit(b) == 0
  {
    var b := CapacityWork(None, e).account;
    var none := b.(ledger := []);
    assert b.ledger == [] + [b.ledger[0]];
    Append([], b.ledger[0], "");
    OtherEntryKeepsReleases(none, b, b.ledger[0]);
  }

  // ---------- reconciliation ----------

  /** The account after an applied snapshot, row by row. */
  lemma SnapshotRows(a: Account, e: Event, k: InvoiceId)
    requires e.Reconciliation? && e.version.Whole? && e.limit.Whole?
    requires ApplySnapshot(a, e).Work?
    ensures
      var b := ApplySnapshot(a, e).account;
      && (k in a.rows ==> k in b.rows)
      && (HitsReleased(b.rows, k) <==> HitsReleased(a.rows, k))
      && (HitsReleased(a.rows, k) ==> b.rows[k] == a.rows[k])
      && ((k in a.rows ==> ReservationChecks(a.rows[k])) && k in b.rows ==> ReservationChecks(b.rows[k]))
  {
    var c := Context(a.program.currency, a.program.exponent, e.message);
    WrittenRow(c, a.rows, e.items, k);
    WrittenRowChecked(c, a.rows, e.items, k);
  }

  /** What an applied snapshot leaves outside the rows it holds. */
  lemma SnapshotPhantom(a: Account, e: Event)
    requires e.Reconciliation? && e.version.Whole? && e.limit.Whole?
    requires ApplySnapshot(a, e).Work?
    ensures
      var b := ApplySnapshot(a, e).account;
      && Phantom(b) == Remainder(a.rows, e.items)
      && OverwrittenTotal(a.rows, e.items) >= 0
      && (Distinct(e.items) ==> Phantom(b) == ReleasedTotal(a.rows, e.items))
  {
    var c := Context(a.program.currency, a.program.exponent, e.message);
    SnapshotSum(c, a.rows, e.items);
    OverwrittenNonNegative(c, a.rows, e.items);
    if Distinct(e.items) {
      NothingOverwritten(a.rows, e.items);
    }
  }

  /** The entry an applied snapshot writes, if any, explains what it changed. */
  lemma SnapshotLedger(a: Account, e: Event)
    requires e.Reconciliation? && e.version.Whole? && e.limit.Whole?
    requires ApplySnapshot(a, e).Work?
    ensures
      var b := ApplySnapshot(a, e).account;
      && LedgerGap(b) == LedgerGap(a)
      && UnexplainedLimit(b) == UnexplainedLimit(a)
      && (b.ledger == a.ledger
          || (|b.ledger| == |a.ledger| + 1 && b.ledger == a.ledger + [b.ledger[|a.ledger|]]
              && b.ledger[|a.ledger|].event.TreasuryReconciliationApplied?))
  {
    var b := ApplySnapshot(a, e).account;
    assert a.ledger + [] == a.ledger;
    if b.ledger != a.ledger {
      Append(a.ledger, b.ledger[|a.ledger|], "");
    }
  }

  lemma SnapshotReleasedRows(a: Account, e: Event)
    requires e.Reconciliation? && e.version.Whole? && e.limit.Whole?
    requires ApplySnapshot(a, e).Work?
    ensures
      var b := ApplySnapshot(a, e).account;
      && (forall k | HitsReleased(b.rows, k) :: HitsReleased(a.rows, k))
      && (forall k | HitsReleased(a.rows, k) :: HitsReleased(b.rows, k) && b.rows[k] == a.rows[k])
  {
    var b := ApplySnapshot(a, e).account;
    forall k
      ensures HitsReleased(b.rows, k) <==> HitsReleased(a.rows, k)
      ensures HitsReleased(a.rows, k) ==> b.rows[k] == a.rows[k]
    {
      SnapshotRows(a, e, k);
    }
  }

  lemma SnapshotReleases(a: Account, e: Event)
    requires e.Reconciliation? && e.version.Whole? && e.limit.Whole?
    requires ApplySnapshot(a, e).Work? && forall k :: ReleasedOnce(a, k)
    ensures forall k :: ReleasedOnce(ApplySnapshot(a, e).account, k)
  {
    var b := ApplySnapshot(a, e).account;
    SnapshotReleasedRows(a, e);
    SnapshotLedger(a, e);
    if b.ledger == a.ledger {
      SameReleases(a, b);
    } else {
      OtherEntryKeepsReleases(a, b, b.ledger[|a.ledger|]);
    }
  }

  lemma SnapshotKeeps(a: Account, e: Event)
    requires e.Reconciliation? && e.version.Whole? && e.limit.Whole?
    requires Kept(a) && ApplySnapshot(a, e).Work?
    ensures
      var b := ApplySnapshot(a, e).account;
      && Kept(b)
      && Phantom(b) == Remainder(a.rows, e.items)
      && LedgerGap(b) == LedgerGap(a)
      && UnexplainedLimit(b) == UnexplainedLimit(a)
  {
    SnapshotPhantom(a, e);
    SnapshotLedger(a, e);
    SnapshotReleases(a, e);
    forall k | k in ApplySnapshot(a, e).account.rows
      ensures ReservationChecks(ApplySnapshot(a, e).account.rows[k])
    {
      SnapshotRows(a, e, k);
    }
  }

  lemma ReconciliationKeeps(found: Option<Account>, e: Event)
    requires e.Reconciliation? && ReconciliationWork(found, e).Work?
    requires found.Some? ==> Kept(found.value)
    ensures
      var work := ReconciliationWork(found, e);
      var a := if found.Some? then found.value else CreatedAccount(e);
      && Kept(work.account)
      && LedgerGap(work.account) == LedgerGap(a)
      && Phantom(work.account) == (if work.status == Applied then Remainder(a.rows, e.items) else Phantom(a))
      && UnexplainedLimit(work.account) == UnexplainedLimit(a)
  {
    var a := if found.Some? then found.value else CreatedAccount(e);
    assert Kept(a);
    if ReconciliationWork(found, e).status == Applied {
      SnapshotKeeps(a, e);
    }
  }

  /** Any message that is handled, for a program that exists. */
  lemma WorkKeeps(a: Account, e: Event)
    requires WorkFor(Some(a), e).Work? && Kept(a)
    ensures
      var work := WorkFor(Some(a), e);
      && Kept(work.account)
      && LedgerGap(work.account) == LedgerGap(a)
      && Phantom(work.account)
         == (if e.Reconciliation? && work.status == Applied then Remainder(a.rows, e.items) else Phantom(a))
      && UnexplainedLimit(work.account) == UnexplainedLimit(a)
  {
    if e.CapacityUpdate? {
      CapacityKeeps(a, e);
    } else {
      ReconciliationKeeps(Some(a), e);
    }
  }

  /** Any message that creates its program. */
  lemma WorkCreates(e: Event)
    requires WorkFor(None, e).Work?
    ensures
      var b := WorkFor(None, e).account;
      && Kept(b) && Balanced(b)
      && UnexplainedLimit(b) == if e.CapacityUpdate? then 0 else e.limit.n
  {
    if e.CapacityUpdate? {
      CapacityCreates(e);
    } else {
      ReconciliationKeeps(None, e);
      if WorkFor(None, e).status == Applied {
        SnapshotPhantom(CreatedAccount(e), e);
        ReleasedNonNegative(map[], e.items);
      }
    }
  }
}
