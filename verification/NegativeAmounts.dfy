/**
  Why the balance of Runs.AggregateAgrees needs its hypothesis. Snapshot amounts are only
  checked to be finite, and the CHECK constraints see the rows that are written; a negative
  amount for a RELEASED reservation reaches the aggregate unseen.
 */
module NegativeAmounts {
  import opened Wrappers
  import opened Tables
  import opened Messages
  import opened Snapshot
  import opened Transactions
  import opened Accounts
  import opened Runs

  const P: ProgramId := "PROGRAM-ABC"

  function Start(): Db {
    Db(map[P := Account(Program("USD", 2, 100, 0, ProgramActive, 0, None), map[], [])], map[], {})
  }

  function CreateInvoice(k: InvoiceId): Op {
    CreateOp(CreateRequest(P, k, 10, "USD"), Lookups(Some(2), None))
  }

  /** Lists the ACTIVE invoice B with 10 and the RELEASED invoice A with -4. */
  function BadSnapshot(): Event {
    Reconciliation("m", P, Whole(1), "USD", 2, Whole(100), Whole(6),
                   [Item("B", Whole(10), "USD"), Item("A", Whole(-4), "USD")])
  }

  function Story(): seq<Op> {
    [CreateInvoice("A")] + [ReleaseOp(P, "A")] + [CreateInvoice("B")]
    + [Deliver(Delivery(BadSnapshot(), Slot("t", 0, 0), "h"))] + [ReleaseOp(P, "B")]
  }

  function Row(status: ReservationStatus): Reservation {
    Reservation("USD", 2, 10, "USD", 2, 10, 10_000_000_000, Identity, status, Api, None)
  }

  function Entry(event: LedgerEvent, amount: int): LedgerEntry {
    LedgerEntry(event, amount, "USD")
  }

  /** The account after the first create, */
  function Created(): Account {
    Account(Program("USD", 2, 100, 10, ProgramActive, 1, None),
            map["A" := Row(ReservationStatus.Active)],
            [Entry(ReservationCreated("A"), 10)])
  }

  /** after its release, */
  function Released(): Account {
    Account(Program("USD", 2, 100, 0, ProgramActive, 2, None),
            map["A" := Row(ReservationStatus.Released)],
            [Entry(ReservationCreated("A"), 10), Entry(ReservationReleased("A"), -10)])
  }

  /** and after the second create. */
  function Before(): Account {
    Account(Program("USD", 2, 100, 10, ProgramActive, 3, None),
            map["A" := Row(ReservationStatus.Released), "B" := Row(ReservationStatus.Active)],
            [Entry(ReservationCreated("A"), 10), Entry(ReservationReleased("A"), -10), Entry(ReservationCreated("B"), 10)])
  }

  /** No message was processed, and the program's account is a. */
  predicate At(db: Db, a: Account) {
    db.processed == {} && P in db.accounts && db.accounts[P] == a
  }

  lemma CreateReaches(db: Db, a: Account, k: InvoiceId, b: Account)
    requires At(db, a)
    requires CreateOn(a, CreateInvoice(k).req, CreateInvoice(k).found).Done?
    requires CreateOn(a, CreateInvoice(k).req, CreateInvoice(k).found).account == b
    ensures At(After(db, CreateInvoice(k)), b)
  {
  }

  lemma FirstCreate(a: Account)
    requires a == Start().accounts[P]
    ensures
      var done := CreateOn(a, CreateInvoice("A").req, CreateInvoice("A").found);
      done.Done? && done.account == Created()
  {
  }

  lemma FirstRelease(db: Db)
    requires At(db, Created())
    ensures At(After(db, ReleaseOp(P, "A")), Released())
  {
    assert Created().rows["A" := Row(ReservationStatus.Released)] == Released().rows;
    assert Created().ledger + [Entry(ReservationReleased("A"), -10)] == Released().ledger;
  }

  lemma SecondCreate()
    ensures
      var done := CreateOn(Released(), CreateInvoice("B").req, CreateInvoice("B").found);
      done.Done? && done.account == Before()
  {
    assert Released().rows["B" := Row(ReservationStatus.Active)] == Before().rows;
    assert Released().ledger + [Entry(ReservationCreated("B"), 10)] == Before().ledger;
  }

  lemma BeforeIsReached()
    ensures At(Exec(Start(), [] + [CreateInvoice("A")] + [ReleaseOp(P, "A")] + [CreateInvoice("B")]), Before())
  {
    var ops := [] + [CreateInvoice("A")];
    ExecAppend(Start(), [], CreateInvoice("A"));
    ExecAppend(Start(), ops, ReleaseOp(P, "A"));
    ExecAppend(Start(), ops + [ReleaseOp(P, "A")], CreateInvoice("B"));
    FirstCreate(Start().accounts[P]);
    CreateReaches(Start(), Start().accounts[P], "A", Created());
    FirstRelease(Exec(Start(), ops));
    SecondCreate();
    CreateReaches(Exec(Start(), ops + [ReleaseOp(P, "A")]), Released(), "B", Before());
  }

  /** The snapshot is applied, and takes 4 from the aggregate that no row accounts for. */
  lemma SnapshotIsApplied()
    ensures
      var work := WorkFor(Some(Before()), BadSnapshot());
      && work.Work? && work.status == HandlerStatus.Applied
      && work.account.program.reserved == 6 && work.account.program.limit == 100
      && work.account.ledger == Before().ledger + [Entry(TreasuryReconciliationApplied("m", 0), -4)]
      && "B" in work.account.rows && work.account.rows["B"] == Row(ReservationStatus.Active)
  {
    var e := BadSnapshot();
    var items := e.items;
    assert items[..1] == [Item("B", Whole(10), "USD")] && items[..1][..0] == [];
    assert items[..|items| - 1] == items[..1] && Total(items[..1][..0]) == 0;
    assert Total(items[..1]) == 10;
    assert Total(items) == 6;
    assert !MixedCurrencies(e) && AllWhole(items);
    var c := Context("USD", 2, "m");
    var rows := Before().rows;
    assert WriteItems(c, rows, items[..1]) == Some(rows["B" := UpdatedRow(c, rows["B"], items[0])]);
    assert WriteItems(c, rows, items).Some?;
    assert "B" == items[0].invoice;
    assert "B" in Invoices(items);
  }

  lemma FoldIsMinusFour(ledger: seq<LedgerEntry>)
    requires ledger == Before().ledger + [Entry(TreasuryReconciliationApplied("m", 0), -4)] + [Entry(ReservationReleased("B"), -10)]
    ensures ReservedFold(ledger) == -4
  {
    var l := Before().ledger;
    assert l == [] + [l[0]] + [l[1]] + [l[2]];
    Append([], l[0], "");
    Append([] + [l[0]], l[1], "");
    Append([] + [l[0]] + [l[1]], l[2], "");
    Append(l, Entry(TreasuryReconciliationApplied("m", 0), -4), "");
    Append(l + [Entry(TreasuryReconciliationApplied("m", 0), -4)], Entry(ReservationReleased("B"), -10), "");
  }

  /** Releasing B then takes 10 from an aggregate of 6. */
  lemma ClampFires(a: Account)
    requires a.program.reserved == 6 && a.program.limit == 100
    requires ProgramChecks(a.program) && "B" in a.rows && a.rows["B"] == Row(ReservationStatus.Active)
    ensures
      var released := ReleaseOn(a, "B");
      && released.Done? && released.account.program.reserved == 0
      && released.account.ledger == a.ledger + [Entry(ReservationReleased("B"), -10)]
  {
  }

  lemma SnapshotIsDelivered(db: Db)
    requires At(db, Before())
    ensures
      var next := After(db, Deliver(Delivery(BadSnapshot(), Slot("t", 0, 0), "h")));
      var work := WorkFor(Some(Before()), BadSnapshot());
      work.Work? && P in next.accounts && next.accounts[P] == work.account
  {
    SnapshotIsApplied();
  }

  lemma LastReleaseIsClamped(db: Db)
    requires At(db, Before())
    ensures
      var delivered := After(db, Deliver(Delivery(BadSnapshot(), Slot("t", 0, 0), "h")));
      var end := After(delivered, ReleaseOp(P, "B"));
      && P in end.accounts
      && end.accounts[P].program.reserved == 0
      && end.accounts[P].ledger
         == Before().ledger + [Entry(TreasuryReconciliationApplied("m", 0), -4)] + [Entry(ReservationReleased("B"), -10)]
  {
    SnapshotIsDelivered(db);
    SnapshotIsApplied();
    ClampFires(WorkFor(Some(Before()), BadSnapshot()).account);
  }

  /** From a clean start the clamp fires, and the aggregate and the ledger part. */
  lemma NegativeAmountUnbalances()
    ensures Initial(Start())
    ensures
      var end := Exec(Start(), Story());
      && P in end.accounts
      && end.accounts[P].program.reserved == 0
      && ReservedFold(end.accounts[P].ledger) == -4
  {
    var ops := [] + [CreateInvoice("A")] + [ReleaseOp(P, "A")] + [CreateInvoice("B")];
    var delivery := Deliver(Delivery(BadSnapshot(), Slot("t", 0, 0), "h"));
    assert ops + [delivery] + [ReleaseOp(P, "B")] == Story();
    BeforeIsReached();
    LastReleaseIsClamped(Exec(Start(), ops));
    TwoMore(Start(), ops, delivery, ReleaseOp(P, "B"));
    FoldIsMinusFour(Exec(Start(), Story()).accounts[P].ledger);
  }

  lemma TwoMore(db: Db, ops: seq<Op>, a: Op, b: Op)
    ensures Exec(db, ops + [a] + [b]) == After(After(Exec(db, ops), a), b)
  {
    ExecAppend(db, ops, a);
    ExecAppend(db, ops + [a], b);
  }
}
