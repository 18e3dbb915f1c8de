/** What holds in every state that transactions run one after another can reach. */
module Runs {
  import opened Wrappers
  import opened Tables
  import opened Messages
  import opened Money
  import opened Programs
  import opened Snapshot
  import opened Sums
  import opened Transactions
  import opened Accounts

  lemma ExecAppend(db: Db, ops: seq<Op>, op: Op)
    ensures Exec(db, ops + [op]) == After(Exec(db, ops), op)
  {
    assert (ops + [op])[..|ops|] == ops;
  }

  // ---------- the message tables ----------

  /** Both unique indexes of processed_kafka_messages. */
  predicate UniquelyProcessed(processed: set<Processed>) {
    forall p, q | p in processed && q in processed :: p.slot == q.slot || p.message == q.message ==> p == q
  }

  /** The runs are those of the reconciliation messages processed, one each, for the same program. */
  predicate RunsMatch(db: Db) {
    && (forall q | q in db.processed && q.messageType == ReconciliationSnapshot ::
          q.message in db.runs && db.runs[q.message].program == q.program)
    && (forall m | m in db.runs :: exists q | q in db.processed :: q.message == m && q.messageType == ReconciliationSnapshot)
  }

  ghost predicate DbKept(db: Db) {
    && (forall p | p in db.accounts :: Kept(db.accounts[p]))
    && UniquelyProcessed(db.processed)
    && RunsMatch(db)
    && (forall q | q in db.processed :: q.program in db.accounts)
  }

  lemma InitialKept(db: Db)
    requires Initial(db)
    ensures DbKept(db)
    ensures forall p | p in db.accounts :: Balanced(db.accounts[p]) && Phantom(db.accounts[p]) == 0
  {
  }

  /** A message has no run before it is handled. */
  lemma FreshRun(db: Db, message: MessageId)
    requires RunsMatch(db) && !MessageRecorded(db.processed, message)
    ensures message !in db.runs
  {
  }

  lemma MarkKeepsUnique(processed: set<Processed>, d: Delivery)
    requires UniquelyProcessed(processed)
    requires !SlotRecorded(processed, d.slot) && !MessageRecorded(processed, d.event.message)
    ensures UniquelyProcessed(processed + {Recorded(d)})
  {
  }

  /** The run of a new message is stored together with its processed row. */
  lemma MarkKeepsRuns(db: Db, next: Db, d: Delivery, run: Option<Run>)
    requires RunsMatch(db) && !MessageRecorded(db.processed, d.event.message)
    requires next.processed == db.processed + {Recorded(d)}
    requires next.runs == AddRun(db.runs, d.event.message, run)
    requires run.Some? <==> d.event.Reconciliation?
    requires run.Some? ==> run.value.program == d.event.program
    ensures RunsMatch(next)
  {
    FreshRun(db, d.event.message);
    assert Recorded(d) in next.processed;
    forall m | m in next.runs
      ensures exists q | q in next.processed :: q.message == m && q.messageType == ReconciliationSnapshot
    {
      if m in db.runs {
        var q :| q in db.processed && q.message == m && q.messageType == ReconciliationSnapshot;
        assert q in next.processed;
      }
    }
  }

  lemma WorkRecordsRun(found: Option<Account>, e: Event)
    requires WorkFor(found, e).Work?
    ensures WorkFor(found, e).run.Some? <==> e.Reconciliation?
    ensures WorkFor(found, e).run.Some? ==> WorkFor(found, e).run.value.program == e.program
  {
  }

  lemma HandleKeepsMessages(db: Db, d: Delivery)
    requires UniquelyProcessed(db.processed) && RunsMatch(db) && Handle(db, d).Committed?
    ensures UniquelyProcessed(Handle(db, d).db.processed) && RunsMatch(Handle(db, d).db)
  {
    if !SlotRecorded(db.processed, d.slot) && !MessageRecorded(db.processed, d.event.message) {
      var found := Lookup(db.accounts, d.event.program);
      MarkKeepsUnique(db.processed, d);
      WorkRecordsRun(found, d.event);
      MarkKeepsRuns(db, Handle(db, d).db, d, WorkFor(found, d.event).run);
    }
  }

  // ---------- one transaction ----------

  /** Programs are never removed, and a transaction touches one. */
  lemma OneProgram(db: Db, op: Op, p: ProgramId)
    ensures p in db.accounts ==> p in After(db, op).accounts
    ensures p != OpProgram(op) ==> Lookup(After(db, op).accounts, p) == Lookup(db.accounts, p)
  {
  }

  /** What the release clamp adds to the aggregate of p when op runs. */
  function ClampedBy(db: Db, op: Op, p: ProgramId): nat {
    if op.ReleaseOp? && op.program == p && Atomic(db, op).Committed? then Clamped(db.accounts[p], op.invoice) else 0
  }

  /** An applied snapshot that the message tables had not seen. */
  predicate AppliesSnapshot(db: Db, op: Op) {
    && op.Deliver? && op.delivery.event.Reconciliation?
    && op.delivery.event.program in db.accounts
    && Atomic(db, op).Committed? && Atomic(db, op).status == Applied
  }

  /** A delivery, seen from the program it is about. */
  lemma DeliveryOnAccount(db: Db, d: Delivery)
    requires d.event.program in db.accounts && Kept(db.accounts[d.event.program])
    ensures d.event.program in After(db, Deliver(d)).accounts
    ensures
      var a, b := db.accounts[d.event.program], After(db, Deliver(d)).accounts[d.event.program];
      && Kept(b)
      && LedgerGap(b) == LedgerGap(a)
      && UnexplainedLimit(b) == UnexplainedLimit(a)
      && Phantom(b) == if AppliesSnapshot(db, Deliver(d)) then Remainder(a.rows, d.event.items) else Phantom(a)
  {
    var a := db.accounts[d.event.program];
    if WorkFor(Some(a), d.event).Work? {
      WorkKeeps(a, d.event);
    }
  }

  /** One transaction, seen from one program that exists before it. */
  lemma StepOnAccount(db: Db, op: Op, p: ProgramId)
    requires p in db.accounts && Kept(db.accounts[p])
    ensures p in After(db, op).accounts
    ensures
      var a, b := db.accounts[p], After(db, op).accounts[p];
      && Kept(b)
      && LedgerGap(b) == LedgerGap(a) + ClampedBy(db, op, p)
      && UnexplainedLimit(b) == UnexplainedLimit(a)
      && Phantom(b) == (if AppliesSnapshot(db, op) && OpProgram(op) == p then Remainder(a.rows, op.delivery.event.items)
                        else Phantom(a) + ClampedBy(db, op, p))
      && (Phantom(a) >= 0 ==> ClampedBy(db, op, p) == 0)
  {
    var a := db.accounts[p];
    if Atomic(db, op).Committed? && OpProgram(op) == p {
      match op
      case CreateOp(req, found) => CreateKeeps(a, req, found);
      case ReleaseOp(_, k) =>
        ReleaseKeeps(a, k);
        if Phantom(a) >= 0 && a.rows[k].status.Active? {
          ClampIdle(a, k);
        }
      case Deliver(d) => DeliveryOnAccount(db, d);
    }
  }

  /** A program that a transaction creates starts balanced. */
  lemma StepCreatesAccount(db: Db, op: Op, p: ProgramId)
    requires p !in db.accounts && p in After(db, op).accounts
    ensures
      var b := After(db, op).accounts[p];
      && Kept(b) && Balanced(b) && ClampedBy(db, op, p) == 0
      && op.Deliver? && op.delivery.event.program == p && op.delivery.event.limit.Whole?
      && UnexplainedLimit(b) == if op.delivery.event.CapacityUpdate? then 0 else op.delivery.event.limit.n
  {
    WorkCreates(op.delivery.event);
  }

  lemma StepKeepsMessages(db: Db, op: Op)
    requires DbKept(db)
    ensures
      var next := After(db, op);
      UniquelyProcessed(next.processed) && RunsMatch(next) && forall q | q in next.processed :: q.program in next.accounts
  {
    if op.Deliver? && Atomic(db, op).Committed? {
      HandleKeepsMessages(db, op.delivery);
    }
  }

  lemma StepKeeps(db: Db, op: Op)
    requires DbKept(db)
    ensures DbKept(After(db, op))
  {
    StepKeepsMessages(db, op);
    forall p | p in After(db, op).accounts
      ensures Kept(After(db, op).accounts[p])
    {
      if p in db.accounts {
        StepOnAccount(db, op, p);
      } else {
        StepCreatesAccount(db, op, p);
      }
    }
  }

  /** Every reachable state keeps the invariant of Accounts and of the message tables. */
  lemma {:induction false} Reachable(db: Db, ops: seq<Op>)
    requires Initial(db)
    ensures DbKept(Exec(db, ops))
  {
    if ops == [] {
      InitialKept(db);
    } else {
      Reachable(db, ops[..|ops| - 1]);
      StepKeeps(Exec(db, ops[..|ops| - 1]), ops[|ops| - 1]);
    }
  }

  /** The status column says whether the program is over its limit. */
  lemma {:induction false} StatusIsExact(db: Db, ops: seq<Op>, p: ProgramId)
    requires Initial(db) && p in Exec(db, ops).accounts
    ensures
      var program := Exec(db, ops).accounts[p].program;
      && (program.status == ProgramOverLimit <==> program.reserved > program.limit)
      && (program.status == ProgramActive <==> program.reserved <= program.limit)
  {
    Reachable(db, ops);
  }

  /** Both dedup tables agree: one run for each reconciliation message processed, whatever its verdict. */
  lemma {:induction false} RunsAreProcessedReconciliations(db: Db, ops: seq<Op>)
    requires Initial(db)
    ensures
      var end := Exec(db, ops);
      end.runs.Keys == set q | q in end.processed && q.messageType == ReconciliationSnapshot :: q.message
  {
    Reachable(db, ops);
  }

  // ---------- the aggregate ----------

  /** Every snapshot applied in the run leaves an aggregate that covers the ACTIVE rows. */
  predicate CoveringOp(db: Db, op: Op) {
    AppliesSnapshot(db, op) ==>
      Remainder(db.accounts[op.delivery.event.program].rows, op.delivery.event.items) >= 0
  }

  predicate CoveringRun(db: Db, ops: seq<Op>) {
    ops == [] ||
    (CoveringRun(db, ops[..|ops| - 1]) && CoveringOp(Exec(db, ops[..|ops| - 1]), ops[|ops| - 1]))
  }

  /** Non-negative snapshot amounts are enough. */
  lemma {:induction false} NonNegativeCovers(db: Db, ops: seq<Op>)
    requires forall i | 0 <= i < |ops| && ops[i].Deliver? && ops[i].delivery.event.Reconciliation? ::
               forall j | 0 <= j < |ops[i].delivery.event.items| :: Amount(ops[i].delivery.event.items[j]) >= 0
    ensures CoveringRun(db, ops)
  {
    if ops != [] {
      var init, op := ops[..|ops| - 1], ops[|ops| - 1];
      assert forall i | 0 <= i < |init| :: init[i] == ops[i];
      NonNegativeCovers(db, init);
      if AppliesSnapshot(Exec(db, init), op) {
        var a := Exec(db, init).accounts[OpProgram(op)];
        SnapshotPhantom(a, op.delivery.event);
        ReleasedNonNegative(a.rows, op.delivery.event.items);
      }
    }
  }

  /** Every aggregate is at least the sum of its ACTIVE rows. */
  ghost predicate AllCovered(db: Db) {
    forall p | p in db.accounts :: Phantom(db.accounts[p]) >= 0
  }

  ghost predicate AllBalanced(db: Db) {
    forall p | p in db.accounts :: Balanced(db.accounts[p])
  }

  lemma StepBalances(db: Db, op: Op)
    requires DbKept(db) && AllBalanced(db) && CoveringOp(db, op)
    ensures AllBalanced(After(db, op))
  {
    forall p | p in After(db, op).accounts
      ensures Balanced(After(db, op).accounts[p])
    {
      if p in db.accounts {
        StepOnAccount(db, op, p);
      } else {
        StepCreatesAccount(db, op, p);
      }
    }
  }

  /**
    The reserved amount of every program is at least the sum of its ACTIVE rows, and
    equals the ledger's account of it.
   */
  lemma {:induction false} AggregateAgrees(db: Db, ops: seq<Op>)
    requires Initial(db) && CoveringRun(db, ops)
    ensures AllBalanced(Exec(db, ops))
  {
    if ops == [] {
      InitialKept(db);
    } else {
      AggregateAgrees(db, ops[..|ops| - 1]);
      Reachable(db, ops[..|ops| - 1]);
      StepBalances(Exec(db, ops[..|ops| - 1]), ops[|ops| - 1]);
    }
  }

  lemma {:induction false} CoveringPrefix(db: Db, ops: seq<Op>, n: nat)
    requires CoveringRun(db, ops) && n <= |ops|
    ensures CoveringRun(db, ops[..n])
  {
    if n == |ops| {
      assert ops[..n] == ops;
    } else {
      assert ops[..|ops| - 1][..n] == ops[..n];
      CoveringPrefix(db, ops[..|ops| - 1], n);
    }
  }

  /**
    The aggregates cover the ACTIVE rows all through a run iff in every snapshot applied in
    it the amounts listed for RELEASED rows and those overwritten sum to at least zero.
   */
  lemma {:induction false} AggregateCoversIff(db: Db, ops: seq<Op>)
    requires Initial(db)
    ensures (forall n | 0 <= n <= |ops| :: AllCovered(Exec(db, ops[..n]))) <==> CoveringRun(db, ops)
  {
    if CoveringRun(db, ops) {
      forall n | 0 <= n <= |ops|
        ensures AllCovered(Exec(db, ops[..n]))
      {
        CoveringPrefix(db, ops, n);
        AggregateAgrees(db, ops[..n]);
      }
    } else {
      NotCovered(db, ops);
    }
  }

  /** A snapshot that leaves the aggregate below its rows is followed by a state that shows it. */
  lemma {:induction false} NotCovered(db: Db, ops: seq<Op>)
    requires Initial(db) && !CoveringRun(db, ops)
    ensures exists n | 0 <= n <= |ops| :: !AllCovered(Exec(db, ops[..n]))
  {
    var init, op := ops[..|ops| - 1], ops[|ops| - 1];
    if CoveringRun(db, init) {
      var before := Exec(db, init);
      Reachable(db, init);
      StepOnAccount(before, op, OpProgram(op));
      assert ops[..|ops|] == ops;
      assert !AllCovered(Exec(db, ops[..|ops|]));
    } else {
      NotCovered(db, init);
      var n :| 0 <= n <= |init| && !AllCovered(Exec(db, init[..n]));
      assert init[..n] == ops[..n];
    }
  }

  function ClampedTotal(db: Db, ops: seq<Op>, p: ProgramId): nat {
    if ops == [] then 0
    else
      var init := ops[..|ops| - 1];
      ClampedTotal(db, init, p) + ClampedBy(Exec(db, init), ops[|ops| - 1], p)
  }

  /**
    Ledger conservation, whatever the messages contain: the reserved amount is the ledger's
    account of it plus all that the release clamp ever withheld. So the two agree in exactly
    the runs in which the clamp stayed idle.
   */
  lemma {:induction false} LedgerConservation(db: Db, ops: seq<Op>, p: ProgramId)
    requires Initial(db) && p in Exec(db, ops).accounts
    ensures
      var a := Exec(db, ops).accounts[p];
      a.program.reserved == ReservedFold(a.ledger) + ClampedTotal(db, ops, p)
  {
    if ops == [] {
      InitialKept(db);
    } else {
      var init := ops[..|ops| - 1];
      Reachable(db, init);
      if p in Exec(db, init).accounts {
        StepOnAccount(Exec(db, init), ops[|ops| - 1], p);
        LedgerConservation(db, init, p);
      } else {
        StepCreatesAccount(Exec(db, init), ops[|ops| - 1], p);
        AbsentUnclamped(db, init, p);
      }
    }
  }

  lemma {:induction false} AbsentUnclamped(db: Db, ops: seq<Op>, p: ProgramId)
    requires p !in Exec(db, ops).accounts
    ensures ClampedTotal(db, ops, p) == 0
  {
    if ops != [] {
      var init := ops[..|ops| - 1];
      OneProgram(Exec(db, init), ops[|ops| - 1], p);
      AbsentUnclamped(db, init, p);
    }
  }

  /**
    An applied snapshot sets the remainder to the amounts on RELEASED rows and those it
    overwrites. Nothing else moves it, but a release whose clamp takes effect.
   */
  lemma PhantomMoves(db: Db, op: Op, p: ProgramId)
    requires DbKept(db) && p in db.accounts
    ensures
      var rest := Phantom(After(db, op).accounts[p]);
      if AppliesSnapshot(db, op) && OpProgram(op) == p then
        var items := op.delivery.event.items;
        && rest == ReleasedTotal(db.accounts[p].rows, items) + OverwrittenTotal(db.accounts[p].rows, items)
        && (Distinct(items) ==> rest == ReleasedTotal(db.accounts[p].rows, items))
      else rest == Phantom(db.accounts[p]) + ClampedBy(db, op, p)
  {
    StepOnAccount(db, op, p);
    if AppliesSnapshot(db, op) && OpProgram(op) == p && Distinct(op.delivery.event.items) {
      NothingOverwritten(db.accounts[p].rows, op.delivery.event.items);
    }
  }

  // ---------- the limit ----------

  /** The event that created a program. */
  function Origin(db: Db, ops: seq<Op>, p: ProgramId): Event
    requires p !in db.accounts && p in Exec(db, ops).accounts
  {
    var init := ops[..|ops| - 1];
    if p in Exec(db, init).accounts then Origin(db, init, p)
    else ops[|ops| - 1].delivery.event
  }

  /**
    The limit equals the program's PROGRAM_CREATED and TREASURY_UPDATE_APPLIED amounts
    plus its reconciliations' limit differences; for a program created by a reconciliation
    that message's limit comes on top.
   */
  lemma {:induction false} LimitIsExplained(db: Db, ops: seq<Op>, p: ProgramId)
    requires Initial(db) && p !in db.accounts && p in Exec(db, ops).accounts
    ensures
      var origin := Origin(db, ops, p);
      && origin.limit.Whole?
      && UnexplainedLimit(Exec(db, ops).accounts[p]) == if origin.CapacityUpdate? then 0 else origin.limit.n
  {
    var init, last := ops[..|ops| - 1], ops[|ops| - 1];
    Reachable(db, init);
    if p in Exec(db, init).accounts {
      LimitIsExplained(db, init, p);
      StepOnAccount(Exec(db, init), last, p);
    } else {
      StepCreatesAccount(Exec(db, init), last, p);
    }
  }

  // ---------- releases ----------

  lemma StepKeepsReleased(db: Db, op: Op, p: ProgramId, k: InvoiceId)
    requires p in db.accounts && HitsReleased(db.accounts[p].rows, k)
    ensures
      var rows := After(db, op).accounts[p].rows;
      k in rows && rows[k] == db.accounts[p].rows[k]
  {
    if AppliesSnapshot(db, op) && OpProgram(op) == p {
      SnapshotRows(db.accounts[p], op.delivery.event, k);
    }
  }

  /** A RELEASED row is never changed again. */
  lemma {:induction false} ReleaseIsFinal(db: Db, ops: seq<Op>, p: ProgramId, k: InvoiceId)
    requires p in db.accounts && HitsReleased(db.accounts[p].rows, k)
    ensures
      && p in Exec(db, ops).accounts
      && k in Exec(db, ops).accounts[p].rows
      && Exec(db, ops).accounts[p].rows[k] == db.accounts[p].rows[k]
  {
    if ops != [] {
      ReleaseIsFinal(db, ops[..|ops| - 1], p, k);
      StepKeepsReleased(Exec(db, ops[..|ops| - 1]), ops[|ops| - 1], p, k);
    }
  }

  /** A row is RELEASED iff the ledger gives its reserved amount back, and then exactly once. */
  lemma {:induction false} ReleasedExactlyOnce(db: Db, ops: seq<Op>, p: ProgramId, k: InvoiceId)
    requires Initial(db) && p in Exec(db, ops).accounts
    ensures
      var a := Exec(db, ops).accounts[p];
      && (HitsReleased(a.rows, k) ==> ReleaseEntries(a.ledger, k) == [-a.rows[k].reserved])
      && (!HitsReleased(a.rows, k) ==> ReleaseEntries(a.ledger, k) == [])
  {
    Reachable(db, ops);
    assert ReleasedOnce(Exec(db, ops).accounts[p], k);
  }

  // ---------- API traffic ----------

  function Overrun(p: Program): nat {
    Max(p.reserved - p.limit, 0)
  }

  lemma ApiStepCannotOverrun(db: Db, op: Op, p: ProgramId)
    requires !op.Deliver? && p in db.accounts && Kept(db.accounts[p])
    ensures p in After(db, op).accounts
    ensures Overrun(After(db, op).accounts[p].program) <= Overrun(db.accounts[p].program)
  {
  }

  /** API transactions do not worsen an overrun. */
  lemma {:induction false} ApiCannotOverrun(db: Db, ops: seq<Op>, p: ProgramId)
    requires DbKept(db) && p in db.accounts
    requires forall i | 0 <= i < |ops| :: !ops[i].Deliver?
    ensures DbKept(Exec(db, ops)) && p in Exec(db, ops).accounts
    ensures Overrun(Exec(db, ops).accounts[p].program) <= Overrun(db.accounts[p].program)
  {
    if ops != [] {
      var init := ops[..|ops| - 1];
      assert forall i | 0 <= i < |init| :: init[i] == ops[i];
      ApiCannotOverrun(db, init, p);
      ApiStepCannotOverrun(Exec(db, init), ops[|ops| - 1], p);
      StepKeeps(Exec(db, init), ops[|ops| - 1]);
    }
  }

  /** Among the ways a create can fail, PROGRAM_NOT_ACTIVE never happens, and PROGRAM_OVER_LIMIT is about the amounts. */
  lemma {:induction false} CreateFailures(db: Db, ops: seq<Op>, req: CreateRequest, found: Lookups)
    requires Initial(db) && req.program in Exec(db, ops).accounts
    ensures
      var a := Exec(db, ops).accounts[req.program];
      && CreateOn(a, req, found) != Failed(ProgramNotActive)
      && (CreateOn(a, req, found) == Failed(ProgramIsOverLimit) <==> a.program.reserved > a.program.limit)
  {
    Reachable(db, ops);
  }

  // ---------- the FX snapshot ----------

  /** The amount of an API row is the conversion of what the row stores. */
  predicate Faithful(r: Reservation) {
    match r.rateSource
    case Identity => r.reserved == r.invoiceAmount
    case FxTable(_) => r.reserved == Convert(Positive(r.invoiceAmount), r.invoiceExponent, r.programExponent, r.rate)
    case TreasuryRate => false
  }

  /** The transaction runs updateFromReconciliation on the row. */
  predicate Rewrites(db: Db, op: Op, p: ProgramId, k: InvoiceId) {
    && AppliesSnapshot(db, op) && OpProgram(op) == p
    && k in db.accounts[p].rows && !HitsReleased(db.accounts[p].rows, k)
    && k in Invoices(op.delivery.event.items)
  }

  predicate EverRewritten(db: Db, ops: seq<Op>, p: ProgramId, k: InvoiceId) {
    ops != [] &&
    (EverRewritten(db, ops[..|ops| - 1], p, k) || Rewrites(Exec(db, ops[..|ops| - 1]), ops[|ops| - 1], p, k))
  }

  /** A snapshot that does not list the invoice leaves an API row's amounts alone. */
  lemma SnapshotKeepsFaithful(a: Account, e: Event, k: InvoiceId)
    requires e.Reconciliation? && e.version.Whole? && e.limit.Whole? && ApplySnapshot(a, e).Work?
    requires
      var rows := ApplySnapshot(a, e).account.rows;
      k in rows && rows[k].source == Api
    requires k in a.rows && !HitsReleased(a.rows, k) ==> k !in Invoices(e.items)
    ensures k in a.rows && a.rows[k].source == Api
    ensures Faithful(a.rows[k]) ==> Faithful(ApplySnapshot(a, e).account.rows[k])
  {
    WrittenRow(Context(a.program.currency, a.program.exponent, e.message), a.rows, e.items, k);
  }

  lemma DeliveryKeepsFaithful(db: Db, d: Delivery, k: InvoiceId)
    requires d.event.Reconciliation? && After(db, Deliver(d)) != db
    requires
      var rows := After(db, Deliver(d)).accounts[d.event.program].rows;
      k in rows && rows[k].source == Api
    requires !Rewrites(db, Deliver(d), d.event.program, k)
    ensures
      var p := d.event.program;
      && p in db.accounts && k in db.accounts[p].rows && db.accounts[p].rows[k].source == Api
      && (Faithful(db.accounts[p].rows[k]) ==> Faithful(After(db, Deliver(d)).accounts[p].rows[k]))
  {
    var e := d.event;
    var a := if e.program in db.accounts then db.accounts[e.program] else CreatedAccount(e);
    if After(db, Deliver(d)).accounts[e.program] != a {
      SnapshotKeepsFaithful(a, e, k);
    }
  }

  lemma CreatedIsFaithful(a: Account, req: CreateRequest, found: Lookups)
    requires CreateOn(a, req, found).Done?
    ensures Faithful(CreateOn(a, req, found).account.rows[req.invoice])
  {
  }

  lemma ReleasedStaysFaithful(a: Account, k: InvoiceId)
    requires ReleaseOn(a, k).Done? && Faithful(a.rows[k])
    ensures Faithful(ReleaseOn(a, k).account.rows[k])
  {
  }

  lemma StepKeepsFaithful(db: Db, op: Op, p: ProgramId, k: InvoiceId)
    requires p in After(db, op).accounts && k in After(db, op).accounts[p].rows
    requires After(db, op).accounts[p].rows[k].source == Api
    requires !Rewrites(db, op, p, k)
    requires p in db.accounts && k in db.accounts[p].rows && db.accounts[p].rows[k].source == Api ==>
               Faithful(db.accounts[p].rows[k])
    ensures Faithful(After(db, op).accounts[p].rows[k])
  {
    if OpProgram(op) == p && After(db, op) != db {
      match op
      case CreateOp(req, found) =>
        if k == req.invoice {
          CreatedIsFaithful(db.accounts[p], req, found);
        }
      case ReleaseOp(_, invoice) =>
        if k == invoice {
          ReleasedStaysFaithful(db.accounts[p], k);
        }
      case Deliver(d) =>
        if d.event.Reconciliation? {
          DeliveryKeepsFaithful(db, d, k);
        } else {
          CapacityKeepsRows(db, d);
        }
    }
  }

  lemma CapacityKeepsRows(db: Db, d: Delivery)
    requires d.event.CapacityUpdate?
    ensures
      var next := After(db, Deliver(d));
      d.event.program in next.accounts ==>
        next.accounts[d.event.program].rows
        == if d.event.program in db.accounts then db.accounts[d.event.program].rows else map[]
  {
  }

  /**
    Until a reconciliation rewrites it, the reserved amount of an API reservation is the
    conversion recomputed from the amount, the exponents and the rate stored in its row.
   */
  lemma {:induction false} FxSnapshotIsFaithful(db: Db, ops: seq<Op>, p: ProgramId, k: InvoiceId)
    requires Initial(db) && p in Exec(db, ops).accounts && k in Exec(db, ops).accounts[p].rows
    requires Exec(db, ops).accounts[p].rows[k].source == Api && !EverRewritten(db, ops, p, k)
    ensures Faithful(Exec(db, ops).accounts[p].rows[k])
  {
    if ops != [] {
      var init, last := ops[..|ops| - 1], ops[|ops| - 1];
      var before := Exec(db, init);
      if p in before.accounts && k in before.accounts[p].rows && before.accounts[p].rows[k].source == Api {
        FxSnapshotIsFaithful(db, init, p, k);
      }
      StepKeepsFaithful(before, last, p, k);
    }
  }
}
