/** Out-of-order delivery: the treasury version guard makes the order of messages irrelevant. */
module Convergence {
  import opened Wrappers
  import opened Tables
  import opened Messages
  import opened Snapshot
  import opened Transactions
  import opened Accounts
  import opened Runs

  /** What the treasury decides about a program. */
  datatype Config = Config(limit: int, currency: Currency, exponent: int, version: Option<int>)

  function ConfigOf(p: Program): Config {
    Config(p.limit, p.currency, p.exponent, p.treasuryVersion)
  }

  /** What a message asks for. */
  function Asked(e: Event): Config
    requires e.limit.Whole? && e.version.Whole?
  {
    Config(e.limit.n, e.currency, e.exponent, Some(e.version.n))
  }

  /** A message the handlers do not throw on, whatever state the program is in. */
  predicate WellFormed(e: Event) {
    && e.version.Whole? && FitsBigint(e.version.n)
    && e.limit.Whole? && 0 <= e.limit.n <= MAX_BIGINT
    && FitsSmallint(e.exponent) && FitsChar3(e.currency)
    && (e.Reconciliation? ==>
          && e.declared.Whole? && FitsBigint(e.declared.n)
          && AllWhole(e.items)
          && (Contradictory(e) || WellFormedSnapshot(e.items)))
  }

  predicate WellFormedSnapshot(items: seq<Item>) {
    && Distinct(items)
    && (forall i | 0 <= i < |items| :: 0 < Amount(items[i]) <= MAX_BIGINT)
    && Total(items) <= MAX_BIGINT
  }

  lemma {:induction false} TotalNonNegative(items: seq<Item>)
    requires forall i | 0 <= i < |items| :: 0 < Amount(items[i])
    ensures Total(items) >= 0
  {
    if items != [] {
      TotalNonNegative(items[..|items| - 1]);
    }
  }

  /** A well-formed message is always handled; it takes effect iff it is newer and consistent. */
  lemma MessageEffect(a: Account, e: Event)
    requires Kept(a) && WellFormed(e)
    ensures WorkFor(Some(a), e).Work?
    ensures
      ConfigOf(WorkFor(Some(a), e).account.program)
      == if Contradictory(e) || Programs.Stale(a.program, e.version.n) then ConfigOf(a.program) else Asked(e)
  {
    if e.Reconciliation? && !Contradictory(e) && !Programs.Stale(a.program, e.version.n) {
      WriteItemsSucceeds(Context(a.program.currency, a.program.exponent, e.message), a.rows, e.items);
      TotalNonNegative(e.items);
    }
  }

  /** A capacity update is handled exactly when it is stale or well-formed; anything else throws. */
  lemma CapacityHandledIff(a: Account, e: Event)
    requires Kept(a) && e.CapacityUpdate?
    ensures WorkFor(Some(a), e).Work? <==> e.version.Whole? && (Programs.Stale(a.program, e.version.n) || WellFormed(e))
  {
  }

  /** A message that asks something of a program, and does not contradict itself. */
  predicate Applicable(op: Op, p: ProgramId) {
    && op.Deliver? && op.delivery.event.program == p
    && WellFormed(op.delivery.event) && !Contradictory(op.delivery.event)
  }

  /** Messages the tables have not seen, each delivered once; those for the program are well-formed. */
  predicate Fresh(db: Db, ops: seq<Op>, p: ProgramId) {
    && (forall i | 0 <= i < |ops| && ops[i].Deliver? ::
          && (OpProgram(ops[i]) == p ==> WellFormed(ops[i].delivery.event))
          && !SlotRecorded(db.processed, ops[i].delivery.slot)
          && !MessageRecorded(db.processed, ops[i].delivery.event.message))
    && (forall i, j | 0 <= i < j < |ops| && ops[i].Deliver? && ops[j].Deliver? ::
          && ops[i].delivery.slot != ops[j].delivery.slot
          && ops[i].delivery.event.message != ops[j].delivery.event.message)
  }

  predicate DistinctVersions(ops: seq<Op>, p: ProgramId) {
    forall i, j | 0 <= i < |ops| && 0 <= j < |ops| && Applicable(ops[i], p) && Applicable(ops[j], p) ::
      ops[i].delivery.event.version == ops[j].delivery.event.version ==> ops[i].delivery.event == ops[j].delivery.event
  }

  lemma FreshPrefix(db: Db, ops: seq<Op>, p: ProgramId)
    requires Fresh(db, ops, p) && ops != []
    ensures Fresh(db, ops[..|ops| - 1], p)
  {
    var init := ops[..|ops| - 1];
    assert forall i | 0 <= i < |init| :: init[i] == ops[i];
  }

  /** Only delivered messages are recorded. */
  lemma {:induction false} RecordedFrom(db: Db, ops: seq<Op>, q: Processed)
    requires q in Exec(db, ops).processed
    ensures q in db.processed || exists i | 0 <= i < |ops| :: ops[i].Deliver? && Recorded(ops[i].delivery) == q
  {
    if ops != [] && q !in db.processed {
      var init, last := ops[..|ops| - 1], ops[|ops| - 1];
      if q in Exec(db, init).processed {
        RecordedFrom(db, init, q);
        var i :| 0 <= i < |init| && init[i].Deliver? && Recorded(init[i].delivery) == q;
        assert ops[i] == init[i];
      } else {
        assert last.Deliver? && Recorded(last.delivery) == q;
      }
    }
  }

  /** A fresh message is not taken for a duplicate. */
  lemma LastIsUnseen(db: Db, ops: seq<Op>, p: ProgramId)
    requires Fresh(db, ops, p) && ops != [] && ops[|ops| - 1].Deliver?
    ensures
      var before := Exec(db, ops[..|ops| - 1]);
      var d := ops[|ops| - 1].delivery;
      !SlotRecorded(before.processed, d.slot) && !MessageRecorded(before.processed, d.event.message)
  {
    var init, d := ops[..|ops| - 1], ops[|ops| - 1].delivery;
    forall q | q in Exec(db, init).processed
      ensures q.slot != d.slot && q.message != d.event.message
    {
      RecordedFrom(db, init, q);
      if q !in db.processed {
        var i :| 0 <= i < |init| && init[i].Deliver? && Recorded(init[i].delivery) == q;
        assert ops[i] == init[i];
      }
    }
  }

  /** cfg comes from the message with the greatest version, or is the old one when none is newer. */
  predicate Greatest(start: Config, ops: seq<Op>, p: ProgramId, cfg: Config) {
    && (cfg == start || exists i | 0 <= i < |ops| :: Applicable(ops[i], p) && cfg == Asked(ops[i].delivery.event))
    && (start.version.Some? ==> cfg.version.Some? && cfg.version.value >= start.version.value)
    && (cfg != start ==> cfg.version.Some? && (start.version.Some? ==> cfg.version.value > start.version.value))
    && (forall i | 0 <= i < |ops| && Applicable(ops[i], p) ::
          cfg.version.Some? && ops[i].delivery.event.version.n <= cfg.version.value)
  }

  lemma {:induction false} GreatestWins(db: Db, ops: seq<Op>, p: ProgramId)
    requires DbKept(db) && p in db.accounts && Fresh(db, ops, p)
    ensures DbKept(Exec(db, ops)) && p in Exec(db, ops).accounts
    ensures Greatest(ConfigOf(db.accounts[p].program), ops, p, ConfigOf(Exec(db, ops).accounts[p].program))
  {
    if ops != [] {
      var init, last := ops[..|ops| - 1], ops[|ops| - 1];
      FreshPrefix(db, ops, p);
      GreatestWins(db, init, p);
      var before := Exec(db, init);
      StepKeeps(before, last);
      assert forall i | 0 <= i < |init| :: ops[i] == init[i];
      if last.Deliver? && OpProgram(last) == p {
        LastIsUnseen(db, ops, p);
        MessageEffect(before.accounts[p], last.delivery.event);
      } else {
        ConfigUntouched(before, last, p);
      }
      GreatestExtends(ConfigOf(db.accounts[p].program), ops, p, ConfigOf(before.accounts[p].program),
                      ConfigOf(After(before, last).accounts[p].program));
    }
  }

  lemma ConfigUntouched(db: Db, op: Op, p: ProgramId)
    requires p in db.accounts && !(op.Deliver? && OpProgram(op) == p)
    ensures p in After(db, op).accounts
    ensures ConfigOf(After(db, op).accounts[p].program) == ConfigOf(db.accounts[p].program)
  {
  }

  lemma GreatestExtends(start: Config, ops: seq<Op>, p: ProgramId, mid: Config, cfg: Config)
    requires ops != []
    requires Greatest(start, ops[..|ops| - 1], p, mid)
    requires
      var last := ops[|ops| - 1];
      cfg == if Applicable(last, p) && !(mid.version.Some? && last.delivery.event.version.n <= mid.version.value)
             then Asked(last.delivery.event) else mid
    ensures Greatest(start, ops, p, cfg)
  {
    var init := ops[..|ops| - 1];
    assert forall i | 0 <= i < |init| :: init[i] == ops[i];
    if cfg != start && cfg == mid {
      var i :| 0 <= i < |init| && Applicable(init[i], p) && cfg == Asked(init[i].delivery.event);
      assert Applicable(ops[i], p) && cfg == Asked(ops[i].delivery.event);
    }
  }

  function MessagesFor(ops: seq<Op>, p: ProgramId): set<Event> {
    set i | 0 <= i < |ops| && Applicable(ops[i], p) :: ops[i].delivery.event
  }

  /** The same messages, in any order, at any offsets and among any API traffic. */
  predicate SameMessages(ops: seq<Op>, other: seq<Op>, p: ProgramId) {
    MessagesFor(ops, p) == MessagesFor(other, p)
  }

  /** One outcome is at most as new as the other. */
  lemma BoundedByGreatest(start: Config, ops: seq<Op>, p: ProgramId, a: Config, other: seq<Op>, b: Config)
    requires Greatest(start, ops, p, a) && Greatest(start, other, p, b)
    requires SameMessages(ops, other, p)
    ensures a.version.Some? ==> b.version.Some? && a.version.value <= b.version.value
  {
    if a != start {
      var i :| 0 <= i < |ops| && Applicable(ops[i], p) && a == Asked(ops[i].delivery.event);
      assert ops[i].delivery.event in MessagesFor(other, p);
    }
  }

  /** Two outcomes of the same messages are the same message's. */
  lemma SameWinner(start: Config, ops: seq<Op>, other: seq<Op>, p: ProgramId, a: Config, b: Config)
    requires DistinctVersions(ops, p) && SameMessages(ops, other, p)
    requires Greatest(start, ops, p, a) && Greatest(start, other, p, b)
    ensures a == b
  {
    BoundedByGreatest(start, ops, p, a, other, b);
    BoundedByGreatest(start, other, p, b, ops, a);
    if a != start && b != start {
      var i :| 0 <= i < |ops| && Applicable(ops[i], p) && a == Asked(ops[i].delivery.event);
      var j :| 0 <= j < |other| && Applicable(other[j], p) && b == Asked(other[j].delivery.event);
      assert other[j].delivery.event in MessagesFor(ops, p);
    }
  }

  /**
    Whatever the order of delivery, a program ends with the same limit, currency, exponent
    and treasury version. Messages that contradict themselves do not count.
   */
  lemma {:induction false} OrderDoesNotMatter(db: Db, ops: seq<Op>, other: seq<Op>, p: ProgramId)
    requires DbKept(db) && p in db.accounts
    requires Fresh(db, ops, p) && Fresh(db, other, p) && DistinctVersions(ops, p)
    requires SameMessages(ops, other, p)
    ensures p in Exec(db, ops).accounts && p in Exec(db, other).accounts
    ensures ConfigOf(Exec(db, ops).accounts[p].program) == ConfigOf(Exec(db, other).accounts[p].program)
  {
    GreatestWins(db, ops, p);
    GreatestWins(db, other, p);
    SameWinner(ConfigOf(db.accounts[p].program), ops, other, p,
               ConfigOf(Exec(db, ops).accounts[p].program), ConfigOf(Exec(db, other).accounts[p].program));
  }
}
