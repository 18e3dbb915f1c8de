/**
  The consumer group around the interleaved transactions: consumers read partitions at
  positions of their own, handle messages in transactions, and commit offsets afterwards.
 */
module ConsumerGroup {
  import opened Tables
  import opened Wrappers
  import opened Messages
  import opened Transactions
  import opened Runs
  import opened Convergence
  import opened Interleaving
  import opened Serializability
  import opened TreasuryConsumer
  import opened ExactlyOnce

  type Kafka = map<TopicPartition, seq<Parsed>>
  type ConsumerId = nat

  /** A consumer that believes a partition to be its own; after a rebalance two may believe so. */
  datatype Seat = Seat(consumer: ConsumerId, tp: TopicPartition)

  /** The message the consumer is at, the transaction that handles it, and whether it is dealt with. */
  datatype Cursor = Cursor(next: nat, tx: Option<TxId>, dealt: bool)

  /** `offsets` are the committed ones, kept by the broker. */
  datatype Group = Group(sys: Sys, offsets: map<TopicPartition, nat>, cursors: map<Seat, Cursor>)

  function OffsetOf(g: Group, tp: TopicPartition): nat {
    if tp in g.offsets then g.offsets[tp] else 0
  }

  predicate InLog(kafka: Kafka, tp: TopicPartition, offset: nat) {
    tp in kafka && offset < |kafka[tp]|
  }

  function MessageAt(kafka: Kafka, tp: TopicPartition, offset: nat): Delivery
    requires InLog(kafka, tp, offset) && kafka[tp][offset].Valid?
  {
    Delivery(kafka[tp][offset].event, Slot(tp.topic, tp.partition, offset), kafka[tp][offset].hash)
  }

  datatype GroupTurn =
    | Assign(seat: Seat)                          // starts at the committed offset
    | Revoke(seat: Seat)                          // a crash or a rebalance; an open transaction lives on in the database
    | Poll(seat: Seat, t: TxId)                   // the message at the position: a transaction begins, or it is unreadable
    | Acknowledge(seat: Seat)                     // commits the offset after the message
    | Retry(seat: Seat)                           // that failed, or its answer was lost: the message comes again
    | Rewind(tp: TopicPartition, offset: nat)     // the committed offset is reset to an earlier one
    | Api(t: TxId, op: Op)                        // a create or a release begins
    | Database(t: TxId)                           // the transaction takes its next step
    | Loss(t: TxId)                               // the transaction dies

  function Placed(g: Group, seat: Seat, cursor: Cursor): Group {
    g.(cursors := g.cursors[seat := cursor])
  }

  /** Whoever waits for transaction t learns that it ended. */
  function Ended(cursors: map<Seat, Cursor>, t: TxId, committed: bool): map<Seat, Cursor> {
    map seat | seat in cursors ::
      if cursors[seat].tx == Some(t) then Cursor(cursors[seat].next, None, committed) else cursors[seat]
  }

  function PollStep(kafka: Kafka, g: Group, seat: Seat, t: TxId): Group
    requires seat in g.cursors
  {
    var cursor := g.cursors[seat];
    if cursor.tx.Some? || cursor.dealt || !InLog(kafka, seat.tp, cursor.next) then g
    else if kafka[seat.tp][cursor.next].Invalid? then Placed(g, seat, cursor.(dealt := true))
    else if t in g.sys.txs then g
    else
      var op := Deliver(MessageAt(kafka, seat.tp, cursor.next));
      Placed(g, seat, cursor.(tx := Some(t))).(sys := Step(g.sys, Begin(t, op)))
  }

  function DatabaseStep(g: Group, t: TxId): Group {
    var next := Step(g.sys, Advance(t));
    if t !in g.sys.txs || t in next.txs then g.(sys := next)
    else Group(next, g.offsets, Ended(g.cursors, t, Next(g.sys, t).Commits?))
  }

  function GroupStep(kafka: Kafka, g: Group, turn: GroupTurn): Group {
    match turn
    case Assign(seat) => Placed(g, seat, Cursor(OffsetOf(g, seat.tp), None, false))
    case Revoke(seat) => g.(cursors := g.cursors - {seat})
    case Poll(seat, t) => if seat in g.cursors then PollStep(kafka, g, seat, t) else g
    case Acknowledge(seat) =>
      if seat in g.cursors && g.cursors[seat].dealt then
        var next := g.cursors[seat].next;
        Placed(g, seat, Cursor(next + 1, None, false)).(offsets := g.offsets[seat.tp := next + 1])
      else g
    case Retry(seat) =>
      if seat in g.cursors && g.cursors[seat].dealt then Placed(g, seat, g.cursors[seat].(dealt := false)) else g
    case Rewind(tp, offset) => if offset <= OffsetOf(g, tp) then g.(offsets := g.offsets[tp := offset]) else g
    case Api(t, op) => if op.Deliver? then g else g.(sys := Step(g.sys, Begin(t, op)))
    case Database(t) => DatabaseStep(g, t)
    case Loss(t) => Group(Step(g.sys, Kill(t)), g.offsets, Ended(g.cursors, t, false))
  }

  function GroupRun(kafka: Kafka, g: Group, turns: seq<GroupTurn>): Group {
    if turns == [] then g else GroupStep(kafka, GroupRun(kafka, g, turns[..|turns| - 1]), turns[|turns| - 1])
  }

  // ---------- what holds in every run ----------

  /** The message at a place in Kafka; an arbitrary one where there is none. */
  function LogAt(kafka: Kafka, slot: Slot): Delivery {
    var tp := TopicPartition(slot.topic, slot.partition);
    if slot.offset >= 0 && InLog(kafka, tp, slot.offset) && kafka[tp][slot.offset].Valid? then
      MessageAt(kafka, tp, slot.offset)
    else Delivery(CapacityUpdate("", "", Fraction, "", 0, Fraction), slot, "")
  }

  function LogOf(kafka: Kafka): Log {
    slot => LogAt(kafka, slot)
  }

  /** Dealt with: unreadable, or recorded by its offset or by its message id. */
  predicate Covered(kafka: Kafka, processed: set<Processed>, tp: TopicPartition, offset: nat) {
    && InLog(kafka, tp, offset)
    && (kafka[tp][offset].Valid? ==>
          var d := MessageAt(kafka, tp, offset);
          SlotRecorded(processed, d.slot) || MessageRecorded(processed, d.event.message))
  }

  /** Every message below the offset is dealt with. */
  predicate CoveredBelow(kafka: Kafka, processed: set<Processed>, tp: TopicPartition, offset: nat) {
    forall o: nat | o < offset :: Covered(kafka, processed, tp, o)
  }

  /** What the consumer has dealt with is; and the transaction it waits for handles its message. */
  predicate CursorOk(kafka: Kafka, sys: Sys, tp: TopicPartition, cursor: Cursor) {
    && CoveredBelow(kafka, sys.db.processed, tp, cursor.next)
    && (cursor.dealt ==> Covered(kafka, sys.db.processed, tp, cursor.next))
    && (cursor.tx.Some? ==>
          && InLog(kafka, tp, cursor.next) && kafka[tp][cursor.next].Valid?
          && cursor.tx.value in sys.txs
          && sys.txs[cursor.tx.value].op == Deliver(MessageAt(kafka, tp, cursor.next)))
  }

  predicate PositionsOk(kafka: Kafka, g: Group) {
    && (forall tp | tp in g.offsets :: CoveredBelow(kafka, g.sys.db.processed, tp, g.offsets[tp]))
    && (forall seat | seat in g.cursors :: CursorOk(kafka, g.sys, seat.tp, g.cursors[seat]))
  }

  ghost predicate GroupOk(kafka: Kafka, start: Db, g: Group) {
    && SysOk(g.sys, LogOf(kafka))
    && Serial(start, g.sys, LogOf(kafka))
    && PositionsOk(kafka, g)
  }

  lemma CoveredGrows(kafka: Kafka, processed: set<Processed>, more: set<Processed>, tp: TopicPartition, offset: nat)
    requires processed <= more
    ensures Covered(kafka, processed, tp, offset) ==> Covered(kafka, more, tp, offset)
    ensures CoveredBelow(kafka, processed, tp, offset) ==> CoveredBelow(kafka, more, tp, offset)
  {
    assert forall o: nat :: Covered(kafka, processed, tp, o) ==> Covered(kafka, more, tp, o);
  }

  /** One step of the database keeps what is known of it, and records what was recorded. */
  lemma SysStep(start: Db, s: Sys, turn: Turn, log: Log)
    requires SysOk(s, log) && Serial(start, s, log)
    requires turn.Begin? ==> Conforms(turn.op, log)
    ensures SysOk(Step(s, turn), log) && Serial(start, Step(s, turn), log)
    ensures s.db.processed <= Step(s, turn).db.processed
  {
    StepKeepsSys(s, turn, log);
    if turn.Advance? && turn.t in s.txs && Next(s, turn.t).Commits? {
      CommitIsSerial(start, s, turn.t, log);
      CommitIsAtomic(s, turn.t, log);
      RecordedStays(s.db, s.txs[turn.t].op);
    }
  }

  /** A step that leaves the transactions consumers wait for leaves their positions in order. */
  lemma PositionsStay(kafka: Kafka, g: Group, next: Sys)
    requires PositionsOk(kafka, g) && g.sys.db.processed <= next.db.processed
    requires forall seat | seat in g.cursors && g.cursors[seat].tx.Some? ::
               var t := g.cursors[seat].tx.value; t in next.txs && next.txs[t].op == g.sys.txs[t].op
    ensures PositionsOk(kafka, g.(sys := next))
  {
    forall tp, offset {
      CoveredGrows(kafka, g.sys.db.processed, next.db.processed, tp, offset);
    }
  }

  /** After the transaction that handles it has committed, a message is dealt with. */
  lemma CommittedIsCovered(kafka: Kafka, s: Sys, t: TxId, tp: TopicPartition, offset: nat)
    requires SysOk(s, LogOf(kafka)) && t in s.txs && Next(s, t).Commits?
    requires InLog(kafka, tp, offset) && kafka[tp][offset].Valid?
    requires s.txs[t].op == Deliver(MessageAt(kafka, tp, offset))
    ensures Covered(kafka, Next(s, t).db.processed, tp, offset)
  {
    CommitIsAtomic(s, t, LogOf(kafka));
    DeliveredIsRecorded(s.db, MessageAt(kafka, tp, offset), LogOf(kafka));
  }

  /** Without the transactions that ended, positions are in order again. */
  lemma EndedKeeps(kafka: Kafka, g: Group, t: TxId, next: Sys, committed: bool)
    requires PositionsOk(kafka, g) && g.sys.db.processed <= next.db.processed
    requires next.txs == g.sys.txs - {t}
    requires committed ==> forall seat | seat in g.cursors && g.cursors[seat].tx == Some(t) ::
               Covered(kafka, next.db.processed, seat.tp, g.cursors[seat].next)
    ensures PositionsOk(kafka, Group(next, g.offsets, Ended(g.cursors, t, committed)))
  {
    forall tp, offset {
      CoveredGrows(kafka, g.sys.db.processed, next.db.processed, tp, offset);
    }
  }

  lemma WaitersAreCovered(kafka: Kafka, g: Group, t: TxId)
    requires SysOk(g.sys, LogOf(kafka)) && PositionsOk(kafka, g)
    requires t in g.sys.txs && Next(g.sys, t).Commits?
    ensures forall seat | seat in g.cursors && g.cursors[seat].tx == Some(t) ::
              Covered(kafka, Next(g.sys, t).db.processed, seat.tp, g.cursors[seat].next)
  {
    forall seat | seat in g.cursors && g.cursors[seat].tx == Some(t)
      ensures Covered(kafka, Next(g.sys, t).db.processed, seat.tp, g.cursors[seat].next)
    {
      CommittedIsCovered(kafka, g.sys, t, seat.tp, g.cursors[seat].next);
    }
  }

  lemma DatabaseKeeps(kafka: Kafka, start: Db, g: Group, t: TxId)
    requires GroupOk(kafka, start, g)
    ensures GroupOk(kafka, start, DatabaseStep(g, t))
  {
    var next := Step(g.sys, Advance(t));
    SysStep(start, g.sys, Advance(t), LogOf(kafka));
    if t !in g.sys.txs || t in next.txs {
      PositionsStay(kafka, g, next);
    } else {
      if Next(g.sys, t).Commits? {
        WaitersAreCovered(kafka, g, t);
      }
      EndedKeeps(kafka, g, t, next, Next(g.sys, t).Commits?);
    }
  }

  lemma PollKeeps(kafka: Kafka, start: Db, g: Group, seat: Seat, t: TxId)
    requires GroupOk(kafka, start, g) && seat in g.cursors
    ensures GroupOk(kafka, start, PollStep(kafka, g, seat, t))
  {
    var cursor := g.cursors[seat];
    if PollStep(kafka, g, seat, t) != g && kafka[seat.tp][cursor.next].Valid? {
      var op := Deliver(MessageAt(kafka, seat.tp, cursor.next));
      SysStep(start, g.sys, Begin(t, op), LogOf(kafka));
      PositionsStay(kafka, g, Step(g.sys, Begin(t, op)));
    }
  }

  lemma AcknowledgeKeeps(kafka: Kafka, g: Group, seat: Seat)
    requires PositionsOk(kafka, g) && seat in g.cursors && g.cursors[seat].dealt
    ensures PositionsOk(kafka, GroupStep(kafka, g, Acknowledge(seat)))
  {
    assert CoveredBelow(kafka, g.sys.db.processed, seat.tp, g.cursors[seat].next + 1);
  }

  /** Turns that leave the database alone. */
  lemma PositionTurnKeeps(kafka: Kafka, g: Group, turn: GroupTurn)
    requires PositionsOk(kafka, g)
    requires turn.Assign? || turn.Revoke? || turn.Retry? || turn.Rewind?
    ensures PositionsOk(kafka, GroupStep(kafka, g, turn)) && GroupStep(kafka, g, turn).sys == g.sys
  {
  }

  lemma ApiKeeps(kafka: Kafka, start: Db, g: Group, t: TxId, op: Op)
    requires GroupOk(kafka, start, g) && !op.Deliver?
    ensures GroupOk(kafka, start, g.(sys := Step(g.sys, Begin(t, op))))
  {
    SysStep(start, g.sys, Begin(t, op), LogOf(kafka));
    PositionsStay(kafka, g, Step(g.sys, Begin(t, op)));
  }

  lemma LossKeeps(kafka: Kafka, start: Db, g: Group, t: TxId)
    requires GroupOk(kafka, start, g)
    ensures GroupOk(kafka, start, GroupStep(kafka, g, Loss(t)))
  {
    SysStep(start, g.sys, Kill(t), LogOf(kafka));
    EndedKeeps(kafka, g, t, Step(g.sys, Kill(t)), false);
  }

  lemma GroupStepKeeps(kafka: Kafka, start: Db, g: Group, turn: GroupTurn)
    requires GroupOk(kafka, start, g)
    ensures GroupOk(kafka, start, GroupStep(kafka, g, turn))
  {
    match turn
    case Poll(seat, t) =>
      if seat in g.cursors {
        PollKeeps(kafka, start, g, seat, t);
      }
    case Acknowledge(seat) =>
      if seat in g.cursors && g.cursors[seat].dealt {
        AcknowledgeKeeps(kafka, g, seat);
      }
    case Api(t, op) =>
      if !op.Deliver? {
        ApiKeeps(kafka, start, g, t, op);
      }
    case Database(t) => DatabaseKeeps(kafka, start, g, t);
    case Loss(t) => LossKeeps(kafka, start, g, t);
    case _ => PositionTurnKeeps(kafka, g, turn);
  }

  function Started(start: Db): Group {
    Group(Sys(start, map[], []), map[], map[])
  }

  lemma {:induction false} EveryRun(kafka: Kafka, start: Db, turns: seq<GroupTurn>)
    requires DbOk(start, LogOf(kafka))
    ensures GroupOk(kafka, start, GroupRun(kafka, Started(start), turns))
  {
    if turns != [] {
      EveryRun(kafka, start, turns[..|turns| - 1]);
      GroupStepKeeps(kafka, start, GroupRun(kafka, Started(start), turns[..|turns| - 1]), turns[|turns| - 1]);
    }
  }

  /**
    However often consumers crash, race for a partition, retry, lose acknowledgements or go
    back, and however their transactions interleave with each other and with the API, the
    tables are those of the serial run that handles each message once (OnceIsOnce); and every
    message below a committed offset is unreadable, or recorded by its offset or its id.
   */
  lemma {:induction false} ExactlyOnceEffect(kafka: Kafka, start: Db, turns: seq<GroupTurn>)
    requires DbOk(start, LogOf(kafka))
    ensures
      var g := GroupRun(kafka, Started(start), turns);
      && g.sys.db == Exec(start, Once(g.sys.committed))
      && (forall tp | tp in g.offsets :: CoveredBelow(kafka, g.sys.db.processed, tp, g.offsets[tp]))
      && (Initial(start) ==> DbKept(g.sys.db))
  {
    EveryRun(kafka, start, turns);
    var ops := GroupRun(kafka, Started(start), turns).sys.committed;
    ErasingRepeats(start, ops, LogOf(kafka));
    if Initial(start) {
      Reachable(start, ops);
    }
  }

  // ---------- convergence, end to end ----------

  lemma {:induction false} OnceIsCommitted(ops: seq<Op>, i: nat)
    requires i < |Once(ops)|
    ensures Once(ops)[i] in ops
  {
    var init := ops[..|ops| - 1];
    if i < |Once(init)| {
      OnceIsCommitted(init, i);
    }
  }

  /** The committed messages for the program are well-formed. */
  predicate WellFormedFor(ops: seq<Op>, p: ProgramId) {
    forall op | op in ops && op.Deliver? && OpProgram(op) == p :: WellFormed(op.delivery.event)
  }

  /** From a clean start the erased run delivers only messages the tables have not seen. */
  lemma OnceIsFresh(start: Db, ops: seq<Op>, p: ProgramId, log: Log)
    requires Initial(start) && forall i | 0 <= i < |ops| :: Conforms(ops[i], log)
    requires WellFormedFor(ops, p)
    ensures Fresh(start, Once(ops), p)
  {
    var once := Once(ops);
    forall i | 0 <= i < |once|
      ensures once[i] in ops && Conforms(once[i], log)
    {
      OnceIsCommitted(ops, i);
    }
    forall i, j | 0 <= i < j < |once| && once[i].Deliver? && once[j].Deliver?
      ensures once[i].delivery.slot != once[j].delivery.slot
      ensures once[i].delivery.event.message != once[j].delivery.event.message
    {
      OnceIsOnce(ops, i, j);
    }
  }

  /**
    In every run of the group a program ends with what the consistent message of the greatest
    version among those committed asks for, or as it was when none is newer.
   */
  lemma {:induction false} GroupConverges(kafka: Kafka, start: Db, turns: seq<GroupTurn>, p: ProgramId)
    requires Initial(start) && p in start.accounts
    requires WellFormedFor(GroupRun(kafka, Started(start), turns).sys.committed, p)
    ensures
      var g := GroupRun(kafka, Started(start), turns);
      && p in g.sys.db.accounts
      && Greatest(ConfigOf(start.accounts[p].program), Once(g.sys.committed), p, ConfigOf(g.sys.db.accounts[p].program))
  {
    EveryRun(kafka, start, turns);
    ExactlyOnceEffect(kafka, start, turns);
    var ops := GroupRun(kafka, Started(start), turns).sys.committed;
    OnceIsFresh(start, ops, p, LogOf(kafka));
    InitialKept(start);
    GreatestWins(start, Once(ops), p);
  }

  /** Two runs of the group that commit the same messages for a program configure it the same. */
  lemma {:induction false} GroupsAgree(kafka: Kafka, start: Db, turns: seq<GroupTurn>, other: seq<GroupTurn>, p: ProgramId)
    requires Initial(start) && p in start.accounts
    requires WellFormedFor(GroupRun(kafka, Started(start), turns).sys.committed, p)
    requires WellFormedFor(GroupRun(kafka, Started(start), other).sys.committed, p)
    requires
      var ops := Once(GroupRun(kafka, Started(start), turns).sys.committed);
      DistinctVersions(ops, p) && SameMessages(ops, Once(GroupRun(kafka, Started(start), other).sys.committed), p)
    ensures
      var g, h := GroupRun(kafka, Started(start), turns), GroupRun(kafka, Started(start), other);
      && p in g.sys.db.accounts && p in h.sys.db.accounts
      && ConfigOf(g.sys.db.accounts[p].program) == ConfigOf(h.sys.db.accounts[p].program)
  {
    var g, h := GroupRun(kafka, Started(start), turns), GroupRun(kafka, Started(start), other);
    GroupConverges(kafka, start, turns, p);
    GroupConverges(kafka, start, other, p);
    SameWinner(ConfigOf(start.accounts[p].program), Once(g.sys.committed), Once(h.sys.committed), p,
               ConfigOf(g.sys.db.accounts[p].program), ConfigOf(h.sys.db.accounts[p].program));
  }

  // ---------- the handler's own account ----------

  /** What a consumer sees of the commit it waits for. */
  lemma CommitIsNoticed(g: Group, seat: Seat, t: TxId)
    requires seat in g.cursors && g.cursors[seat].tx == Some(t)
    requires t in g.sys.txs && Next(g.sys, t).Commits?
    ensures
      var handled := DatabaseStep(g, t);
      && handled.sys.db == Next(g.sys, t).db && handled.offsets == g.offsets
      && seat in handled.cursors && handled.cursors[seat] == Cursor(g.cursors[seat].next, None, true)
  {
  }

  /**
    When the transaction a consumer waits for commits, the tables are those that
    Consumer.HandleMessage leaves, and the offsets stay until the consumer acknowledges.
   */
  lemma CommitIsHandleMessage(kafka: Kafka, start: Db, g: Group, seat: Seat, t: TxId)
    requires GroupOk(kafka, start, g)
    requires seat in g.cursors && g.cursors[seat].tx == Some(t) && Next(g.sys, t).Commits?
    ensures
      var op := Deliver(MessageAt(kafka, seat.tp, g.cursors[seat].next));
      var handled := GroupStep(kafka, g, Database(t));
      && Atomic(g.sys.db, op).Committed? && handled.sys.db == After(g.sys.db, op)
      && handled.offsets == g.offsets
      && seat in handled.cursors && handled.cursors[seat] == Cursor(g.cursors[seat].next, None, true)
  {
    assert CursorOk(kafka, g.sys, seat.tp, g.cursors[seat]);
    CommitIsNoticed(g, seat, t);
    CommitIsAtomic(g.sys, t, LogOf(kafka));
  }

  /** A consumer that starts again handles the first message that is not acknowledged. */
  lemma RestartHandlesCommitted(kafka: Kafka, g: Group, seat: Seat, t: TxId)
    requires InLog(kafka, seat.tp, OffsetOf(g, seat.tp)) && kafka[seat.tp][OffsetOf(g, seat.tp)].Valid?
    requires t !in g.sys.txs
    ensures
      var started := GroupStep(kafka, GroupStep(kafka, g, Revoke(seat)), Assign(seat));
      var polled := GroupStep(kafka, started, Poll(seat, t));
      && polled.offsets == g.offsets && polled.sys.db == g.sys.db
      && t in polled.sys.txs
      && polled.sys.txs[t] == Tx(Deliver(MessageAt(kafka, seat.tp, OffsetOf(g, seat.tp))), Begun)
  {
  }

  /** An unreadable message is skipped: its offset is committed and the tables stay. */
  lemma UnreadableIsSkipped(kafka: Kafka, g: Group, seat: Seat, t: TxId)
    requires seat in g.cursors && InLog(kafka, seat.tp, g.cursors[seat].next)
    requires kafka[seat.tp][g.cursors[seat].next].Invalid?
    requires g.cursors[seat].tx.None? && !g.cursors[seat].dealt
    ensures
      var end := GroupStep(kafka, GroupStep(kafka, g, Poll(seat, t)), Acknowledge(seat));
      end.sys == g.sys && end.offsets == g.offsets[seat.tp := g.cursors[seat].next + 1]
  {
  }
}
