/** src/treasury/treasury.consumer.ts: the database commits first, the offset afterwards. */
module TreasuryConsumer {
  import opened Wrappers
  import opened Tables
  import opened Messages
  import opened Transactions
  import opened Database
  import opened TreasuryHandlers

  datatype TopicPartition = TopicPartition(topic: string, partition: int)

  /** A message as JSON.parse and parseTreasuryEvent leave it. */
  datatype Parsed = Valid(event: Event, hash: string) | Invalid

  class Consumer {
    const store: Store
    const capacityUpdateHandler: CapacityUpdateHandler
    const reconciliationHandler: ReconciliationHandler
    var offsets: map<TopicPartition, int>

    predicate Wired() {
      capacityUpdateHandler.store == store && reconciliationHandler.store == store
    }

    constructor (store: Store)
      ensures this.store == store && Wired() && offsets == map[]
    {
      this.store := store;
      capacityUpdateHandler := new CapacityUpdateHandler(store);
      reconciliationHandler := new ReconciliationHandler(store);
      offsets := map[];
    }

    /** commitOffset; it throws when the broker does not answer. */
    method CommitOffset(tp: TopicPartition, offset: int, brokerAnswers: bool) returns (r: Result<(), ApiError>)
      modifies this`offsets
      ensures r.Success? <==> brokerAnswers
      ensures offsets == if brokerAnswers then old(offsets)[tp := offset + 1] else old(offsets)
    {
      if !brokerAnswers {
        return Failure(ConstraintViolation);
      }
      offsets := offsets[tp := offset + 1];
      r := Success(());
    }

    /** TransactionManager.run around the handler of the message's type. */
    method RunHandler(d: Delivery) returns (r: Result<HandlerStatus, ApiError>)
      requires Wired()
      modifies store
      ensures Ends(Transactions.Handle(old(store.State()), d), r, store.State())
      ensures store.State() == After(old(store.State()), Deliver(d))
    {
      var begun := store.State();
      if d.event.CapacityUpdate? {
        r := capacityUpdateHandler.Handle(d);
      } else {
        r := reconciliationHandler.Handle(d);
      }
      if r.Failure? {
        store.Rollback(begun);
      }
    }

    /**
      handleMessage. A message that cannot be parsed is skipped; a handler that throws, or
      an offset that cannot be committed, is thrown on, and the message comes again.
     */
    method HandleMessage(tp: TopicPartition, offset: int, message: Parsed, brokerAnswers: bool)
        returns (r: Result<(), ApiError>)
      requires Wired()
      modifies this`offsets, store
      ensures
        var handled := message.Valid? ==>
          Atomic(old(store.State()), Deliver(Delivery(message.event, Slot(tp.topic, tp.partition, offset), message.hash))).Committed?;
        && (r.Success? <==> handled && brokerAnswers)
        && offsets == (if r.Success? then old(offsets)[tp := offset + 1] else old(offsets))
      ensures
        store.State() ==
          if message.Invalid? then old(store.State())
          else After(old(store.State()),
                     Deliver(Delivery(message.event, Slot(tp.topic, tp.partition, offset), message.hash)))
    {
      if message.Invalid? {
        r := CommitOffset(tp, offset, brokerAnswers);
        return;
      }
      var result := RunHandler(Delivery(message.event, Slot(tp.topic, tp.partition, offset), message.hash));
      if result.Failure? {
        return Failure(result.error);
      }
      r := CommitOffset(tp, offset, brokerAnswers);
    }
  }
}
