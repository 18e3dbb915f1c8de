/** Requests and messages, src/reservations/dto and src/treasury/treasury-message.schemas.ts. */
module Messages {
  import opened Wrappers
  import opened Tables

  /** A finite JSON number. BigInt(n) throws unless it is whole. */
  datatype Num = Whole(n: int) | Fraction

  /** One element of payload.activeReservations. */
  datatype Item = Item(invoice: InvoiceId, amount: Num, currency: Currency)

  datatype Event =
    | CapacityUpdate(
        message: MessageId, program: ProgramId, version: Num,
        currency: Currency, exponent: int, limit: Num)
    | Reconciliation(
        message: MessageId, program: ProgramId, version: Num,
        currency: Currency, exponent: int, limit: Num,
        declared: Num, items: seq<Item>)

  function TypeOf(e: Event): MessageType {
    if e.CapacityUpdate? then CapacityUpdated else ReconciliationSnapshot
  }

  /** An event with its place in Kafka and the hash of its text. */
  datatype Delivery = Delivery(event: Event, slot: Slot, hash: string)

  datatype CreateRequest = CreateRequest(
    program: ProgramId, invoice: InvoiceId, amount: int, currency: Currency)

  datatype Quote = Quote(rate: nat, name: string)

  /** What the tables `currencies` and `fx_rates` answered for a request. */
  datatype Lookups = Lookups(exponent: Option<int>, quote: Option<Quote>)

  function Recorded(d: Delivery): Processed {
    Processed(d.slot, d.event.message, TypeOf(d.event), d.event.program, d.hash)
  }
}
