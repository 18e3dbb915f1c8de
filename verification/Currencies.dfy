/**
  The currency check of a reconciliation. README.md:272 of the repository asks every item to
  match the program's currency; the handler compares with the currency of the message
  (src/treasury/treasury-reconciliation.handler.ts:128-130), which may differ.
 */
module Currencies {
  import opened Wrappers
  import opened Tables
  import opened Messages
  import opened Snapshot
  import opened Transactions

  predicate AllIn(items: seq<Item>, currency: Currency) {
    forall i | 0 <= i < |items| :: items[i].currency == currency
  }

  /** An applied snapshot matches the program's currency exactly when the message does. */
  lemma AppliedInProgramCurrencyIff(a: Account, e: Event)
    requires e.Reconciliation? && ReconciliationWork(Some(a), e).Work?
    requires ReconciliationWork(Some(a), e).status == Applied
    ensures AllIn(e.items, a.program.currency) <==> e.items == [] || e.currency == a.program.currency
  {
    assert AllIn(e.items, e.currency);
  }

  /** A EUR snapshot is applied to a USD program. */
  lemma ForeignSnapshotIsApplied()
    ensures
      var a := Account(Program("USD", 2, 100, 0, ProgramActive, 0, None), map[], []);
      var e := Reconciliation("m", "P", Whole(1), "EUR", 2, Whole(100), Whole(6), [Item("A", Whole(6), "EUR")]);
      var work := ReconciliationWork(Some(a), e);
      && work.Work? && work.status == Applied && !AllIn(e.items, a.program.currency)
      && work.account.program.currency == "EUR"
      && "A" in work.account.rows && work.account.rows["A"].programCurrency == "USD"
  {
    var a := Account(Program("USD", 2, 100, 0, ProgramActive, 0, None), map[], []);
    var e := Reconciliation("m", "P", Whole(1), "EUR", 2, Whole(100), Whole(6), [Item("A", Whole(6), "EUR")]);
    assert e.items[..1 - 1] == [] && Total(e.items[..0]) == 0 && Total(e.items) == 6;
    assert !MixedCurrencies(e) && AllWhole(e.items);
    var c := Context("USD", 2, "m");
    assert WriteItems(c, a.rows, []) == Some(a.rows);
    assert WriteItems(c, a.rows, e.items) == Some(a.rows["A" := InsertedRow(c, e.items[0])]);
    assert "A" == e.items[0].invoice;
  }

  /**
    What an applied snapshot does to the currencies of the rows it lists: the invoice
    currency becomes that of the program after the run. The program currency stored in a row
    stays, and in a new row is the one the program had before.
   */
  lemma SnapshotCurrencies(a: Account, e: Event, k: InvoiceId)
    requires e.Reconciliation? && ReconciliationWork(Some(a), e).Work?
    requires ReconciliationWork(Some(a), e).status == Applied
    requires k in Invoices(e.items) && !HitsReleased(a.rows, k)
    ensures
      var b := ReconciliationWork(Some(a), e).account;
      && k in b.rows
      && b.rows[k].invoiceCurrency == b.program.currency
      && (k in a.rows ==> b.rows[k].programCurrency == a.rows[k].programCurrency)
      && (k !in a.rows ==>
            (b.rows[k].programCurrency == b.program.currency <==> e.currency == a.program.currency))
  {
    WrittenRow(Context(a.program.currency, a.program.exponent, e.message), a.rows, e.items, k);
  }
}
