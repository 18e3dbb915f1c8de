/** Sums over the reservations of a program. */
module Sums {
  import opened Tables
  import opened Messages
  import opened Snapshot

  /** What a row contributes to the reserved amount. */
  function Held(r: Reservation): int {
    if r.status.Active? then r.reserved else 0
  }

  ghost function SumOver(rows: Rows, keys: set<InvoiceId>): int
    requires keys <= rows.Keys
  {
    if keys == {} then 0
    else
      var k :| k in keys;
      Held(rows[k]) + SumOver(rows, keys - {k})
  }

  /** The sum of the ACTIVE rows. */
  ghost function SumActive(rows: Rows): int {
    SumOver(rows, rows.Keys)
  }

  /** Any key may be taken out first. */
  lemma {:induction false} SumTakeOut(rows: Rows, keys: set<InvoiceId>, k: InvoiceId)
    requires keys <= rows.Keys && k in keys
    ensures SumOver(rows, keys) == Held(rows[k]) + SumOver(rows, keys - {k})
    decreases |keys|
  {
    var j :| j in keys && SumOver(rows, keys) == Held(rows[j]) + SumOver(rows, keys - {j});
    if j != k {
      SumTakeOut(rows, keys - {j}, k);
      SumTakeOut(rows, keys - {k}, j);
      assert keys - {j} - {k} == keys - {k} - {j};
    }
  }

  lemma {:induction false} SumAgrees(rows: Rows, other: Rows, keys: set<InvoiceId>)
    requires keys <= rows.Keys && keys <= other.Keys
    requires forall k | k in keys :: Held(rows[k]) == Held(other[k])
    ensures SumOver(rows, keys) == SumOver(other, keys)
    decreases |keys|
  {
    if keys != {} {
      var k :| k in keys;
      SumTakeOut(rows, keys, k);
      SumTakeOut(other, keys, k);
      SumAgrees(rows, other, keys - {k});
    }
  }

  /** Keys without a contribution may be left out. */
  lemma {:induction false} SumSupport(rows: Rows, keys: set<InvoiceId>, support: set<InvoiceId>)
    requires support <= keys <= rows.Keys
    requires forall k | k in keys - support :: Held(rows[k]) == 0
    ensures SumOver(rows, keys) == SumOver(rows, support)
    decreases |keys|
  {
    if keys == support {
    } else {
      var k :| k in keys - support;
      SumTakeOut(rows, keys, k);
      SumSupport(rows, keys - {k}, support);
    }
  }

  /** Writing one row changes the sum by the difference of its contributions. */
  lemma SumWrite(rows: Rows, keys: set<InvoiceId>, k: InvoiceId, row: Reservation)
    requires keys <= rows.Keys
    ensures SumOver(rows[k := row], keys + {k})
         == SumOver(rows, keys) - (if k in keys then Held(rows[k]) else 0) + Held(row)
  {
    SumTakeOut(rows[k := row], keys + {k}, k);
    assert keys + {k} - {k} == keys - {k};
    SumAgrees(rows, rows[k := row], keys - {k});
    if k in keys {
      SumTakeOut(rows, keys, k);
    } else {
      assert keys - {k} == keys;
    }
  }

  lemma SumActiveWrite(rows: Rows, k: InvoiceId, row: Reservation)
    ensures SumActive(rows[k := row])
         == SumActive(rows) - (if k in rows then Held(rows[k]) else 0) + Held(row)
  {
    SumWrite(rows, rows.Keys, k, row);
    assert rows[k := row].Keys == rows.Keys + {k};
  }

  lemma {:induction false} SumNonNegative(rows: Rows, keys: set<InvoiceId>)
    requires keys <= rows.Keys
    requires forall k | k in keys :: Held(rows[k]) >= 0
    ensures SumOver(rows, keys) >= 0
    decreases |keys|
  {
    if keys != {} {
      var k :| k in keys;
      SumTakeOut(rows, keys, k);
      SumNonNegative(rows, keys - {k});
    }
  }

  /** No row holds more than all rows together. */
  lemma HeldAtMostSum(rows: Rows, k: InvoiceId)
    requires k in rows
    requires forall j | j in rows :: Held(rows[j]) >= 0
    ensures Held(rows[k]) <= SumActive(rows)
  {
    SumTakeOut(rows, rows.Keys, k);
    SumNonNegative(rows, rows.Keys - {k});
  }

  // ---------- the part of a snapshot's total that no row holds ----------

  /** Items whose row is RELEASED, which the handler does not reopen. */
  function ReleasedTotal(before: Rows, items: seq<Item>): int {
    if items == [] then 0
    else
      var last := items[|items| - 1];
      ReleasedTotal(before, items[..|items| - 1]) + if HitsReleased(before, last.invoice) then Amount(last) else 0
  }

  /** Items overwritten by a later item for the same invoice. */
  function OverwrittenTotal(before: Rows, items: seq<Item>): int {
    if items == [] then 0
    else
      var init, k := items[..|items| - 1], items[|items| - 1].invoice;
      OverwrittenTotal(before, init)
      + if k in Invoices(init) && !HitsReleased(before, k) then Amount(init[Last(init, k)]) else 0
  }

  /** What a snapshot's total contains beyond the rows it leaves ACTIVE. */
  function Remainder(before: Rows, items: seq<Item>): int {
    ReleasedTotal(before, items) + OverwrittenTotal(before, items)
  }

  /** The rows written so far hold the items' total, less those two parts. */
  lemma {:induction false} WrittenSum(c: Context, before: Rows, items: seq<Item>)
    requires WriteItems(c, before, items).Some?
    ensures
      var rows := WriteItems(c, before, items).value;
      && Invoices(items) <= rows.Keys
      && SumOver(rows, Invoices(items))
         == Total(items) - Remainder(before, items)
  {
    if items == [] {
    } else {
      var init, last := items[..|items| - 1], items[|items| - 1];
      var k := last.invoice;
      WrittenSum(c, before, init);
      InvoicesPrefix(items);
      WrittenRow(c, before, init, k);
      var rows := WriteItems(c, before, init).value;
      if HitsReleased(before, k) {
        SumSupport(rows, Invoices(items), Invoices(init));
      } else {
        var row := WriteItems(c, before, items).value[k];
        SumWrite(rows, Invoices(init), k, row);
      }
    }
  }

  /** The sum of the ACTIVE rows after an applied snapshot. */
  lemma SnapshotSum(c: Context, before: Rows, items: seq<Item>)
    requires WriteItems(c, before, items).Some?
    ensures SumActive(MarkAbsent(before, WriteItems(c, before, items).value, Invoices(items), c.message))
         == Total(items) - Remainder(before, items)
  {
    var rows := WriteItems(c, before, items).value;
    var after := MarkAbsent(before, rows, Invoices(items), c.message);
    WrittenSum(c, before, items);
    forall k | k in after.Keys - Invoices(items)
      ensures Held(after[k]) == 0
    {
      WrittenRow(c, before, items, k);
    }
    SumSupport(after, after.Keys, Invoices(items));
    SumAgrees(rows, after, Invoices(items));
  }

  lemma {:induction false} OverwrittenNonNegative(c: Context, before: Rows, items: seq<Item>)
    requires WriteItems(c, before, items).Some?
    ensures OverwrittenTotal(before, items) >= 0
  {
    if items != [] {
      var init, k := items[..|items| - 1], items[|items| - 1].invoice;
      OverwrittenNonNegative(c, before, init);
      if k in Invoices(init) {
        WrittenRow(c, before, init, k);
        WrittenRowChecked(c, before, init, k);
      }
    }
  }

  lemma {:induction false} NothingOverwritten(before: Rows, items: seq<Item>)
    requires Distinct(items)
    ensures OverwrittenTotal(before, items) == 0
  {
    if items != [] {
      NothingOverwritten(before, items[..|items| - 1]);
    }
  }

  lemma {:induction false} ReleasedNonNegative(before: Rows, items: seq<Item>)
    requires forall i | 0 <= i < |items| && HitsReleased(before, items[i].invoice) :: Amount(items[i]) >= 0
    ensures ReleasedTotal(before, items) >= 0
  {
    if items != [] {
      ReleasedNonNegative(before, items[..|items| - 1]);
    }
  }
}
