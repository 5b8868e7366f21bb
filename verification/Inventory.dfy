/**
Stock rows under the three SQL statements that change them. Each statement is atomic, so an interleaving of any number
of callers is a sequence of statements. Quantities are 32-bit columns: a statement whose value does not fit fails.
*/
module Inventory {
  import opened Common

  datatype Key = Key(warehouse: string, material: string)
  datatype Row = Row(enterprise: string, quantity: int, safetyStock: int, inTransit: int)
  type Table = map<Key, Row>

  datatype Statement =
    | Upsert(key: Key, row: Row)
    | Adjust(key: Key, enterprise: string, delta: int)
    | AdjustChecked(key: Key, enterprise: string, delta: int)

  predicate Fits(x: int) {
    -0x8000_0000 <= x < 0x8000_0000
  }

  /** INSERT ... ON CONFLICT (warehouse, material) DO UPDATE; None when the statement fails or affects no row. */
  function Exec(t: Table, s: Statement): Option<Table> {
    match s
    case Upsert(key, row) =>
      if !Fits(row.quantity) || !Fits(row.safetyStock) || !Fits(row.inTransit) then None
      else if key in t then Some(t[key := row.(enterprise := t[key].enterprise)])
      else Some(t[key := row])
    case Adjust(key, enterprise, delta) =>
      if !Fits(delta) then None
      else if key !in t then Some(t[key := Row(enterprise, delta, 0, 0)])
      else if !Fits(t[key].quantity + delta) then None
      else Some(t[key := t[key].(quantity := t[key].quantity + delta)])
    case AdjustChecked(key, enterprise, delta) =>
      if !Fits(delta) then None
      else if key !in t then Some(t[key := Row(enterprise, delta, 0, 0)])
      else if !Fits(t[key].quantity + delta) || t[key].quantity + delta < 0 then None
      else Some(t[key := t[key].(quantity := t[key].quantity + delta)])
  }

  function After(t: Table, s: Statement): Table {
    Exec(t, s).GetOr(t)
  }

  function Run(t: Table, ss: seq<Statement>): Table {
    if ss == [] then t else After(Run(t, ss[..|ss| - 1]), ss[|ss| - 1])
  }

  /** The statements of a run that were accepted. */
  function Accepted(t: Table, ss: seq<Statement>): seq<Statement> {
    if ss == [] then []
    else
      var front, last := ss[..|ss| - 1], ss[|ss| - 1];
      Accepted(t, front) + if Exec(Run(t, front), last).Some? then [last] else []
  }

  function Quantity(t: Table, key: Key): int {
    if key in t then t[key].quantity else 0
  }

  // ---------------------------------------------------------------------------------------------
  // The ledger

  /** The position of the last accepted statement that set the quantity outright, or -1. */
  function LastUpsert(log: seq<Statement>, key: Key): (i: int)
    ensures -1 <= i < |log|
    ensures i >= 0 ==> log[i].Upsert? && log[i].key == key
    ensures forall j :: i < j < |log| ==> !(log[j].Upsert? && log[j].key == key)
  {
    if log == [] then -1
    else
      var n := |log| - 1;
      if log[n].Upsert? && log[n].key == key then n
      else
        assert forall j :: 0 <= j < n ==> log[..n][j] == log[j];
        LastUpsert(log[..n], key)
  }

  function SumDeltas(log: seq<Statement>, key: Key): int {
    if log == [] then 0
    else
      var last := log[|log| - 1];
      SumDeltas(log[..|log| - 1], key) + if !last.Upsert? && last.key == key then last.delta else 0
  }

  /** What a log of accepted statements says the quantity is: the value of the last upsert, or the starting quantity if
      there is none, plus all deltas since. */
  function LedgerValue(log: seq<Statement>, key: Key, start: int): int {
    var i := LastUpsert(log, key);
    (if i >= 0 then log[i].row.quantity else start) + SumDeltas(log[i + 1..], key)
  }

  lemma LastUpsertAppend(log: seq<Statement>, s: Statement, key: Key)
    ensures LastUpsert(log + [s], key) == if s.Upsert? && s.key == key then |log| else LastUpsert(log, key)
  {
    assert (log + [s])[..|log|] == log;
  }

  lemma LedgerAppend(log: seq<Statement>, s: Statement, key: Key, start: int)
    ensures LedgerValue(log + [s], key, start)
         == if s.key != key then LedgerValue(log, key, start)
            else if s.Upsert? then s.row.quantity
            else LedgerValue(log, key, start) + s.delta
  {
    LastUpsertAppend(log, s, key);
    var i := LastUpsert(log, key);
    hide LastUpsert;
    if s.Upsert? && s.key == key {
      assert (log + [s])[|log| + 1..] == [];
    } else {
      assert (log + [s])[i + 1..] == log[i + 1..] + [s];
      assert (log[i + 1..] + [s])[..|log[i + 1..]|] == log[i + 1..];
    }
  }

  lemma QuantityAfter(t: Table, s: Statement, key: Key)
    ensures Quantity(After(t, s), key)
         == if Exec(t, s).None? || s.key != key then Quantity(t, key)
            else if s.Upsert? then s.row.quantity
            else Quantity(t, key) + s.delta
  {}

  /** Over every interleaving, a quantity is what the log of accepted statements says. */
  lemma {:induction false} LedgerBalances(t: Table, ss: seq<Statement>, key: Key)
    ensures Quantity(Run(t, ss), key) == LedgerValue(Accepted(t, ss), key, Quantity(t, key))
  {
    hide LedgerValue, Exec, Quantity, After, LastUpsert, SumDeltas;
    if ss == [] {
      LedgerOfNothing(key, Quantity(t, key));
    } else {
      var front, last := ss[..|ss| - 1], ss[|ss| - 1];
      LedgerBalances(t, front, key);
      QuantityAfter(Run(t, front), last, key);
      NothingRefusedChanges(Run(t, front), last);
      LedgerAppend(Accepted(t, front), last, key, Quantity(t, key));
      assert Accepted(t, front) + [] == Accepted(t, front);
    }
  }

  lemma NothingRefusedChanges(t: Table, s: Statement)
    ensures Exec(t, s).None? ==> After(t, s) == t
  {}

  lemma LedgerOfNothing(key: Key, start: int)
    ensures LedgerValue([], key, start) == start
  {}

  /** What the columns beside the quantity hold: an upsert stores the safety stock and the stock in transit as given, an
      adjustment keeps them, and a row that it inserts has none; the enterprise is whoever stored the row first. */
  lemma OtherColumns(t: Table, s: Statement)
    requires Exec(t, s).Some?
    ensures var row := After(t, s)[s.key];
            && s.key in After(t, s)
            && (s.Upsert? ==> row.quantity == s.row.quantity && row.safetyStock == s.row.safetyStock && row.inTransit == s.row.inTransit)
            && (!s.Upsert? && s.key in t ==> row.safetyStock == t[s.key].safetyStock && row.inTransit == t[s.key].inTransit)
            && (!s.Upsert? && s.key !in t ==> row.safetyStock == 0 && row.inTransit == 0)
            && row.enterprise == (if s.key in t then t[s.key].enterprise else if s.Upsert? then s.row.enterprise else s.enterprise)
            && forall other :: other != s.key ==> (other in After(t, s) <==> other in t)
                                                  && (other in t ==> After(t, s)[other] == t[other])
  {}

  // ---------------------------------------------------------------------------------------------
  // Checked adjustments

  /** A checked adjustment is refused when the existing row would go below zero (or past 32 bits), and then changes
      nothing; one that is accepted leaves a non-negative quantity exactly when the row existed or the delta is not
      negative: the check does not look at rows it inserts. */
  lemma CheckedAdjustment(t: Table, key: Key, enterprise: string, delta: int)
    requires Fits(delta)
    ensures var s := AdjustChecked(key, enterprise, delta);
            && (Exec(t, s).None? <==> key in t && !(0 <= t[key].quantity + delta < 0x8000_0000))
            && (Exec(t, s).None? ==> After(t, s) == t)
            && (Exec(t, s).Some? ==>
                  && (Quantity(After(t, s), key) >= 0 <==> key in t || delta >= 0)
                  && Quantity(After(t, s), key) == Quantity(t, key) + delta
                  && forall other :: other != key && other in t ==> other in After(t, s) && After(t, s)[other] == t[other])
  {}

  predicate InStock(t: Table) {
    forall key :: key in t ==> t[key].quantity >= 0
  }

  /** Inserts a row that was missing, with a negative quantity. */
  predicate InsertsNegative(t: Table, s: Statement) {
    s.AdjustChecked? && s.key !in t && s.delta < 0 && Fits(s.delta)
  }

  /** Over every run of checked adjustments and non-negative upserts, stock stays non-negative throughout exactly when no
      adjustment with a negative delta meets a missing row. */
  lemma {:induction false} StockStaysNonNegativeIff(t: Table, ss: seq<Statement>)
    requires InStock(t)
    requires forall k :: 0 <= k < |ss| ==> ss[k].AdjustChecked? || (ss[k].Upsert? && ss[k].row.quantity >= 0)
    ensures (forall k :: 0 <= k <= |ss| ==> InStock(Run(t, ss[..k])))
       <==> forall k :: 0 <= k < |ss| ==> !InsertsNegative(Run(t, ss[..k]), ss[k])
  {
    if ss == [] {
      assert ss[..0] == [];
    } else {
      var n := |ss| - 1;
      var front := ss[..n];
      assert forall k :: 0 <= k < n ==> front[k] == ss[k];
      assert forall k :: 0 <= k <= n ==> front[..k] == ss[..k];
      StockStaysNonNegativeIff(t, front);
      assert ss[..n + 1] == ss && ss[..n + 1][..n] == front;
      var before := Run(t, front);
      assert Run(t, ss) == After(before, ss[n]);
      if InStock(before) { StepInStockIff(before, ss[n]); }
      assert front == ss[..n];
    }
  }

  lemma StepInStockIff(t: Table, s: Statement)
    requires InStock(t) && (s.AdjustChecked? || (s.Upsert? && s.row.quantity >= 0))
    ensures InStock(After(t, s)) <==> !InsertsNegative(t, s)
  {
    if InsertsNegative(t, s) { assert s.key in After(t, s) && After(t, s)[s.key].quantity < 0; }
  }

  // ---------------------------------------------------------------------------------------------
  // The order of adjustments

  predicate OnlyAdjusts(ss: seq<Statement>) {
    forall k :: 0 <= k < |ss| ==> ss[k].Adjust?
  }

  lemma SumAppend(ss: seq<Statement>, s: Statement, key: Key)
    ensures SumDeltas(ss + [s], key) == SumDeltas(ss, key) + if !s.Upsert? && s.key == key then s.delta else 0
  {
    assert (ss + [s])[..|ss|] == ss;
  }

  lemma {:induction false} SumWithout(ss: seq<Statement>, i: nat, key: Key)
    requires i < |ss|
    ensures SumDeltas(ss, key)
         == SumDeltas(ss[..i] + ss[i + 1..], key) + if !ss[i].Upsert? && ss[i].key == key then ss[i].delta else 0
  {
    var n := |ss| - 1;
    if i == n {
      assert ss[..i] + ss[i + 1..] == ss[..n];
    } else {
      var front := ss[..n];
      SumWithout(front, i, key);
      assert ss[..i] + ss[i + 1..] == front[..i] + front[i + 1..] + [ss[n]];
      SumAppend(front[..i] + front[i + 1..], ss[n], key);
    }
  }

  lemma {:induction false} SumIgnoresOrder(a: seq<Statement>, b: seq<Statement>, key: Key)
    requires multiset(a) == multiset(b)
    ensures SumDeltas(a, key) == SumDeltas(b, key)
    decreases |a|
  {
    if a == [] {
      assert |b| == |multiset(b)| == |multiset(a)| == 0;
    } else {
      var n := |a| - 1;
      assert a == a[..n] + [a[n]];
      assert a[n] in multiset(b);
      var i :| 0 <= i < |b| && b[i] == a[n];
      RemoveOne(a, n);
      RemoveOne(b, i);
      assert a[..n] + a[n + 1..] == a[..n];
      SumIgnoresOrder(a[..n], b[..i] + b[i + 1..], key);
      SumWithout(b, i, key);
    }
  }

  lemma RemoveOne(ss: seq<Statement>, i: nat)
    requires i < |ss|
    ensures multiset(ss[..i] + ss[i + 1..]) == multiset(ss) - multiset{ss[i]}
  {
    assert ss == ss[..i] + [ss[i]] + ss[i + 1..];
  }

  /** Unchecked adjustments that are all accepted give the same quantities in whatever order they arrive. */
  lemma OrderOfAdjustmentsIsIrrelevant(t: Table, a: seq<Statement>, b: seq<Statement>, key: Key)
    requires OnlyAdjusts(a) && multiset(a) == multiset(b)
    requires Accepted(t, a) == a && Accepted(t, b) == b
    ensures Quantity(Run(t, a), key) == Quantity(Run(t, b), key)
  {
    LedgerBalances(t, a, key);
    LedgerBalances(t, b, key);
    hide Run, Accepted, Exec, Quantity;
    forall k | 0 <= k < |b| ensures b[k].Adjust? {
      assert b[k] in multiset(a);
    }
    LedgerWithoutUpserts(a, key, Quantity(t, key));
    LedgerWithoutUpserts(b, key, Quantity(t, key));
    SumIgnoresOrder(a, b, key);
  }

  lemma LedgerWithoutUpserts(log: seq<Statement>, key: Key, start: int)
    requires OnlyAdjusts(log)
    ensures LedgerValue(log, key, start) == start + SumDeltas(log, key)
  {
    assert LastUpsert(log, key) == -1;
    assert log[0..] == log;
  }

  // ---------------------------------------------------------------------------------------------
  // The repository

  class InventoryRepo {
    var rows: Table

    constructor ()
      ensures rows == map[]
    {
      rows := map[];
    }

    /** Answers with the stored row, which keeps its own enterprise. */
    method Upsert(key: Key, row: Row) returns (stored: Option<Row>)
      modifies this
      ensures rows == After(old(rows), Statement.Upsert(key, row))
      ensures stored.Some? <==> Exec(old(rows), Statement.Upsert(key, row)).Some?
      ensures stored.Some? ==> key in rows && stored.value == rows[key]
    {
      if !Fits(row.quantity) || !Fits(row.safetyStock) || !Fits(row.inTransit) { return None; }
      if key in rows {
        rows := rows[key := rows[key].(quantity := row.quantity, safetyStock := row.safetyStock, inTransit := row.inTransit)];
      } else {
        rows := rows[key := row];
      }
      return Some(rows[key]);
    }

    method AdjustQuantity(enterprise: string, key: Key, delta: int) returns (ok: bool)
      modifies this
      ensures rows == After(old(rows), Adjust(key, enterprise, delta))
      ensures ok <==> Exec(old(rows), Adjust(key, enterprise, delta)).Some?
    {
      if !Fits(delta) { return false; }
      if key !in rows {
        rows := rows[key := Row(enterprise, delta, 0, 0)];
        return true;
      }
      if !Fits(rows[key].quantity + delta) { return false; }
      rows := rows[key := rows[key].(quantity := rows[key].quantity + delta)];
      return true;
    }

    method AdjustQuantityWithCheck(enterprise: string, key: Key, delta: int) returns (ok: bool)
      modifies this
      ensures rows == After(old(rows), AdjustChecked(key, enterprise, delta))
      ensures ok <==> Exec(old(rows), AdjustChecked(key, enterprise, delta)).Some?
    {
      if !Fits(delta) { return false; }
      var affected := 1;
      if key !in rows {
        rows := rows[key := Row(enterprise, delta, 0, 0)];
      } else if !Fits(rows[key].quantity + delta) {
        return false;
      } else if rows[key].quantity + delta >= 0 {
        rows := rows[key := rows[key].(quantity := rows[key].quantity + delta)];
      } else {
        affected := 0;
      }
      return affected != 0;
    }
  }
}
