/** The stock arithmetic shared by the movement form, the movement history
    and the dashboard: how one movement changes a quantity, how a product is
    looked up by id, and the folds over the transaction log. */
module Ledger {
  import opened Types
  import opened Seqs

  /** The quantity after one movement (components/Transactions.tsx:77-80):
      inbound adds, outbound subtracts with no lower bound, an adjustment
      overwrites. */
  function Step(q: int, kind: TxType, amount: int): int
  {
    match kind
    case Inbound => q + amount
    case Outbound => q - amount
    case Adjustment => amount
  }

  /** The first product with that id, as `Array.prototype.find` returns it. */
  function FindProduct(ps: seq<Product>, id: string): (r: Option<Product>)
    ensures r.None? <==> forall i :: 0 <= i < |ps| ==> ps[i].id != id
    ensures r.Some? ==> r.value.id == id && exists i :: 0 <= i < |ps| && ps[i] == r.value && forall j :: 0 <= j < i ==> ps[j].id != id
  {
    if |ps| == 0 then None
    else if ps[0].id == id then Some(ps[0])
    else
      var r := FindProduct(ps[1..], id);
      assert forall i :: 1 <= i < |ps| ==> ps[i] == ps[1..][i - 1];
      assert r.Some? ==> exists i :: 0 <= i < |ps| && ps[i] == r.value && forall j :: 0 <= j < i ==> ps[j].id != id by {
        if r.Some? {
          var i :| 0 <= i < |ps[1..]| && ps[1..][i] == r.value && forall j :: 0 <= j < i ==> ps[1..][j].id != id;
          assert ps[i + 1] == r.value;
          assert forall j :: 0 <= j < i + 1 ==> ps[j].id != id by {
            forall j | 0 <= j < i + 1 ensures ps[j].id != id {
              if j > 0 { assert ps[j] == ps[1..][j - 1]; }
            }
          }
        }
      }
      r
  }

  /** A movement command as the form submits it, together with the values the
      handler draws from outside: the two random ids and the clock. */
  datatype Movement = Movement(
    productId: string,
    kind: TxType,
    amount: int,
    note: string,
    txId: string,
    logId: string,
    now: int)

  /** The left fold of `Step` over movements in chronological order. */
  function Fold(q0: int, ms: seq<Movement>): int
    decreases |ms|
  {
    if |ms| == 0 then q0
    else Step(Fold(q0, ms[..|ms| - 1]), ms[|ms| - 1].kind, ms[|ms| - 1].amount)
  }

  /** The movements, in order, that target product `pid`. */
  function MovesFor(pid: string, ms: seq<Movement>): (r: seq<Movement>)
    decreases |ms|
  {
    if |ms| == 0 then []
    else MovesFor(pid, ms[..|ms| - 1]) + (if ms[|ms| - 1].productId == pid then [ms[|ms| - 1]] else [])
  }

  /** The quantity of product `pid` obtained by replaying a newest-first
      transaction log from the oldest entry onward, starting at `q0`. */
  function Replay(q0: int, pid: string, log: seq<Transaction>): int
    decreases |log|
  {
    if |log| == 0 then q0
    else
      var before := Replay(q0, pid, log[1..]);
      if log[0].productId == pid then Step(before, log[0].kind, log[0].quantity) else before
  }

  /** The total quantity moved by the transactions of one kind. */
  function TypeVolume(kind: TxType, txs: seq<Transaction>): int
  {
    if |txs| == 0 then 0
    else (if txs[0].kind == kind then txs[0].quantity else 0) + TypeVolume(kind, txs[1..])
  }

  /** The number of adjustments in a history. */
  function AdjustmentCount(txs: seq<Transaction>): nat
  {
    if |txs| == 0 then 0
    else (if txs[0].kind == Adjustment then 1 else 0) + AdjustmentCount(txs[1..])
  }

  /** The screens compute each header total by keeping the transactions of
      one kind and adding up their quantities; the recursion agrees. */
  lemma {:induction false} TypeVolumeIsFilterSum(kind: TxType, txs: seq<Transaction>)
    ensures TypeVolume(kind, txs) == SumInt(TxQty, Filter((t: Transaction) => t.kind == kind, txs))
  {
    if |txs| > 0 {
      var ofKind := (t: Transaction) => t.kind == kind;
      TypeVolumeIsFilterSum(kind, txs[1..]);
      FilterStep(ofKind, txs);
      var head := if ofKind(txs[0]) then [txs[0]] else [];
      SumIntConcat(TxQty, head, Filter(ofKind, txs[1..]));
    }
  }

  /** The adjustment total is the number of adjustments the screen's filter
      keeps. */
  lemma {:induction false} AdjustmentCountIsFilterLength(txs: seq<Transaction>)
    ensures AdjustmentCount(txs) == |Filter((t: Transaction) => t.kind == Adjustment, txs)|
  {
    if |txs| > 0 {
      AdjustmentCountIsFilterLength(txs[1..]);
      FilterStep((t: Transaction) => t.kind == Adjustment, txs);
    }
  }

  /** Without adjustments, a product's stock is its starting level plus all
      inbound volume minus all outbound volume of its own log. */
  lemma {:induction false} ReplayWithoutAdjustments(q0: int, pid: string, log: seq<Transaction>)
    requires forall i :: 0 <= i < |log| ==> log[i].productId == pid && log[i].kind != Adjustment
    ensures Replay(q0, pid, log) == q0 + TypeVolume(Inbound, log) - TypeVolume(Outbound, log)
    ensures AdjustmentCount(log) == 0
  {
    if |log| > 0 {
      assert forall i :: 0 <= i < |log[1..]| ==> log[1..][i] == log[i + 1];
      ReplayWithoutAdjustments(q0, pid, log[1..]);
    }
  }

  /** Once a product has been adjusted, its stock no longer depends on where
      it started: an adjustment sets an absolute level. */
  lemma {:induction false} AdjustmentForgetsHistory(q0: int, q1: int, pid: string, log: seq<Transaction>, k: int)
    requires 0 <= k < |log| && log[k].productId == pid && log[k].kind == Adjustment
    ensures Replay(q0, pid, log) == Replay(q1, pid, log)
  {
    if k > 0 {
      assert log[1..][k - 1] == log[k];
      AdjustmentForgetsHistory(q0, q1, pid, log[1..], k - 1);
    }
  }
}
