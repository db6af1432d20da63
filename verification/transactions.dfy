/** The stock movement screen (components/Transactions.tsx): recording an
    inbound, outbound or adjustment movement, the searchable history sorted
    by date, and the three header totals. */
module Transactions {
  import opened Types
  import opened Seqs
  import opened Text
  import opened Ledger
  import opened App

  /** `a` is `b` except possibly for the stock level and its time stamp. */
  predicate SameExceptStock(a: Product, b: Product)
  {
    a == b.(quantity := a.quantity, lastUpdated := a.lastUpdated)
  }

  /** The state update of `handleAddTransaction`: every product whose id is the
      submitted one gets its new stock level and time stamp, and the new
      transaction goes in front of the history. */
  function ApplyMovement(s: AppState, m: Movement): (r: AppState)
    ensures |r.products| == |s.products|
    ensures forall i :: 0 <= i < |s.products| && s.products[i].id != m.productId ==>
      r.products[i] == s.products[i]
    ensures forall i :: 0 <= i < |s.products| && s.products[i].id == m.productId ==>
      SameExceptStock(r.products[i], s.products[i]) && r.products[i].lastUpdated == m.now
    ensures m.kind == Inbound ==> forall i :: 0 <= i < |s.products| && s.products[i].id == m.productId ==>
      r.products[i].quantity == s.products[i].quantity + m.amount
    ensures m.kind == Outbound ==> forall i :: 0 <= i < |s.products| && s.products[i].id == m.productId ==>
      r.products[i].quantity == s.products[i].quantity - m.amount
    ensures m.kind == Adjustment ==> forall i :: 0 <= i < |s.products| && s.products[i].id == m.productId ==>
      r.products[i].quantity == m.amount
    ensures (forall i :: 0 <= i < |s.products| ==> s.products[i].id != m.productId) ==> r.products == s.products
    ensures |r.transactions| == |s.transactions| + 1
    ensures r.transactions[0] == Transaction(m.txId, m.productId, s.currentUser.id, m.kind, m.amount, m.now, m.note)
    ensures r.transactions[1..] == s.transactions
    ensures r.categories == s.categories && r.suppliers == s.suppliers
    ensures r.currentUser == s.currentUser && r.logs == s.logs
  {
    var ps := s.products;
    var updated := seq(|ps|, i requires 0 <= i < |ps| =>
      if ps[i].id == m.productId
      then ps[i].(quantity := Step(ps[i].quantity, m.kind, m.amount), lastUpdated := m.now)
      else ps[i]);
    var tx := Transaction(m.txId, m.productId, s.currentUser.id, m.kind, m.amount, m.now, m.note);
    s.(products := updated, transactions := [tx] + s.transactions)
  }

  /** How a missing value appears inside a JavaScript template string. */
  function NameOrUndefined(p: Option<Product>): string
  {
    match p
    case Some(q) => q.name
    case None => "undefined"
  }

  /** `handleAddTransaction`: the movement, then one `TRANSACTION` audit entry
      naming the product as it was before the movement. */
  function RecordMovement(s: AppState, m: Movement): (r: AppState)
    ensures r.(logs := s.logs) == ApplyMovement(s, m)
    ensures LoggedOnce(s, r, m.logId, m.now, "TRANSACTION")
    ensures r.logs[0].details == "Manually added " + TxTypeName(m.kind) + " for " + NameOrUndefined(FindProduct(s.products, m.productId))
  {
    var details := "Manually added " + TxTypeName(m.kind) + " for " + NameOrUndefined(FindProduct(s.products, m.productId));
    AddLog(ApplyMovement(s, m), m.logId, m.now, "TRANSACTION", details)
  }

  /** Records the movements one after another, oldest first. */
  function ApplyAll(s: AppState, ms: seq<Movement>): AppState
    decreases |ms|
  {
    if |ms| == 0 then s else RecordMovement(ApplyAll(s, ms[..|ms| - 1]), ms[|ms| - 1])
  }

  /** Fold consistency: after any run of movements, every product's stock is the
      left fold of inbound (+q), outbound (-q) and adjustment (:= q) over the
      movements that targeted it, starting from its old stock. */
  lemma {:induction false} FoldConsistency(s: AppState, ms: seq<Movement>, i: int)
    requires 0 <= i < |s.products|
    ensures |ApplyAll(s, ms).products| == |s.products|
    ensures ApplyAll(s, ms).products[i].id == s.products[i].id
    ensures ApplyAll(s, ms).products[i].quantity == Fold(s.products[i].quantity, MovesFor(s.products[i].id, ms))
    decreases |ms|
  {
    if |ms| > 0 {
      var init, m := ms[..|ms| - 1], ms[|ms| - 1];
      var pid := s.products[i].id;
      FoldConsistency(s, init, i);
      var mid := ApplyAll(s, init);
      var r := ApplyAll(s, ms);
      assert r == RecordMovement(mid, m);
      assert r.products == ApplyMovement(mid, m).products;
      var before := MovesFor(pid, init);
      if m.productId == pid {
        assert MovesFor(pid, ms) == before + [m];
        assert (before + [m])[..|before|] == before;
        assert Fold(s.products[i].quantity, before + [m]) == Step(mid.products[i].quantity, m.kind, m.amount);
        match m.kind {
          case Inbound =>
          case Outbound =>
          case Adjustment =>
        }
      } else {
        assert MovesFor(pid, ms) == before;
      }
    }
  }

  /** One recorded movement advances the replay of its product by exactly the
      transaction it puts in front of the history. */
  lemma MovementExtendsReplay(mid: AppState, m: Movement, i: int, q0: int, older: seq<Transaction>)
    requires 0 <= i < |mid.products|
    requires mid.products[i].quantity == Replay(q0, mid.products[i].id, older)
    ensures RecordMovement(mid, m).products[i].quantity ==
      Replay(q0, mid.products[i].id, [RecordMovement(mid, m).transactions[0]] + older)
  {
    var r := RecordMovement(mid, m);
    assert r.products == ApplyMovement(mid, m).products;
    assert r.transactions == ApplyMovement(mid, m).transactions;
    assert ([r.transactions[0]] + older)[1..] == older;
    if m.productId == mid.products[i].id {
      match m.kind {
        case Inbound =>
        case Outbound =>
        case Adjustment =>
      }
    }
  }

  /** Stock is a materialised view of the history: after any run of movements
      the old history is untouched at the back, and every product's stock is
      its old stock replayed through the new transactions, oldest first. */
  lemma {:induction false} StockIsLogReplay(s: AppState, ms: seq<Movement>, i: int)
    requires 0 <= i < |s.products|
    ensures |ApplyAll(s, ms).products| == |s.products|
    ensures ApplyAll(s, ms).products[i].id == s.products[i].id
    ensures |ApplyAll(s, ms).transactions| == |s.transactions| + |ms|
    ensures ApplyAll(s, ms).transactions[|ms|..] == s.transactions
    ensures ApplyAll(s, ms).products[i].quantity ==
      Replay(s.products[i].quantity, s.products[i].id, ApplyAll(s, ms).transactions[..|ms|])
    decreases |ms|
  {
    if |ms| > 0 {
      var init, m := ms[..|ms| - 1], ms[|ms| - 1];
      StockIsLogReplay(s, init, i);
      var mid := ApplyAll(s, init);
      var r := ApplyAll(s, ms);
      assert r == RecordMovement(mid, m);
      MovementExtendsReplay(mid, m, i, s.products[i].quantity, mid.transactions[..|init|]);
      assert r.transactions == ApplyMovement(mid, m).transactions;
      assert r.products == ApplyMovement(mid, m).products;
      var tx := r.transactions[0];
      assert r.transactions == [tx] + mid.transactions;
      assert r.transactions[|ms|..] == mid.transactions[|init|..];
      assert r.transactions[..|ms|] == [tx] + mid.transactions[..|init|];
    }
  }

  /** The three kinds in a row on the seeded laptop (stock 12): receiving 5
      gives 17, shipping 20 drives the stock to -3 with no guard, and an
      adjustment to 8 gives exactly 8; each movement adds one transaction and
      one audit entry. */
  lemma LaptopScenario(now: int, m1: Movement, m2: Movement, m3: Movement)
    requires m1.productId == "p1" && m1.kind == Inbound && m1.amount == 5
    requires m2.productId == "p1" && m2.kind == Outbound && m2.amount == 20
    requires m3.productId == "p1" && m3.kind == Adjustment && m3.amount == 8
    ensures var s1 := RecordMovement(InitialState(now), m1);
      s1.products[0].quantity == 17 && |s1.transactions| == 3 && |s1.logs| == 1
    ensures var s2 := RecordMovement(RecordMovement(InitialState(now), m1), m2);
      s2.products[0].quantity == -3 && |s2.transactions| == 4 && |s2.logs| == 2
    ensures var s3 := RecordMovement(RecordMovement(RecordMovement(InitialState(now), m1), m2), m3);
      s3.products[0].quantity == 8 && |s3.transactions| == 5 && |s3.logs| == 3
  {
    var s0 := InitialState(now);
    var s1 := RecordMovement(s0, m1);
    var s2 := RecordMovement(s1, m2);
    var s3 := RecordMovement(s2, m3);
    assert s0.products[0].id == "p1" && s0.products[0].quantity == 12;
    assert s1.products == ApplyMovement(s0, m1).products;
    assert s1.products[0].id == "p1" && s1.products[0].quantity == 17;
    assert s2.products == ApplyMovement(s1, m2).products;
    assert s2.products[0].id == "p1" && s2.products[0].quantity == -3;
    assert s3.products == ApplyMovement(s2, m3).products;
  }

  /** When exactly one product carries the movement's id, the movement replaces
      that one product and nothing else in the catalogue. */
  lemma MovementOnUniqueProduct(s: AppState, m: Movement, k: int)
    requires 0 <= k < |s.products| && s.products[k].id == m.productId
    requires forall i :: 0 <= i < |s.products| && i != k ==> s.products[i].id != m.productId
    ensures RecordMovement(s, m).products ==
      s.products[k := s.products[k].(quantity := Step(s.products[k].quantity, m.kind, m.amount), lastUpdated := m.now)]
  {
    var ps := RecordMovement(s, m).products;
    assert ps == ApplyMovement(s, m).products;
    match m.kind {
      case Inbound =>
      case Outbound =>
      case Adjustment =>
    }
  }

  /** With a clock that never runs backwards, recording a movement keeps a
      newest-first history sorted by date. */
  lemma MovementKeepsHistoryOrdered(s: AppState, m: Movement)
    requires SortedDesc(TxDate, s.transactions)
    requires |s.transactions| == 0 || s.transactions[0].date <= m.now
    ensures SortedDesc(TxDate, RecordMovement(s, m).transactions)
  {
    var txs := RecordMovement(s, m).transactions;
    assert txs == ApplyMovement(s, m).transactions;
    forall i, j | 0 <= i < j < |txs|
      ensures TxDate(txs[i]) >= TxDate(txs[j])
    {
      assert txs[j] == s.transactions[j - 1];
      if i > 0 {
        assert txs[i] == s.transactions[i - 1];
      } else {
        assert TxDate(s.transactions[0]) >= TxDate(s.transactions[j - 1]);
      }
    }
  }

  /** The header totals move with each recorded movement: only the total of the
      movement's own kind grows, by its quantity, and only an adjustment adds
      a record to the adjustment count. */
  lemma MovementUpdatesTotals(s: AppState, m: Movement, k: TxType)
    ensures TypeVolume(k, RecordMovement(s, m).transactions) ==
      TypeVolume(k, s.transactions) + (if m.kind == k then m.amount else 0)
    ensures AdjustmentCount(RecordMovement(s, m).transactions) ==
      AdjustmentCount(s.transactions) + (if m.kind == Adjustment then 1 else 0)
  {
    var txs := RecordMovement(s, m).transactions;
    assert txs == ApplyMovement(s, m).transactions;
    assert txs[1..] == s.transactions;
  }

  /** A transaction matches when its product's name or SKU, or its own note,
      contains the search term; a transaction whose product is gone can only
      match through its note. */
  predicate TxMatches(ps: seq<Product>, search: string, t: Transaction)
  {
    match FindProduct(ps, t.productId)
    case Some(p) =>
      IncludesIgnoringCase(p.name, search) || IncludesIgnoringCase(p.sku, search) || IncludesIgnoringCase(t.note, search)
    case None => IncludesIgnoringCase(t.note, search)
  }

  /** `filteredTransactions`: the matching transactions, newest date first. */
  function FilteredTransactions(s: AppState, searchTerm: string, externalSearch: string): (r: seq<Transaction>)
    ensures SortedDesc(TxDate, r)
    ensures forall t :: multiset(r)[t] ==
                if TxMatches(s.products, OrElse(searchTerm, externalSearch), t) then multiset(s.transactions)[t] else 0
    ensures forall t :: t in r <==> t in s.transactions && TxMatches(s.products, OrElse(searchTerm, externalSearch), t)
    ensures forall d :: WithKey(TxDate, d, r) ==
                WithKey(TxDate, d, Filter((t: Transaction) => TxMatches(s.products, OrElse(searchTerm, externalSearch), t), s.transactions))
    ensures forall t :: t in r && FindProduct(s.products, t.productId).None? ==>
      IncludesIgnoringCase(t.note, OrElse(searchTerm, externalSearch))
  {
    var search := OrElse(searchTerm, externalSearch);
    var kept := Filter((t: Transaction) => TxMatches(s.products, search, t), s.transactions);
    FilterCount((t: Transaction) => TxMatches(s.products, search, t), s.transactions);
    var r := SortDesc(TxDate, kept);
    forall d ensures WithKey(TxDate, d, r) == WithKey(TxDate, d, kept) {
      SortDescIsStable(TxDate, kept, d);
    }
    assert forall t :: t in r <==> t in kept by {
      forall t { SortDescMembers(TxDate, kept, t); }
    }
    r
  }

  /** With both search boxes empty the history shows every transaction. */
  lemma EmptySearchShowsAll(s: AppState)
    ensures multiset(FilteredTransactions(s, "", "")) == multiset(s.transactions)
  {
    var pass := (t: Transaction) => TxMatches(s.products, "", t);
    forall i | 0 <= i < |s.transactions|
      ensures pass(s.transactions[i])
    {
      EmptySearchMatches(s.transactions[i].note);
    }
    FilterKeepsAll(pass, s.transactions);
    assert Filter(pass, s.transactions) == s.transactions;
  }

  /** The product column of the history: the product's name, or
      "Deleted Asset" when no product has the transaction's id any more (or,
      JavaScript's `||` being what it is, when the name is empty). */
  function AssetLabel(ps: seq<Product>, t: Transaction): (shown: string)
    ensures (forall i :: 0 <= i < |ps| ==> ps[i].id != t.productId) ==> shown == "Deleted Asset"
    ensures (exists i :: 0 <= i < |ps| && ps[i].id == t.productId) ==>
      exists i :: 0 <= i < |ps| && ps[i].id == t.productId && shown == OrElse(ps[i].name, "Deleted Asset")
        && forall j :: 0 <= j < i ==> ps[j].id != t.productId
  {
    match FindProduct(ps, t.productId)
    case Some(p) => OrElse(p.name, "Deleted Asset")
    case None => "Deleted Asset"
  }
}
