/** The dashboard (components/Dashboard.tsx): the four headline figures, the
    per-category histogram, the recent-activity feed and the low-stock
    monitor, all recomputed from the current snapshot. */
module Dashboard {
  import opened Types
  import opened Seqs
  import opened Ledger
  import opened App
  import opened Transactions

  /** The headline figures. `monthlySales` is, despite its name, the outbound
      volume over the whole history. */
  datatype Stats = Stats(totalValue: real, lowStock: nat, totalItems: int, monthlySales: int)

  /** `stats`: stock value, low-stock count (the same figure as the bell
      badge), units in stock, and outbound volume. */
  function ComputeStats(s: AppState): Stats
  {
    Stats(TotalValue(s.products), LowStockCount(s.products),
          SumInt(Quantity, s.products), TypeVolume(Outbound, s.transactions))
  }

  /** What the four figures mean: the outbound figure is the quantity of the
      outbound transactions the filter keeps, the low-stock figure counts the
      low products (zero exactly when none is low), and with no negative stock
      or price the units and the value are not negative either. */
  lemma HeadlineFigures(s: AppState)
    ensures ComputeStats(s).monthlySales == SumInt(TxQty, Filter((t: Transaction) => t.kind == Outbound, s.transactions))
    ensures ComputeStats(s).lowStock <= |s.products|
    ensures ComputeStats(s).lowStock == 0 <==> forall i :: 0 <= i < |s.products| ==> !IsLowStock(s.products[i])
    ensures (forall i :: 0 <= i < |s.products| ==> s.products[i].quantity >= 0) ==> ComputeStats(s).totalItems >= 0
    ensures (forall i :: 0 <= i < |s.products| ==> s.products[i].quantity >= 0 && s.products[i].price >= 0.0) ==>
              ComputeStats(s).totalValue >= 0.0
  {
    var ps := s.products;
    TypeVolumeIsFilterSum(Outbound, s.transactions);
    if forall i :: 0 <= i < |ps| ==> ps[i].quantity >= 0 {
      SumIntNonNegative(Quantity, ps);
    }
    if forall i :: 0 <= i < |ps| ==> ps[i].quantity >= 0 && ps[i].price >= 0.0 {
      ValueNonNegative(ps);
    }
  }

  lemma ValueNonNegative(ps: seq<Product>)
    requires forall i :: 0 <= i < |ps| ==> ps[i].quantity >= 0 && ps[i].price >= 0.0
    ensures TotalValue(ps) >= 0.0
  {
    forall i | 0 <= i < |ps| ensures StockValue(ps[i]) >= 0.0 {
      assert ps[i].quantity as real >= 0.0;
    }
    SumRealNonNegative(StockValue, ps);
  }

  /** The value of the whole catalogue, summed product by product. */
  function TotalValue(ps: seq<Product>): real
  {
    SumReal(StockValue, ps)
  }

  /** The valuation example: 3 units at 10 and 4 units at 2.5 are worth 40. */
  lemma ValuationExample(a: Product, b: Product, s: AppState)
    requires a.price == 10.0 && a.quantity == 3 && b.price == 2.5 && b.quantity == 4
    requires s.products == [a, b]
    ensures TotalValue(s.products) == 40.0
    ensures ComputeStats(s).totalItems == 7
  {
    assert StockValue(a) == 30.0 && StockValue(b) == 10.0;
    assert Quantity(a) == 3 && Quantity(b) == 4;
    assert s.products[1..] == [b];
    assert s.products[1..][1..] == [];
    assert SumReal(StockValue, [b]) == 10.0;
    assert TotalValue(s.products) == 40.0;
    assert SumInt(Quantity, [b]) == 4;
  }

  /** How the headline counts follow one recorded movement on a product that
      is the only one with its id: units in stock move by the change in that
      product's stock, the low-stock count by the change in its status, and
      the outbound volume by the amount of an outbound movement. The stock
      value is ValueFollowsMovement's. */
  lemma StatsFollowMovement(s: AppState, m: Movement, k: int)
    requires 0 <= k < |s.products| && s.products[k].id == m.productId
    requires forall i :: 0 <= i < |s.products| && i != k ==> s.products[i].id != m.productId
    ensures ComputeStats(RecordMovement(s, m)).totalItems ==
      ComputeStats(s).totalItems + (Step(s.products[k].quantity, m.kind, m.amount) - s.products[k].quantity)
    ensures ComputeStats(RecordMovement(s, m)).lowStock ==
      ComputeStats(s).lowStock - (if IsLowStock(s.products[k]) then 1 else 0)
                               + (if Step(s.products[k].quantity, m.kind, m.amount) <= s.products[k].reorderLevel then 1 else 0)
    ensures ComputeStats(RecordMovement(s, m)).monthlySales ==
      ComputeStats(s).monthlySales + (if m.kind == Outbound then m.amount else 0)
  {
    var q := Step(s.products[k].quantity, m.kind, m.amount);
    MovementOnUniqueProduct(s, m, k);
    CountsAfterUpdate(s, RecordMovement(s, m), k, q, m.now);
    MovementUpdatesTotals(s, m, Outbound);
  }

  /** The stock value follows the same movement by the change in quantity
      times the product's price. */
  lemma ValueFollowsMovement(s: AppState, m: Movement, k: int)
    requires 0 <= k < |s.products| && s.products[k].id == m.productId
    requires forall i :: 0 <= i < |s.products| && i != k ==> s.products[i].id != m.productId
    ensures TotalValue(RecordMovement(s, m).products) ==
      TotalValue(s.products) + (Step(s.products[k].quantity, m.kind, m.amount) - s.products[k].quantity) as real * s.products[k].price
  {
    MovementOnUniqueProduct(s, m, k);
    ValueAfterUpdate(s.products, RecordMovement(s, m).products, k, Step(s.products[k].quantity, m.kind, m.amount), m.now);
  }

  /** The units in stock and the low-stock count of a state whose catalogue
      is that of `s` with the stock of the product at `k` set to `q`. (The
      stock value is stated on the catalogue alone, in ValueAfterUpdate.) */
  lemma CountsAfterUpdate(s: AppState, r: AppState, k: int, q: int, now: int)
    requires 0 <= k < |s.products|
    requires r.products == s.products[k := s.products[k].(quantity := q, lastUpdated := now)]
    ensures ComputeStats(r).totalItems == ComputeStats(s).totalItems + (q - s.products[k].quantity)
    ensures ComputeStats(r).lowStock == ComputeStats(s).lowStock - (if IsLowStock(s.products[k]) then 1 else 0)
                                                                 + (if q <= s.products[k].reorderLevel then 1 else 0)
  {
    var np := s.products[k].(quantity := q, lastUpdated := now);
    ItemsAfterUpdate(s.products, k, np);
    LowStockAfterUpdate(s.products, k, np);
  }

  /** Replacing the product at `k` moves the units in stock by the change in
      that product's quantity. */
  lemma ItemsAfterUpdate(ps: seq<Product>, k: int, np: Product)
    requires 0 <= k < |ps|
    ensures SumInt(Quantity, ps[k := np]) == SumInt(Quantity, ps) + (np.quantity - ps[k].quantity)
  {
    SumIntUpdate(Quantity, ps, k, np);
  }

  /** Setting the stock of the product at `k` to `q` moves the stock value by
      the change in quantity times that product's price. */
  lemma ValueAfterUpdate(ps: seq<Product>, after: seq<Product>, k: int, q: int, now: int)
    requires 0 <= k < |ps|
    requires after == ps[k := ps[k].(quantity := q, lastUpdated := now)]
    ensures TotalValue(after) == TotalValue(ps) + (q - ps[k].quantity) as real * ps[k].price
  {
    var np := ps[k].(quantity := q, lastUpdated := now);
    SumRealUpdate(StockValue, ps, k, np);
    var a, b, c := q as real, ps[k].quantity as real, ps[k].price;
    assert StockValue(np) == a * c && StockValue(ps[k]) == b * c;
    assert a * c - b * c == (a - b) * c;
  }

  /** Replacing the product at `k` moves the low-stock count by the change in
      that product's status. */
  lemma LowStockAfterUpdate(ps: seq<Product>, k: int, np: Product)
    requires 0 <= k < |ps|
    ensures LowStockCount(ps[k := np]) == LowStockCount(ps) - (if IsLowStock(ps[k]) then 1 else 0)
                                                            + (if IsLowStock(np) then 1 else 0)
  {
    FilterUpdateCount(IsLowStock, ps, k, np);
  }

  /** A movement recorded against an id no product has leaves every stock
      figure alone, yet an outbound one still counts towards the outbound
      volume. */
  lemma MovementOnMissingProduct(s: AppState, m: Movement)
    requires forall i :: 0 <= i < |s.products| ==> s.products[i].id != m.productId
    ensures var before, after := ComputeStats(s), ComputeStats(RecordMovement(s, m));
      && after.totalItems == before.totalItems
      && after.totalValue == before.totalValue
      && after.lowStock == before.lowStock
      && after.monthlySales == before.monthlySales + (if m.kind == Outbound then m.amount else 0)
  {
    assert RecordMovement(s, m).products == ApplyMovement(s, m).products;
    MovementUpdatesTotals(s, m, Outbound);
  }

  /** One bar of the category chart. */
  datatype CategoryBar = CategoryBar(name: string, value: nat)

  /** How many products belong to category `cid`. */
  function CountInCategory(ps: seq<Product>, cid: string): nat
  {
    if |ps| == 0 then 0 else (if ps[0].categoryId == cid then 1 else 0) + CountInCategory(ps[1..], cid)
  }

  /** The chart counts a category's products by filtering on the category id;
      the recursion agrees. */
  lemma {:induction false} CountInCategoryIsFilterLength(ps: seq<Product>, cid: string)
    ensures CountInCategory(ps, cid) == |Filter((p: Product) => p.categoryId == cid, ps)|
  {
    if |ps| > 0 {
      CountInCategoryIsFilterLength(ps[1..], cid);
      FilterStep((p: Product) => p.categoryId == cid, ps);
    }
  }

  /** `categoryData`: one bar per category, in category order, counting that
      category's products (zero included). */
  function CategoryData(cats: seq<Category>, ps: seq<Product>): (r: seq<CategoryBar>)
    ensures |r| == |cats|
    ensures forall i :: 0 <= i < |cats| ==>
      r[i].name == cats[i].name && r[i].value == CountInCategory(ps, cats[i].id)
  {
    if |cats| == 0 then []
    else [CategoryBar(cats[0].name, CountInCategory(ps, cats[0].id))] + CategoryData(cats[1..], ps)
  }

  function BarTotal(bars: seq<CategoryBar>): nat
  {
    if |bars| == 0 then 0 else bars[0].value + BarTotal(bars[1..])
  }

  predicate HasCategory(cats: seq<Category>, cid: string)
  {
    exists i :: 0 <= i < |cats| && cats[i].id == cid
  }

  ghost predicate DistinctIds(cats: seq<Category>)
  {
    forall i, j :: 0 <= i < j < |cats| ==> cats[i].id != cats[j].id
  }

  /** The products whose category is not among the categories. */
  function Uncategorised(cats: seq<Category>, ps: seq<Product>): nat
  {
    if |ps| == 0 then 0
    else (if HasCategory(cats, ps[0].categoryId) then 0 else 1) + Uncategorised(cats, ps[1..])
  }

  /** How many categories carry id `cid`. */
  function Hits(cats: seq<Category>, cid: string): nat
  {
    if |cats| == 0 then 0 else (if cats[0].id == cid then 1 else 0) + Hits(cats[1..], cid)
  }

  lemma {:induction false} HitsOfDistinct(cats: seq<Category>, cid: string)
    requires DistinctIds(cats)
    ensures Hits(cats, cid) == if HasCategory(cats, cid) then 1 else 0
  {
    if |cats| > 0 {
      var tail := cats[1..];
      assert DistinctIds(tail) by {
        forall i, j | 0 <= i < j < |tail| ensures tail[i].id != tail[j].id {
          assert tail[i] == cats[i + 1] && tail[j] == cats[j + 1];
        }
      }
      HitsOfDistinct(tail, cid);
      if cats[0].id == cid {
        assert !HasCategory(tail, cid) by {
          forall i | 0 <= i < |tail| ensures tail[i].id != cid {
            assert tail[i] == cats[i + 1];
          }
        }
      } else {
        assert HasCategory(cats, cid) <==> HasCategory(tail, cid) by {
          if HasCategory(cats, cid) {
            var i :| 0 <= i < |cats| && cats[i].id == cid;
            assert tail[i - 1] == cats[i];
          }
          if HasCategory(tail, cid) {
            var i :| 0 <= i < |tail| && tail[i].id == cid;
            assert cats[i + 1] == tail[i];
          }
        }
      }
    }
  }

  lemma {:induction false} BarTotalOfEmpty(cats: seq<Category>)
    ensures BarTotal(CategoryData(cats, [])) == 0
  {
    if |cats| > 0 {
      BarTotalOfEmpty(cats[1..]);
    }
  }

  lemma {:induction false} BarTotalSplit(cats: seq<Category>, ps: seq<Product>)
    requires |ps| > 0
    ensures BarTotal(CategoryData(cats, ps)) == Hits(cats, ps[0].categoryId) + BarTotal(CategoryData(cats, ps[1..]))
  {
    if |cats| > 0 {
      BarTotalSplit(cats[1..], ps);
    }
  }

  /** The histogram accounts for the whole catalogue: with distinct category
      ids, the bars add up to the number of products minus those whose
      category is unknown. */
  lemma {:induction false} HistogramCoversCatalogue(cats: seq<Category>, ps: seq<Product>)
    requires DistinctIds(cats)
    ensures BarTotal(CategoryData(cats, ps)) + Uncategorised(cats, ps) == |ps|
  {
    if |ps| == 0 {
      BarTotalOfEmpty(cats);
    } else {
      BarTotalSplit(cats, ps);
      HitsOfDistinct(cats, ps[0].categoryId);
      HistogramCoversCatalogue(cats, ps[1..]);
    }
  }

  /** The recent-activity feed holds at most this many transactions. */
  const FeedSize: nat := 5

  /** `recentTransactions`: the first five stored transactions, re-sorted by
      date, newest first. */
  function RecentTransactions(txs: seq<Transaction>): (r: seq<Transaction>)
    ensures |r| == (if |txs| < FeedSize then |txs| else FeedSize)
    ensures multiset(r) == multiset(txs[..|r|])
    ensures SortedDesc(TxDate, r)
    ensures forall d :: WithKey(TxDate, d, r) == WithKey(TxDate, d, txs[..|r|])
  {
    var head := Take(txs, FeedSize);
    forall d ensures WithKey(TxDate, d, SortDesc(TxDate, head)) == WithKey(TxDate, d, head) {
      SortDescIsStable(TxDate, head, d);
    }
    SortDesc(TxDate, head)
  }

  /** When the history is stored newest date first (as the prepend discipline
      keeps it under a monotone clock), the feed is exactly the five most
      recent transactions, none of the rest being newer. */
  lemma RecentIsNewestWhenHistoryOrdered(txs: seq<Transaction>)
    requires SortedDesc(TxDate, txs)
    ensures RecentTransactions(txs) == txs[..|RecentTransactions(txs)|]
    ensures forall i, j :: 0 <= i < |RecentTransactions(txs)| <= j < |txs| ==>
              RecentTransactions(txs)[i].date >= txs[j].date
  {
    var head := Take(txs, FeedSize);
    assert SortedDesc(TxDate, head);
    SortDescOfSorted(TxDate, head);
  }

  /** The feed is not always the five most recent: a transaction stored
      sixth that is newer than each of the first five is left out of it. */
  lemma RecentCanMissNewest(txs: seq<Transaction>)
    requires |txs| >= 6
    requires forall i :: 0 <= i < 5 ==> txs[i].date < txs[5].date
    ensures txs[5] !in RecentTransactions(txs)
  {
    assert txs[5] !in txs[..5];
    assert txs[5] !in multiset(txs[..5]);
  }

  /** The low-stock monitor lists at most this many products. */
  const MonitorSize: nat := 5

  /** The low-stock monitor: the first five low products in catalogue order,
      as many as the "Critical" count next to it allows. */
  function LowStockMonitor(ps: seq<Product>): (r: seq<Product>)
    ensures |r| == (if LowStockCount(ps) < MonitorSize then LowStockCount(ps) else MonitorSize)
    ensures forall i :: 0 <= i < |r| ==> IsLowStock(r[i]) && r[i] in ps
    ensures r == Filter(IsLowStock, ps)[..|r|]
  {
    var low := Filter(IsLowStock, ps);
    var r := Take(low, MonitorSize);
    assert forall i :: 0 <= i < |r| ==> r[i] in low;
    r
  }
}
