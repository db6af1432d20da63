/** The application shell (App.tsx): the initial snapshot, the audit
    recorder every command calls, the low-stock badge count, and the export
    shared by both CSV buttons. */
module App {
  import opened Types
  import opened Seqs

  /** The audit trail keeps at most this many entries (App.tsx:156). */
  const LogCapacity: nat := 100

  /** `r` is `s` with exactly one audit entry, with id `id`, stamped
      `timestamp`, tagged `action` and attributed to the current user, put in
      front; older entries shift back by one and the oldest falls off once the
      trail is full. */
  ghost predicate LoggedOnce(s: AppState, r: AppState, id: string, timestamp: int, action: string)
  {
    && |r.logs| == (if |s.logs| < LogCapacity then |s.logs| + 1 else LogCapacity)
    && r.logs[0].id == id
    && r.logs[0].timestamp == timestamp
    && r.logs[0].action == action
    && r.logs[0].userId == s.currentUser.id
    && forall i :: 1 <= i < |r.logs| ==> r.logs[i] == s.logs[i - 1]
  }

  /** `addLog(action, details)`: prepends a new entry with the given random id
      and clock reading, then keeps the first 100 entries. */
  function AddLog(s: AppState, id: string, timestamp: int, action: string, details: string): (r: AppState)
    ensures r == s.(logs := r.logs)
    ensures LoggedOnce(s, r, id, timestamp, action)
    ensures r.logs[0] == AuditLog(id, timestamp, s.currentUser.id, action, details)
    ensures |s.logs| <= LogCapacity ==> |r.logs| <= LogCapacity
  {
    s.(logs := Take([AuditLog(id, timestamp, s.currentUser.id, action, details)] + s.logs, LogCapacity))
  }

  /** The two CSV downloads: the catalogue (Inventory) and the filtered
      history (Transactions). */
  datatype Report = InventoryCsv | TransactionHistory

  /** Either export button. The file itself leaves the state alone; the only
      change is one `EXPORT` audit entry naming which report was generated. */
  function Export(s: AppState, report: Report, logId: string, now: int): (r: AppState)
    ensures r.(logs := s.logs) == s
    ensures LoggedOnce(s, r, logId, now, "EXPORT")
    ensures report == InventoryCsv ==> r.logs[0].details == "Generated inventory CSV report"
    ensures report == TransactionHistory ==> r.logs[0].details == "Generated transaction history report"
  {
    var details := match report
      case InventoryCsv => "Generated inventory CSV report"
      case TransactionHistory => "Generated transaction history report";
    AddLog(s, logId, now, "EXPORT", details)
  }

  /** The arguments of one `addLog` call together with its id and clock reading. */
  datatype LogRequest = LogRequest(id: string, timestamp: int, action: string, details: string)

  function ToEntry(userId: string, q: LogRequest): AuditLog
  {
    AuditLog(q.id, q.timestamp, userId, q.action, q.details)
  }

  /** Records the requests one after another, oldest first. */
  function RecordAll(s: AppState, reqs: seq<LogRequest>): AppState
    decreases |reqs|
  {
    if |reqs| == 0 then s
    else
      var q := reqs[|reqs| - 1];
      AddLog(RecordAll(s, reqs[..|reqs| - 1]), q.id, q.timestamp, q.action, q.details)
  }

  /** The entries for `reqs`, the most recent request first. */
  function NewestFirst(userId: string, reqs: seq<LogRequest>): (r: seq<AuditLog>)
    ensures |r| == |reqs|
    ensures forall i :: 0 <= i < |r| ==> r[i] == ToEntry(userId, reqs[|reqs| - 1 - i])
    decreases |reqs|
  {
    if |reqs| == 0 then []
    else [ToEntry(userId, reqs[|reqs| - 1])] + NewestFirst(userId, reqs[..|reqs| - 1])
  }

  lemma TakeAfterCons<T>(e: T, xs: seq<T>, n: nat)
    requires n >= 1
    ensures Take([e] + Take(xs, n), n) == Take([e] + xs, n)
  {
  }

  /** After any non-empty run of recorded actions the trail is the new
      entries, most recent first, followed by the old trail, cut to 100
      entries; nothing but the trail changes. */
  lemma {:induction false} RecordAllIsCappedPrefix(s: AppState, reqs: seq<LogRequest>)
    requires |reqs| > 0
    ensures RecordAll(s, reqs) == s.(logs := Take(NewestFirst(s.currentUser.id, reqs) + s.logs, LogCapacity))
    decreases |reqs|
  {
    var init := reqs[..|reqs| - 1];
    var q := reqs[|reqs| - 1];
    var mid := RecordAll(s, init);
    var e := ToEntry(s.currentUser.id, q);
    var older := NewestFirst(s.currentUser.id, init) + s.logs;
    assert RecordAll(s, reqs) == AddLog(mid, q.id, q.timestamp, q.action, q.details);
    assert NewestFirst(s.currentUser.id, reqs) == [e] + NewestFirst(s.currentUser.id, init);
    assert [e] + older == NewestFirst(s.currentUser.id, reqs) + s.logs;
    if |init| == 0 {
      assert mid == s;
      assert older == s.logs;
    } else {
      RecordAllIsCappedPrefix(s, init);
      assert mid == s.(logs := Take(older, LogCapacity));
      TakeAfterCons(e, older, LogCapacity);
    }
  }

  /** After at least 100 recorded actions the trail holds exactly 100 entries:
      the most recent action first and the 100th most recent last. */
  lemma AuditCapAfterManyActions(s: AppState, reqs: seq<LogRequest>)
    requires |reqs| >= LogCapacity
    ensures |RecordAll(s, reqs).logs| == LogCapacity
    ensures RecordAll(s, reqs).logs[0] == ToEntry(s.currentUser.id, reqs[|reqs| - 1])
    ensures RecordAll(s, reqs).logs[LogCapacity - 1] == ToEntry(s.currentUser.id, reqs[|reqs| - LogCapacity])
  {
    RecordAllIsCappedPrefix(s, reqs);
  }

  /** How many products are at or below their reorder level: the number on
      the bell badge, which is shown exactly when some product is low. */
  function LowStockCount(ps: seq<Product>): (r: nat)
    ensures r <= |ps|
    ensures r == 0 <==> forall i :: 0 <= i < |ps| ==> !IsLowStock(ps[i])
  {
    var low := Filter(IsLowStock, ps);
    assert low != [] ==> low[0] in low;
    |low|
  }

  /** `INITIAL_STATE`; `now` stands for the `new Date()` stamped on each product. */
  function InitialState(now: int): AppState
  {
    AppState(
      [ Product("p1", "LAP-001", "MacBook Pro M3", "c1", "s1", 2499.0, 1800.0, 12, 5, "pcs", "B-2024-001", None, now),
        Product("p2", "PEN-022", "Blue Ink Pen Box", "c2", "s2", 15.0, 5.0, 150, 200, "boxes", "B-2023-99", None, now),
        Product("p3", "MLK-001", "Almond Milk 1L", "c3", "s2", 4.5, 2.2, 45, 50, "cartons", "EXP-MAR-24", Some("2024-03-25"), now) ],
      [ Category("c1", "Electronics"), Category("c2", "Office Supplies"), Category("c3", "Perishables") ],
      [ Supplier("s1", "Global Tech Inc", "John Smith", "sales@globaltech.com", "+1-555-0192"),
        Supplier("s2", "Office Depot", "Jane Doe", "orders@officedepot.com", "+1-555-0193") ],
      [ Transaction("t1", "p1", "u1", Inbound, 5, 1704880800000, "Restock order"),
        Transaction("t2", "p2", "u1", Outbound, 20, 1705069800000, "Customer Sale") ],
      User("u1", "Sarah Connor", "admin@nexusstock.com", Admin, Some("https://picsum.photos/seed/sarah/200/200")),
      [])
  }

  /** The initial snapshot starts with an empty trail, an administrator, and two
      low products (the pens and the milk), and its two seeded transactions are
      stored oldest first rather than newest first. */
  lemma InitialStateFacts(now: int)
    ensures InitialState(now).logs == []
    ensures InitialState(now).currentUser.role == Admin
    ensures LowStockCount(InitialState(now).products) == 2
    ensures !SortedDesc(TxDate, InitialState(now).transactions)
  {
    var ps := InitialState(now).products;
    assert ps[2..][1..] == [];
    assert Filter(IsLowStock, ps[2..]) == [ps[2]];
    assert ps[1..][1..] == ps[2..];
    assert Filter(IsLowStock, ps[1..]) == [ps[1], ps[2]];
    assert Filter(IsLowStock, ps) == [ps[1], ps[2]];
    var txs := InitialState(now).transactions;
    assert TxDate(txs[0]) < TxDate(txs[1]);
  }
}
