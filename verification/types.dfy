/** The entities of the stock console and the single state snapshot every
    screen reads and every command replaces (types.ts). Timestamps and dates
    are integers (milliseconds since the epoch) instead of ISO strings. */
module Types {

  datatype Option<+T> = None | Some(value: T)

  datatype Role = Admin | Manager | Staff

  datatype User = User(id: string, name: string, email: string, role: Role, avatar: Option<string>)

  datatype Category = Category(id: string, name: string)

  datatype Supplier = Supplier(id: string, name: string, contactPerson: string, email: string, phone: string)

  datatype Product = Product(
    id: string,
    sku: string,
    name: string,
    categoryId: string,
    supplierId: string,
    price: real,
    cost: real,
    quantity: int,
    reorderLevel: int,
    unit: string,
    batchNumber: string,
    expiryDate: Option<string>,
    lastUpdated: int)

  /** The kind of a stock movement (the source's `type` field). */
  datatype TxType = Inbound | Outbound | Adjustment

  /** One stock movement; for an adjustment `quantity` is the new absolute
      stock level, not a delta. */
  datatype Transaction = Transaction(
    id: string,
    productId: string,
    userId: string,
    kind: TxType,
    quantity: int,
    date: int,
    note: string)

  datatype AuditLog = AuditLog(id: string, timestamp: int, userId: string, action: string, details: string)

  /** The whole snapshot; `transactions` and `logs` are kept newest first. */
  datatype AppState = AppState(
    products: seq<Product>,
    categories: seq<Category>,
    suppliers: seq<Supplier>,
    transactions: seq<Transaction>,
    currentUser: User,
    logs: seq<AuditLog>)

  /** The string value of the movement enum, as it appears in log details. */
  function TxTypeName(k: TxType): string
  {
    match k
    case Inbound => "INBOUND"
    case Outbound => "OUTBOUND"
    case Adjustment => "ADJUSTMENT"
  }

  /** A product is low on stock when its quantity has fallen to or below its
      reorder level (inclusive). */
  predicate IsLowStock(p: Product)
  {
    p.quantity <= p.reorderLevel
  }

  function Quantity(p: Product): int
  {
    p.quantity
  }

  /** The value of a product's stock, `quantity * price`. */
  function StockValue(p: Product): real
  {
    p.quantity as real * p.price
  }

  function TxDate(t: Transaction): int
  {
    t.date
  }

  function TxQty(t: Transaction): int
  {
    t.quantity
  }
}
