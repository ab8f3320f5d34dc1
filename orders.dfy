// The order record of the `orders` table (database.py, init_db) and the
// dictionaries the rest of the program hands to add_order / update_order /
// merge_order_data, with the defaults those functions fill in.

module Orders {
  import opened Text
  import StatusHierarchy

  /**
   * One row of `orders`. A NULL text column is held as "". `price` is a REAL
   * column; only whether it is NULL and whether it is zero matter to the
   * program, so it is kept as an optional integer (hundredths).
   */
  datatype Order = Order(
    id: int,
    orderDate: string,
    platform: string,
    seller: string,
    destination: string,
    description: string,
    link: string,
    quantity: int,
    estimatedDelivery: string,
    alarmEnabled: bool,
    isDelivered: bool,
    position: string,
    notes: string,
    category: string,
    lastEmailId: string,
    lastSyncAt: string,
    trackingNumber: string,
    carrier: string,
    lastMileCarrier: string,
    siteOrderId: string,
    status: string,
    price: Option<int>,
    imageUrl: string)

  /**
   * An order dictionary passed to the database functions: `None` for a key
   * the dictionary does not hold. A key holding Python's None is held as an
   * absent key for `price` and as "" for text.
   */
  datatype OrderData = OrderData(
    orderDate: Option<string>,
    platform: Option<string>,
    seller: Option<string>,
    destination: Option<string>,
    description: Option<string>,
    link: Option<string>,
    quantity: Option<int>,
    estimatedDelivery: Option<string>,
    alarmEnabled: Option<bool>,
    isDelivered: Option<bool>,
    position: Option<string>,
    notes: Option<string>,
    category: Option<string>,
    lastEmailId: Option<string>,
    lastSyncAt: Option<string>,
    trackingNumber: Option<string>,
    carrier: Option<string>,
    lastMileCarrier: Option<string>,
    siteOrderId: Option<string>,
    status: Option<string>,
    price: Option<int>,
    imageUrl: Option<string>)

  /** A dictionary with no keys at all. */
  const NoData := OrderData(None, None, None, None, None, None, None, None, None, None, None,
                            None, None, None, None, None, None, None, None, None, None, None)

  /** `d.get(key, default)`. */
  function GetOr<T>(v: Option<T>, default: T): (r: T)
  {
    if v.Some? then v.value else default
  }

  /** `dict(order)`: the full dictionary of a stored row. */
  function AsData(o: Order): (d: OrderData)
    ensures d.orderDate.Some? && d.platform.Some? && d.description.Some?
  {
    OrderData(Some(o.orderDate), Some(o.platform), Some(o.seller), Some(o.destination),
              Some(o.description), Some(o.link), Some(o.quantity), Some(o.estimatedDelivery),
              Some(o.alarmEnabled), Some(o.isDelivered), Some(o.position), Some(o.notes),
              Some(o.category), Some(o.lastEmailId), Some(o.lastSyncAt), Some(o.trackingNumber),
              Some(o.carrier), Some(o.lastMileCarrier), Some(o.siteOrderId), Some(o.status),
              o.price, Some(o.imageUrl))
  }

  /** The three keys add_order and update_order read with `d[key]`. */
  predicate HasRequiredKeys(d: OrderData)
  {
    d.orderDate.Some? && d.platform.Some? && d.description.Some?
  }

  /**
   * The row add_order inserts (database.py:161-180): every optional key
   * falls back to its default, and the e-mail bookkeeping columns stay NULL.
   */
  function InsertedRow(id: int, d: OrderData): (o: Order)
    requires HasRequiredKeys(d)
    ensures o.id == id && o.status == GetOr(d.status, StatusHierarchy.InAttesa)
    ensures o.quantity == GetOr(d.quantity, 1) && o.alarmEnabled == GetOr(d.alarmEnabled, true)
    ensures o.isDelivered == GetOr(d.isDelivered, false)
    ensures o.lastEmailId == "" && o.lastSyncAt == ""
    ensures d.notes.None? ==> o.notes == ""
  {
    Order(id, d.orderDate.value, d.platform.value, GetOr(d.seller, ""), GetOr(d.destination, ""),
          d.description.value, GetOr(d.link, ""), GetOr(d.quantity, 1),
          GetOr(d.estimatedDelivery, ""), GetOr(d.alarmEnabled, true), GetOr(d.isDelivered, false),
          GetOr(d.position, ""), GetOr(d.notes, ""), GetOr(d.category, ""), "", "",
          GetOr(d.trackingNumber, ""), GetOr(d.carrier, ""), GetOr(d.lastMileCarrier, ""),
          GetOr(d.siteOrderId, ""), GetOr(d.status, StatusHierarchy.InAttesa), d.price,
          GetOr(d.imageUrl, ""))
  }

  /**
   * The row update_order writes over row `id` (database.py:278-300): the same
   * defaults, and the e-mail bookkeeping columns are written too.
   */
  function UpdatedRow(id: int, d: OrderData): (o: Order)
    requires HasRequiredKeys(d)
    ensures o.id == id && o.status == GetOr(d.status, StatusHierarchy.InAttesa)
    ensures o.lastEmailId == GetOr(d.lastEmailId, "") && o.lastSyncAt == GetOr(d.lastSyncAt, "")
    ensures o.quantity == GetOr(d.quantity, 1)
  {
    InsertedRow(id, d).(lastEmailId := GetOr(d.lastEmailId, ""), lastSyncAt := GetOr(d.lastSyncAt, ""))
  }

  /** Writing back the full dictionary of a row leaves the row as it was. */
  lemma UpdateWithOwnData(o: Order)
    ensures UpdatedRow(o.id, AsData(o)) == o
  {
  }

  /** A dictionary with only the required keys gets every default of add_order. */
  lemma InsertDefaults(id: int, date: string, platform: string, description: string)
    ensures var o := InsertedRow(id, NoData.(orderDate := Some(date), platform := Some(platform), description := Some(description)));
      o.seller == "" && o.quantity == 1 && o.alarmEnabled && !o.isDelivered && o.notes == ""
      && o.status == StatusHierarchy.InAttesa && o.price.None? && o.siteOrderId == ""
      && o.trackingNumber == ""
  {
  }

  predicate UniqueIds(rows: seq<Order>)
  {
    forall i, j :: 0 <= i < j < |rows| ==> rows[i].id != rows[j].id
  }
}
