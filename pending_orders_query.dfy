/** The pending-orders query (disbursements/queries/pending_orders_query.rb) over an
    in-memory order table. */
module PendingOrdersQuery {
  import opened Common
  import opened Calendar
  import opened OrderModel
  import opened MerchantEntities
  import DisbursementWindow

  predicate Selected(o: Order, merchantReference: string, startTime: int, endTime: int)
  {
    o.merchantReference == merchantReference && o.pendingDisbursement && startTime <= o.createdAt <= endTime
  }

  /** `find_pending_for_merchant`: the merchant's pending orders created inside the window,
      in table order. */
  function FindPendingForMerchant(orders: seq<Order>, merchantReference: string, startTime: int, endTime: int): (r: seq<Order>)
    ensures |r| <= |orders|
  {
    if |orders| == 0 then []
    else
      (if Selected(orders[0], merchantReference, startTime, endTime) then [orders[0]] else [])
      + FindPendingForMerchant(orders[1..], merchantReference, startTime, endTime)
  }

  lemma {:induction false} FindPendingExact(orders: seq<Order>, merchantReference: string, startTime: int, endTime: int)
    ensures forall o :: o in FindPendingForMerchant(orders, merchantReference, startTime, endTime)
                    <==> o in orders && Selected(o, merchantReference, startTime, endTime)
  {
    if |orders| > 0 {
      FindPendingExact(orders[1..], merchantReference, startTime, endTime);
      assert orders == [orders[0]] + orders[1..];
    }
  }

  /** `call(merchant)`: builds the window for the merchant's own frequency and the query's
      date; an unknown frequency propagates the window's ArgumentError. */
  function Call(orders: seq<Order>, date: int, merchant: DisbursableMerchant): Result<seq<Order>, Error>
  {
    match DisbursementWindow.StartTime(date, merchant.disbursementFrequency)
    case Err(e) => Err(e)
    case Ok(startTime) =>
      Ok(FindPendingForMerchant(orders, merchant.reference, startTime,
                                DisbursementWindow.EndTime(date, merchant.disbursementFrequency)))
  }

  /** What the query returns: exactly the merchant's pending orders inside the window for its
      frequency; an unknown frequency raises "Unknown frequency: <f>". */
  lemma CallExact(orders: seq<Order>, date: int, merchant: DisbursableMerchant)
    ensures Call(orders, date, merchant).Err? <==>
              merchant.disbursementFrequency != "daily" && merchant.disbursementFrequency != "weekly"
    ensures Call(orders, date, merchant).Err? ==>
              Call(orders, date, merchant).error == Error(ArgumentError, "Unknown frequency: " + merchant.disbursementFrequency)
    ensures Call(orders, date, merchant).Ok? ==>
              forall o :: o in Call(orders, date, merchant).value <==>
                o in orders && o.merchantReference == merchant.reference && o.pendingDisbursement
                && DisbursementWindow.InWindow(date, merchant.disbursementFrequency, o.createdAt)
  {
    var f := merchant.disbursementFrequency;
    if DisbursementWindow.StartTime(date, f).Ok? {
      FindPendingExact(orders, merchant.reference, DisbursementWindow.StartTime(date, f).value,
                       DisbursementWindow.EndTime(date, f));
    }
  }

  /** A daily merchant: an order at the first second of d-1 is returned, one from d-2 and an
      already-disbursed one are not. */
  lemma DailyExamples(orders: seq<Order>, date: int, merchant: DisbursableMerchant, o: Order)
    requires merchant.disbursementFrequency == "daily"
    requires o in orders && o.merchantReference == merchant.reference
    ensures (o.pendingDisbursement && o.createdAt == BeginningOfDay(date - 1))
              ==> o in Call(orders, date, merchant).value
    ensures DayOf(o.createdAt) == date - 2 ==> o !in Call(orders, date, merchant).value
    ensures !o.pendingDisbursement ==> o !in Call(orders, date, merchant).value
  {
    CallExact(orders, date, merchant);
    DisbursementWindow.DailyWindowIsPreviousDay(date, o.createdAt);
    WithinDay(BeginningOfDay(date - 1), date - 1);
  }

  /** A weekly merchant: an order from d-5 is returned, one from d-8 is not. */
  lemma WeeklyExamples(orders: seq<Order>, date: int, merchant: DisbursableMerchant, o: Order)
    requires merchant.disbursementFrequency == "weekly"
    requires o in orders && o.merchantReference == merchant.reference
    ensures o.pendingDisbursement && DayOf(o.createdAt) == date - 5 ==> o in Call(orders, date, merchant).value
    ensures DayOf(o.createdAt) == date - 8 ==> o !in Call(orders, date, merchant).value
    ensures DayOf(o.createdAt) == date ==> o !in Call(orders, date, merchant).value
  {
    CallExact(orders, date, merchant);
    DisbursementWindow.WeeklyWindowIsPreviousSevenDays(date, o.createdAt);
  }
}
