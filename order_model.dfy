/** The persisted order record (infrastructure/persistence/active_record/models/order.rb):
    its validations and its two scopes. */
module OrderModel {
  import opened Common
  import opened Strings

  /** A stored order. Amounts are integer cents; `createdAt` is a UTC instant in seconds. */
  datatype Order = Order(
    id: string,
    merchantReference: string,
    amountCents: int,
    amountCurrency: string,
    createdAt: int,
    pendingDisbursement: bool)

  const ValidCurrencies: seq<string> := ["EUR"]

  /** The attributes handed to Order.create!; any of them may be missing. */
  datatype OrderAttributes = OrderAttributes(
    id: Option<string>,
    merchantReference: Option<string>,
    amountCents: Option<int>,
    amountCurrency: Option<string>,
    createdAt: Option<int>)

  predicate Present(s: Option<string>) { s.Some? && !IsBlank(s.value) }

  function PresenceErrors(attribute: string, present: bool): seq<FieldError>
  {
    if present then [] else [FieldError(attribute, CantBeBlank)]
  }

  /** `numericality: { greater_than: 0 }` on an optional integer. */
  function PositiveErrors(attribute: string, value: Option<int>): seq<FieldError>
  {
    match value
    case None => [FieldError(attribute, NotANumber)]
    case Some(v) => if v > 0 then [] else [FieldError(attribute, "must be greater than 0")]
  }

  /** The required `belongs_to :merchant`, joined on `merchant_reference = merchants.reference`:
      it fails unless some merchant carries the order's reference. `references` is the set of
      references in the merchants table. */
  predicate MerchantExists(references: set<string>, a: OrderAttributes)
  {
    a.merchantReference.Some? && a.merchantReference.value in references
  }

  /** The errors of an Order's validations, in declaration order: the association first,
      then the `validates` lines. */
  function OrderErrors(references: set<string>, a: OrderAttributes): seq<FieldError>
  {
    (if MerchantExists(references, a) then [] else [FieldError("merchant", MustExist)])
    + PresenceErrors("merchant_reference", Present(a.merchantReference))
    + PresenceErrors("amount_cents", a.amountCents.Some?)
    + PositiveErrors("amount_cents", a.amountCents)
    + PresenceErrors("created_at", a.createdAt.Some?)
    + (if a.amountCurrency.Some? && a.amountCurrency.value in ValidCurrencies then []
       else [FieldError("amount_currency", "is not included in the list")])
  }

  predicate Valid(references: set<string>, a: OrderAttributes) { OrderErrors(references, a) == [] }

  lemma ValidIff(references: set<string>, a: OrderAttributes)
    ensures Valid(references, a) <==>
      && a.merchantReference.Some? && a.merchantReference.value in references
      && Present(a.merchantReference)
      && a.amountCents.Some? && a.amountCents.value > 0
      && a.createdAt.Some?
      && a.amountCurrency == Some("EUR")
    ensures (FieldError("merchant", MustExist) in OrderErrors(references, a)) <==> !MerchantExists(references, a)
  {
  }

  lemma ValidationExamples(references: set<string>, ref: string, t: int)
    requires !IsBlank(ref) && ref in references
    ensures Valid(references, OrderAttributes(None, Some(ref), Some(1), Some("EUR"), Some(t)))
    ensures OrderErrors(references, OrderAttributes(None, Some(ref), Some(0), Some("EUR"), Some(t)))
            == [FieldError("amount_cents", "must be greater than 0")]
    ensures OrderErrors(references, OrderAttributes(None, Some(ref), Some(100), Some("USD"), Some(t)))
            == [FieldError("amount_currency", "is not included in the list")]
    ensures OrderErrors(references, OrderAttributes(None, None, Some(100), Some("EUR"), Some(t)))
            == [FieldError("merchant", MustExist), FieldError("merchant_reference", CantBeBlank)]
    ensures !Valid(references, OrderAttributes(None, Some(ref), Some(100), Some("EUR"), None))
    ensures OrderErrors({}, OrderAttributes(None, Some(ref), Some(1), Some("EUR"), Some(t)))
            == [FieldError("merchant", MustExist)]
  {
  }

  /** Scope `pending_disbursement`. */
  function PendingDisbursement(orders: seq<Order>): seq<Order>
  {
    if |orders| == 0 then []
    else (if orders[0].pendingDisbursement then [orders[0]] else []) + PendingDisbursement(orders[1..])
  }

  lemma {:induction false} PendingDisbursementExact(orders: seq<Order>)
    ensures forall o :: o in PendingDisbursement(orders) <==> o in orders && o.pendingDisbursement
  {
    if |orders| > 0 {
      PendingDisbursementExact(orders[1..]);
      assert orders == [orders[0]] + orders[1..];
    }
  }

  predicate SortedByCreation(s: seq<Order>)
  {
    forall i, j :: 0 <= i < j < |s| ==> s[i].createdAt <= s[j].createdAt
  }

  function InsertByCreation(o: Order, s: seq<Order>): (r: seq<Order>)
    ensures multiset(r) == multiset(s) + multiset{o}
    ensures |r| == |s| + 1
  {
    if |s| == 0 || o.createdAt <= s[0].createdAt then [o] + s
    else
      assert s == [s[0]] + s[1..];
      [s[0]] + InsertByCreation(o, s[1..])
  }

  /** Scope `by_creation`: ascending `created_at`. */
  function ByCreation(orders: seq<Order>): (r: seq<Order>)
    ensures multiset(r) == multiset(orders)
  {
    if |orders| == 0 then []
    else
      assert orders == [orders[0]] + orders[1..];
      InsertByCreation(orders[0], ByCreation(orders[1..]))
  }

  lemma {:induction false} InsertKeepsSorted(o: Order, s: seq<Order>)
    requires SortedByCreation(s)
    ensures SortedByCreation(InsertByCreation(o, s))
  {
    if |s| > 0 && o.createdAt > s[0].createdAt {
      InsertKeepsSorted(o, s[1..]);
      var r := InsertByCreation(o, s[1..]);
      assert multiset(r) == multiset(s[1..]) + multiset{o};
      forall k | 0 <= k < |r| ensures s[0].createdAt <= r[k].createdAt {
        assert r[k] in multiset(r);
        if r[k] == o {
        } else {
          assert r[k] in multiset(s[1..]);
          var j :| 0 <= j < |s[1..]| && s[1..][j] == r[k];
          assert s[j + 1] == r[k];
        }
      }
    }
  }

  /** `by_creation` returns the same orders, sorted by creation time. */
  lemma {:induction false} ByCreationSorted(orders: seq<Order>)
    ensures SortedByCreation(ByCreation(orders))
    ensures multiset(ByCreation(orders)) == multiset(orders)
  {
    if |orders| > 0 {
      ByCreationSorted(orders[1..]);
      InsertKeepsSorted(orders[0], ByCreation(orders[1..]));
    }
  }

  /** The sum of the orders' amounts (`orders.sum(&:amount_cents)`). */
  function SumAmounts(orders: seq<Order>): int
  {
    if |orders| == 0 then 0 else orders[0].amountCents + SumAmounts(orders[1..])
  }

  lemma {:induction false} SumAmountsAppend(a: seq<Order>, b: seq<Order>)
    ensures SumAmounts(a + b) == SumAmounts(a) + SumAmounts(b)
  {
    if |a| == 0 {
      assert a + b == b;
    } else {
      assert (a + b)[1..] == a[1..] + b;
      SumAmountsAppend(a[1..], b);
    }
  }

  predicate NonNegativeAmounts(orders: seq<Order>)
  {
    forall i :: 0 <= i < |orders| ==> orders[i].amountCents >= 0
  }
}
