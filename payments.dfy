/** `getData` of the payments page: one payment row per order of every STK
    callback. */
module Payments {
  import opened Wrappers
  import Seqs
  import Sorting

  /** The metadata amount is a string column. `number` is what `Number()`
      makes of the text, `None` standing for NaN. */
  datatype AmountText = AmountText(text: string, number: Option<real>)

  datatype CallbackMetadata = CallbackMetadata(amount: Option<AmountText>)

  datatype ShippingAddress = ShippingAddress(fullName: Option<string>, email: Option<string>)

  datatype PaymentOrder = PaymentOrder(
    id: string, totalAmount: Option<real>, paymentStatus: string,
    userId: Option<string>, shippingAddress: Option<ShippingAddress>)

  datatype StkCallback = StkCallback(id: int, callbackMetadata: Option<CallbackMetadata>, orders: seq<PaymentOrder>)

  /** A payment row; an `amount` of `None` is NaN. */
  datatype Payment = Payment(id: string, amount: Option<real>, status: string, fullName: string, userId: string, email: string)

  const NotAvailable := "N/A"

  /** The callback's metadata amount is truthy: present and a non-empty
      string, so "0" counts as truthy. */
  predicate HasMetadataAmount(cb: StkCallback) {
    cb.callbackMetadata.Some? && cb.callbackMetadata.value.amount.Some? &&
    cb.callbackMetadata.value.amount.value.text != ""
  }

  /** The row's amount: the metadata amount as a number when it is truthy,
      else the order's total, else 0. */
  function PaymentAmount(cb: StkCallback, o: PaymentOrder): (a: Option<real>)
    ensures HasMetadataAmount(cb) ==> a == cb.callbackMetadata.value.amount.value.number
    ensures !HasMetadataAmount(cb) ==> a == Some(o.totalAmount.GetOr(0.0))
  {
    match cb.callbackMetadata
    case Some(CallbackMetadata(Some(amount))) =>
      if amount.text != "" then amount.number else Some(o.totalAmount.GetOr(0.0))
    case _ => Some(o.totalAmount.GetOr(0.0))
  }

  /** A zero amount written as text is truthy: the row shows 0, not the
      order's total. */
  lemma ZeroTextIsTruthy(o: PaymentOrder)
    requires o.totalAmount == Some(500.0)
    ensures PaymentAmount(StkCallback(1, Some(CallbackMetadata(Some(AmountText("0.00", Some(0.0))))), [o]), o)
            == Some(0.0)
  {
  }

  /** Only an empty or missing amount falls back to the order's total. */
  lemma EmptyTextFallsBack(cb: StkCallback, o: PaymentOrder)
    requires cb.callbackMetadata.None? || cb.callbackMetadata.value.amount.None? ||
             cb.callbackMetadata.value.amount.value.text == ""
    ensures PaymentAmount(cb, o) == Some(o.totalAmount.GetOr(0.0))
  {
  }

  function ToPayment(cb: StkCallback, o: PaymentOrder): (p: Payment)
    ensures p.id == o.id && p.status == o.paymentStatus && p.amount == PaymentAmount(cb, o)
    ensures p.userId == o.userId.GetOr(NotAvailable)
    ensures o.shippingAddress.None? ==> p.fullName == NotAvailable && p.email == NotAvailable
    ensures o.shippingAddress.Some? ==>
              p.fullName == o.shippingAddress.value.fullName.GetOr(NotAvailable) &&
              p.email == o.shippingAddress.value.email.GetOr(NotAvailable)
  {
    var fullName := if o.shippingAddress.Some? then o.shippingAddress.value.fullName else None;
    var email := if o.shippingAddress.Some? then o.shippingAddress.value.email else None;
    Payment(o.id, PaymentAmount(cb, o), o.paymentStatus, fullName.GetOr(NotAvailable),
            o.userId.GetOr(NotAvailable), email.GetOr(NotAvailable))
  }

  function PaymentsOf(cb: StkCallback): seq<Payment> {
    Seqs.Map(cb.orders, (o: PaymentOrder) => ToPayment(cb, o))
  }

  function OrderCount(cb: StkCallback): int {
    |cb.orders|
  }

  /** The rows of every callback's orders, callback after callback. */
  function FlatPayments(callbacks: seq<StkCallback>): (r: seq<Payment>)
    ensures |r| == Seqs.Sum(callbacks, OrderCount)
    ensures forall p :: p in r ==> exists cb, o :: cb in callbacks && o in cb.orders && p == ToPayment(cb, o)
  {
    if callbacks == [] then []
    else
      var head := PaymentsOf(callbacks[0]);
      var rest := FlatPayments(callbacks[1..]);
      forall p | p in head
        ensures exists cb, o :: cb in callbacks && o in cb.orders && p == ToPayment(cb, o)
      {
        var k :| 0 <= k < |head| && head[k] == p;
        assert callbacks[0].orders[k] in callbacks[0].orders;
      }
      assert forall cb :: cb in callbacks[1..] ==> cb in callbacks;
      head + rest
  }

  /** The rows of consecutive callbacks are consecutive. */
  lemma {:induction false} FlatPaymentsConcat(a: seq<StkCallback>, b: seq<StkCallback>)
    ensures FlatPayments(a + b) == FlatPayments(a) + FlatPayments(b)
  {
    if a == [] {
      assert a + b == b;
    } else {
      assert (a + b)[1..] == a[1..] + b;
      FlatPaymentsConcat(a[1..], b);
    }
  }

  function IdDesc(a: StkCallback, b: StkCallback): bool {
    a.id >= b.id
  }

  /** The callbacks ordered by id, newest first. */
  function ByIdDesc(callbacks: seq<StkCallback>): (s: seq<StkCallback>)
    ensures multiset(s) == multiset(callbacks)
    ensures Sorting.Sorted(s, IdDesc)
  {
    Sorting.SortBySorted(callbacks, IdDesc);
    Sorting.SortBy(callbacks, IdDesc)
  }

  /** `getData()`: the callbacks ordered by id, newest first, then flattened. */
  function GetPayments(callbacks: seq<StkCallback>): (r: seq<Payment>)
    ensures r == FlatPayments(ByIdDesc(callbacks))
    ensures |r| == Seqs.Sum(callbacks, OrderCount)
    ensures forall p :: p in r ==> exists cb, o :: cb in callbacks && o in cb.orders && p == ToPayment(cb, o)
  {
    var sorted := ByIdDesc(callbacks);
    Seqs.SumPermutation(sorted, callbacks, OrderCount);
    assert forall cb :: cb in sorted ==> cb in multiset(callbacks);
    FlatPayments(sorted)
  }

  /** Each callback's orders appear as one block of rows, in order. */
  lemma CallbackRowsAreContiguous(before: seq<StkCallback>, cb: StkCallback, after: seq<StkCallback>)
    ensures FlatPayments(before + [cb] + after) ==
            FlatPayments(before) + PaymentsOf(cb) + FlatPayments(after)
  {
    FlatPaymentsConcat(before + [cb], after);
    FlatPaymentsConcat(before, [cb]);
    assert FlatPayments([cb]) == PaymentsOf(cb) + FlatPayments([]);
  }
}
