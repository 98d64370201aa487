/** The order, payment and shipment request schemas. */
module OrderSchemas {
  import opened Wrappers
  import Json
  import opened Zod

  const AddressInput: Schema := ZObject([
    Field("fullName", ZString([MinLength(1)])),
    Field("email", ZOptional(ZString([Email]))),
    Field("phone", ZString([MinLength(1)])),
    Field("mpesaNumber", ZString([MinLength(1)])),
    Field("county", ZString([MinLength(1)])),
    Field("town", ZString([MinLength(1)])),
    Field("userId", ZOptional(ZString([Cuid])))
  ])

  const CreateOrderFromCart: Schema := ZObject([
    Field("cartId", ZString([Uuid])),
    Field("userId", ZOptional(ZString([Cuid]))),
    Field("billingAddressId", ZOptional(ZString([Uuid]))),
    Field("shippingAddressId", ZOptional(ZString([Uuid]))),
    Field("billingAddress", ZOptional(AddressInput)),
    Field("shippingAddress", ZOptional(AddressInput)),
    Field("paymentProvider", ZOptional(ZString([]))),
    Field("paymentMethod", ZOptional(ZString([]))),
    Field("notes", ZOptional(ZString([]))),
    Field("metadata", ZOptional(ZAny))
  ])

  const OrderStatuses: seq<string> := [
    "PENDING", "PROCESSING", "CONFIRMED", "CANCELLED", "FULFILLED",
    "SHIPPED", "DELIVERED", "RETURNED", "REFUNDED"
  ]

  const PaymentStatuses: seq<string> := ["PENDING", "AUTHORIZED", "CAPTURED", "FAILED", "REFUNDED"]

  const UpdateOrder: Schema := ZObject([
    Field("status", ZOptional(ZEnum(OrderStatuses))),
    Field("paymentStatus", ZOptional(ZEnum(PaymentStatuses))),
    Field("notes", ZOptional(ZString([]))),
    Field("metadata", ZOptional(ZAny))
  ])

  /** An amount: a string or a number. */
  const Amount: Schema := ZUnion([ZString([]), ZNumber([])])

  const CreatePayment: Schema := ZObject([
    Field("provider", ZString([MinLength(1)])),
    Field("providerPaymentId", ZOptional(ZString([]))),
    Field("method", ZOptional(ZString([]))),
    Field("amount", Amount),
    Field("currency", ZString([MinLength(1)])),
    Field("status", ZDefault(ZOptional(ZEnum(PaymentStatuses)), Json.Str("PENDING"))),
    Field("rawResponse", ZOptional(ZAny))
  ])

  const CreateShipment: Schema := ZObject([
    Field("carrier", ZOptional(ZString([]))),
    Field("service", ZOptional(ZString([]))),
    Field("trackingNumber", ZOptional(ZString([]))),
    Field("costAmount", ZOptional(Amount)),
    Field("costCurrency", ZOptional(ZString([]))),
    Field("status", ZOptional(ZString([]))),
    Field("shippedAt", ZOptional(ZString([]))),
    Field("deliveredAt", ZOptional(ZString([]))),
    Field("shipmentAddress", ZOptional(ZAny)),
    Field("trackingEvents", ZOptional(ZAny))
  ])

  /** A string or a number, as an amount may be sent. */
  lemma AmountAccepts(v: Json.Value, fmt: Formats)
    ensures Parse(Amount, v, fmt).Some? <==> v.Str? || v.Num?
  {
    UnionAccepts(Amount, 0, v, fmt);
    if v.Num? {
      assert Parse(Amount.options[1], v, fmt).Some?;
    }
  }

  /** Name, phone, M-Pesa number, county and town must be non-empty; email
      and user id may be left out and must be well-formed when given. */
  predicate AddressInputValid(v: Json.Value, fmt: Formats) {
    v.Obj? &&
    NonEmptyString(Json.Get(v, "fullName")) &&
    AbsentOr(Json.Get(v, "email"), fmt.isEmail) &&
    NonEmptyString(Json.Get(v, "phone")) &&
    NonEmptyString(Json.Get(v, "mpesaNumber")) &&
    NonEmptyString(Json.Get(v, "county")) &&
    NonEmptyString(Json.Get(v, "town")) &&
    AbsentOr(Json.Get(v, "userId"), fmt.isCuid)
  }

  /** The address schema accepts exactly the valid addresses. */
  lemma AddressInputAccepts(v: Json.Value, fmt: Formats)
    ensures Parse(AddressInput, v, fmt).Some? <==> AddressInputValid(v, fmt)
  {
    AddressInputShape(v, fmt);
    AddressInputFieldsValid(v, fmt);
  }

  /** The address schema's fields, one by one. */
  predicate AddressInputFields(v: Json.Value, fmt: Formats) {
    FieldAccepts(AddressInput, 0, v, fmt) && FieldAccepts(AddressInput, 1, v, fmt) &&
    FieldAccepts(AddressInput, 2, v, fmt) && FieldAccepts(AddressInput, 3, v, fmt) &&
    FieldAccepts(AddressInput, 4, v, fmt) && FieldAccepts(AddressInput, 5, v, fmt) &&
    FieldAccepts(AddressInput, 6, v, fmt)
  }

  lemma AddressInputShape(v: Json.Value, fmt: Formats)
    ensures Parse(AddressInput, v, fmt).Some? <==> v.Obj? && AddressInputFields(v, fmt)
  {
    ObjectAccepts(AddressInput, v, fmt);
  }

  lemma AddressInputFieldsValid(v: Json.Value, fmt: Formats)
    ensures v.Obj? && AddressInputFields(v, fmt) <==> AddressInputValid(v, fmt)
  {
    AddressInputEachField(v, fmt);
  }

  lemma AddressInputEachField(v: Json.Value, fmt: Formats)
    ensures FieldAccepts(AddressInput, 0, v, fmt) <==> NonEmptyString(Json.Get(v, "fullName"))
    ensures FieldAccepts(AddressInput, 1, v, fmt) <==> AbsentOr(Json.Get(v, "email"), fmt.isEmail)
    ensures FieldAccepts(AddressInput, 2, v, fmt) <==> NonEmptyString(Json.Get(v, "phone"))
    ensures FieldAccepts(AddressInput, 3, v, fmt) <==> NonEmptyString(Json.Get(v, "mpesaNumber"))
    ensures FieldAccepts(AddressInput, 4, v, fmt) <==> NonEmptyString(Json.Get(v, "county"))
    ensures FieldAccepts(AddressInput, 5, v, fmt) <==> NonEmptyString(Json.Get(v, "town"))
    ensures FieldAccepts(AddressInput, 6, v, fmt) <==> AbsentOr(Json.Get(v, "userId"), fmt.isCuid)
  {
    StringField(AddressInput, 0, MinLength(1), v, fmt);
    MaybeStringField(AddressInput, 1, Email, v, fmt);
    StringField(AddressInput, 2, MinLength(1), v, fmt);
    StringField(AddressInput, 3, MinLength(1), v, fmt);
    StringField(AddressInput, 4, MinLength(1), v, fmt);
    StringField(AddressInput, 5, MinLength(1), v, fmt);
    MaybeStringField(AddressInput, 6, Cuid, v, fmt);
  }

  /** Only the cart id is required: an object with nothing but a UUID
      cart id is a valid request. */
  lemma CartIdSuffices(id: string, fmt: Formats)
    requires fmt.isUuid(id)
    ensures Parse(CreateOrderFromCart, Json.Obj(map["cartId" := Json.Str(id)]), fmt).Some?
  {
    FirstFieldOnly(CreateOrderFromCart, Json.Str(id), fmt);
    StringAccepts(Uuid, Json.Str(id), fmt);
  }

  /** No order can be created without a UUID cart id. */
  lemma CartIdRequired(v: Json.Value, fmt: Formats)
    requires Parse(CreateOrderFromCart, v, fmt).Some?
    ensures StringWhere(Json.Get(v, "cartId"), fmt.isUuid)
  {
    FieldRequired(CreateOrderFromCart, 0, v, fmt);
    StringField(CreateOrderFromCart, 0, Uuid, v, fmt);
  }

  /** Status and payment status are optional, and limited to their lists
      when given. */
  lemma UpdateOrderAccepts(v: Json.Value, fmt: Formats)
    ensures Parse(UpdateOrder, v, fmt).Some? <==>
      v.Obj? &&
      (Json.Get(v, "status").Undefined? || (Json.Get(v, "status").Str? && Json.Get(v, "status").s in OrderStatuses)) &&
      (Json.Get(v, "paymentStatus").Undefined? || (Json.Get(v, "paymentStatus").Str? && Json.Get(v, "paymentStatus").s in PaymentStatuses)) &&
      (Json.Get(v, "notes").Undefined? || Json.Get(v, "notes").Str?)
  {
    ObjectAccepts(UpdateOrder, v, fmt);
  }

  /** A payment needs a provider, an amount (a string or a number) and a
      currency; the status, when given, is one of the payment statuses. */
  predicate PaymentValid(v: Json.Value) {
    v.Obj? &&
    NonEmptyString(Json.Get(v, "provider")) &&
    (Json.Get(v, "providerPaymentId").Undefined? || Json.Get(v, "providerPaymentId").Str?) &&
    (Json.Get(v, "method").Undefined? || Json.Get(v, "method").Str?) &&
    (Json.Get(v, "amount").Str? || Json.Get(v, "amount").Num?) &&
    NonEmptyString(Json.Get(v, "currency")) &&
    (Json.Get(v, "status").Undefined? || (Json.Get(v, "status").Str? && Json.Get(v, "status").s in PaymentStatuses))
  }

  /** A payment schema accepts exactly the valid payments. */
  lemma CreatePaymentAccepts(v: Json.Value, fmt: Formats)
    ensures Parse(CreatePayment, v, fmt).Some? <==> PaymentValid(v)
  {
    PaymentShape(v, fmt);
    PaymentFieldsValid(v, fmt);
  }

  /** The payment schema's fields, one by one. */
  predicate PaymentFields(v: Json.Value, fmt: Formats) {
    FieldAccepts(CreatePayment, 0, v, fmt) && FieldAccepts(CreatePayment, 1, v, fmt) &&
    FieldAccepts(CreatePayment, 2, v, fmt) && FieldAccepts(CreatePayment, 3, v, fmt) &&
    FieldAccepts(CreatePayment, 4, v, fmt) && FieldAccepts(CreatePayment, 5, v, fmt) &&
    FieldAccepts(CreatePayment, 6, v, fmt)
  }

  lemma PaymentShape(v: Json.Value, fmt: Formats)
    ensures Parse(CreatePayment, v, fmt).Some? <==> v.Obj? && PaymentFields(v, fmt)
  {
    ObjectAccepts(CreatePayment, v, fmt);
  }

  lemma PaymentFieldsValid(v: Json.Value, fmt: Formats)
    ensures v.Obj? && PaymentFields(v, fmt) <==> PaymentValid(v)
  {
    PaymentEachField(v, fmt);
  }

  lemma PaymentEachField(v: Json.Value, fmt: Formats)
    ensures FieldAccepts(CreatePayment, 0, v, fmt) <==> NonEmptyString(Json.Get(v, "provider"))
    ensures FieldAccepts(CreatePayment, 1, v, fmt) <==>
              Json.Get(v, "providerPaymentId").Undefined? || Json.Get(v, "providerPaymentId").Str?
    ensures FieldAccepts(CreatePayment, 2, v, fmt) <==> Json.Get(v, "method").Undefined? || Json.Get(v, "method").Str?
    ensures FieldAccepts(CreatePayment, 3, v, fmt) <==> Json.Get(v, "amount").Str? || Json.Get(v, "amount").Num?
    ensures FieldAccepts(CreatePayment, 4, v, fmt) <==> NonEmptyString(Json.Get(v, "currency"))
    ensures FieldAccepts(CreatePayment, 5, v, fmt) <==>
              Json.Get(v, "status").Undefined? ||
              (Json.Get(v, "status").Str? && Json.Get(v, "status").s in PaymentStatuses)
    ensures FieldAccepts(CreatePayment, 6, v, fmt)
  {
    StringField(CreatePayment, 0, MinLength(1), v, fmt);
    MaybePlainField(CreatePayment, 1, v, fmt);
    MaybePlainField(CreatePayment, 2, v, fmt);
    AmountAccepts(Json.Get(v, "amount"), fmt);
    StringField(CreatePayment, 4, MinLength(1), v, fmt);
    DefaultEnumField(CreatePayment, 5, PaymentStatuses, "PENDING", v, fmt);
    MaybeAnyField(CreatePayment, 6, v, fmt);
  }

  /** A payment sent without a status is recorded as PENDING. */
  lemma PaymentStatusDefaultsToPending(v: Json.Value, fmt: Formats)
    requires Parse(CreatePayment, v, fmt).Some? && Json.Get(v, "status").Undefined?
    ensures "status" in Parse(CreatePayment, v, fmt).value.fields
    ensures Parse(CreatePayment, v, fmt).value.fields["status"] == Json.Str("PENDING")
  {
    assert UniqueKey(CreatePayment.fields, 5);
    ObjectOutput(CreatePayment, v, fmt, 5);
  }

  /** Every shipment field is optional. */
  lemma EmptyShipmentIsValid(fmt: Formats)
    ensures Parse(CreateShipment, Json.Obj(map[]), fmt).Some?
  {
    NoFieldRequired(CreateShipment, fmt);
  }
}
