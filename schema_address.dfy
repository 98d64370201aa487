/** The address request schemas. */
module AddressSchemas {
  import Json
  import opened Zod

  const CreateAddress: Schema := ZObject([
    Field("fullName", ZString([MinLength(1)])),
    Field("email", ZOptional(ZString([Email]))),
    Field("phone", ZString([MinLength(1)])),
    Field("county", ZString([MinLength(1)])),
    Field("town", ZString([MinLength(1)])),
    Field("userId", ZOptional(ZString([Cuid])))
  ])

  const UpdateAddress: Schema := Partial(CreateAddress)

  /** Name, phone, county and town must be non-empty; an email and a user id
      may be left out but must be well-formed when given. */
  predicate AddressValid(v: Json.Value, fmt: Formats) {
    v.Obj? &&
    NonEmptyString(Json.Get(v, "fullName")) &&
    AbsentOr(Json.Get(v, "email"), fmt.isEmail) &&
    NonEmptyString(Json.Get(v, "phone")) &&
    NonEmptyString(Json.Get(v, "county")) &&
    NonEmptyString(Json.Get(v, "town")) &&
    AbsentOr(Json.Get(v, "userId"), fmt.isCuid)
  }

  lemma CreateAddressAccepts(v: Json.Value, fmt: Formats)
    ensures Parse(CreateAddress, v, fmt).Some? <==> AddressValid(v, fmt)
  {
    AddressShape(v, fmt);
    AddressEachField(v, fmt);
  }

  /** The address schema's fields, one by one. */
  predicate AddressFields(v: Json.Value, fmt: Formats) {
    FieldAccepts(CreateAddress, 0, v, fmt) && FieldAccepts(CreateAddress, 1, v, fmt) &&
    FieldAccepts(CreateAddress, 2, v, fmt) && FieldAccepts(CreateAddress, 3, v, fmt) &&
    FieldAccepts(CreateAddress, 4, v, fmt) && FieldAccepts(CreateAddress, 5, v, fmt)
  }

  lemma AddressShape(v: Json.Value, fmt: Formats)
    ensures Parse(CreateAddress, v, fmt).Some? <==> v.Obj? && AddressFields(v, fmt)
  {
    ObjectAccepts(CreateAddress, v, fmt);
  }

  lemma AddressEachField(v: Json.Value, fmt: Formats)
    ensures FieldAccepts(CreateAddress, 0, v, fmt) <==> NonEmptyString(Json.Get(v, "fullName"))
    ensures FieldAccepts(CreateAddress, 1, v, fmt) <==> AbsentOr(Json.Get(v, "email"), fmt.isEmail)
    ensures FieldAccepts(CreateAddress, 2, v, fmt) <==> NonEmptyString(Json.Get(v, "phone"))
    ensures FieldAccepts(CreateAddress, 3, v, fmt) <==> NonEmptyString(Json.Get(v, "county"))
    ensures FieldAccepts(CreateAddress, 4, v, fmt) <==> NonEmptyString(Json.Get(v, "town"))
    ensures FieldAccepts(CreateAddress, 5, v, fmt) <==> AbsentOr(Json.Get(v, "userId"), fmt.isCuid)
  {
    StringField(CreateAddress, 0, MinLength(1), v, fmt);
    MaybeStringField(CreateAddress, 1, Email, v, fmt);
    StringField(CreateAddress, 2, MinLength(1), v, fmt);
    StringField(CreateAddress, 3, MinLength(1), v, fmt);
    StringField(CreateAddress, 4, MinLength(1), v, fmt);
    MaybeStringField(CreateAddress, 5, Cuid, v, fmt);
  }

  /** The update schema accepts every valid address, any subset of its
      fields, and `{}`. */
  lemma UpdateAddressAccepts(v: Json.Value, fmt: Formats)
    ensures Parse(CreateAddress, v, fmt).Some? ==> Parse(UpdateAddress, v, fmt).Some?
    ensures Parse(UpdateAddress, Json.Obj(map[]), fmt).Some?
    ensures (Parse(UpdateAddress, v, fmt).Some? && NonEmptyString(Json.Get(v, "fullName")) &&
             NonEmptyString(Json.Get(v, "phone")) && NonEmptyString(Json.Get(v, "county")) &&
             NonEmptyString(Json.Get(v, "town"))) ==> Parse(CreateAddress, v, fmt).Some?
  {
    PartialAccepts(CreateAddress, v, fmt);
    PartialAcceptsExactly(CreateAddress, v, fmt);
    CreateAddressAccepts(v, fmt);
    var fs := CreateAddress.fields;
    if Parse(UpdateAddress, v, fmt).Some? {
      assert fs[1].key == "email" && fs[5].key == "userId";
    }
  }
}
