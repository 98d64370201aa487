/** The content page request schemas. */
module PageSchemas {
  import Json
  import opened Zod

  const CreatePage: Schema := ZObject([
    Field("title", ZString([MinLength(1)])),
    Field("handle", ZString([MinLength(1)])),
    Field("body", ZOptional(ZString([]))),
    Field("bodySummary", ZOptional(ZString([]))),
    Field("seoId", ZOptional(ZString([Uuid])))
  ])

  const UpdatePage: Schema := Partial(CreatePage)

  /** A page needs a non-empty title and handle; its body and summary are
      optional strings, and its SEO record id an optional UUID. */
  predicate PageValid(v: Json.Value, fmt: Formats) {
    v.Obj? &&
    NonEmptyString(Json.Get(v, "title")) &&
    NonEmptyString(Json.Get(v, "handle")) &&
    (Json.Get(v, "body").Undefined? || Json.Get(v, "body").Str?) &&
    (Json.Get(v, "bodySummary").Undefined? || Json.Get(v, "bodySummary").Str?) &&
    AbsentOr(Json.Get(v, "seoId"), fmt.isUuid)
  }

  lemma CreatePageAccepts(v: Json.Value, fmt: Formats)
    ensures Parse(CreatePage, v, fmt).Some? <==> PageValid(v, fmt)
  {
    ObjectAccepts(CreatePage, v, fmt);
    StringField(CreatePage, 0, MinLength(1), v, fmt);
    StringField(CreatePage, 1, MinLength(1), v, fmt);
    MaybePlainField(CreatePage, 2, v, fmt);
    MaybePlainField(CreatePage, 3, v, fmt);
    MaybeStringField(CreatePage, 4, Uuid, v, fmt);
  }

  /** The update schema accepts every valid page and `{}`, and with a
      title and a handle it accepts exactly the valid pages. */
  lemma UpdatePageAccepts(v: Json.Value, fmt: Formats)
    ensures Parse(CreatePage, v, fmt).Some? ==> Parse(UpdatePage, v, fmt).Some?
    ensures Parse(UpdatePage, Json.Obj(map[]), fmt).Some?
    ensures (Parse(UpdatePage, v, fmt).Some? && NonEmptyString(Json.Get(v, "title")) &&
             NonEmptyString(Json.Get(v, "handle"))) ==> Parse(CreatePage, v, fmt).Some?
  {
    PartialAccepts(CreatePage, v, fmt);
    PartialAcceptsExactly(CreatePage, v, fmt);
    CreatePageAccepts(v, fmt);
    var fs := CreatePage.fields;
    if Parse(UpdatePage, v, fmt).Some? {
      assert fs[2].key == "body" && fs[3].key == "bodySummary" && fs[4].key == "seoId";
    }
  }
}
