/** The menu request schemas: a menu is a handle and a list of links. */
module MenuSchemas {
  import Json
  import opened Zod

  const MenuItem: Schema := ZObject([
    Field("title", ZString([MinLength(1)])),
    Field("url", ZString([MinLength(1)]))
  ])

  const CreateMenu: Schema := ZObject([
    Field("handle", ZString([MinLength(1)])),
    Field("items", ZArray(MenuItem))
  ])

  const UpdateMenu: Schema := Partial(CreateMenu)

  /** A menu item has a non-empty title and a non-empty url; the url is
      not checked to be a URL. */
  predicate MenuItemValid(v: Json.Value) {
    v.Obj? && NonEmptyString(Json.Get(v, "title")) && NonEmptyString(Json.Get(v, "url"))
  }

  lemma MenuItemAccepts(v: Json.Value, fmt: Formats)
    ensures Parse(MenuItem, v, fmt).Some? <==> MenuItemValid(v)
  {
    ObjectAccepts(MenuItem, v, fmt);
    StringField(MenuItem, 0, MinLength(1), v, fmt);
    StringField(MenuItem, 1, MinLength(1), v, fmt);
  }

  /** A menu needs a non-empty handle and an array of items, which may be
      empty but must be given; every item must be valid. */
  predicate MenuValid(v: Json.Value) {
    v.Obj? && NonEmptyString(Json.Get(v, "handle")) &&
    Json.Get(v, "items").Arr? &&
    forall i :: 0 <= i < |Json.Get(v, "items").items| ==> MenuItemValid(Json.Get(v, "items").items[i])
  }

  lemma CreateMenuAccepts(v: Json.Value, fmt: Formats)
    ensures Parse(CreateMenu, v, fmt).Some? <==> MenuValid(v)
  {
    ObjectAccepts(CreateMenu, v, fmt);
    StringField(CreateMenu, 0, MinLength(1), v, fmt);
    ArrayField(CreateMenu, 1, MenuItem, v, fmt);
    var x := Json.Get(v, "items");
    if x.Arr? {
      forall i | 0 <= i < |x.items|
        ensures Parse(MenuItem, x.items[i], fmt).Some? <==> MenuItemValid(x.items[i])
      {
        MenuItemAccepts(x.items[i], fmt);
      }
    }
  }

  /** The update schema accepts every valid menu and `{}`; a handle or
      an items array sent on its own must still be valid. */
  lemma UpdateMenuAccepts(v: Json.Value, fmt: Formats)
    ensures Parse(CreateMenu, v, fmt).Some? ==> Parse(UpdateMenu, v, fmt).Some?
    ensures Parse(UpdateMenu, Json.Obj(map[]), fmt).Some?
    ensures Parse(UpdateMenu, v, fmt).Some? ==>
      v.Obj? && (Json.Get(v, "handle").Undefined? || NonEmptyString(Json.Get(v, "handle")))
  {
    PartialAccepts(CreateMenu, v, fmt);
    PartialAcceptsExactly(CreateMenu, v, fmt);
    StringField(CreateMenu, 0, MinLength(1), v, fmt);
  }
}
