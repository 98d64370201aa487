/** `getCollections`: the navigation list of collections, and the unused
    `normalizeSeo` helper beside it. */
module Collections {
  import opened Wrappers
  import Text
  import Sorting
  import Seqs

  datatype SeoRow = SeoRow(title: Option<string>, description: Option<string>)

  datatype Seo = Seo(title: string, description: string)

  const DefaultSeoTitle := "Shop"
  const DefaultSeoDescription := "Purchase this high quality product"

  /** `normalizeSeo(seo)`: each field falls back separately. */
  function NormalizeSeo(seo: Option<SeoRow>): (r: Seo)
    ensures seo.Some? && seo.value.title.Some? ==> r.title == seo.value.title.value
    ensures !(seo.Some? && seo.value.title.Some?) ==> r.title == DefaultSeoTitle
    ensures seo.Some? && seo.value.description.Some? ==> r.description == seo.value.description.value
    ensures !(seo.Some? && seo.value.description.Some?) ==> r.description == DefaultSeoDescription
  {
    match seo
    case None => Seo(DefaultSeoTitle, DefaultSeoDescription)
    case Some(s) => Seo(s.title.GetOr(DefaultSeoTitle), s.description.GetOr(DefaultSeoDescription))
  }

  /** A collection row; `updatedAt` is a timestamp. */
  datatype CollectionRow = CollectionRow(
    id: string, handle: string, title: string,
    description: Option<string>, parentId: Option<string>, gender: Option<string>,
    seo: Option<SeoRow>, updatedAt: Option<int>)

  /** `description` and `parentId` are `None` for null. */
  datatype NavCollection = NavCollection(
    id: string, handle: string, title: string,
    description: Option<string>, parentId: Option<string>, gender: string,
    seo: Option<SeoRow>, updatedAt: Option<string>, path: string)

  /** The row mapping; `toIso` stands for `Date.prototype.toISOString`. */
  function ToNav(c: CollectionRow, toIso: int -> string): (r: NavCollection)
    ensures r.id == c.id && r.handle == c.handle && r.title == c.title
    ensures r.path == "/search/" + c.handle
    ensures r.gender == c.gender.GetOr("general")
    ensures r.description == c.description && r.parentId == c.parentId && r.seo == c.seo
    ensures r.updatedAt.None? <==> c.updatedAt.None?
  {
    NavCollection(c.id, c.handle, c.title, c.description, c.parentId,
                  c.gender.GetOr("general"), c.seo,
                  if c.updatedAt.Some? then Some(toIso(c.updatedAt.value)) else None,
                  "/search/" + c.handle)
  }

  predicate Visible(c: NavCollection) {
    !Text.StartsWith(c.handle, "hidden")
  }

  function TitleAsc(a: CollectionRow, b: CollectionRow): bool {
    Text.LexLe(a.title, b.title)
  }

  function NavTitleAsc(a: NavCollection, b: NavCollection): bool {
    Text.LexLe(a.title, b.title)
  }

  lemma TitleAscIsPreorder()
    ensures Sorting.TotalPreorder(TitleAsc)
  {
    forall a: CollectionRow, b: CollectionRow { Text.LexLeTotal(a.title, b.title); }
    forall a: CollectionRow, b: CollectionRow, c: CollectionRow | TitleAsc(a, b) && TitleAsc(b, c)
      ensures TitleAsc(a, c)
    {
      Text.LexLeTransitive(a.title, b.title, c.title);
    }
  }

  /** `getCollections()`: ordered by title, mapped, hidden handles removed. */
  function GetCollections(rows: seq<CollectionRow>, toIso: int -> string): (r: seq<NavCollection>)
    ensures forall c :: c in r ==> Visible(c) && c.path == "/search/" + c.handle
    ensures multiset(r) ==
            multiset(Seqs.Filter(Seqs.Map(rows, (c: CollectionRow) => ToNav(c, toIso)), Visible))
    ensures Sorting.Sorted(r, NavTitleAsc)
  {
    var f := (c: CollectionRow) => ToNav(c, toIso);
    var sorted := Sorting.SortBy(rows, TitleAsc);
    var mapped := Seqs.Map(sorted, f);
    TitleAscIsPreorder();
    Sorting.SortBySorted(rows, TitleAsc);
    assert Sorting.Sorted(mapped, NavTitleAsc);
    Sorting.FilterSorted(mapped, Visible, NavTitleAsc);
    Seqs.MapPermutation(sorted, rows, f);
    Seqs.FilterPermutation(mapped, Seqs.Map(rows, f), Visible);
    Seqs.Filter(mapped, Visible)
  }

  /** A collection is listed exactly when its handle does not start with
      "hidden". */
  lemma ListedIffNotHidden(rows: seq<CollectionRow>, toIso: int -> string, c: CollectionRow)
    requires c in rows
    ensures ToNav(c, toIso) in GetCollections(rows, toIso) <==> !Text.StartsWith(c.handle, "hidden")
  {
    var f := (c: CollectionRow) => ToNav(c, toIso);
    var all := Seqs.Map(rows, f);
    var k :| 0 <= k < |rows| && rows[k] == c;
    assert all[k] == ToNav(c, toIso);
    var listed := GetCollections(rows, toIso);
    var kept := Seqs.Filter(all, Visible);
    assert all[k] in all;
    assert ToNav(c, toIso) in kept <==> Visible(ToNav(c, toIso));
    assert ToNav(c, toIso) in listed <==> ToNav(c, toIso) in multiset(listed);
    assert ToNav(c, toIso) in kept <==> ToNav(c, toIso) in multiset(kept);
  }
}
