/** The health-topic actions: the list with its description snippets, the
    lookup by handle, and the paginated list of a topic's products. */
module HealthTopics {
  import opened Wrappers
  import Text
  import Paging
  import Sorting
  import Seqs
  import RP = ReshapeProduct

  /** Markup removal: each double asterisk, double underscore, hash sign and
      newline becomes one space, scanning left to right, so a pair of
      asterisks or underscores gives a single space. */
  function CleanMarkup(s: string): (r: string)
    ensures |r| <= |s|
    ensures '#' !in r && '\n' !in r
  {
    if s == [] then []
    else if |s| >= 2 && s[..2] == "**" then " " + CleanMarkup(s[2..])
    else if |s| >= 2 && s[..2] == "__" then " " + CleanMarkup(s[2..])
    else if s[0] == '#' || s[0] == '\n' then " " + CleanMarkup(s[1..])
    else [s[0]] + CleanMarkup(s[1..])
  }

  const SnippetLength: nat := 150

  /** The cleaned and trimmed text the snippet is cut from. */
  function RawText(description: string): (r: string)
    ensures '#' !in r && '\n' !in r
    ensures r == [] || !Text.IsWhitespace(r[0])
  {
    var cleaned := CleanMarkup(description);
    Text.TrimShape(cleaned);
    forall c | c in Text.Trim(cleaned) ensures c != '#' && c != '\n' {
      Text.TrimSubset(cleaned, c);
    }
    Text.Trim(cleaned)
  }

  /** `substring(0, n)` with JavaScript's clamping of a negative end to 0. */
  function Substring(s: string, n: int): string {
    if n <= 0 then [] else if n >= |s| then s else s[..n]
  }

  /** The snippet of `getAllHealthTopics`. */
  function Snippet(description: string): (r: string)
    ensures var raw := RawText(description);
      && |r| <= SnippetLength + 2
      && (|raw| <= SnippetLength ==> r == raw)
      && (|raw| > SnippetLength ==> CutAtSpace(raw, r))
  {
    var raw := RawText(description);
    var snippet := Substring(raw, SnippetLength);
    if |raw| > SnippetLength then
      var cut := Text.LastIndexOf(snippet, ' ');
      LongSnippet(raw, snippet, cut);
      Substring(snippet, cut) + "..."
    else snippet
  }

  /** The snippet of a long text: the text up to the last space among its
      first 150 characters, or nothing when there is none, then "...". */
  ghost predicate CutAtSpace(raw: string, r: string)
    requires |raw| > SnippetLength
  {
    exists k :: 0 <= k < SnippetLength && r == raw[..k] + "..." &&
      (k == 0 <==> ' ' !in raw[..SnippetLength]) &&
      (k > 0 ==> raw[k] == ' ' && forall j :: k < j < SnippetLength ==> raw[j] != ' ')
  }

  lemma LongSnippet(raw: string, snippet: string, cut: int)
    requires |raw| > SnippetLength && !Text.IsWhitespace(raw[0])
    requires snippet == Substring(raw, SnippetLength)
    requires cut == Text.LastIndexOf(snippet, ' ')
    ensures |Substring(snippet, cut) + "..."| <= SnippetLength + 2
    ensures CutAtSpace(raw, Substring(snippet, cut) + "...")
  {
    assert snippet == raw[..SnippetLength];
    assert cut != 0 by {
      assert raw[0] == snippet[0];
    }
    var k := if cut < 0 then 0 else cut;
    assert Substring(snippet, cut) == raw[..k];
  }

  /** With no space in the first 150 characters of a long text, the snippet
      is just the ellipsis. */
  lemma SnippetWithoutSpace(description: string)
    requires |RawText(description)| > SnippetLength
    requires ' ' !in RawText(description)[..SnippetLength]
    ensures Snippet(description) == "..."
  {
    var raw := RawText(description);
    var k :| 0 <= k < SnippetLength && Snippet(description) == raw[..k] + "..." &&
             (k == 0 <==> ' ' !in raw[..SnippetLength]);
    assert raw[..0] == [];
  }

  datatype SeoRow = SeoRow(title: Option<string>, description: Option<string>)

  datatype TopicRow = TopicRow(id: string, handle: string, title: string, description: string, seo: Option<SeoRow>)

  datatype TopicListItem = TopicListItem(id: string, handle: string, title: string, descriptionSnippet: string)

  datatype TopicDetail = TopicDetail(id: string, handle: string, title: string, description: string, seo: Option<SeoRow>)

  function ToListItem(t: TopicRow): (r: TopicListItem)
    ensures r.id == t.id && r.handle == t.handle && r.title == t.title
    ensures r.descriptionSnippet == Snippet(t.description)
  {
    TopicListItem(t.id, t.handle, t.title, Snippet(t.description))
  }

  function TitleAsc(a: TopicRow, b: TopicRow): bool {
    Text.LexLe(a.title, b.title)
  }

  predicate ItemsByTitle(items: seq<TopicListItem>) {
    forall i, j :: 0 <= i < j < |items| ==> Text.LexLe(items[i].title, items[j].title)
  }

  /** `getAllHealthTopics()`: every topic once, ordered by title. */
  function AllHealthTopics(topics: seq<TopicRow>): (r: seq<TopicListItem>)
    ensures |r| == |topics|
    ensures multiset(r) == multiset(Seqs.Map(topics, ToListItem))
    ensures ItemsByTitle(r)
  {
    var sorted := Sorting.SortBy(topics, TitleAsc);
    TitleAscIsPreorder();
    Sorting.SortBySorted(topics, TitleAsc);
    Seqs.MapPermutation(sorted, topics, ToListItem);
    Seqs.Map(sorted, ToListItem)
  }

  lemma TitleAscIsPreorder()
    ensures Sorting.TotalPreorder(TitleAsc)
  {
    forall a: TopicRow, b: TopicRow { Text.LexLeTotal(a.title, b.title); }
    forall a: TopicRow, b: TopicRow, c: TopicRow | TitleAsc(a, b) && TitleAsc(b, c)
      ensures TitleAsc(a, c)
    {
      Text.LexLeTransitive(a.title, b.title, c.title);
    }
  }

  /** `getHealthTopicByHandle(handle)`: `findUnique` on the unique handle
      column, null when no topic has that handle. */
  function HealthTopicByHandle(topics: seq<TopicRow>, handle: string): (r: Option<TopicDetail>)
    ensures r.None? <==> forall t :: t in topics ==> t.handle != handle
    ensures r.Some? ==> exists t :: t in topics && t.handle == handle &&
                          r.value == TopicDetail(t.id, t.handle, t.title, t.description, t.seo)
  {
    var found := Seqs.Find(topics, (t: TopicRow) => t.handle == handle);
    if found.None? then None
    else
      var t := found.value;
      Some(TopicDetail(t.id, t.handle, t.title, t.description, t.seo))
  }

  /** A row of the topic-to-product join table. */
  datatype TopicLink = TopicLink(healthTopicId: string, productId: string, order: int)

  datatype TopicProductsPage = TopicProductsPage(
    items: seq<RP.ProductDto>, total: nat, page: int, perPage: int, totalPages: nat)

  function LinkOrderAsc(a: TopicLink, b: TopicLink): bool {
    a.order <= b.order
  }

  function OfTopic(topicId: string): TopicLink -> bool {
    (l: TopicLink) => l.healthTopicId == topicId
  }

  function LinkProduct(l: TopicLink): string {
    l.productId
  }

  /** The topic's links in ascending `order`. */
  function TopicLinks(topicId: string, links: seq<TopicLink>): (s: seq<TopicLink>)
    ensures multiset(s) == multiset(Seqs.Filter(links, OfTopic(topicId)))
    ensures |s| == |Seqs.Filter(links, OfTopic(topicId))|
    ensures forall l :: l in s ==> l in links && l.healthTopicId == topicId
    ensures Sorting.Sorted(s, LinkOrderAsc)
  {
    var ofTopic := Seqs.Filter(links, OfTopic(topicId));
    Sorting.SortBySorted(ofTopic, LinkOrderAsc);
    forall l | l in Sorting.SortBy(ofTopic, LinkOrderAsc) ensures l in ofTopic {
      Sorting.SortByMembers(ofTopic, LinkOrderAsc, l);
    }
    Sorting.SortBy(ofTopic, LinkOrderAsc)
  }

  /** The product ids of the requested page of a topic's links: the window
      `skip`..`skip + take` of the links in ascending `order`. */
  function PageProductIds(topicId: string, skip: nat, take: nat, links: seq<TopicLink>): (ids: seq<string>)
    ensures ids == Seqs.Map(Paging.Window(TopicLinks(topicId, links), skip, take), LinkProduct)
    ensures var n := |Seqs.Filter(links, OfTopic(topicId))|;
      |ids| == if skip >= n then 0 else if skip + take <= n then take else n - skip
    ensures forall id :: id in ids ==> exists l :: l in links && l.healthTopicId == topicId && l.productId == id
  {
    var sorted := TopicLinks(topicId, links);
    var window := Paging.Window(sorted, skip, take);
    assert forall l :: l in window ==> l in sorted;
    var ids := Seqs.Map(window, LinkProduct);
    assert forall id :: id in ids ==> exists l :: l in window && l.productId == id by {
      forall id | id in ids ensures exists l :: l in window && l.productId == id {
        var k :| 0 <= k < |ids| && ids[k] == id;
        assert window[k] in window;
      }
    }
    ids
  }

  /** `getProductsByTopicId({ topicId, page, perPage })`. `perPage` has no
      `|| 12` here, so 0 clamps to 1. The products are returned in table
      order, not in link order. */
  function ProductsByTopicId(topicId: string, page: Option<int>, perPage: Option<int>,
                             links: seq<TopicLink>, products: seq<RP.ProductRow>): (r: TopicProductsPage)
    ensures 1 <= r.perPage <= 100 && r.perPage == Paging.ClampTake(perPage.GetOr(12))
    ensures r.totalPages >= 1
    ensures |PageProductIds(topicId, Paging.SkipFor(page.GetOr(1), r.perPage), r.perPage, links)| == 0 ==>
              r == TopicProductsPage([], 0, 1, r.perPage, 1)
    ensures var ids := PageProductIds(topicId, Paging.SkipFor(page.GetOr(1), r.perPage), r.perPage, links);
      |ids| > 0 ==>
              && r.page == page.GetOr(1)
              && r.total == |Seqs.Filter(links, OfTopic(topicId))|
              && r.totalPages == Paging.TotalPages(r.total, r.perPage)
              && r.items == TopicItems(topicId, ids, links, products)
    ensures forall it :: it in r.items ==> FromTopic(it, topicId, links, products)
  {
    var take := Paging.ClampTake(perPage.GetOr(12));
    var skip := Paging.SkipFor(page.GetOr(1), take);
    var total := |Seqs.Filter(links, OfTopic(topicId))|;
    var ids := PageProductIds(topicId, skip, take, links);
    if |ids| == 0 then TopicProductsPage([], 0, 1, take, 1)
    else TopicProductsPage(TopicItems(topicId, ids, links, products), total, page.GetOr(1), take,
                           Paging.TotalPages(total, take))
  }

  /** The item is the reshape of a product linked to the topic. */
  predicate FromTopic(it: RP.ProductDto, topicId: string, links: seq<TopicLink>, products: seq<RP.ProductRow>) {
    exists p, l :: p in products && l in links && l.healthTopicId == topicId &&
                   l.productId == p.id && it == RP.Reshape(p)
  }

  function OnPage(ids: seq<string>): RP.ProductRow -> bool {
    (p: RP.ProductRow) => p.id in ids
  }

  /** The products whose ids are on the page, in table order, reshaped:
      every such product is there, and nothing else. */
  function TopicItems(topicId: string, ids: seq<string>, links: seq<TopicLink>,
                      products: seq<RP.ProductRow>): (items: seq<RP.ProductDto>)
    requires forall id :: id in ids ==> exists l :: l in links && l.healthTopicId == topicId && l.productId == id
    ensures items == RP.ReshapeRows(Seqs.Filter(products, OnPage(ids)))
    ensures forall p :: p in products && p.id in ids ==> RP.Reshape(p) in items
    ensures forall it :: it in items <==> exists p :: p in products && p.id in ids && it == RP.Reshape(p)
    ensures forall it :: it in items ==> FromTopic(it, topicId, links, products)
  {
    var rows := Seqs.Filter(products, OnPage(ids));
    RP.ReshapeRowsMembers(rows);
    var items := RP.ReshapeRows(rows);
    forall it | it in items ensures FromTopic(it, topicId, links, products) {
      var p :| p in rows && it == RP.Reshape(p);
      var l :| l in links && l.healthTopicId == topicId && l.productId == p.id;
    }
    items
  }

  /** A page past the last link reports no links at all: total 0 and page 1,
      although the topic has links. */
  lemma PagePastEndReportsNothing()
    ensures var links := [TopicLink("t", "p", 0)];
      ProductsByTopicId("t", Some(2), Some(1), links, []) == TopicProductsPage([], 0, 1, 1, 1)
  {
    var links := [TopicLink("t", "p", 0)];
    var ids := PageProductIds("t", 1, 1, links);
    assert |ids| == 0;
  }
}
