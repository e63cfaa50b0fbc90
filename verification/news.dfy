/**
 The News screen: the newest-first article query, category chips built from the
 articles on record, the category filter, and the "Add News Article" form.
 */
module News {
  import opened Wrappers
  import opened Sequences
  import opened Ordering
  import opened Models
  import SampleData

  const All := "All"

  function Published(n: NewsArticle): int {
    n.publishedDate
  }

  /** Newest first: publication dates never increase along the list. */
  predicate NewestFirst(s: seq<NewsArticle>) {
    NonIncreasingBy(s, Published)
  }

  // ------------------------------------------------------------------- the query

  lemma TailNewestFirst(s: seq<NewsArticle>)
    requires NewestFirst(s) && |s| > 0
    ensures NewestFirst(s[1..])
  {
    forall i, j | 0 <= i < j < |s[1..]|
      ensures Published(s[1..][i]) >= Published(s[1..][j])
    {
      assert s[1..][i] == s[i + 1] && s[1..][j] == s[j + 1];
    }
  }

  lemma PrependNewest(x: NewsArticle, t: seq<NewsArticle>)
    requires NewestFirst(t)
    requires forall y :: y in t ==> y.publishedDate <= x.publishedDate
    ensures NewestFirst([x] + t)
  {
    var r := [x] + t;
    forall i, j | 0 <= i < j < |r|
      ensures Published(r[i]) >= Published(r[j])
    {
      assert r[j] == t[j - 1];
      if i > 0 {
        assert r[i] == t[i - 1];
      }
    }
  }

  /** Places `a` before the first article that is not newer than it. */
  function InsertByDate(a: NewsArticle, s: seq<NewsArticle>): (r: seq<NewsArticle>)
    requires NewestFirst(s)
    ensures NewestFirst(r)
    ensures multiset(r) == multiset(s) + multiset{a}
    decreases |s|
  {
    if |s| == 0 then [a]
    else if a.publishedDate >= s[0].publishedDate then
      PrependNewest(a, s);
      [a] + s
    else
      assert s == [s[0]] + s[1..];
      TailNewestFirst(s);
      var rest := InsertByDate(a, s[1..]);
      InsertBound(a, s, rest);
      PrependNewest(s[0], rest);
      [s[0]] + rest
  }

  /** Everything that `InsertByDate` puts after the head of `s` is no newer than that head. */
  lemma InsertBound(a: NewsArticle, s: seq<NewsArticle>, rest: seq<NewsArticle>)
    requires NewestFirst(s) && |s| > 0
    requires a.publishedDate < s[0].publishedDate
    requires multiset(rest) == multiset(s[1..]) + multiset{a}
    ensures forall x :: x in rest ==> x.publishedDate <= s[0].publishedDate
  {
    forall x | x in rest
      ensures x.publishedDate <= s[0].publishedDate
    {
      assert x in multiset(rest);
      if x != a {
        assert x in multiset(s[1..]);
        var k :| 0 <= k < |s[1..]| && s[1..][k] == x;
        assert x == s[k + 1];
      }
    }
  }

  /**
   The `@Query(sort: \.publishedDate, order: .reverse)` result: the stored articles
   rearranged newest first. Articles with equal dates may come in any order in the
   app; here they keep their insertion order.
   */
  function NewsQuery(stored: seq<NewsArticle>): (r: seq<NewsArticle>)
    ensures NewestFirst(r)
    ensures multiset(r) == multiset(stored)
    decreases |stored|
  {
    if |stored| == 0 then []
    else
      assert stored == [stored[0]] + stored[1..];
      InsertByDate(stored[0], NewsQuery(stored[1..]))
  }

  /** Two articles with the same date come out in the order they were stored. */
  lemma TiesKeepInsertionOrder(x: NewsArticle, y: NewsArticle)
    requires x.publishedDate == y.publishedDate
    ensures NewsQuery([x, y]) == [x, y]
  {
    assert [x, y][1..] == [y];
    assert [y][1..] == [];
  }

  /** Two newest-first arrangements of the same articles start alike when the first one's dates are distinct. */
  lemma HeadsAgree(a: seq<NewsArticle>, b: seq<NewsArticle>)
    requires NewestFirst(a) && NewestFirst(b)
    requires multiset(a) == multiset(b) && |a| > 0
    requires forall i, j :: 0 <= i < j < |a| ==> a[i].publishedDate != a[j].publishedDate
    ensures |b| > 0 && a[0] == b[0]
  {
    assert a[0] in multiset(b);
    var i :| 0 <= i < |b| && b[i] == a[0];
    assert b[0] in multiset(a);
    var j :| 0 <= j < |a| && a[j] == b[0];
    assert Published(a[0]) >= Published(a[j]);
    assert Published(b[0]) >= Published(b[i]);
  }

  lemma TailMultiset(a: seq<NewsArticle>, b: seq<NewsArticle>)
    requires multiset(a) == multiset(b) && |a| > 0 && |b| > 0 && a[0] == b[0]
    ensures multiset(a[1..]) == multiset(b[1..])
  {
    assert a == [a[0]] + a[1..] && b == [b[0]] + b[1..];
    forall x
      ensures multiset(a[1..])[x] == multiset(b[1..])[x]
    {
      assert multiset(a)[x] == multiset{a[0]}[x] + multiset(a[1..])[x];
      assert multiset(b)[x] == multiset{a[0]}[x] + multiset(b[1..])[x];
    }
    assert multiset(a[1..]) == multiset(b[1..]);
  }

  /** The newest-first order is unique once the dates are all different. */
  lemma {:induction false} NewestFirstUnique(a: seq<NewsArticle>, b: seq<NewsArticle>)
    requires NewestFirst(a) && NewestFirst(b)
    requires multiset(a) == multiset(b)
    requires forall i, j :: 0 <= i < j < |a| ==> a[i].publishedDate != a[j].publishedDate
    ensures a == b
    decreases |a|
  {
    assert |a| == |multiset(a)| == |b|;
    if |a| > 0 {
      HeadsAgree(a, b);
      TailMultiset(a, b);
      TailNewestFirst(a);
      TailNewestFirst(b);
      forall p, q | 0 <= p < q < |a[1..]|
        ensures a[1..][p].publishedDate != a[1..][q].publishedDate
      {
        assert a[1..][p] == a[p + 1] && a[1..][q] == a[q + 1];
      }
      NewestFirstUnique(a[1..], b[1..]);
      assert a == [a[0]] + a[1..] && b == [b[0]] + b[1..];
    }
  }

  /** With distinct dates, any newest-first arrangement of the stored articles is the query's. */
  lemma QueryIsTheNewestFirstArrangement(stored: seq<NewsArticle>, r: seq<NewsArticle>)
    requires multiset(r) == multiset(stored) && NewestFirst(r)
    requires forall i, j :: 0 <= i < j < |r| ==> r[i].publishedDate != r[j].publishedDate
    ensures r == NewsQuery(stored)
  {
    NewestFirstUnique(r, NewsQuery(stored));
  }

  // --------------------------------------------------------------------- chips

  function CategoriesOf(news: seq<NewsArticle>): (r: seq<string>)
    ensures forall y :: y in r <==> exists n :: n in news && n.category == y
  {
    var r := seq(|news|, i requires 0 <= i < |news| => news[i].category);
    assert forall i :: 0 <= i < |news| ==> r[i] == news[i].category;
    r
  }

  /** `categories`: the distinct article categories plus "All", ascending, and nothing else. */
  function Categories(news: seq<NewsArticle>): (r: seq<string>)
    ensures StrictlySorted(r)
    ensures All in r
    ensures forall y :: y in r <==> y == All || exists n :: n in news && n.category == y
  {
    SortedDistinct(CategoriesOf(news) + [All])
  }

  /** The chips do not depend on the order the articles are listed in. */
  lemma CategoriesIgnoreOrder(a: seq<NewsArticle>, b: seq<NewsArticle>)
    requires multiset(a) == multiset(b)
    ensures Categories(a) == Categories(b)
  {
    forall n
      ensures n in a <==> n in b
    {
      assert n in a <==> n in multiset(a);
      assert n in b <==> n in multiset(b);
    }
    SortedUnique(Categories(a), Categories(b));
  }

  // -------------------------------------------------------------------- filter

  /**
   `filteredNews`: every article under "All", otherwise exactly those of the
   selected category, in the query's order, with their multiplicities.
   */
  function FilteredNews(news: seq<NewsArticle>, selected: string): (r: seq<NewsArticle>)
    ensures IsSubseq(r, news)
    ensures selected == All ==> r == news
    ensures selected != All ==> forall n :: n in r <==> n in news && n.category == selected
    ensures selected != All ==> forall n :: multiset(r)[n] == if n.category == selected then multiset(news)[n] else 0
  {
    if selected == All then
      SubseqRefl(news);
      news
    else Filter(news, (n: NewsArticle) => n.category == selected)
  }

  /** Whatever chip is selected, the list shown stays newest first. */
  lemma FilteredNewsNewestFirst(stored: seq<NewsArticle>, selected: string)
    ensures NewestFirst(FilteredNews(NewsQuery(stored), selected))
  {
    var q := NewsQuery(stored);
    SubseqKeepsOrder(FilteredNews(q, selected), q, Published);
  }

  /** Every chip shows at least one article, except "All" on an empty store. */
  lemma EveryChipShowsSomething(stored: seq<NewsArticle>, chip: string)
    requires chip in Categories(NewsQuery(stored))
    requires chip != All
    ensures |FilteredNews(NewsQuery(stored), chip)| > 0
  {
    var q := NewsQuery(stored);
    var n :| n in q && n.category == chip;
    assert n in FilteredNews(q, chip);
  }

  // ----------------------------------------------------------- adding an article

  /** Choices the "Category" picker of the form offers. */
  const PickerCategories: seq<string> := ["General", "Academic", "Sports", "Events", "Announcements"]

  datatype NewsForm = NewsForm(
    title: string,
    content: string,
    author: string,
    category: string,
    publishedDate: Date)

  /** The form as it opens at time `now`: empty text, category "General", dated now. */
  function NewNewsForm(now: Date): (f: NewsForm)
    ensures f.category in PickerCategories
  {
    NewsForm("", "", "", "General", now)
  }

  /** One user interaction with the form. */
  datatype NewsEdit =
    | EditTitle(text: string)
    | EditContent(text: string)
    | EditAuthor(text: string)
    | PickCategory(choice: string)
    | PickDate(date: Date)

  /** The picker can only produce one of its listed choices. */
  predicate Offered(e: NewsEdit) {
    e.PickCategory? ==> e.choice in PickerCategories
  }

  function ApplyNewsEdit(f: NewsForm, e: NewsEdit): NewsForm
    requires Offered(e)
  {
    match e
    case EditTitle(t) => f.(title := t)
    case EditContent(t) => f.(content := t)
    case EditAuthor(t) => f.(author := t)
    case PickCategory(t) => f.(category := t)
    case PickDate(d) => f.(publishedDate := d)
  }

  /** Any run of interactions keeps the category among the picker's choices. */
  function ApplyNewsEdits(f: NewsForm, edits: seq<NewsEdit>): (r: NewsForm)
    requires f.category in PickerCategories
    requires forall k :: 0 <= k < |edits| ==> Offered(edits[k])
    ensures r.category in PickerCategories
    decreases |edits|
  {
    if |edits| == 0 then f
    else ApplyNewsEdits(ApplyNewsEdit(f, edits[0]), edits[1..])
  }

  /** Publish is disabled while the title or the content is empty; the author is optional. */
  predicate PublishDisabled(f: NewsForm) {
    f.title == "" || f.content == ""
  }

  /** `saveNews`, reachable only through the enabled Publish button; the article has no images. */
  function Publish(f: NewsForm): (r: Option<NewsArticle>)
    ensures r.Some? <==> f.title != "" && f.content != ""
    ensures r.Some? ==> r.value.title == f.title && r.value.content == f.content && r.value.author == f.author
    ensures r.Some? ==> r.value.category == f.category && r.value.publishedDate == f.publishedDate
    ensures r.Some? ==> r.value.imageNames == []
  {
    if PublishDisabled(f) then None
    else Some(NewsArticle(f.title, f.content, f.author, f.publishedDate, f.category, []))
  }

  /**
   A published article, after any interactions, has one of the picker's categories,
   gets a chip of its own, and is listed under it.
   */
  lemma PublishedArticleIsListed(stored: seq<NewsArticle>, now: Date, edits: seq<NewsEdit>)
    requires forall k :: 0 <= k < |edits| ==> Offered(edits[k])
    requires !PublishDisabled(ApplyNewsEdits(NewNewsForm(now), edits))
    ensures var n := Publish(ApplyNewsEdits(NewNewsForm(now), edits)).value;
      var q := NewsQuery(stored + [n]);
      && n.category in PickerCategories
      && n.category in Categories(q)
      && n in FilteredNews(q, n.category)
  {
    var n := Publish(ApplyNewsEdits(NewNewsForm(now), edits)).value;
    var q := NewsQuery(stored + [n]);
    assert n in multiset(stored + [n]);
    assert n in q;
  }

  // ------------------------------------------------------------ on seeded data

  const SeededChips: seq<string> := ["Academic", All, "Events", "Sports"]

  lemma SeededChipsSorted()
    ensures StrictlySorted(SeededChips)
  {
    var c := SeededChips;
    assert Less(c[0], c[1]) && Less(c[0], c[2]) && Less(c[0], c[3]);
    assert Less(c[1], c[2]) && Less(c[1], c[3]);
    assert Less(c[2], c[3]);
  }

  /** On the seeded store the chips read Academic, All, Events, Sports: "All" is sorted in, not put first. */
  lemma SeededCategories(now: Date)
    ensures Categories(NewsQuery(SampleData.Seeded(now).news)) == SeededChips
  {
    SampleData.PopulateAppends(EmptyStore, now);
    var stored := SampleData.Seeded(now).news;
    assert stored == SampleData.SampleNews(now);
    CategoriesIgnoreOrder(NewsQuery(stored), stored);
    assert CategoriesOf(stored) == ["Academic", "Sports", "Events"];
    SeededChipsSorted();
    SortedUnique(SeededChips, Categories(stored));
  }

  /** Three articles with increasing dates come out of the query in reverse. */
  lemma QueryOfThree(x: NewsArticle, y: NewsArticle, z: NewsArticle)
    requires x.publishedDate < y.publishedDate < z.publishedDate
    ensures NewsQuery([x, y, z]) == [z, y, x]
  {
    assert [x, y, z][1..] == [y, z];
    assert [y, z][1..] == [z];
    assert [z][1..] == [];
    assert NewsQuery([z]) == [z];
    InsertOldest(y, [z]);
    assert NewsQuery([y, z]) == [z, y];
    InsertOldest(x, [z, y]);
  }

  /** An article older than every listed one goes to the end. */
  lemma {:induction false} InsertOldest(a: NewsArticle, s: seq<NewsArticle>)
    requires NewestFirst(s)
    requires forall k :: 0 <= k < |s| ==> a.publishedDate < s[k].publishedDate
    ensures InsertByDate(a, s) == s + [a]
    decreases |s|
  {
    if |s| > 0 {
      TailNewestFirst(s);
      InsertOldest(a, s[1..]);
      assert s == [s[0]] + s[1..];
    }
  }

  /** On the seeded store the feed reads Annual Day, Sports Facilities, Science Competition. */
  lemma SeededFeed(now: Date)
    ensures var n := SampleData.SampleNews(now);
      NewsQuery(SampleData.Seeded(now).news) == [n[2], n[1], n[0]]
  {
    SampleData.PopulateAppends(EmptyStore, now);
    var n := SampleData.SampleNews(now);
    SampleData.SampleNewsDates(now);
    assert SampleData.Seeded(now).news == [n[0], n[1], n[2]];
    QueryOfThree(n[0], n[1], n[2]);
  }
}
