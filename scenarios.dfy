/**
 * Whole runs of the read list from an empty page, derived from the handlers'
 * contracts.
 */
module Scenarios {
  import opened Wrappers
  import opened Text
  import opened Seqs
  import opened Records
  import opened App

  /** A one-article list whose article misses the criteria shows nothing. */
  lemma FilteredSingleMiss(a: Article, f: Filters)
    requires !Matches(a, f)
    ensures Filtered([a], f) == []
  {
    var r := Filtered([a], f);
    SubsequenceMembers(r, [a]);
  }

  /** Removing the only article by its id empties the list. */
  lemma WithoutSingle(a: Article)
    ensures Without([a], a.id) == []
  {
    var r := Without([a], a.id);
    SubsequenceMembers(r, [a]);
  }

  /** The article the example URL becomes on an empty list. */
  function ExampleArticle(id: string, now: string): Article {
    Article(id, "example.com/a", "", "https://example.com/a", "Geral", now, Unread)
  }

  /**
   * One run on one page, from an empty list: adding `https://example.com/a`
   * gives one unread article titled `example.com/a`; toggling its status makes
   * it read; a filter on unread articles then shows nothing; removing it
   * empties the list.
   */
  method AddToggleFilterRemove(parse: UrlParser, id: string, now: string)
    returns (outcome: AddOutcome, added: seq<Article>, toggled: seq<Article>, visible: seq<Article>,
             remaining: seq<Article>)
    requires parse("https://example.com/a") == Some(UrlParts("example.com", "/a"))
    ensures outcome == Added
    ensures added == [ExampleArticle(id, now)]
    ensures toggled == [ExampleArticle(id, now).(status := Read)]
    ensures visible == []
    ensures remaining == []
  {
    var list := new ReadList(None, None);
    var u := "https://example.com/a";
    list.EditUrl(u);
    TrimUnchanged(u);
    DefaultTitleExample();
    assert ChosenTitle(None, "example.com/a", u) == "example.com/a";
    assert Classify(u, parse, []) == Added;
    outcome := list.OnAddUrl(parse, id, now);
    assert list.articles[1..] == [];
    added := list.articles;

    var a := added[0];
    list.ToggleStatus(a);
    toggled := list.articles;
    assert toggled == [a.(status := Read)];

    list.SetFilters(Filters(All, Unread, ""));
    visible := list.Visible();
    FilteredSingleMiss(a.(status := Read), Filters(All, Unread, ""));

    list.RemoveArticle(id);
    remaining := list.articles;
    WithoutSingle(a.(status := Read));
  }

  /** What the bookmarklet link `?url=https://x.test&title=Foo` carries. */
  const Query := map["url" := "https://x.test", "title" := "Foo"]

  /** The link's parameters as the intake reads them; the absent author reads as empty. */
  lemma QueryParams()
    ensures Param(Query, "url") == "https://x.test"
    ensures Param(Query, "title") == "Foo"
    ensures Param(Query, "author") == ""
  {
  }

  /**
   * The bookmarklet link prefills title "Foo" and marks it pending; discarding
   * clears both and keeps the (empty) list.
   */
  method BookmarkletDiscard()
    returns (prefilled: Option<Prefill>, pendingBefore: bool, prefillAfter: Option<Prefill>, pendingAfter: bool,
             articles: seq<Article>)
    ensures prefilled == Some(Prefill("Foo", "")) && pendingBefore
    ensures prefillAfter == None && !pendingAfter && articles == []
  {
    var list := new ReadList(None, None);
    QueryParams();
    list.ReceiveBookmarklet(Query);
    prefilled, pendingBefore := list.prefill, list.pending;
    list.DiscardBookmarklet();
    prefillAfter, pendingAfter, articles := list.prefill, list.pending, list.articles;
  }

  /** The title the confirmation stores for the link: the prefill's "Foo". */
  lemma ConfirmedTitle(d: string)
    ensures ChosenTitle(Some(Prefill("Foo", "")), d, "https://x.test") == "Foo"
  {
    TrimUnchanged("Foo");
  }

  /** Confirming the bookmarklet link instead adds exactly one unread article titled "Foo". */
  method BookmarkletConfirm(parse: UrlParser, id: string, now: string)
    returns (outcome: AddOutcome, pendingAfter: bool, articles: seq<Article>)
    requires parse("https://x.test").Some?
    ensures outcome == Added && !pendingAfter
    ensures |articles| == 1 && articles[0].title == "Foo" && articles[0].url == "https://x.test"
    ensures articles[0].status == Unread
  {
    var list := new ReadList(None, None);
    QueryParams();
    list.ReceiveBookmarklet(Query);
    assert list.url == "https://x.test" && list.prefill == Some(Prefill("Foo", "")) && list.articles == [];
    TrimUnchanged("https://x.test");
    ConfirmedTitle(DefaultTitle(parse("https://x.test").value));
    assert Classify("https://x.test", parse, []) == Added;
    outcome := list.OnAddUrl(parse, id, now);
    assert list.articles[1..] == [];
    pendingAfter, articles := list.pending, list.articles;
  }
}
