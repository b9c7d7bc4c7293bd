/**
 * The local read list: the articles and tags the page keeps, the filter
 * criteria, the bookmarklet prefill awaiting confirmation, and the handlers
 * that replace them; and the inline editor of a title or author cell.
 *
 * URL parsing is abstract: a `UrlParser` stands for `new URL(s)`, answering
 * `None` where the constructor throws. Ids, timestamps and the answers to
 * `prompt` / `confirm` are parameters.
 */
module App {
  import opened Wrappers
  import opened Text
  import opened Seqs
  import opened Records

  /** The parts of a parsed URL that the default title uses. */
  datatype UrlParts = UrlParts(hostname: string, pathname: string)

  type UrlParser = string -> Option<UrlParts>

  /** The selector value that disables the tag or the status criterion. */
  const All := "Todos"

  datatype Filters = Filters(tag: string, status: string, search: string)

  const NoFilters := Filters(All, All, "")

  datatype Prefill = Prefill(title: string, author: string)

  const InitialTags: seq<string> := ["Geral", "Tecnologia", "Negócios", "Educação"]

  /** What `onAddUrl` did: nothing (blank input), an alert, or an insertion. */
  datatype AddOutcome = Blank | InvalidUrl | DuplicateUrl | Added

  /** What `addNewTag` did: nothing (cancelled or blank), an alert, or an insertion. */
  datatype TagOutcome = TagBlank | TagExists | TagAdded

  predicate HasUrl(articles: seq<Article>, u: string) {
    exists i :: 0 <= i < |articles| && articles[i].url == u
  }

  predicate UniqueUrls(articles: seq<Article>) {
    forall i, j :: 0 <= i < j < |articles| ==> articles[i].url != articles[j].url
  }

  predicate NoDuplicates(tags: seq<string>) {
    forall i, j :: 0 <= i < j < |tags| ==> tags[i] != tags[j]
  }

  /**
   * The title derived from a URL: the hostname without one leading "www.",
   * then the pathname, with every trailing '/' removed; it never ends in '/'.
   */
  function DefaultTitle(u: UrlParts): (r: string)
    ensures r == [] || r[|r| - 1] != '/'
  {
    StripTrailingSlashes(StripWww(u.hostname) + u.pathname)
  }

  /** The default title is the stripped host and the path, less a run of trailing slashes. */
  lemma DefaultTitleShape(u: UrlParts)
    ensures var full := StripWww(u.hostname) + u.pathname;
      && StartsWith(full, DefaultTitle(u))
      && forall i :: |DefaultTitle(u)| <= i < |full| ==> full[i] == '/'
  {
  }

  /** `https://example.com/a` gets the title `example.com/a`. */
  lemma DefaultTitleExample()
    ensures DefaultTitle(UrlParts("example.com", "/a")) == "example.com/a"
  {
    assert "example.com"[..4] == "exam";
    StripTrailingSlashesOf("example.com/a", "");
    assert "example.com/a" + "" == "example.com/a";
  }

  /** One "www." goes and every trailing slash goes. */
  lemma DefaultTitleStripsSlashes()
    ensures DefaultTitle(UrlParts("www.example.com", "/docs//")) == "example.com/docs"
  {
    assert "www.example.com"[..4] == "www.";
    assert StripWww("www.example.com") + "/docs//" == "example.com/docs" + "//";
    StripTrailingSlashesOf("example.com/docs", "//");
  }

  /** Only one leading "www." goes. */
  lemma DefaultTitleStripsOneWww()
    ensures DefaultTitle(UrlParts("www.www.example.com", "/")) == "www.example.com"
  {
    assert "www.www.example.com"[..4] == "www.";
    assert StripWww("www.www.example.com") + "/" == "www.example.com" + "/";
    StripTrailingSlashesOf("www.example.com", "/");
  }

  /** `prefill?.title && prefill.title.trim()`, read as a string ("" when falsy). */
  function PrefillTitle(prefill: Option<Prefill>): string {
    if prefill.Some? then Trim(prefill.value.title) else ""
  }

  /** `(prefill?.author && prefill.author.trim()) || ""`. */
  function PrefillAuthor(prefill: Option<Prefill>): string {
    if prefill.Some? then Trim(prefill.value.author) else ""
  }

  /**
   * The stored title, by preference: the trimmed prefill title, the default
   * title, the trimmed URL; so it is never empty when the URL is not.
   */
  function ChosenTitle(prefill: Option<Prefill>, defaultTitle: string, trimmed: string): (r: string)
    ensures PrefillTitle(prefill) != "" ==> r == PrefillTitle(prefill)
    ensures PrefillTitle(prefill) == "" && defaultTitle != "" ==> r == defaultTitle
    ensures PrefillTitle(prefill) == "" && defaultTitle == "" ==> r == trimmed
    ensures trimmed != "" ==> r != ""
  {
    var t := PrefillTitle(prefill);
    if t != "" then t else if defaultTitle != "" then defaultTitle else trimmed
  }

  /** `tags[i] || fallback`: an absent or empty entry falls back. */
  function TagAt(tags: seq<string>, i: nat, fallback: string): (r: string)
    ensures i < |tags| && tags[i] != "" ==> r == tags[i]
    ensures !(i < |tags| && tags[i] != "") ==> r == fallback
  {
    if i < |tags| && tags[i] != "" then tags[i] else fallback
  }

  /** The two sample articles of `addExamples`, each with its own id and timestamp. */
  function Samples(tags: seq<string>, id1: string, id2: string, now1: string, now2: string): seq<Article> {
    [ Article(id1, "[Exemplo] Bounded Context (DDD)", "Martin Fowler",
              "https://martinfowler.com/bliki/BoundedContext.html",
              TagAt(tags, 1, "Tecnologia"), now1, Unread),
      Article(id2, "[Exemplo] Product-Market Fit Survey", "Sean Ellis",
              "https://www.seanellis.me/product-market-fit",
              TagAt(tags, 2, "Negócios"), now2, Read) ]
  }

  /** The status the toggle button writes: "Lido" becomes "Não lido", anything else "Lido". */
  function Toggled(status: string): (r: string)
    ensures IsStatus(r)
    ensures r == Read <==> status != Read
  {
    if status == Read then Unread else Read
  }

  lemma ToggledTwice(status: string)
    requires IsStatus(status)
    ensures Toggled(Toggled(status)) == status
  {
  }

  /** The three criteria of the visible list: tag, status, and the case-insensitive search. */
  predicate Matches(a: Article, f: Filters) {
    var tagOk := f.tag == All || a.tag == f.tag;
    var statusOk := f.status == All || a.status == f.status;
    var s := Lower(f.search);
    var searchOk := s == "" || Includes(Lower(a.title), s) || Includes(Lower(a.author), s) || Includes(Lower(a.url), s);
    tagOk && statusOk && searchOk
  }

  /**
   * An article is visible exactly when its tag and status pass their selectors
   * and the lowered search text is empty or occurs in its lowered title, author or url.
   */
  lemma SearchMeaning(a: Article, f: Filters)
    ensures Matches(a, f) <==>
      && (f.tag == All || a.tag == f.tag)
      && (f.status == All || a.status == f.status)
      && var s := Lower(f.search);
         s == [] || (exists i :: OccursAt(Lower(a.title), s, i)) || (exists i :: OccursAt(Lower(a.author), s, i))
                 || (exists i :: OccursAt(Lower(a.url), s, i))
  {
    var s := Lower(f.search);
    IncludesIffOccurs(Lower(a.title), s);
    IncludesIffOccurs(Lower(a.author), s);
    IncludesIffOccurs(Lower(a.url), s);
  }

  /** The visible articles: an order-preserving subsequence holding exactly the matching ones. */
  function Filtered(articles: seq<Article>, f: Filters): (r: seq<Article>)
    ensures IsSubsequence(r, articles)
    ensures forall a :: multiset(r)[a] == (if Matches(a, f) then multiset(articles)[a] else 0)
    ensures forall a :: a in r ==> Matches(a, f)
    ensures forall a :: a in articles && Matches(a, f) ==> a in r
  {
    var r := Filter(articles, (a: Article) => Matches(a, f));
    assert forall a :: a in articles && Matches(a, f) ==> multiset(r)[a] > 0;
    r
  }

  /** With no criteria every article is visible, in the original order. */
  lemma FilteredNoFilters(articles: seq<Article>)
    ensures Filtered(articles, NoFilters) == articles
  {
    assert Lower("") == "";
    FilterAll(articles, (a: Article) => Matches(a, NoFilters));
  }

  /** `prev.filter(a => a.id !== id)`: no article with that id is left, the others keep their order. */
  function Without(articles: seq<Article>, id: string): (r: seq<Article>)
    ensures forall a :: multiset(r)[a] == (if a.id != id then multiset(articles)[a] else 0)
    ensures forall a :: a in r ==> a.id != id
    ensures forall a :: a in articles && a.id != id ==> a in r
    ensures IsSubsequence(r, articles)
  {
    var r := Filter(articles, (a: Article) => a.id != id);
    assert forall a :: a in articles && a.id != id ==> multiset(r)[a] > 0;
    r
  }

  /** `prev.map(a => a.id === id ? { ...a, ...patch } : a)`. */
  function MapPatch(articles: seq<Article>, id: string, p: ArticlePatch): (r: seq<Article>)
    ensures |r| == |articles|
    ensures forall i :: 0 <= i < |r| && articles[i].id != id ==> r[i] == articles[i]
    ensures forall i :: 0 <= i < |r| && articles[i].id == id ==> r[i] == Patched(articles[i], p)
  {
    seq(|articles|, i requires 0 <= i < |articles| => if articles[i].id == id then Patched(articles[i], p) else articles[i])
  }

  /** Patching twice with a patch that keeps the id is patching once. */
  lemma MapPatchIdempotent(articles: seq<Article>, id: string, p: ArticlePatch)
    requires p.id.None? || p.id == Some(id)
    ensures MapPatch(MapPatch(articles, id, p), id, p) == MapPatch(articles, id, p)
  {
    var once := MapPatch(articles, id, p);
    forall i | 0 <= i < |articles| ensures MapPatch(once, id, p)[i] == once[i] {
      PatchedIdempotent(articles[i], p);
    }
  }

  /** A patch that leaves urls alone keeps them unique. */
  lemma MapPatchKeepsUniqueUrls(articles: seq<Article>, id: string, p: ArticlePatch)
    requires p.url.None? && UniqueUrls(articles)
    ensures UniqueUrls(MapPatch(articles, id, p))
  {
    var r := MapPatch(articles, id, p);
    assert forall i :: 0 <= i < |r| ==> r[i].url == articles[i].url;
  }

  /** Toggling an article's status twice, from either label, restores the list. */
  lemma ToggleTwiceRestores(articles: seq<Article>, id: string, status: string)
    requires IsStatus(status)
    requires forall a :: a in articles && a.id == id ==> a.status == status
    ensures MapPatch(MapPatch(articles, id, StatusPatch(Toggled(status))), id, StatusPatch(Toggled(Toggled(status))))
         == articles
  {
    var once := MapPatch(articles, id, StatusPatch(Toggled(status)));
    var twice := MapPatch(once, id, StatusPatch(Toggled(Toggled(status))));
    forall i | 0 <= i < |articles| ensures twice[i] == articles[i] {
      if articles[i].id == id {
        assert articles[i] in articles;
      }
    }
  }

  /** Removing an article after patching it is removing it, when the patch keeps the id. */
  lemma RemoveAfterPatch(articles: seq<Article>, id: string, p: ArticlePatch)
    requires p.id.None?
    ensures Without(MapPatch(articles, id, p), id) == Without(articles, id)
  {
    FilterPointwise(MapPatch(articles, id, p), articles, (a: Article) => a.id != id, (a: Article) => a.id != id);
  }

  /** Putting an article with a new url in front keeps the urls unique. */
  lemma PrependKeepsUniqueUrls(articles: seq<Article>, item: Article)
    requires UniqueUrls(articles) && !HasUrl(articles, item.url)
    ensures UniqueUrls([item] + articles)
  {
    var r := [item] + articles;
    forall i, j | 0 <= i < j < |r| ensures r[i].url != r[j].url {
      if i == 0 {
        assert r[j] == articles[j - 1];
      } else {
        assert r[i] == articles[i - 1] && r[j] == articles[j - 1];
      }
    }
  }

  /**
   * The checks of `onAddUrl`, in order: a blank input is ignored, then an input
   * that does not parse as a URL is rejected, then one already in the list.
   */
  function Classify(trimmed: string, parse: UrlParser, articles: seq<Article>): (r: AddOutcome)
    ensures r == Blank <==> trimmed == ""
    ensures r == InvalidUrl <==> trimmed != "" && parse(trimmed).None?
    ensures r == DuplicateUrl <==> trimmed != "" && parse(trimmed).Some? && HasUrl(articles, trimmed)
    ensures r == Added <==> trimmed != "" && parse(trimmed).Some? && !HasUrl(articles, trimmed)
  {
    if trimmed == "" then Blank
    else if parse(trimmed).None? then InvalidUrl
    else if HasUrl(articles, trimmed) then DuplicateUrl
    else Added
  }

  /** `sp.get(key) || ''`: a missing query parameter reads as empty. */
  function Param(query: map<string, string>, key: string): string {
    if key in query then query[key] else ""
  }

  /** The page's state, gathered for contracts. */
  datatype ListState = ListState(
    url: string,
    articles: seq<Article>,
    tags: seq<string>,
    filters: Filters,
    prefill: Option<Prefill>,
    pending: bool)

  /** The read-list component's state and its handlers. */
  class ReadList {
    var url: string                  // the add-form input
    var articles: seq<Article>
    var tags: seq<string>
    var filters: Filters
    var prefill: Option<Prefill>
    var pending: bool                // `pendingFromBookmarklet`

    function State(): ListState
      reads this
    {
      ListState(url, articles, tags, filters, prefill, pending)
    }

    /** The visible list. */
    function Visible(): (r: seq<Article>)
      reads this
      ensures IsSubsequence(r, articles)
    {
      Filtered(articles, filters)
    }

    /**
     * Mounting: the stored collections when there are any (already parsed),
     * otherwise no articles and the four initial tags.
     */
    constructor(storedArticles: Option<seq<Article>>, storedTags: Option<seq<string>>)
      ensures State() == ListState("", storedArticles.GetOr([]), storedTags.GetOr(InitialTags), NoFilters, None, false)
    {
      url := "";
      articles := storedArticles.GetOr([]);
      tags := storedTags.GetOr(InitialTags);
      filters := NoFilters;
      prefill := None;
      pending := false;
    }

    /**
     * The bookmarklet intake: a non-empty `url` parameter fills the input and
     * the prefill and marks it pending; otherwise nothing changes.
     */
    method ReceiveBookmarklet(query: map<string, string>)
      modifies this
      ensures Param(query, "url") == "" ==> State() == old(State())
      ensures Param(query, "url") != "" ==>
        State() == old(State()).(url := Param(query, "url"),
                                 prefill := Some(Prefill(Param(query, "title"), Param(query, "author"))),
                                 pending := true)
    {
      var u := Param(query, "url");
      if u != "" {
        url := u;
        var t := Param(query, "title");
        var a := Param(query, "author");
        prefill := Some(Prefill(t, a));
        pending := true;
      }
    }

    /** Typing in the add form. */
    method EditUrl(u: string)
      modifies this
      ensures State() == old(State()).(url := u)
    {
      url := u;
    }

    /** Choosing a tag or status or typing a search. */
    method SetFilters(f: Filters)
      modifies this
      ensures State() == old(State()).(filters := f)
    {
      filters := f;
    }

    /**
     * `onAddUrl`: a blank input is ignored, an invalid or already listed URL is
     * rejected, and nothing changes in those cases; otherwise the new unread
     * article goes in front and the form and the prefill are reset.
     */
    method OnAddUrl(parse: UrlParser, freshId: string, now: string) returns (outcome: AddOutcome)
      modifies this
      ensures outcome == Classify(Trim(old(url)), parse, old(articles))
      ensures outcome != Added ==> State() == old(State())
      ensures outcome == Added ==>
        var t := Trim(old(url));
        && parse(t).Some?
        && |articles| == |old(articles)| + 1
        && articles[1..] == old(articles)
        && articles[0] == Article(freshId,
                                  ChosenTitle(old(prefill), DefaultTitle(parse(t).value), t),
                                  PrefillAuthor(old(prefill)),
                                  t,
                                  TagAt(old(tags), 0, DefaultTag),
                                  now,
                                  Unread)
        && State() == old(State()).(url := "", articles := articles, prefill := None, pending := false)
      ensures UniqueUrls(old(articles)) ==> UniqueUrls(articles)
    {
      var trimmed := Trim(url);
      outcome := Classify(trimmed, parse, articles);
      if outcome == Added {
        var item := Article(freshId,
                            ChosenTitle(prefill, DefaultTitle(parse(trimmed).value), trimmed),
                            PrefillAuthor(prefill),
                            trimmed,
                            TagAt(tags, 0, DefaultTag),
                            now,
                            Unread);
        if UniqueUrls(articles) {
          PrependKeepsUniqueUrls(articles, item);
        }
        articles := [item] + articles;
        url := "";
        prefill := None;
        pending := false;
      }
    }

    /** `updateArticle`: merges the patch into every article with that id. */
    method UpdateArticle(id: string, p: ArticlePatch)
      modifies this
      ensures State() == old(State()).(articles := MapPatch(old(articles), id, p))
    {
      articles := MapPatch(articles, id, p);
    }

    /** The status button of article `a`: writes the toggled label. */
    method ToggleStatus(a: Article)
      modifies this
      ensures State() == old(State()).(articles := MapPatch(old(articles), a.id, StatusPatch(Toggled(a.status))))
    {
      UpdateArticle(a.id, StatusPatch(Toggled(a.status)));
    }

    /** `removeArticle`. */
    method RemoveArticle(id: string)
      modifies this
      ensures State() == old(State()).(articles := Without(old(articles), id))
    {
      articles := Without(articles, id);
    }

    /**
     * `addNewTag` with the answer to the prompt (`None`: cancelled): a blank or
     * existing name changes nothing, a new one is appended trimmed, so the tag
     * list stays free of duplicates.
     */
    method AddNewTag(answer: Option<string>) returns (outcome: TagOutcome)
      modifies this
      ensures var clean := if answer.Some? then Trim(answer.value) else "";
        && outcome == (if clean == "" then TagBlank else if clean in old(tags) then TagExists else TagAdded)
        && (outcome == TagAdded ==> State() == old(State()).(tags := old(tags) + [clean]))
      ensures outcome != TagAdded ==> State() == old(State())
      ensures NoDuplicates(old(tags)) ==> NoDuplicates(tags)
    {
      var clean := if answer.Some? then Trim(answer.value) else "";
      if clean == "" {
        return TagBlank;
      }
      if clean in tags {
        return TagExists;
      }
      tags := tags + [clean];
      outcome := TagAdded;
    }

    /** `clearAll`, with the answer to the confirmation. */
    method ClearAll(confirmed: bool)
      modifies this
      ensures State() == if confirmed then old(State()).(articles := []) else old(State())
    {
      if confirmed {
        articles := [];
      }
    }

    /** `addExamples`: prepends the two samples, without any duplicate check. */
    method AddExamples(id1: string, id2: string, now1: string, now2: string)
      modifies this
      ensures State() == old(State()).(articles := Samples(old(tags), id1, id2, now1, now2) + old(articles))
    {
      articles := Samples(tags, id1, id2, now1, now2) + articles;
    }

    /** The discard button of the bookmarklet preview: drops the prefill, keeps the articles. */
    method DiscardBookmarklet()
      modifies this
      ensures State() == old(State()).(url := "", prefill := None, pending := false)
    {
      prefill := None;
      pending := false;
      url := "";
    }
  }

  /**
   * An editable cell: shows `value`; while editing, `draft` holds the text.
   * `Enter` and leaving the field commit the trimmed draft, `Escape` throws it away.
   */
  class InlineEdit {
    var value: string      // the current value of the field, a property of the cell
    var editing: bool
    var draft: string

    constructor(value: string)
      ensures this.value == value && !editing && draft == value
    {
      this.value := value;
      editing := false;
      draft := value;
    }

    /** The owner passes `v` as the value: a value that differs from the current one resets the draft. */
    method ValueChanged(v: string)
      modifies this
      ensures value == v && editing == old(editing)
      ensures draft == if v != old(value) then v else old(draft)
    {
      if v != value {
        value := v;
        draft := v;
      }
    }

    /** Clicking the cell. */
    method Open()
      modifies this
      ensures editing && value == old(value) && draft == old(draft)
    {
      editing := true;
    }

    /** Typing while editing. */
    method Type(text: string)
      requires editing
      modifies this
      ensures editing && value == old(value) && draft == text
    {
      draft := text;
    }

    /**
     * A key press while editing: `Enter` returns the trimmed draft for the
     * owner's `onChange` and stops editing; `Escape` restores the draft to the
     * value and stops editing without committing; other keys do nothing.
     */
    method KeyDown(key: string) returns (committed: Option<string>)
      requires editing
      modifies this
      ensures value == old(value)
      ensures key == "Enter" ==> committed == Some(Trim(old(draft))) && !editing && draft == old(draft)
      ensures key == "Escape" ==> committed == None && !editing && draft == value
      ensures key != "Enter" && key != "Escape" ==> committed == None && editing && draft == old(draft)
    {
      committed := None;
      if key == "Enter" {
        committed := Some(Trim(draft));
        editing := false;
      }
      if key == "Escape" {
        draft := value;
        editing := false;
      }
    }

    /** Leaving the field while editing commits the trimmed draft. */
    method Blur() returns (committed: string)
      requires editing
      modifies this
      ensures committed == Trim(old(draft)) && !editing && value == old(value) && draft == old(draft)
    {
      committed := Trim(draft);
      editing := false;
    }
  }
}
