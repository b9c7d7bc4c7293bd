/**
 * The remote article service: translation between the storage status words
 * ('read' / 'unread') and the interface labels, between table rows and
 * articles, the insert payload and the partial update patch.
 *
 * The hosted table itself is abstract: every call takes the reply of the
 * store as a parameter (a value, or a function of what is sent to it), where
 * `Failure(m)` / `Fail(m)` is a reply whose error carries the message `m`.
 */
module ArticleService {
  import opened Wrappers
  import opened Records

  /** The storage vocabulary of the `status` column. */
  const DbRead := "read"
  const DbUnread := "unread"

  /** `toUiStatus`: 'read' becomes "Lido", every other value "Não lido". */
  function ToUiStatus(db: string): (r: string)
    ensures r == Read <==> db == DbRead
    ensures IsStatus(r)
  {
    if db == DbRead then Read else Unread
  }

  /** `toDbStatus`: "Lido" becomes 'read', every other value 'unread'. */
  function ToDbStatus(ui: string): (r: string)
    ensures r == DbRead <==> ui == Read
    ensures r == DbRead || r == DbUnread
  {
    if ui == Read then DbRead else DbUnread
  }

  /** The two vocabularies translate into each other exactly. */
  lemma StatusRoundTrip(x: string, y: string)
    ensures x == DbRead || x == DbUnread ==> ToDbStatus(ToUiStatus(x)) == x
    ensures IsStatus(y) ==> ToUiStatus(ToDbStatus(y)) == y
  {
  }

  /** A row of the `articles` table; `None` is a NULL column. */
  datatype Row = Row(
    id: string,
    title: Option<string>,
    author: Option<string>,
    url: string,
    tag: Option<string>,
    savedAt: string,        // the `saved_at` column
    status: string)

  /** The row-to-article mapping shared by `listArticles` and `addArticle`. */
  function ToArticle(row: Row): (a: Article)
    ensures a.id == row.id && a.url == row.url && a.savedAt == row.savedAt
    ensures a.title == (if row.title.Some? then row.title.value else "")
    ensures a.author == (if row.author.Some? then row.author.value else "")
    ensures a.tag == (if row.tag.Some? then row.tag.value else DefaultTag)
    ensures IsStatus(a.status) && (a.status == Read <==> row.status == DbRead)
  {
    Article(
      row.id,
      row.title.GetOr(""),
      row.author.GetOr(""),
      row.url,
      row.tag.GetOr(DefaultTag),
      row.savedAt,
      ToUiStatus(row.status))
  }

  /** `listArticles`: the selected rows (no data reads as none), each mapped to an article. */
  function ListArticles(select: Result<Option<seq<Row>>, string>): (r: Result<seq<Article>, string>)
    ensures select.Failure? ==> r == Failure(select.error)
    ensures select.Success? ==> r.Success?
    ensures select.Success? ==>
      var rows := select.value.GetOr([]);
      && |r.value| == |rows|
      && forall i :: 0 <= i < |rows| ==> r.value[i] == ToArticle(rows[i])
    ensures r.Success? ==> forall a :: a in r.value ==> IsStatus(a.status)
  {
    match select
    case Failure(m) => Failure(m)
    case Success(data) =>
      var rows := data.GetOr([]);
      Success(seq(|rows|, i requires 0 <= i < |rows| => ToArticle(rows[i])))
  }

  /** The optional fields of `addArticle`; `None` is a key that is null or undefined. */
  datatype AddOptions = AddOptions(title: Option<string>, author: Option<string>, tag: Option<string>)

  /** The object literal inserted by `addArticle`; `None` is null. */
  datatype InsertPayload = InsertPayload(
    url: string,
    title: string,
    author: Option<string>,
    tag: Option<string>,
    status: string)

  /**
   * The insert payload: status always 'unread'; the url stands in for the title
   * only when no title was given (an empty title is kept); absent author and tag
   * are null.
   */
  function Payload(url: string, opts: AddOptions): (p: InsertPayload)
    ensures p.url == url && p.status == DbUnread
    ensures opts.title.None? ==> p.title == url
    ensures opts.title.Some? ==> p.title == opts.title.value
    ensures p.author == opts.author && p.tag == opts.tag
  {
    InsertPayload(url, opts.title.GetOr(url), opts.author, opts.tag, DbUnread)
  }

  /** The row the table stores for an insert; the id and `saved_at` are assigned by the store. */
  function Inserted(p: InsertPayload, id: string, savedAt: string): Row {
    Row(id, Some(p.title), p.author, p.url, p.tag, savedAt, p.status)
  }

  /**
   * `addArticle`: sends `Payload(url, opts)`; fails with the store's message, or
   * returns the stored row as an article.
   */
  function AddArticle(url: string, opts: AddOptions, insert: InsertPayload -> Result<Row, string>)
    : (r: Result<Article, string>)
    ensures insert(Payload(url, opts)).Failure? ==> r == Failure(insert(Payload(url, opts)).error)
    ensures insert(Payload(url, opts)).Success? ==> r == Success(ToArticle(insert(Payload(url, opts)).value))
  {
    match insert(Payload(url, opts))
    case Failure(m) => Failure(m)
    case Success(row) => Success(ToArticle(row))
  }

  /** Adding and reading back gives an unread article with the defaults filled in. */
  lemma AddThenRead(url: string, opts: AddOptions, id: string, savedAt: string)
    ensures ToArticle(Inserted(Payload(url, opts), id, savedAt))
         == Article(id, opts.title.GetOr(url), opts.author.GetOr(""), url,
                    opts.tag.GetOr(DefaultTag), savedAt, Unread)
  {
  }

  /** `m` with `key` set to the value, when there is one. */
  function Put(m: map<string, string>, key: string, v: Option<string>): map<string, string> {
    if v.Some? then m[key := v.value] else m
  }

  /**
   * The update patch of `updateArticleFields`: the columns of exactly the fields
   * the patch has among title, author, tag, status and savedAt; status in the
   * storage vocabulary, savedAt renamed `saved_at`, never `id` nor `url`.
   */
  function PatchColumns(p: ArticlePatch): (m: map<string, string>)
    ensures m.Keys <= {"title", "author", "tag", "status", "saved_at"}
    ensures "id" !in m && "url" !in m
    ensures ("title" in m <==> p.title.Some?) && ("title" in m ==> m["title"] == p.title.value)
    ensures ("author" in m <==> p.author.Some?) && ("author" in m ==> m["author"] == p.author.value)
    ensures ("tag" in m <==> p.tag.Some?) && ("tag" in m ==> m["tag"] == p.tag.value)
    ensures ("status" in m <==> p.status.Some?) && ("status" in m ==> m["status"] == ToDbStatus(p.status.value))
    ensures ("saved_at" in m <==> p.savedAt.Some?) && ("saved_at" in m ==> m["saved_at"] == p.savedAt.value)
  {
    var status := if p.status.Some? then Some(ToDbStatus(p.status.value)) else None;
    Put(Put(Put(Put(Put(map[], "title", p.title), "author", p.author), "tag", p.tag), "status", status),
        "saved_at", p.savedAt)
  }

  /** Builds the patch one conditional assignment at a time, as `updateArticleFields` does. */
  method BuildPatch(p: ArticlePatch) returns (patchDb: map<string, string>)
    ensures patchDb == PatchColumns(p)
  {
    patchDb := map[];
    if p.title.Some? { patchDb := patchDb["title" := p.title.value]; }
    assert patchDb == Put(map[], "title", p.title);
    if p.author.Some? { patchDb := patchDb["author" := p.author.value]; }
    assert patchDb == Put(Put(map[], "title", p.title), "author", p.author);
    ghost var before := patchDb;
    if p.tag.Some? { patchDb := patchDb["tag" := p.tag.value]; }
    assert patchDb == Put(before, "tag", p.tag);
    before := patchDb;
    var status := if p.status.Some? then Some(ToDbStatus(p.status.value)) else None;
    if p.status.Some? { patchDb := patchDb["status" := ToDbStatus(p.status.value)]; }
    assert patchDb == Put(before, "status", status);
    before := patchDb;
    if p.savedAt.Some? { patchDb := patchDb["saved_at" := p.savedAt.value]; }
    assert patchDb == Put(before, "saved_at", p.savedAt);
  }

  /** `updateArticleFields`: sends the patch for row `id` and passes the store's error on. */
  method UpdateArticleFields(id: string, p: ArticlePatch, update: (string, map<string, string>) -> Outcome<string>)
    returns (r: Outcome<string>)
    ensures r == update(id, PatchColumns(p))
  {
    var patchDb := BuildPatch(p);
    r := update(id, patchDb);
  }

  /** What an UPDATE with the given columns does to a row. */
  function ApplyColumns(row: Row, m: map<string, string>): Row {
    Row(
      if "id" in m then m["id"] else row.id,
      if "title" in m then Some(m["title"]) else row.title,
      if "author" in m then Some(m["author"]) else row.author,
      if "url" in m then m["url"] else row.url,
      if "tag" in m then Some(m["tag"]) else row.tag,
      if "saved_at" in m then m["saved_at"] else row.savedAt,
      if "status" in m then m["status"] else row.status)
  }

  /**
   * Updating a row remotely and reading it back agrees with merging the same
   * patch into the article locally, for patches that carry no id or url and at
   * most a valid status label.
   */
  lemma RemoteUpdateAgreesWithLocal(row: Row, p: ArticlePatch)
    requires p.id.None? && p.url.None?
    requires p.status.Some? ==> IsStatus(p.status.value)
    ensures ToArticle(ApplyColumns(row, PatchColumns(p))) == Patched(ToArticle(row), p)
  {
    if p.status.Some? {
      StatusRoundTrip(DbRead, p.status.value);
    }
  }

  /** The patch of `toggleRead`: only the status column, 'read' exactly when `uiRead`. */
  function ToggleColumns(uiRead: bool): (m: map<string, string>)
    ensures m.Keys == {"status"}
    ensures m["status"] == DbRead <==> uiRead
    ensures m["status"] == DbRead || m["status"] == DbUnread
  {
    map["status" := if uiRead then DbRead else DbUnread]
  }

  /** `toggleRead`: writes the status chosen by `uiRead` to row `id`. */
  function ToggleRead(id: string, uiRead: bool, update: (string, map<string, string>) -> Outcome<string>)
    : (r: Outcome<string>)
    ensures r == update(id, ToggleColumns(uiRead))
  {
    update(id, ToggleColumns(uiRead))
  }

  /**
   * Toggling to the same state twice is toggling once; the row then reads back
   * with the matching label; and the toggle sends what a status-only field
   * update would.
   */
  lemma ToggleReadIdempotent(row: Row, uiRead: bool)
    ensures ApplyColumns(ApplyColumns(row, ToggleColumns(uiRead)), ToggleColumns(uiRead))
         == ApplyColumns(row, ToggleColumns(uiRead))
    ensures ToArticle(ApplyColumns(row, ToggleColumns(uiRead))).status == (if uiRead then Read else Unread)
    ensures ToggleColumns(uiRead) == PatchColumns(StatusPatch(if uiRead then Read else Unread))
  {
    var m := PatchColumns(StatusPatch(if uiRead then Read else Unread));
    assert m.Keys == {"status"};
  }

  /** `removeArticle`: deletes row `id` and passes the store's error on. */
  function RemoveArticle(id: string, delete: string -> Outcome<string>): (r: Outcome<string>)
    ensures r.Fail? <==> delete(id).Fail?
    ensures r.Fail? ==> r.error == delete(id).error
  {
    delete(id)
  }
}
