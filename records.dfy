/** The article record shared by the local list and the remote service, and its status labels. */
module Records {
  import opened Wrappers

  /** The two status labels the user interface shows and stores locally. */
  const Read := "Lido"
  const Unread := "Não lido"

  /** The tag an article gets when nothing better is known. */
  const DefaultTag := "Geral"

  predicate IsStatus(s: string) {
    s == Read || s == Unread
  }

  /** An article as the user interface holds it (`savedAt` is an ISO timestamp string). */
  datatype Article = Article(
    id: string,
    title: string,
    author: string,
    url: string,
    tag: string,
    savedAt: string,
    status: string)

  /** A partial article object literal: a `None` field is a key the object does not have. */
  datatype ArticlePatch = ArticlePatch(
    id: Option<string>,
    title: Option<string>,
    author: Option<string>,
    url: Option<string>,
    tag: Option<string>,
    savedAt: Option<string>,
    status: Option<string>)

  const NoChange := ArticlePatch(None, None, None, None, None, None, None)

  function TitlePatch(v: string): ArticlePatch { NoChange.(title := Some(v)) }
  function AuthorPatch(v: string): ArticlePatch { NoChange.(author := Some(v)) }
  function TagPatch(v: string): ArticlePatch { NoChange.(tag := Some(v)) }
  function StatusPatch(v: string): ArticlePatch { NoChange.(status := Some(v)) }

  /** `{ ...a, ...patch }`: the keys the patch has win, every other field is kept. */
  function Patched(a: Article, p: ArticlePatch): Article {
    Article(
      p.id.GetOr(a.id),
      p.title.GetOr(a.title),
      p.author.GetOr(a.author),
      p.url.GetOr(a.url),
      p.tag.GetOr(a.tag),
      p.savedAt.GetOr(a.savedAt),
      p.status.GetOr(a.status))
  }

  /** Merging the same patch twice is merging it once; the empty patch changes nothing. */
  lemma PatchedIdempotent(a: Article, p: ArticlePatch)
    ensures Patched(Patched(a, p), p) == Patched(a, p)
    ensures Patched(a, NoChange) == a
  {
  }
}
