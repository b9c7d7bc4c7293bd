# Read-list model

A Dafny model of a small "read it later" web application. It covers three parts.

- **The local read list** (`App`, with `Records`, `Text` and `Seqs`). The page keeps the
  saved articles, the tag list, the filter criteria and a pending bookmarklet prefill.
  Handlers replace these: add a URL (validation, duplicate rejection, default title),
  patch by id, toggle read/unread, remove, clear, add the sample articles, add a tag and
  take in or discard a bookmarklet link. The visible list is a three-way filter. An
  inline cell editor commits or cancels a draft.
- **The remote article service** (`ArticleService`). It translates between the storage
  status words `read`/`unread` and the labels "Lido"/"Não lido". It maps table rows to
  articles, builds the insert payload, builds the partial update patch and chooses the
  toggle's status.
- **The password form** (`SetPassword`). It checks the new password locally and then
  calls the backend. A reauthentication complaint from the backend sends a reset e-mail.

The page state and the form state are classes whose methods change their fields. Each
method's contract gives the whole new state. The pure parts (default title, filter, row
mapping, patch building) are functions with their own contracts and lemmas. The
`Scenarios` module derives three user runs from the handlers' contracts, each on a page object of its
own: add, toggle, filter and remove; a bookmarklet link discarded; the same link confirmed.

Inputs the program receives from outside are parameters:
- the URL parser (`new URL`), abstracted as `UrlParser`, with `None` where it throws;
- fresh ids and timestamps;
- the answers to `prompt` and `confirm`;
- the bookmarklet query string, as a map;
- the replies of the hosted table and the authentication service, as values, or as
  functions of what is sent to them.

## Model

| member | source | states |
|---|---|---|
| Text.IsSpace | src/App.jsx:53 | definition, no contract: the ECMAScript WhiteSpace and LineTerminator characters, which `trim` removes |
| Text.CountLeading | src/App.jsx:53 | the count is at most the length, every counted leading character has the property, and the next one does not |
| Text.CountTrailing | src/App.jsx:59 | the same for trailing characters |
| Text.Trim | src/App.jsx:53 | `trim` never lengthens a string, and the result starts and ends with a non-space character (or is empty) |
| Text.CutRuns | src/App.jsx:53 | cutting a leading and then a trailing run of characters with a property leaves a slice of the input with only such characters on either side |
| Text.TrimIsSlice | src/App.jsx:53 | the trimmed string occurs in the input with only white space on either side |
| Text.TrimBlank | src/App.jsx:53-54 | `trim` gives the empty string exactly when the input is all white space |
| Text.TrimIdempotent | src/App.jsx:81 | trimming twice is trimming once |
| Text.TrimUnchanged | src/App.jsx:53 | a string with no white space at either end is its own trim |
| Text.Lower | src/App.jsx:120-121 | definition, no contract: `toLowerCase` on ASCII letters, every other character unchanged |
| Text.Includes | src/App.jsx:121 | definition, no contract: `includes`, tried at each start position in turn |
| Text.IncludesIffOccurs | src/App.jsx:121 | `includes` holds exactly when the needle occurs at some index |
| Text.IncludesEmpty | src/App.jsx:121 | every string includes the empty string |
| Text.StripWww | src/App.jsx:59 | `replace(/^www\./, "")` drops exactly one leading "www." and leaves any other string unchanged |
| Text.StripTrailingSlashes | src/App.jsx:59 | `replace(/\/+$/, "")` keeps a prefix, removes only '/' characters, and the result does not end in '/' |
| Text.StripTrailingSlashesOf | src/App.jsx:59 | a run of '/' appended to a string that does not end in '/' is removed exactly |
| Text.Utf16Length | src/components/SetPassword.jsx:15 | the UTF-16 `length` lies between the number of code points and twice that number, and equals it exactly when every character is in the Basic Multilingual Plane |
| Seqs.Filter | src/App.jsx:117-123 | `filter` keeps exactly the elements satisfying the predicate, with their multiplicities, as an order-preserving subsequence |
| Seqs.SubsequenceMembers | src/App.jsx:117 | every element of a subsequence is an element of the sequence |
| Seqs.FilterAll | src/App.jsx:117-123 | a predicate every element meets filters to the whole sequence |
| Seqs.FilterPointwise | src/App.jsx:77 | sequences kept at the same positions and equal where kept filter alike |
| Records.Patched | src/App.jsx:76 | definition, no contract: `{ ...a, ...patch }`, each key the patch has replaces the field, every other field is kept |
| Records.PatchedIdempotent | src/App.jsx:76 | the spread merge `{ ...a, ...patch }` applied twice equals once; the empty patch is the identity |
| ArticleService.ToUiStatus | src/services/articles.js:5 | 'read' maps to "Lido", every other value to "Não lido" |
| ArticleService.ToDbStatus | src/services/articles.js:6 | "Lido" maps to 'read', every other value to 'unread' |
| ArticleService.StatusRoundTrip | src/services/articles.js:5-6 | the two translations are inverse on {'read','unread'} and on {"Lido","Não lido"} |
| ArticleService.ToArticle | src/services/articles.js:15-23 | a row becomes an article with the same id, url and time; a null title or author becomes '', a null tag "Geral"; the status is a valid label, "Lido" exactly for 'read' |
| ArticleService.ListArticles | src/services/articles.js:9-24 | a select error is passed on; otherwise each row becomes one article, in order (missing data reads as none), with a valid status label |
| ArticleService.Payload | src/services/articles.js:28-34 | the insert payload has status 'unread'; the URL replaces only a missing title (an empty title is kept); a missing author or tag is null |
| ArticleService.Inserted | src/services/articles.js:35-39 | definition, no contract: the row an insert returns in an idealised table, which stores exactly the payload plus the id and time it assigns (no column defaults or triggers) |
| ArticleService.AddArticle | src/services/articles.js:27-50 | an insert error is passed on; otherwise the stored row is returned as an article |
| ArticleService.AddThenRead | src/services/articles.js:28-49 | an inserted row reads back unread, with title, author and tag defaults filled in |
| ArticleService.PatchColumns | src/services/articles.js:54-59 | the patch has exactly the columns of the fields the update carries among title, author, tag, status and savedAt; status is translated, `savedAt` becomes `saved_at`, and `id` and `url` never appear |
| ArticleService.BuildPatch | src/services/articles.js:53-59 | the five conditional assignments build exactly `PatchColumns` |
| ArticleService.UpdateArticleFields | src/services/articles.js:53-66 | sends that patch for the id and returns the store's outcome |
| ArticleService.ApplyColumns | src/services/articles.js:61-64 | definition, no contract: what an update of one row does in an idealised table, overwriting exactly the columns it is sent and nothing else |
| ArticleService.RemoteUpdateAgreesWithLocal | src/services/articles.js:54-63 | updating a row remotely and reading it back equals merging the same patch into the article locally |
| ArticleService.ToggleColumns | src/services/articles.js:72 | the toggle writes only `status`, and writes 'read' exactly when asked to mark as read |
| ArticleService.ToggleRead | src/services/articles.js:69-75 | sends the toggle columns for the id and returns the store's outcome |
| ArticleService.ToggleReadIdempotent | src/services/articles.js:72 | toggling twice to the same state equals toggling once; the row then reads back with the matching label; the toggle sends what a status-only field update sends |
| ArticleService.RemoveArticle | src/services/articles.js:78-84 | fails exactly when the delete fails, with its message |
| App.DefaultTitle | src/App.jsx:58-59 | the default title never ends in '/' |
| App.DefaultTitleShape | src/App.jsx:59 | the default title is a prefix of the host (less "www.") plus the path, and what it leaves out is all '/' |
| App.DefaultTitleExample | src/App.jsx:58-59 | `https://example.com/a` gets the title `example.com/a` |
| App.DefaultTitleStripsSlashes | src/App.jsx:59 | for `www.example.com` and `/docs//` the title is `example.com/docs`: the "www." and every trailing '/' go |
| App.DefaultTitleStripsOneWww | src/App.jsx:59 | for `www.www.example.com` and `/` the title is `www.example.com`: only one "www." goes |
| App.PrefillTitle | src/App.jsx:63 | definition, no contract: the trimmed prefill title, or '' when there is no prefill |
| App.PrefillAuthor | src/App.jsx:64 | definition, no contract: the trimmed prefill author, or '' when there is no prefill |
| App.ChosenTitle | src/App.jsx:63 | the stored title is, by preference, the trimmed prefill title, the default title, then the trimmed URL, so it is never empty when the URL is not |
| App.TagAt | src/App.jsx:66 | a present, non-empty tag entry, otherwise the fallback |
| App.Samples | src/App.jsx:93-112 | definition, no contract: the two fixed sample articles, an unread one tagged by the second tag entry or "Tecnologia", a read one tagged by the third or "Negócios" |
| App.Toggled | src/App.jsx:251 | the status button writes a valid label, "Lido" exactly when the article was not read |
| App.ToggledTwice | src/App.jsx:251 | toggling twice from either label restores it |
| App.SearchMeaning | src/App.jsx:118-122 | an article is visible exactly when its tag passes ("Todos" or equal), its status passes ("Todos" or equal), and the lowered search text is empty or occurs in the lowered title, author or URL |
| App.Matches | src/App.jsx:117-122 | definition, no contract: tag-ok, status-ok and search-ok, with the search lowered and matched by `includes` against the lowered title, author and URL |
| App.Filtered | src/App.jsx:116-124 | the visible list is an order-preserving subsequence holding every matching article as often as the list does, and no other article |
| App.FilteredNoFilters | src/App.jsx:116-124 | with "Todos", "Todos" and an empty search the visible list is the whole list, in order |
| App.Without | src/App.jsx:77 | removal leaves no article with the id, keeps every other article as often as the list holds it, and keeps their order |
| App.MapPatch | src/App.jsx:76 | the update keeps length and order, merges the patch into the articles with the id and leaves the rest unchanged |
| App.MapPatchIdempotent | src/App.jsx:76 | the same update twice is the update once |
| App.MapPatchKeepsUniqueUrls | src/App.jsx:76 | an update that does not touch URLs keeps them unique |
| App.ToggleTwiceRestores | src/App.jsx:251 | toggling an article twice restores the list |
| App.RemoveAfterPatch | src/App.jsx:76-77 | removing an article after updating it is removing it |
| App.PrependKeepsUniqueUrls | src/App.jsx:70 | putting an article with a new URL in front keeps URLs unique |
| App.HasUrl | src/App.jsx:56 | definition, no contract: `articles.some(a => a.url === trimmed)`, some article has exactly that URL |
| App.Classify | src/App.jsx:53-56 | the add handler's checks in order: blank input, invalid URL, URL already listed, otherwise added; each case as an if-and-only-if |
| App.Param | src/App.jsx:40-41 | definition, no contract: `sp.get(key)`, or '' for a missing query parameter |
| App.ReadList.Visible | src/App.jsx:116-124 | the visible list is a subsequence of the articles |
| App.ReadList.constructor | src/App.jsx:17-28 | mount state: the stored lists or no articles and the four initial tags, no criteria, no prefill |
| App.ReadList.ReceiveBookmarklet | src/App.jsx:33-49 | a non-empty `url` parameter fills the input and the prefill (missing title and author read as empty) and sets the pending flag; otherwise nothing changes |
| App.ReadList.EditUrl | src/App.jsx:161 | typing replaces the URL input only |
| App.ReadList.SetFilters | src/App.jsx:190-198 | choosing criteria replaces the filters only |
| App.ReadList.OnAddUrl | src/App.jsx:51-74 | rejected input changes nothing; an accepted URL puts exactly one new unread article in front (trimmed URL, chosen title, trimmed author, first tag or "Geral", given id and time), keeps the rest in order, resets input, prefill and pending flag, and keeps URLs unique |
| App.ReadList.UpdateArticle | src/App.jsx:76 | the articles become `MapPatch` of the old ones; nothing else changes |
| App.ReadList.ToggleStatus | src/App.jsx:251 | the article's status becomes the toggled label; nothing else changes |
| App.ReadList.RemoveArticle | src/App.jsx:77 | the articles become `Without` of the old ones |
| App.ReadList.AddNewTag | src/App.jsx:79-85 | a cancelled, blank or existing name changes nothing; a new one is appended trimmed, so the tag list stays free of duplicates |
| App.ReadList.ClearAll | src/App.jsx:87-90 | a confirmed clear empties the articles; otherwise nothing changes |
| App.ReadList.AddExamples | src/App.jsx:92-114 | the two samples (each with its own id and time, tags from the second and third tag entries or their fallbacks) go in front, with no duplicate check |
| App.ReadList.DiscardBookmarklet | src/App.jsx:180 | drops the prefill, the pending flag and the URL input, and keeps the articles |
| App.InlineEdit.constructor | src/App.jsx:276-277 | the editor starts closed with the value as draft |
| App.InlineEdit.ValueChanged | src/App.jsx:278 | a value different from the current one resets the draft; the same value keeps the draft as it is |
| App.InlineEdit.Open | src/App.jsx:292 | clicking the cell opens the editor and keeps the draft |
| App.InlineEdit.Type | src/App.jsx:285 | typing replaces the draft |
| App.InlineEdit.KeyDown | src/App.jsx:286 | Enter commits the trimmed draft and closes; Escape restores the draft to the value and closes without committing; other keys change nothing |
| App.InlineEdit.Blur | src/App.jsx:287 | leaving the field commits the trimmed draft and closes |
| Scenarios.FilteredSingleMiss | src/App.jsx:116-124 | a one-article list whose article misses the criteria shows nothing |
| Scenarios.WithoutSingle | src/App.jsx:77 | removing the only article by its id empties the list |
| Scenarios.AddToggleFilterRemove | src/App.jsx:51-124 | on one page from an empty list: adding `https://example.com/a` gives exactly one unread article titled `example.com/a` with the tag "Geral"; toggling it makes it read; an unread-only filter then shows nothing; removing it empties the list |
| Scenarios.QueryParams | src/App.jsx:37-41 | the link `?url=https://x.test&title=Foo` reads as url `https://x.test`, title "Foo" and an empty author |
| Scenarios.BookmarkletDiscard | src/App.jsx:38-43 | that link prefills title "Foo" and sets the pending flag; discarding clears both and adds nothing |
| Scenarios.ConfirmedTitle | src/App.jsx:63 | confirming that link stores the prefill title "Foo", whatever the default title |
| Scenarios.BookmarkletConfirm | src/App.jsx:51-74 | confirming that link instead adds exactly one unread article titled "Foo" with that url, and clears the pending flag |
| SetPassword.ResetSentMsg | src/components/SetPassword.jsx:42-45 | definition, no contract: the reset notice, its fixed prefix, the address, its fixed suffix |
| SetPassword.ResetSentNamesEmail | src/components/SetPassword.jsx:42-45 | the reset notice names the address the link went to |
| SetPassword.MessageOr | src/components/SetPassword.jsx:50 | an error's non-empty message, otherwise the fallback |
| SetPassword.ValidationError | src/components/SetPassword.jsx:15-22 | too short exactly when the UTF-16 length is below 8 (the length check comes first); mismatch exactly when long enough but not equal; no error exactly when long enough and equal |
| SetPassword.NeedsReauth | src/components/SetPassword.jsx:34 | the reset path is taken exactly when "reauth" occurs in the lowered message |
| SetPassword.ReauthMessage | src/components/SetPassword.jsx:36-51 | a failing lookup or reset reports its message or the default; a known address gets the notice naming it; no address gets the sign-in-again message |
| SetPassword.PasswordForm.constructor | src/components/SetPassword.jsx:6-9 | empty fields, not loading, no message |
| SetPassword.PasswordForm.HandleSave | src/components/SetPassword.jsx:11-58 | the message is cleared first; a local error sets its message, calls nothing and leaves `loading` alone; otherwise the backend is called with the password and `loading` ends false; success sets the success message and clears both fields; a reauthentication complaint looks up the user and, if there is an address, sends the reset; any other error shows its message or the default; the fields are kept on every error path |
| SetPassword.EmptyPasswordTooShort | src/components/SetPassword.jsx:15 | an empty password is too short whatever the confirmation |
| SetPassword.AstralCharactersCountTwice | src/components/SetPassword.jsx:15 | four characters outside the Basic Multilingual Plane reach the minimum of 8 UTF-16 units |

## Left out

- Browser storage (src/App.jsx:18-31) is left out. The constructor takes already-parsed stored lists. Writing back after each change, and `JSON.parse` failures, are not modelled.
- `uid` and `Date` (src/App.jsx:8-9) are left out. Ids and timestamps are parameters, and date formatting is not modelled.
- The internals of WHATWG URL parsing are abstract. `isValidUrl` is `parse(s).Some?`, and only the hostname and pathname are used.
- `URLSearchParams` decoding is not modelled; the query arrives as an already decoded map. The `history.replaceState` cleanup is not modelled either.
- `toLowerCase` is modelled for ASCII letters only. Other letters are left unchanged.
- `prompt`, `confirm` and `alert` are not modelled as dialogs. Their answers are inputs, and the alerts are the outcome values `InvalidUrl`, `DuplicateUrl` and `TagExists`.
- The rendering of the tag selector list `["Todos", ...tags]` (src/App.jsx:126) is not modelled, nor is any other rendering.
- The second `App` (src/App.jsx:304-327), the login components and the realtime table component are not part of this model, nor is the style injection.
- The actual remote queries are not modelled: the server-side ordering by `saved_at`, async interleaving, and responses arriving in any order.
- The hosted table is idealised: an insert stores exactly the payload plus the id and time it assigns, and an update overwrites exactly the columns it is sent (`Inserted`, `ApplyColumns`). Column defaults, triggers and constraints are not modelled. `AddThenRead`, `RemoteUpdateAgreesWithLocal` and `ToggleReadIdempotent` hold only for such a table.
- Patch fields explicitly set to `null` in `updateArticleFields` are not modelled. A field is either absent or a string.
- The blur that may follow Enter or Escape when a cell's input unmounts is not modelled. `KeyDown` and `Blur` are separate events, each on an open editor. In the source, a blur after Escape would run the stale `onBlur` handler and commit the draft that Escape meant to throw away.
- SetPassword.PasswordForm.HandleSave: a reset request that throws is modelled, but an error the reset call *returns* is not. The code never reads that return value and shows the notice in that case too.
- SetPassword.PasswordForm.HandleSave: the `redirectTo` option of the reset request (the page origin) is not modelled.
