# News speech: a Dafny model

This project models the core of a small Next.js application that reads Naver news articles aloud
with the browser's speech engine. There are two parts.

- **The article-text endpoint** (`pages/api/news.ts`). This is a pure function from a request and the
  library calls it depends on to a reply and the upstream requests it issues.
  - It rejects a `url` query parameter that is not a single string (401).
  - Otherwise it derives the MSN news ID from the decoded URL, as the text after the last `-` in the
    part after the last `/`.
  - It requests the MSN detail document for that ID, forwarding the caller's `x-user-agent` as
    `user-agent`.
  - It wraps the document's `body` in `<!doctype html><html>` … `</html>`.
  - It answers 200 with the trimmed text of every `<p>`, in document order.
- **The page `Main`** (`pages/main/index.tsx`).
  - The article catalog built at build time: search items whose link contains `news.naver.com`,
    with title and description reduced to plain text. This is a pure function.
  - The page's state as a `Controller` class: the selected article index, the `{ isPlaying, isPaused }`
    status, the speech engine and the chosen voice.
  - The effects that attach the engine and pick the first Korean voice, as methods.
  - The Play All, Prev, Pause, Play, Resume, Stop and Next click handlers, as methods that update
    the state and the engine.
  - The engine is a class holding a queue of utterances and a paused flag. `speak` appends to the
    queue, `cancel` empties it, and `pause` and `resume` set and clear the flag.

Modules:

- `Wrappers`: `Option`.
- `Text`: the JavaScript string operations the code relies on: `split` with a one-character
  separator, `pop`, `includes` and `trim`. `split` and `trim` come with independent
  characterisations: `split` by its inverse `Join`, and `trim` by the unique slice with
  whitespace-only margins. `pop` and `includes` are given by their definitions only.
- `NewsApi`: the endpoint.
- `Catalog`: the catalog filter.
- `Speech`: voices, utterances, the Korean-voice search and the engine.
- `Player`: the page controller.

Calls into code that is not part of the model are parameters:

- `decodeURIComponent`, `fetch` + `response.json()` + reading `obj.body`, and the cheerio paragraph
  query on the endpoint side (the `Upstream` value);
- cheerio's `load(x).text()` in the catalog (`plainText`);
- the `/api/news` round trip made by Play and Play All (`fetchText`, from an article link to the
  reply's `textArray`);
- `window.speechSynthesis` (`AttachEngine`'s argument).

## Model

| member | source | states |
|---|---|---|
| `NewsApi.Handle` | pages/api/news.ts:5-32 | The handler. When no library call throws, the status is always 200 or 401, and it is 401 exactly when `url` is not one string. An upstream request is made exactly when `url` is one string. The 404 branch (lines 16-18) is kept in the model but can never be reached. |
| `NewsApi.HandleRejectsNonString` | pages/api/news.ts:9-12 | A `url` that is absent or repeated gets 401 with a `null` body, and nothing is fetched. |
| `NewsApi.HandleAcceptsString` | pages/api/news.ts:13-31 | A single-string `url` gets 200. Exactly one upstream request is made, to the decoded detail URL of the news ID, carrying the caller's user agent. The reply holds one entry per paragraph of the wrapped body, each the trimmed paragraph text, in order. |
| `NewsApi.NewsIdOf` | pages/api/news.ts:15-18 | `decodedUrl.split("/").pop()?.split("-").pop()` always yields a string, so the `typeof newsId !== "string"` test never fails. |
| `NewsApi.NewsIdShape` | pages/api/news.ts:15-18 | Both `pop` calls always yield a string, because `split` never returns an empty array. The ID is a suffix of the decoded URL with no `/` and no `-`, and it is either the whole URL or follows a `/` or a `-`. |
| `NewsApi.NewsIdIsLastPiece` | pages/api/news.ts:15 | The ID is the run after the last `-` within the run after the last `/`. |
| `NewsApi.NewsIdCharacterized` | pages/api/news.ts:15 | For every string `t`: the derived ID equals `t` if and only if `t` is the longest suffix of the decoded URL with neither `/` nor `-`. |
| `NewsApi.NewsIdSuffixUnique` | pages/api/news.ts:15 | At most one string has that longest-suffix property. |
| `NewsApi.NewsIdOfPlainId` | pages/api/news.ts:15 | A decoded URL with no `/` and no `-` is its own news ID. |
| `NewsApi.DetailUrl` | pages/api/news.ts:19 | The detail URL is the fixed MSN prefix followed by exactly the news ID. |
| `NewsApi.DetailUrlRoundTrip` | pages/api/news.ts:15-19 | Deriving the news ID from the detail URL of an ID gives back that ID. |
| `NewsApi.WrapHtml` | pages/api/news.ts:26 | The document is `<!doctype html><html>`, then the body's string form, then `</html>`. A missing body reads as `undefined`. |
| `NewsApi.TrimAll` | pages/api/news.ts:28 | The texts are kept one to one, in order, each trimmed. |
| `NewsApi.TrimAllKeepsBlank` | pages/api/news.ts:27-28 | A whitespace-only paragraph is not dropped. It stays in its place as an empty string. |
| `NewsApi.TrimAllIdempotent` | pages/api/news.ts:28 | Every reply entry is already trimmed: trimming the list again changes nothing. |
| `Text.Split` | pages/api/news.ts:15 | `split` with a one-character separator always returns at least one piece. |
| `Text.SplitJoin` | pages/api/news.ts:15 | Joining the pieces of a split with the separator gives back the original string. |
| `Text.SplitPiecesFree` | pages/api/news.ts:15 | No piece contains the separator. |
| `Text.SplitWithoutSeparator` | pages/api/news.ts:15 | A string without the separator splits into itself alone. |
| `Text.SplitLastPiece` | pages/api/news.ts:15 | The last piece is the run after the last separator. |
| `Text.SplitLast` | pages/api/news.ts:15 | The last piece is a separator-free suffix that is either the whole string or follows a separator. |
| `Text.PopOfSplit` | pages/api/news.ts:15 | `pop` on the result of `split` never gives `undefined`: it gives the run after the last separator. |
| `Text.Trim` | pages/api/news.ts:28 | `trim` returns a slice of its input that has only whitespace before and after it, and no whitespace at either end. |
| `Text.TrimUnique` | pages/api/news.ts:28 | Any slice with those two properties is the result of `trim`, so the contract fixes `trim` completely. |
| `Text.TrimIdempotent` | pages/api/news.ts:28 | Trimming twice is the same as trimming once. |
| `Text.TrimBlank` | pages/api/news.ts:28 | A whitespace-only string trims to the empty string. |
| `Catalog.Articles` | pages/main/index.tsx:27-33 | The catalog has no more entries than the search results, and every entry has a link containing `news.naver.com`. |
| `Catalog.ArticlesAppend` | pages/main/index.tsx:27-33 | The catalog of a concatenation is the concatenation of the catalogs, so the original order is kept. |
| `Catalog.ArticlesKeeps` | pages/main/index.tsx:27-33 | Every search result whose link contains `news.naver.com` is in the catalog, normalized. |
| `Catalog.ArticlesOnlyFromItems` | pages/main/index.tsx:27-33 | Every catalog entry is the normalized form of a search result whose link contains `news.naver.com`. |
| `Catalog.ArticlesEmpty` | pages/main/index.tsx:27-33 | The catalog is empty exactly when no search result has such a link. |
| `Speech.FindKorean` | pages/main/index.tsx:81-83 | `find` returns nothing exactly when no voice's language contains `ko`. Otherwise it returns the first such voice. |
| `Speech.Utterances` | pages/main/index.tsx:139-146 | One utterance is built per text. |
| `Speech.UtterancesAt` | pages/main/index.tsx:139-146 | Utterance `i` reads text `i` with the chosen voice, pitch 0.85, rate 1 and volume 1. |
| `Speech.UtterancesAppend` | pages/main/index.tsx:139-146 | Building utterances distributes over concatenation of the texts. |
| `Speech.TextsOfUtterances` | pages/main/index.tsx:139-146 | Building utterances loses no text, adds none, and keeps the order. |
| `Speech.Engine.Speak` | pages/main/index.tsx:145 | `speak` appends the utterance to the engine's queue. |
| `Speech.Engine.Cancel` | pages/main/index.tsx:174 | `cancel` empties the queue. |
| `Speech.Engine.Pause` | pages/main/index.tsx:187 | `pause` sets the paused flag and keeps the queue. |
| `Speech.Engine.Resume` | pages/main/index.tsx:238 | `resume` clears the paused flag and keeps the queue. |
| `Player.Controls` | pages/main/index.tsx:168-276 | Play All, Prev and Next are always shown. Pause and Stop are shown exactly while playing. Play is shown exactly when not playing. Resume is shown exactly when not playing and paused. |
| `Player.PlayList` | pages/main/index.tsx:211 | The list `[title, ...textArray]` (also built by Play All at line 139) as utterances: one more than the texts, opening with the title. |
| `Player.PlayListShape` | pages/main/index.tsx:211-229 | Play's list opens with the title's utterance and then reads each paragraph text in order. |
| `Player.Narration` | pages/main/index.tsx:122-147 | What Play All's loop queues over the first `n` indexes: the blocks of indexes `start` to `n - 1`, in order. Nothing is queued when `n` does not exceed `start`. |
| `Player.ArticleBlockEmpty` | pages/main/index.tsx:126-146 | What one article adds in Play All (`ArticleBlock`): nothing exactly when its index is out of range or its text list is empty, and otherwise its play list. |
| `Player.NarrationUnfold` | pages/main/index.tsx:122-147 | From `start`, Play All queues the block of article `start` and then what it queues from `start + 1`. |
| `Player.NarrationFromBeforeFirst` | pages/main/index.tsx:123-125 | A negative selected index queues the same as index 0. |
| `Player.NarrationSuffix` | pages/main/index.tsx:122-147 | Starting Play All at a later index queues a suffix of what starting earlier queues. |
| `Player.NarrationFromBlocks` | pages/main/index.tsx:122-147 | Everything Play All queues comes from an article at or after the selected index. |
| `Player.PlayAllQueueAtLast` | pages/main/index.tsx:122-147 | At the last article, Play All queues exactly what Play queues, or nothing when that article has no text. |
| `Player.PlayAllQueueStep` | pages/main/index.tsx:122-147 | The one-step unfolding of Play All's queue that the invariant of `PlayAll`'s loop uses: one more visited index appends that article's block, or nothing if the index is before the selected one. |
| `Player.PlayAllQueueProsody` | pages/main/index.tsx:139-146 | Every utterance Play All queues has the chosen voice, pitch 0.85, rate 1 and volume 1. |
| `Player.SpeakEach` | pages/main/index.tsx:139-146 | Speaking the texts appends one utterance per text, in order, to the engine's queue. |
| `Player.VisitArticle` | pages/main/index.tsx:123-146 | One pass of Play All's loop skips an article before the selected index or with no text. Otherwise it queues the article's play list. |
| `Player.NarrateAll` | pages/main/index.tsx:122-147 | Play All's loop over every article appends exactly `PlayAllQueue` for the whole catalog to the engine's queue, and keeps the paused flag. |
| `Player.Controller.constructor` | pages/main/index.tsx:45-51 | The index starts at 0, because `articles.length >= 0` always holds. Nothing is playing or paused, and there is no engine and no voice. |
| `Player.Controller.AttachEngine` | pages/main/index.tsx:71-76 | Outside a browser the engine is left as it was. Otherwise it becomes `window.speechSynthesis`. |
| `Player.Controller.ChooseVoice` | pages/main/index.tsx:77-88 | The voice becomes the engine's first voice whose language contains `ko`. Without an engine or such a voice it is left as it was. |
| `Player.Controller.PlayAll` | pages/main/index.tsx:120-148 | The engine's queue gains, in article order from the selected index on, each article's title and texts. Articles with no text are skipped. The index, the status and the voice are untouched. |
| `Player.Controller.Prev` | pages/main/index.tsx:169-180 | At a negative index nothing changes. Otherwise speech is cancelled, the index goes down by one (so from 0 it reaches -1), and the status is cleared. |
| `Player.Controller.Pause` | pages/main/index.tsx:184-196 | The engine is paused with its queue kept. The status becomes paused and not playing. |
| `Player.Controller.Play` | pages/main/index.tsx:197-234 | An article is selected exactly when `0 <= newsIndex < articles.length`, and it is then `articles[newsIndex]` (`selectedNews`, lines 53-56). With an article selected, its title and then its texts are queued, and the status becomes playing and not paused. This holds even when the article has no text: lines 209-210 do nothing. With no article selected, nothing changes. |
| `Player.Controller.SpeakMarkingPlaying` | pages/main/index.tsx:211-229 | Play's loop queues each text in order and leaves the status playing and not paused. |
| `Player.Controller.Resume` | pages/main/index.tsx:235-247 | The engine is resumed with its queue kept. The status becomes playing and not paused. |
| `Player.Controller.Stop` | pages/main/index.tsx:248-260 | Speech is cancelled, the status is cleared, and the index stays. |
| `Player.Controller.Next` | pages/main/index.tsx:261-276 | At the last article the index wraps to 0, with no cancel and no status change. Otherwise speech is cancelled, the index goes up by one, and the status is cleared. |

Every handler and effect requires and re-establishes the state invariant `Player.Controller.Valid`:
- the two status flags are never both set;
- the index never drops below -1;
- with a non-empty catalog, the index stays below its length.

## Left out

- Network, JSON and HTML parsing are parameters. `decodeURIComponent`, `fetch`, `response.json()`, cheerio's `load`/`text`, and the page's `/api/news` round trip are uninterpreted functions. Their failures (network errors, malformed JSON, a throwing `decodeURIComponent`) are not modelled.
- JSON parsing of the upstream document is not modelled. `obj.body` is either a string or missing, and a missing one reads as `undefined` in the HTML. Bodies of other JSON types are not modelled.
- The `x-user-agent` header is passed through as a query-style value: absent, one string or several. The model does not say how `fetch` serialises a missing or repeated header.
- The search request in `getStaticProps` (Naver's API, credentials, the `revalidate` period) is left out. Its `items` are the catalog's input.
- The authentication effect (lines 58-70, `/api/auth`) and the other pages are not part of this model.
- Asynchrony is not modelled. Each handler runs as one atomic step. Interleavings are left out: a click arriving while Play or Play All awaits, or a state update landing after a later render.
- In Play All, a reply from `/api/news` that is not 200 has no `textArray`, and reading its length throws. The model's `fetchText` always returns a list, so that exception is not modelled.
- Player.Controller.Play: when no article is selected, reading `selectedNews.link` throws before anything happens. The model reports this as `ok == false` with nothing changed, and does not model the exception itself.
- React rendering is reduced to the button-visibility conditions in `Player.Controls`. The article view crashes when `selectedNews` is undefined (for example after Prev from index 0). That crash is not modelled, and the index simply becomes -1.
- The `articles || []` fallback in Play All is left out, because the catalog is always a list here.
- The engine's own progress through its queue, audio output, `onend` events (commented out at lines 218-223) and `getVoices()` loading asynchronously are left out. The engine is a queue plus a paused flag, and its voices are fixed when it is created.
- Strings are modelled as Dafny strings, which are sequences of Unicode scalar values. JavaScript strings are sequences of UTF-16 code units. For the operations modelled the two agree on well-formed text: `split` on `/` and `-`, `includes` with an ASCII search string, and `trim`, whose whitespace characters all lie in the Basic Multilingual Plane. Strings with lone surrogates cannot be represented.
- Pitch, rate and volume are stored as the exact constants 0.85, 1 and 1. No floating-point arithmetic is done on them.
- Player.Controller.Play: the loop in the source sets the status to playing after every text. The model speaks all texts and then sets the status once. The final state is the same, because the list always holds the title.
