/** The article-text endpoint `GET /api/news?url=<article url>` (pages/api/news.ts).
    The handler checks that `url` is a single string, derives the MSN news ID from the
    decoded URL, fetches the article's JSON from the MSN detail endpoint, wraps its `body`
    into an HTML document and answers with the trimmed texts of the document's `<p>`
    elements, in document order. `decodeURIComponent`, `fetch`, `response.json()` and the
    cheerio queries are kept abstract as the fields of an `Upstream` value. */
module NewsApi {
  import opened Wrappers
  import opened Text

  /** A query or header value as Next.js hands it over: absent, one string, or a list. */
  datatype Param = Absent | One(text: string) | Many(items: seq<string>)

  datatype Request = Request(url: Param, userAgent: Param)

  /** The JSON payload of a reply: `null` or `{ textArray }`. */
  datatype Payload = Null | TextArray(texts: seq<string>)

  datatype Reply = Reply(status: int, payload: Payload)

  /** One upstream `fetch`: the URL requested and the `user-agent` header sent with it. */
  datatype FetchCall = FetchCall(url: string, userAgent: Param)

  /** What the handler produces: its reply and the upstream requests it issued. */
  datatype Outcome = Outcome(reply: Reply, fetches: seq<FetchCall>)

  /** The library calls the handler depends on. `decode` is `decodeURIComponent`;
      `fetchBody` is `fetch` followed by `response.json()` and reading `obj.body`
      (`None` when the field is `undefined`); `paragraphTexts` is
      `load(html)("p").toArray()`, each element mapped through `load(el).text()`,
      in document order. */
  datatype Upstream = Upstream(
    decode: string -> string,
    fetchBody: (string, Param) -> Option<string>,
    paragraphTexts: string -> seq<string>)

  const DetailPrefix: string := "https://assets.msn.com/content/view/v2/Detail/en-us/"
  const HtmlOpen: string := "<!doctype html><html>"
  const HtmlClose: string := "</html>"

  /** `decodedUrl.split("/").pop()?.split("-").pop()`. */
  function NewsIdOf(decoded: string): (r: Option<string>)
    ensures r.Some?
  {
    match Pop(Split(decoded, '/'))
    case None => None
    case Some(segment) => Pop(Split(segment, '-'))
  }

  /** `t` is the longest suffix of `decoded` that holds neither `/` nor `-`. */
  predicate IsNewsId(decoded: string, t: string) {
    IsSuffix(t, decoded) && '/' !in t && '-' !in t &&
    (|t| == |decoded| || decoded[|decoded| - |t| - 1] == '/' || decoded[|decoded| - |t| - 1] == '-')
  }

  /** `split` never returns an empty array, so both `pop` calls yield a string: the run after
      the last `-` in the run after the last `/`. */
  lemma NewsIdIsLastPiece(decoded: string)
    ensures NewsIdOf(decoded) == Some(LastPiece(LastPiece(decoded, '/'), '-'))
  {
    SplitLastPiece(decoded, '/');
    SplitLastPiece(LastPiece(decoded, '/'), '-');
  }

  /** A `-`-free tail of a `/`-free tail, each cut at its separator or running to the start,
      is the longest tail free of both. */
  lemma TailOfTail(decoded: string, segment: string, id: string)
    requires IsSuffix(segment, decoded) && '/' !in segment
    requires |segment| == |decoded| || decoded[|decoded| - |segment| - 1] == '/'
    requires IsSuffix(id, segment) && '-' !in id
    requires |id| == |segment| || segment[|segment| - |id| - 1] == '-'
    ensures IsNewsId(decoded, id)
  {
    SuffixOfSuffix(id, segment, decoded);
  }

  /** The run after the last `-` in the run after the last `/` is the longest tail of
      `decoded` free of both. */
  lemma LastPiecesShape(decoded: string)
    ensures IsNewsId(decoded, LastPiece(LastPiece(decoded, '/'), '-'))
  {
    var segment := LastPiece(decoded, '/');
    var id := LastPiece(segment, '-');
    LastPieceIsTail(decoded, '/');
    LastPieceIsTail(segment, '-');
    TailOfTail(decoded, segment, id);
  }

  /** The news ID is always defined, and it is the longest `/`- and `-`-free suffix of the
      decoded URL. */
  lemma NewsIdShape(decoded: string)
    ensures NewsIdOf(decoded).Some?
    ensures IsNewsId(decoded, NewsIdOf(decoded).value)
  {
    NewsIdIsLastPiece(decoded);
    LastPiecesShape(decoded);
  }

  /** Two longest separator-free suffixes of the same string coincide. */
  lemma NewsIdSuffixUnique(decoded: string, t: string, u: string)
    requires IsNewsId(decoded, t) && IsNewsId(decoded, u)
    ensures t == u
  {
  }

  /** The news ID is exactly the longest suffix of the decoded URL free of `/` and `-`. */
  lemma NewsIdCharacterized(decoded: string, t: string)
    ensures NewsIdOf(decoded) == Some(t) <==> IsNewsId(decoded, t)
  {
    NewsIdShape(decoded);
    if IsNewsId(decoded, t) {
      NewsIdSuffixUnique(decoded, t, NewsIdOf(decoded).value);
    }
  }

  /** A decoded URL with neither `/` nor `-` is its own news ID. */
  lemma NewsIdOfPlainId(decoded: string)
    requires '/' !in decoded && '-' !in decoded
    ensures NewsIdOf(decoded) == Some(decoded)
  {
    assert decoded[|decoded| - |decoded|..] == decoded;
    NewsIdCharacterized(decoded, decoded);
  }

  /** The MSN detail URL for a news ID: the fixed prefix, then the ID. */
  function DetailUrl(newsId: string): (url: string)
    ensures |url| == |DetailPrefix| + |newsId|
    ensures url[..|DetailPrefix|] == DetailPrefix && url[|DetailPrefix|..] == newsId
  {
    DetailPrefix + newsId
  }

  /** Reading the news ID back off a detail URL gives the ID it was built from. */
  lemma DetailUrlRoundTrip(newsId: string)
    requires '/' !in newsId && '-' !in newsId
    ensures NewsIdOf(DetailUrl(newsId)) == Some(newsId)
  {
    var url := DetailUrl(newsId);
    assert url[|url| - |newsId|..] == newsId;
    if |newsId| < |url| {
      assert url[|url| - |newsId| - 1] == DetailPrefix[|DetailPrefix| - 1];
    }
    NewsIdCharacterized(url, newsId);
  }

  /** JavaScript's string conversion of `obj.body` in a concatenation. */
  function BodyText(body: Option<string>): string {
    match body
    case Some(text) => text
    case None => "undefined"
  }

  /** The document handed to the HTML parser. */
  function WrapHtml(body: Option<string>): (html: string)
    ensures |html| == |HtmlOpen| + |BodyText(body)| + |HtmlClose|
    ensures html[..|HtmlOpen|] == HtmlOpen
    ensures html[|HtmlOpen|..|html| - |HtmlClose|] == BodyText(body)
    ensures html[|html| - |HtmlClose|..] == HtmlClose
  {
    HtmlOpen + BodyText(body) + HtmlClose
  }

  /** `paragraphArray.map((el) => load(el).text().trim())`. */
  function TrimAll(texts: seq<string>): (r: seq<string>)
    ensures |r| == |texts|
    ensures forall i :: 0 <= i < |r| ==> r[i] == Trim(texts[i])
  {
    if texts == [] then [] else TrimAll(texts[..|texts| - 1]) + [Trim(texts[|texts| - 1])]
  }

  /** Nothing is filtered: a whitespace-only paragraph stays, as an empty entry at its place. */
  lemma TrimAllKeepsBlank(texts: seq<string>, i: int)
    requires 0 <= i < |texts| && AllWhitespace(texts[i])
    ensures |TrimAll(texts)| == |texts| && TrimAll(texts)[i] == ""
  {
    TrimBlank(texts[i]);
  }

  /** Every entry of the reply is already trimmed. */
  lemma TrimAllIdempotent(texts: seq<string>)
    ensures TrimAll(TrimAll(texts)) == TrimAll(texts)
  {
    var once := TrimAll(texts);
    forall i | 0 <= i < |once|
      ensures TrimAll(once)[i] == once[i]
    {
      TrimIdempotent(texts[i]);
    }
  }

  /** The handler: 401 unless `url` is one string; otherwise one upstream request and a 200.
      The 404 answer for a missing news ID is modelled but cannot be reached. */
  function Handle(req: Request, up: Upstream): (out: Outcome)
    ensures out.reply.status in {200, 401}
    ensures out.reply.status == 401 <==> !req.url.One?
    ensures out.fetches == [] <==> !req.url.One?
  {
    if !req.url.One? then Outcome(Reply(401, Null), [])
    else
      var decoded := up.decode(req.url.text);
      match NewsIdOf(decoded)
      case None => Outcome(Reply(404, Null), [])
      case Some(newsId) =>
        var target := up.decode(DetailUrl(newsId));
        var html := WrapHtml(up.fetchBody(target, req.userAgent));
        Outcome(Reply(200, TextArray(TrimAll(up.paragraphTexts(html)))), [FetchCall(target, req.userAgent)])
  }

  /** A missing or repeated `url` parameter is answered 401 with `null`, and nothing is fetched. */
  lemma HandleRejectsNonString(req: Request, up: Upstream)
    requires !req.url.One?
    ensures Handle(req, up) == Outcome(Reply(401, Null), [])
  {
  }

  /** A single-string `url` always gets a 200: exactly one upstream request, to the decoded
      detail URL of its news ID with the caller's agent forwarded, and one trimmed text per
      paragraph of the wrapped body, in order. */
  lemma HandleAcceptsString(req: Request, up: Upstream)
    requires req.url.One?
    ensures var newsId := NewsIdOf(up.decode(req.url.text));
      newsId.Some? &&
      var target := up.decode(DetailUrl(newsId.value));
      var paragraphs := up.paragraphTexts(WrapHtml(up.fetchBody(target, req.userAgent)));
      Handle(req, up).fetches == [FetchCall(target, req.userAgent)] &&
      Handle(req, up).reply.status == 200 &&
      Handle(req, up).reply.payload.TextArray? &&
      |Handle(req, up).reply.payload.texts| == |paragraphs| &&
      forall i :: 0 <= i < |paragraphs| ==> Handle(req, up).reply.payload.texts[i] == Trim(paragraphs[i])
  {
    NewsIdShape(up.decode(req.url.text));
  }
}
