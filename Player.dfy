/** The playback controller behind the page `Main` (pages/main/index.tsx): the selected
    article index, the `{ isPlaying, isPaused }` status pair, the speech engine and the chosen
    voice, with the Play All / Prev / Pause / Play / Resume / Stop / Next click handlers as
    methods. Each handler runs as one atomic step. The article-text request `/api/news`
    that Play and Play All await is the parameter `fetchText`, from an article link to the
    `textArray` of the reply. */
module Player {
  import opened Wrappers
  import opened Catalog
  import opened Speech

  datatype Button = PlayAllButton | PrevButton | PauseButton | PlayButton | ResumeButton | StopButton | NextButton

  /** The buttons on screen for a status: Pause and Stop while playing, Play otherwise,
      and Resume only while paused and not playing. */
  function Controls(isPlaying: bool, isPaused: bool): (bs: set<Button>)
    ensures PlayAllButton in bs && PrevButton in bs && NextButton in bs
    ensures PauseButton in bs <==> isPlaying
    ensures StopButton in bs <==> PauseButton in bs
    ensures PlayButton in bs <==> PauseButton !in bs
    ensures ResumeButton in bs <==> PlayButton in bs && isPaused
  {
    {PlayAllButton, PrevButton, NextButton} +
    (if isPlaying then {PauseButton, StopButton} else {PlayButton}) +
    (if !isPlaying && isPaused then {ResumeButton} else {})
  }

  /** What Play queues for an article: its title, then its paragraph texts. */
  function PlayList(article: NewsItem, texts: seq<string>, voice: Option<Voice>): (r: seq<Utterance>)
    ensures |r| == 1 + |texts| && r[0] == Say(article.title, voice)
  {
    UtterancesAt([article.title] + texts, voice, 0);
    Utterances([article.title] + texts, voice)
  }

  /** A play list opens with the title and then reads each text in order. */
  lemma PlayListShape(article: NewsItem, texts: seq<string>, voice: Option<Voice>)
    ensures |PlayList(article, texts, voice)| == 1 + |texts|
    ensures PlayList(article, texts, voice)[0] == Say(article.title, voice)
    ensures forall i :: 0 <= i < |texts| ==> PlayList(article, texts, voice)[i + 1] == Say(texts[i], voice)
  {
    var list := [article.title] + texts;
    UtterancesAt(list, voice, 0);
    forall i | 0 <= i < |texts|
      ensures PlayList(article, texts, voice)[i + 1] == Say(texts[i], voice)
    {
      UtterancesAt(list, voice, i + 1);
    }
  }

  /** Play All's loop over the first `n` indexes, skipping those before `start`: the
      concatenation, in index order, of `block(k)` for each `start <= k < n`. Indexes before
      `start` contribute nothing. */
  function Narration<T>(block: int -> seq<T>, start: int, n: nat): (r: seq<T>)
    ensures n <= start ==> r == []
  {
    if n == 0 then [] else Narration(block, start, n - 1) + (if n - 1 < start then [] else block(n - 1))
  }

  /** The block at `start` comes first, then the narration from `start + 1`. */
  lemma {:induction false} NarrationUnfold<T>(block: int -> seq<T>, start: int, n: nat)
    requires 0 <= start < n
    ensures Narration(block, start, n) == block(start) + Narration(block, start + 1, n)
  {
    if n > start + 1 {
      NarrationUnfold(block, start, n - 1);
    }
  }

  /** A negative start (Prev can leave the index at -1) covers every index, as 0 does. */
  lemma {:induction false} NarrationFromBeforeFirst<T>(block: int -> seq<T>, start: int, n: nat)
    requires start <= 0
    ensures Narration(block, start, n) == Narration(block, 0, n)
  {
    if n > 0 {
      NarrationFromBeforeFirst(block, start, n - 1);
    }
  }

  /** Starting later drops a prefix: what starting earlier narrates is something followed
      by what starting later narrates. */
  lemma {:induction false} NarrationDropsPrefix<T>(block: int -> seq<T>, s: int, t: int, n: nat) returns (dropped: seq<T>)
    requires s <= t
    ensures Narration(block, s, n) == dropped + Narration(block, t, n)
  {
    if n == 0 {
      dropped := [];
    } else if n - 1 < t {
      dropped := Narration(block, s, n);
    } else {
      var d := NarrationDropsPrefix(block, s, t, n - 1);
      var b := block(n - 1);
      assert Narration(block, s, n) == (d + Narration(block, t, n - 1)) + b;
      assert (d + Narration(block, t, n - 1)) + b == d + (Narration(block, t, n - 1) + b);
      dropped := d;
    }
  }

  /** Starting later narrates a suffix of what starting earlier narrates. */
  lemma NarrationSuffix<T>(block: int -> seq<T>, s: int, t: int, n: nat)
    requires s <= t
    ensures var early, late := Narration(block, s, n), Narration(block, t, n);
      |late| <= |early| && early[|early| - |late|..] == late
  {
    var dropped := NarrationDropsPrefix(block, s, t, n);
    var late := Narration(block, t, n);
    assert (dropped + late)[|dropped|..] == late;
  }

  /** Everything narrated comes from the block of some index in `[start, n)`. */
  lemma {:induction false} NarrationFromBlocks<T>(block: int -> seq<T>, start: int, n: nat, x: T)
    requires x in Narration(block, start, n)
    ensures exists k :: 0 <= k < n && start <= k && x in block(k)
  {
    if x !in Narration(block, start, n - 1) {
      assert x in block(n - 1);
    } else {
      NarrationFromBlocks(block, start, n - 1, x);
    }
  }

  /** What Play All queues for the article at index `k`: its play list, or nothing when its
      text list is empty. */
  function ArticleBlock(articles: seq<NewsItem>, fetchText: string -> seq<string>, voice: Option<Voice>, k: int): seq<Utterance> {
    if 0 <= k < |articles| && |fetchText(articles[k].link)| > 0
    then PlayList(articles[k], fetchText(articles[k].link), voice)
    else []
  }

  /** An article adds nothing exactly when its index is out of range or it has no text;
      otherwise it adds at least its title. */
  lemma ArticleBlockEmpty(articles: seq<NewsItem>, fetchText: string -> seq<string>, voice: Option<Voice>, k: int)
    ensures ArticleBlock(articles, fetchText, voice, k) == [] <==> !(0 <= k < |articles| && |fetchText(articles[k].link)| > 0)
  {
  }

  /** What Play All has queued after visiting the first `n` articles. */
  function PlayAllQueue(articles: seq<NewsItem>, start: int, fetchText: string -> seq<string>, voice: Option<Voice>, n: nat): seq<Utterance> {
    Narration((k: int) => ArticleBlock(articles, fetchText, voice, k), start, n)
  }

  /** At the last article, Play All queues exactly what Play would, or nothing when that
      article has no text. */
  lemma PlayAllQueueAtLast(articles: seq<NewsItem>, fetchText: string -> seq<string>, voice: Option<Voice>)
    requires |articles| > 0
    ensures var k := |articles| - 1; var texts := fetchText(articles[k].link);
      PlayAllQueue(articles, k, fetchText, voice, |articles|) ==
        if |texts| == 0 then [] else PlayList(articles[k], texts, voice)
  {
  }

  /** One more article visited: its block is appended unless it comes before `start`. */
  lemma PlayAllQueueStep(articles: seq<NewsItem>, start: int, fetchText: string -> seq<string>, voice: Option<Voice>, n: nat)
    ensures PlayAllQueue(articles, start, fetchText, voice, n + 1) ==
      PlayAllQueue(articles, start, fetchText, voice, n) + (if n < start then [] else ArticleBlock(articles, fetchText, voice, n))
  {
  }

  /** Every utterance Play All queues has the chosen voice and the fixed prosody. */
  lemma PlayAllQueueProsody(articles: seq<NewsItem>, start: int, fetchText: string -> seq<string>, voice: Option<Voice>, n: nat, u: Utterance)
    requires u in PlayAllQueue(articles, start, fetchText, voice, n)
    ensures u.voice == voice && u.pitch == 0.85 && u.rate == 1.0 && u.volume == 1.0
  {
    var block := (k: int) => ArticleBlock(articles, fetchText, voice, k);
    NarrationFromBlocks(block, start, n, u);
    var k :| 0 <= k < n && start <= k && u in block(k);
    var i :| 0 <= i < |block(k)| && block(k)[i] == u;
    UtterancesAt([articles[k].title] + fetchText(articles[k].link), voice, i);
  }

  /** `for (const text of texts) synthesis.speak(...)`: one utterance per text, in order.
      The callers skip it when there is no engine, as `synthesis?.speak` does. */
  method SpeakEach(engine: Engine, texts: seq<string>, voice: Option<Voice>)
    modifies engine
    ensures engine.queue == old(engine.queue) + Utterances(texts, voice) && engine.paused == old(engine.paused)
  {
    for j := 0 to |texts|
      invariant engine.queue == old(engine.queue) + Utterances(texts[..j], voice) && engine.paused == old(engine.paused)
    {
      engine.Speak(Say(texts[j], voice));
      assert texts[..j + 1] == texts[..j] + [texts[j]];
      UtterancesSnoc(texts[..j], texts[j], voice);
    }
    assert texts[..|texts|] == texts;
  }

  /** One pass of Play All's loop: skip the articles before `start`; otherwise fetch the
      article's texts and, unless there are none, speak its title and then its texts. */
  method VisitArticle(engine: Engine, articles: seq<NewsItem>, start: int, fetchText: string -> seq<string>, voice: Option<Voice>, index: int)
    requires 0 <= index < |articles|
    modifies engine
    ensures engine.queue == old(engine.queue) + (if index < start then [] else ArticleBlock(articles, fetchText, voice, index))
    ensures engine.paused == old(engine.paused)
  {
    if index < start {
      return;
    }
    var article := articles[index];
    var texts := fetchText(article.link);
    if |texts| <= 0 {
      return;
    }
    SpeakEach(engine, [article.title] + texts, voice);
  }

  /** Play All's loop: visit every article in order. */
  method NarrateAll(engine: Engine, articles: seq<NewsItem>, start: int, fetchText: string -> seq<string>, voice: Option<Voice>)
    modifies engine
    ensures engine.queue == old(engine.queue) + PlayAllQueue(articles, start, fetchText, voice, |articles|)
    ensures engine.paused == old(engine.paused)
  {
    ghost var queued: seq<Utterance> := [];
    for index := 0 to |articles|
      invariant queued == PlayAllQueue(articles, start, fetchText, voice, index)
      invariant engine.queue == old(engine.queue) + queued && engine.paused == old(engine.paused)
    {
      ghost var block := if index < start then [] else ArticleBlock(articles, fetchText, voice, index);
      VisitArticle(engine, articles, start, fetchText, voice, index);
      assert engine.queue == old(engine.queue) + (queued + block);
      PlayAllQueueStep(articles, start, fetchText, voice, index);
      queued := queued + block;
    }
  }

  class Controller {
    const articles: seq<NewsItem>
    var newsIndex: int
    var isPlaying: bool
    var isPaused: bool
    var synthesis: Engine?
    var voice: Option<Voice>

    /** The status flags are never both set, Prev never takes the index below -1, and with
        a non-empty catalog Next never takes it past the last article. */
    ghost predicate Valid()
      reads this
    {
      !(isPlaying && isPaused) && -1 <= newsIndex && (|articles| > 0 ==> newsIndex < |articles|)
    }

    /** The initial state of `Main`: `articles.length >= 0` always holds, so the index
        starts at 0; nothing is playing or paused, and there is no engine or voice yet. */
    constructor (articles: seq<NewsItem>)
      ensures Valid()
      ensures this.articles == articles && newsIndex == 0 && !isPlaying && !isPaused
      ensures synthesis == null && voice == None
    {
      this.articles := articles;
      newsIndex := if |articles| >= 0 then 0 else -1;
      isPlaying, isPaused := false, false;
      synthesis := null;
      voice := None;
    }

    /** `selectedNews`: `articles[newsIndex]`, `undefined` when the index is out of range. */
    function Selected(): Option<NewsItem>
      reads this
    {
      if 0 <= newsIndex < |articles| then Some(articles[newsIndex]) else None
    }

    /** The effect that picks up `window.speechSynthesis`; `window` is `None` outside a browser. */
    method AttachEngine(window: Option<Engine>)
      requires Valid()
      modifies this`synthesis
      ensures Valid()
      ensures window.None? ==> synthesis == old(synthesis)
      ensures window.Some? ==> synthesis == window.value
    {
      if window.None? {
        return;
      }
      synthesis := window.value;
    }

    /** The effect that picks the first engine voice whose language tag contains `ko`;
        without an engine or such a voice the voice stays as it was. */
    method ChooseVoice()
      requires Valid()
      modifies this`voice
      ensures Valid()
      ensures synthesis == null ==> voice == old(voice)
      ensures synthesis != null ==>
        match FindKorean(synthesis.voices)
        case None => voice == old(voice)
        case Some(i) => voice == Some(synthesis.voices[i])
    {
      if synthesis == null {
        return;
      }
      var found := FindKorean(synthesis.voices);
      if found.None? {
        return;
      }
      voice := Some(synthesis.voices[found.value]);
    }

    /** Prev: nothing at a negative index; otherwise cancel speech, step back by one and
        clear the status. From 0 this reaches -1. */
    method Prev()
      requires Valid()
      modifies this, synthesis
      ensures Valid()
      ensures synthesis == old(synthesis) && voice == old(voice)
      ensures old(newsIndex) < 0 ==>
        newsIndex == old(newsIndex) && isPlaying == old(isPlaying) && isPaused == old(isPaused) &&
        (synthesis != null ==> synthesis.queue == old(synthesis.queue) && synthesis.paused == old(synthesis.paused))
      ensures old(newsIndex) >= 0 ==>
        newsIndex == old(newsIndex) - 1 && !isPlaying && !isPaused &&
        (synthesis != null ==> synthesis.queue == [] && synthesis.paused == old(synthesis.paused))
    {
      if newsIndex < 0 {
        return;
      }
      if synthesis != null {
        synthesis.Cancel();
      }
      newsIndex := newsIndex - 1;
      isPlaying, isPaused := false, false;
    }

    /** Pause: pause the engine; status becomes paused, not playing. */
    method Pause()
      requires Valid()
      modifies this, synthesis
      ensures Valid()
      ensures synthesis == old(synthesis) && voice == old(voice) && newsIndex == old(newsIndex)
      ensures !isPlaying && isPaused
      ensures synthesis != null ==> synthesis.paused && synthesis.queue == old(synthesis.queue)
    {
      if synthesis != null {
        synthesis.Pause();
      }
      isPlaying, isPaused := false, true;
    }

    /** Resume: resume the engine; status becomes playing, not paused. */
    method Resume()
      requires Valid()
      modifies this, synthesis
      ensures Valid()
      ensures synthesis == old(synthesis) && voice == old(voice) && newsIndex == old(newsIndex)
      ensures isPlaying && !isPaused
      ensures synthesis != null ==> !synthesis.paused && synthesis.queue == old(synthesis.queue)
    {
      if synthesis != null {
        synthesis.Resume();
      }
      isPlaying, isPaused := true, false;
    }

    /** Stop: cancel speech; status cleared; the index stays. */
    method Stop()
      requires Valid()
      modifies this, synthesis
      ensures Valid()
      ensures synthesis == old(synthesis) && voice == old(voice) && newsIndex == old(newsIndex)
      ensures !isPlaying && !isPaused
      ensures synthesis != null ==> synthesis.queue == [] && synthesis.paused == old(synthesis.paused)
    {
      if synthesis != null {
        synthesis.Cancel();
      }
      isPlaying, isPaused := false, false;
    }

    /** Next: at the last article, wrap to 0 without cancelling speech or touching the
        status; otherwise cancel speech, step forward by one and clear the status. */
    method Next()
      requires Valid()
      modifies this, synthesis
      ensures Valid()
      ensures synthesis == old(synthesis) && voice == old(voice)
      ensures old(newsIndex) + 1 == |articles| ==>
        newsIndex == 0 && isPlaying == old(isPlaying) && isPaused == old(isPaused) &&
        (synthesis != null ==> synthesis.queue == old(synthesis.queue) && synthesis.paused == old(synthesis.paused))
      ensures old(newsIndex) + 1 != |articles| ==>
        newsIndex == old(newsIndex) + 1 && !isPlaying && !isPaused &&
        (synthesis != null ==> synthesis.queue == [] && synthesis.paused == old(synthesis.paused))
    {
      if newsIndex + 1 == |articles| {
        newsIndex := 0;
        return;
      }
      if synthesis != null {
        synthesis.Cancel();
      }
      newsIndex := newsIndex + 1;
      isPlaying, isPaused := false, false;
    }

    /** Play: queue the selected article's title and then each of its texts, even when
        there are none, setting the status to playing after each. With no article selected,
        reading its link fails and nothing happens (`ok` is false). */
    method Play(fetchText: string -> seq<string>) returns (ok: bool)
      requires Valid()
      modifies this, synthesis
      ensures Valid()
      ensures synthesis == old(synthesis) && voice == old(voice) && newsIndex == old(newsIndex)
      ensures ok <==> 0 <= newsIndex < |articles|
      ensures !ok ==>
        isPlaying == old(isPlaying) && isPaused == old(isPaused) &&
        (synthesis != null ==> synthesis.queue == old(synthesis.queue) && synthesis.paused == old(synthesis.paused))
      ensures ok ==> isPlaying && !isPaused
      ensures ok && synthesis != null ==>
        synthesis.queue == old(synthesis.queue) + PlayList(articles[newsIndex], fetchText(articles[newsIndex].link), voice) &&
        synthesis.paused == old(synthesis.paused)
    {
      var selected := Selected();
      if selected.None? {
        return false;
      }
      var article := selected.value;
      SpeakMarkingPlaying([article.title] + fetchText(article.link));
      return true;
    }

    /** Play's loop: speak each text in order. The loop also sets the status to playing on
        every pass; since `list` always holds the title, that leaves the same state as
        setting it once after the texts are queued. */
    method SpeakMarkingPlaying(list: seq<string>)
      requires Valid() && |list| > 0
      modifies this, synthesis
      ensures Valid()
      ensures synthesis == old(synthesis) && voice == old(voice) && newsIndex == old(newsIndex)
      ensures isPlaying && !isPaused
      ensures synthesis != null ==>
        synthesis.queue == old(synthesis.queue) + Utterances(list, voice) && synthesis.paused == old(synthesis.paused)
    {
      if synthesis != null {
        SpeakEach(synthesis, list, voice);
      }
      isPlaying, isPaused := true, false;
    }

    /** Play All: for each article from `newsIndex` on, in order, fetch its texts and, unless
        there are none, queue its title and then its texts. Neither the index nor the status
        changes. */
    method PlayAll(fetchText: string -> seq<string>)
      requires Valid()
      modifies synthesis
      ensures Valid()
      ensures synthesis != null ==>
        synthesis.queue == old(synthesis.queue) + PlayAllQueue(articles, newsIndex, fetchText, voice, |articles|) &&
        synthesis.paused == old(synthesis.paused)
    {
      // Without an engine every `synthesis?.speak` is skipped and the fetches leave no trace.
      if synthesis != null {
        NarrateAll(synthesis, articles, newsIndex, fetchText, voice);
      }
    }
  }
}
