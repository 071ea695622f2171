/** The browser's speech engine (`window.speechSynthesis`) as the player uses it, and the
    utterances the player hands to it. The engine is kept abstract: `speak` appends an
    utterance to its queue, `cancel` empties the queue, `pause` and `resume` set and clear
    a flag. Audio output and the engine's own progress through the queue are left out. */
module Speech {
  import opened Wrappers
  import opened Text

  datatype Voice = Voice(name: string, lang: string)

  /** A `SpeechSynthesisUtterance` after the player has set its fields. Prosody values are
      recorded as given; the model does no arithmetic on them. */
  datatype Utterance = Utterance(text: string, voice: Option<Voice>, pitch: real, rate: real, volume: real)

  const Pitch: real := 0.85
  const Rate: real := 1.0
  const Volume: real := 1.0

  /** The utterance the player builds for one text. */
  function Say(text: string, voice: Option<Voice>): Utterance {
    Utterance(text, voice, Pitch, Rate, Volume)
  }

  /** One utterance per text, in order. */
  function Utterances(texts: seq<string>, voice: Option<Voice>): (r: seq<Utterance>)
    ensures |r| == |texts|
  {
    if texts == [] then [] else Utterances(texts[..|texts| - 1], voice) + [Say(texts[|texts| - 1], voice)]
  }

  /** The `i`-th utterance reads the `i`-th text with the chosen voice and the fixed prosody
      (pitch 0.85, rate 1, volume 1). */
  lemma {:induction false} UtterancesAt(texts: seq<string>, voice: Option<Voice>, i: int)
    requires 0 <= i < |texts|
    ensures Utterances(texts, voice)[i] == Say(texts[i], voice)
    ensures Utterances(texts, voice)[i].pitch == 0.85 && Utterances(texts, voice)[i].rate == 1.0
    ensures Utterances(texts, voice)[i].volume == 1.0 && Utterances(texts, voice)[i].voice == voice
    decreases |texts|
  {
    if i < |texts| - 1 {
      UtterancesAt(texts[..|texts| - 1], voice, i);
    }
  }

  /** Speaking one more text queues one more utterance at the end. */
  lemma UtterancesSnoc(texts: seq<string>, text: string, voice: Option<Voice>)
    ensures Utterances(texts + [text], voice) == Utterances(texts, voice) + [Say(text, voice)]
  {
    assert (texts + [text])[..|texts|] == texts;
  }

  /** The texts an utterance list will read out. */
  function Texts(us: seq<Utterance>): (r: seq<string>)
    ensures |r| == |us|
  {
    if us == [] then [] else Texts(us[..|us| - 1]) + [us[|us| - 1].text]
  }

  /** Building utterances loses no text and adds none. */
  lemma {:induction false} TextsOfUtterances(texts: seq<string>, voice: Option<Voice>)
    ensures Texts(Utterances(texts, voice)) == texts
    decreases |texts|
  {
    if texts != [] {
      var init := texts[..|texts| - 1];
      TextsOfUtterances(init, voice);
      assert Utterances(texts, voice)[..|texts| - 1] == Utterances(init, voice);
      assert init + [texts[|texts| - 1]] == texts;
    }
  }

  /** Utterances of a concatenation are the concatenation of the utterances. */
  lemma UtterancesAppend(a: seq<string>, b: seq<string>, voice: Option<Voice>)
    ensures Utterances(a + b, voice) == Utterances(a, voice) + Utterances(b, voice)
  {
    var l, r := Utterances(a + b, voice), Utterances(a, voice) + Utterances(b, voice);
    forall i | 0 <= i < |l|
      ensures l[i] == r[i]
    {
      UtterancesAt(a + b, voice, i);
      if i < |a| {
        UtterancesAt(a, voice, i);
        assert (a + b)[i] == a[i];
      } else {
        UtterancesAt(b, voice, i - |a|);
        assert (a + b)[i] == b[i - |a|];
      }
    }
  }

  predicate IsKorean(v: Voice) {
    Contains(v.lang, "ko")
  }

  /** `voices.find((voice) => voice.lang.includes("ko"))`, as the index found. */
  function FindKorean(voices: seq<Voice>): (r: Option<nat>)
    ensures r.None? <==> forall i :: 0 <= i < |voices| ==> !IsKorean(voices[i])
    ensures r.Some? ==> r.value < |voices| && IsKorean(voices[r.value])
    ensures r.Some? ==> forall i :: 0 <= i < r.value ==> !IsKorean(voices[i])
  {
    if voices == [] then None
    else if IsKorean(voices[0]) then Some(0)
    else match FindKorean(voices[1..])
      case None => None
      case Some(i) => Some(i + 1)
  }

  /** The speech engine: its utterance queue, its paused flag and the voices it offers. */
  class Engine {
    var queue: seq<Utterance>
    var paused: bool
    const voices: seq<Voice>

    constructor (voices: seq<Voice>)
      ensures queue == [] && !paused && this.voices == voices
    {
      this.voices := voices;
      queue := [];
      paused := false;
    }

    /** `speak(utterance)`: queue the utterance after those already waiting. */
    method Speak(u: Utterance)
      modifies this
      ensures queue == old(queue) + [u] && paused == old(paused)
    {
      queue := queue + [u];
    }

    /** `cancel()`: drop every queued utterance. */
    method Cancel()
      modifies this
      ensures queue == [] && paused == old(paused)
    {
      queue := [];
    }

    /** `pause()`. */
    method Pause()
      modifies this
      ensures paused && queue == old(queue)
    {
      paused := true;
    }

    /** `resume()`. */
    method Resume()
      modifies this
      ensures !paused && queue == old(queue)
    {
      paused := false;
    }
  }
}
