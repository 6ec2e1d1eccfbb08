/** Text-to-speech routing (`src/services/voice.js`): play the AmeboGPT
    provider's audio, or fall back to the browser's speech synthesis. The
    API key, the provider's HTTP reply and the availability of
    `speechSynthesis` are parameters; the result records the request that
    was sent, the audio that was played and the calls made on the browser
    synthesiser. */
module Voice {
  import opened Wrappers

  const VoiceIds: map<string, string> := map[
    "English" := "ezinne-female",
    "Pidgin" := "pidgin-male",
    "Yoruba" := "olu-male",
    "Hausa" := "musa-male",
    "Igbo" := "chidi-male"
  ]

  const Locales: map<string, string> := map[
    "English" := "en-NG",
    "Pidgin" := "en-NG",
    "Yoruba" := "yo-NG",
    "Hausa" := "ha-NG",
    "Igbo" := "ig-NG"
  ]

  const TtsEndpoint: string := "https://api.amebogpt.com.ng/v1/tts"
  const DefaultLocale: string := "en-NG"

  /** `AMEBO_VOICES[language] || AMEBO_VOICES['English']`. */
  function VoiceId(language: string): (id: string)
    ensures language in VoiceIds ==> id == VoiceIds[language]
    ensures language !in VoiceIds ==> id == "ezinne-female"
    ensures id in VoiceIds.Values
  {
    if language in VoiceIds then VoiceIds[language] else VoiceIds["English"]
  }

  /** `langMap[language] || 'en-NG'`. */
  function Locale(language: string): (locale: string)
    ensures language in Locales ==> locale == Locales[language]
    ensures language !in Locales ==> locale == DefaultLocale
    ensures locale in Locales.Values
  {
    assert Locales["English"] == DefaultLocale;
    if language in Locales then Locales[language] else DefaultLocale
  }

  /** English and Pidgin share the Nigerian English locale; the three other
      languages each get their own. */
  lemma LocaleTable()
    ensures Locale("English") == Locale("Pidgin") == "en-NG"
    ensures forall a, b | a in Locales && b in Locales && a != b && Locale(a) == Locale(b) ::
      {a, b} == {"English", "Pidgin"}
  {
  }

  /** The JSON body of the provider's reply, when it reads as JSON. */
  datatype TtsBody = TtsBody(audioUrl: Option<string>, url: Option<string>)

  /** What `fetch` did: it rejected, or it resolved with the status flag and
      the body (`None` when `response.json()` rejects). */
  datatype TtsReply = FetchFailed | Responded(ok: bool, body: Option<TtsBody>)

  datatype TtsRequest = TtsRequest(endpoint: string, authorization: string, text: string, voiceId: string, format: string)

  /** The calls made on `window.speechSynthesis`. */
  datatype SynthCall = Cancel | Speak(text: string, lang: string, rate: real, pitch: real)

  datatype Speech = Speech(request: Option<TtsRequest>, played: Option<string>, synth: seq<SynthCall>)

  /** `speakWithBrowser`: nothing without a synthesiser; otherwise ongoing
      speech is cancelled and one utterance is spoken in the mapped locale. */
  function SpeakWithBrowser(text: string, language: string, synthAvailable: bool): (calls: seq<SynthCall>)
    ensures !synthAvailable ==> calls == []
    ensures synthAvailable ==> |calls| == 2 && calls[0] == Cancel && calls[1].Speak?
    ensures synthAvailable ==> calls[1].text == text && calls[1].lang == Locale(language)
  {
    if synthAvailable then [Cancel, Speak(text, Locale(language), 0.85, 1.0)] else []
  }

  /** The audio URL a successful reply yields: `audio_url`, else `url`, when
      either is truthy. */
  function AudioUrl(reply: TtsReply): (u: Option<string>)
    ensures u.Some? <==>
      && reply.Responded? && reply.ok && reply.body.Some?
      && (Truthy(reply.body.value.audioUrl) || Truthy(reply.body.value.url))
    ensures u.Some? ==> u.value != []
    ensures u.Some? && Truthy(reply.body.value.audioUrl) ==> u == reply.body.value.audioUrl
    ensures u.Some? && !Truthy(reply.body.value.audioUrl) ==> u == reply.body.value.url
  {
    if reply.Responded? && reply.ok && reply.body.Some? then
      var b := reply.body.value;
      if Truthy(b.audioUrl) then b.audioUrl
      else if Truthy(b.url) then b.url
      else None
    else None
  }

  /** `speakNative`: without a key the browser speaks and nothing is sent;
      with a key the request names the language's voice, and the provider's
      audio is played only for an OK reply carrying a truthy URL
      (`audio_url` preferred); every other outcome falls back to the
      browser. */
  function SpeakNative(text: string, language: string, apiKey: Option<string>, reply: TtsReply, synthAvailable: bool): (r: Speech)
    ensures !Truthy(apiKey) ==> r == Speech(None, None, SpeakWithBrowser(text, language, synthAvailable))
    ensures Truthy(apiKey) ==>
      && r.request.Some? && r.request.value.voiceId == VoiceId(language)
      && r.request.value.text == text && r.request.value.authorization == "Bearer " + apiKey.value
    ensures r.played.Some? <==>
      && Truthy(apiKey) && reply.Responded? && reply.ok && reply.body.Some?
      && (Truthy(reply.body.value.audioUrl) || Truthy(reply.body.value.url))
    ensures r.played.Some? ==>
      && r.synth == [] && r.played.value != []
      && r.played.value == (if Truthy(reply.body.value.audioUrl) then reply.body.value.audioUrl.value else reply.body.value.url.value)
    ensures r.played.None? ==> r.synth == SpeakWithBrowser(text, language, synthAvailable)
  {
    if !Truthy(apiKey) then Speech(None, None, SpeakWithBrowser(text, language, synthAvailable))
    else
      var request := TtsRequest(TtsEndpoint, "Bearer " + apiKey.value, text, VoiceId(language), "mp3");
      match AudioUrl(reply)
      case Some(u) => Speech(Some(request), Some(u), [])
      case None => Speech(Some(request), None, SpeakWithBrowser(text, language, synthAvailable))
  }
}
