/**
 * The voice catalog (the class attribute `voices`), the configs installed on
 * disk next to each model, and the lookups over them: `get_voices`,
 * `install_voice`, `get_speakers` and `get_speaker_id`.
 *
 * Files are keyed by (locale, voice) instead of by path. The sidecar config
 * of an installed voice is its parsed JSON: the optional `audio.sample_rate`
 * and the `speaker_id_map`. Downloading a URL is the `fetch` parameter.
 */
module Voices {
  import opened Wrappers
  import opened Errors
  import opened OrderedDict

  /** One catalog row: where a voice's model and config are downloaded from. */
  datatype VoiceEntry = VoiceEntry(modelUrl: string, configUrl: string, modelFile: string)

  /** The voices of one locale, in the order the catalog lists them. */
  type VoiceTable = t: seq<(string, VoiceEntry)> | DistinctKeys(t) witness []

  /** locale -> voice name -> entry. */
  type Catalog = map<string, VoiceTable>

  /** Speaker name -> numeric speaker id, in stored order. */
  type SpeakerIdMap = m: seq<(string, int)> | DistinctKeys(m) witness []

  /** The parsed sidecar `<model_file>.json`. */
  datatype VoiceConfig = VoiceConfig(sampleRate: Option<int>, speakerIdMap: SpeakerIdMap)

  /** The configs present on disk, by (locale, voice). */
  type Installed = map<(string, string), VoiceConfig>

  /** The name listed for a voice whose speaker map is empty. */
  const DefaultSpeaker := "Default"

  /** `self.voices[locale][voice]` does not raise. */
  predicate InCatalog(catalog: Catalog, locale: string, voice: string) {
    locale in catalog && voice in Keys(catalog[locale])
  }

  function Entry(catalog: Catalog, locale: string, voice: string): (e: VoiceEntry)
    requires InCatalog(catalog, locale, voice)
    ensures (voice, e) in catalog[locale]
  {
    Lookup(catalog[locale], voice).value
  }

  /** get_voices (piper_tts.py:125-133): the voice names of a locale, in catalog order. */
  function GetVoices(catalog: Catalog, locale: string): (r: Result<seq<string>, Error>)
    ensures r.Failure? <==> locale !in catalog
    ensures r.Failure? ==> r.error == UnknownVoice
    ensures r.Success? ==> |r.value| == |catalog[locale]|
                           && forall i :: 0 <= i < |r.value| ==> r.value[i] == catalog[locale][i].0
    ensures r.Success? ==> forall v :: v in r.value <==> InCatalog(catalog, locale, v)
  {
    if locale in catalog then Success(Keys(catalog[locale])) else Failure(UnknownVoice)
  }

  /**
   * install_voice (piper_tts.py:135-145): downloads the model and then the
   * config of a catalog voice, whether or not they are already present. Only
   * the config is tracked here; it is what the config URL serves.
   */
  function InstallVoice(fs: Installed, catalog: Catalog, locale: string, voice: string,
                        fetch: string -> VoiceConfig): (r: Result<Installed, Error>)
    ensures r.Failure? <==> !InCatalog(catalog, locale, voice)
    ensures r.Failure? ==> r.error == UnknownVoice
    ensures r.Success? ==> && r.value.Keys == fs.Keys + {(locale, voice)}
                           && r.value[(locale, voice)] == fetch(Entry(catalog, locale, voice).configUrl)
                           && forall k :: k in fs && k != (locale, voice) ==> r.value[k] == fs[k]
  {
    if InCatalog(catalog, locale, voice) then
      Success(fs[(locale, voice) := fetch(Entry(catalog, locale, voice).configUrl)])
    else
      Failure(UnknownVoice)
  }

  /** The speaker list of a config: its map's keys, or the single default speaker. */
  function SpeakersOf(config: VoiceConfig): (speakers: seq<string>)
    ensures |speakers| >= 1
    ensures forall i, j :: 0 <= i < j < |speakers| ==> speakers[i] != speakers[j]
    ensures |config.speakerIdMap| == 0 ==> speakers == [DefaultSpeaker]
    ensures |config.speakerIdMap| > 0 ==>
      && |speakers| == |config.speakerIdMap|
      && forall i :: 0 <= i < |speakers| ==>
           && speakers[i] == config.speakerIdMap[i].0
           && Lookup(config.speakerIdMap, speakers[i]) == Some(config.speakerIdMap[i].1)
  {
    if |config.speakerIdMap| > 0 then Keys(config.speakerIdMap) else [DefaultSpeaker]
  }

  /**
   * get_speakers (piper_tts.py:147-174) for the profile's voice: installs the
   * voice first when its config is missing, then lists the speakers. Returns
   * the list and the installed configs afterwards.
   */
  function GetSpeakers(fs: Installed, catalog: Catalog, locale: string, voice: Option<string>,
                       fetch: string -> VoiceConfig): (r: Result<(seq<string>, Installed), Error>)
    ensures voice.None? ==> r == Success(([DefaultSpeaker], fs))
    ensures voice.Some? ==> (r.Failure? <==> !InCatalog(catalog, locale, voice.value))
    ensures r.Failure? ==> r.error == UnknownVoice
    ensures r.Success? && voice.Some? ==>
      var (speakers, fs') := r.value;
      var key := (locale, voice.value);
      && fs'.Keys == fs.Keys + {key}
      && (key in fs ==> fs' == fs)
      && (forall k :: k in fs && k != key ==> fs'[k] == fs[k])
      && (|fs'[key].speakerIdMap| == 0 ==> speakers == [DefaultSpeaker])
      && (|fs'[key].speakerIdMap| > 0 ==> speakers == Keys(fs'[key].speakerIdMap))
  {
    match voice
    case None => Success(([DefaultSpeaker], fs))
    case Some(v) =>
      if !InCatalog(catalog, locale, v) then Failure(UnknownVoice)
      else
        var fs' := if (locale, v) in fs then fs else InstallVoice(fs, catalog, locale, v, fetch).value;
        Success((SpeakersOf(fs'[(locale, v)]), fs'))
  }

  /**
   * get_speaker_id (piper_tts.py:176-192): the id the voice's installed config
   * maps the speaker to, or None when the config is missing or does not name
   * the speaker. The catalog lookup that builds the path raises for an
   * unknown voice.
   */
  function GetSpeakerId(fs: Installed, catalog: Catalog, locale: string, voice: string,
                        speaker: string): (r: Result<Option<int>, Error>)
    ensures r.Failure? <==> !InCatalog(catalog, locale, voice)
    ensures r.Failure? ==> r.error == UnknownVoice
    ensures r.Success? && r.value.Some? ==>
      (locale, voice) in fs && (speaker, r.value.value) in fs[(locale, voice)].speakerIdMap
    ensures r.Success? && r.value.None? ==>
      (locale, voice) !in fs || speaker !in Keys(fs[(locale, voice)].speakerIdMap)
  {
    if !InCatalog(catalog, locale, voice) then Failure(UnknownVoice)
    else if (locale, voice) in fs then Success(Lookup(fs[(locale, voice)].speakerIdMap, speaker))
    else Success(None)
  }

  /**
   * Every speaker get_speakers lists resolves through get_speaker_id to the id
   * its config stores, and the default speaker of a voice without a speaker
   * map resolves to no id rather than failing.
   */
  lemma ListedSpeakersResolve(fs: Installed, catalog: Catalog, locale: string, voice: string,
                              fetch: string -> VoiceConfig)
    requires InCatalog(catalog, locale, voice)
    ensures var (speakers, fs') := GetSpeakers(fs, catalog, locale, Some(voice), fetch).value;
            var m := fs'[(locale, voice)].speakerIdMap;
            && (forall i :: 0 <= i < |m| ==> GetSpeakerId(fs', catalog, locale, voice, speakers[i]) == Success(Some(m[i].1)))
            && (|m| == 0 ==> GetSpeakerId(fs', catalog, locale, voice, DefaultSpeaker) == Success(None))
  {
  }

  /** The speaker names get_speakers lists are distinct. */
  lemma ListedSpeakersDistinct(fs: Installed, catalog: Catalog, locale: string, voice: Option<string>,
                               fetch: string -> VoiceConfig)
    requires GetSpeakers(fs, catalog, locale, voice, fetch).Success?
    ensures var speakers := GetSpeakers(fs, catalog, locale, voice, fetch).value.0;
            forall i, j :: 0 <= i < j < |speakers| ==> speakers[i] != speakers[j]
  {
  }
}
