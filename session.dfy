/**
 * The plugin object's own state and the operations that change it:
 * `__init__`, `load_model` and `say` (piper_tts.py:70-93, 196-218).
 *
 * `PiperVoice.load` becomes a ModelHandle naming the voice it was loaded for,
 * with a ghost counter of loads; the engine's `synthesize_stream_raw` is the
 * `engine` parameter, giving the finite sequence of blocks it yields. The
 * profile's locale, the catalog and the configs on disk are passed in.
 */
module Session {
  import opened Wrappers
  import opened Errors
  import opened Voices
  import opened Wav
  import Selector

  /** The rate load_model falls back to when the config cannot be read. */
  const DefaultSampleRate := 22050

  /** What `PiperVoice.load(model_file)` produced: the model of one catalog voice. */
  datatype ModelHandle = ModelHandle(locale: string, voice: string)

  /** `pipervoice.synthesize_stream_raw(phrase, speaker_id)`, drained. */
  type Engine = (ModelHandle, string, Option<int>) -> seq<seq<byte>>

  /** The blocks one after the other, in the order they were yielded. */
  function Concat(blocks: seq<seq<byte>>): seq<byte> {
    if blocks == [] then [] else Concat(blocks[..|blocks| - 1]) + blocks[|blocks| - 1]
  }

  /** Concatenating two runs of blocks is concatenating their concatenations. */
  lemma {:induction false} ConcatAppend(a: seq<seq<byte>>, b: seq<seq<byte>>)
    ensures Concat(a + b) == Concat(a) + Concat(b)
  {
    if b != [] {
      assert (a + b)[..|a + b| - 1] == a + b[..|b| - 1];
      ConcatAppend(a, b[..|b| - 1]);
    } else {
      assert a + b == a;
    }
  }

  /** Block i sits, unchanged, right after the bytes of the blocks before it. */
  lemma ConcatBlockAt(blocks: seq<seq<byte>>, i: nat)
    requires i < |blocks|
    ensures var offset := |Concat(blocks[..i])|;
            offset + |blocks[i]| <= |Concat(blocks)|
            && Concat(blocks)[offset..offset + |blocks[i]|] == blocks[i]
  {
    assert blocks == blocks[..i] + [blocks[i]] + blocks[i + 1..];
    ConcatAppend(blocks[..i] + [blocks[i]], blocks[i + 1..]);
    ConcatAppend(blocks[..i], [blocks[i]]);
    assert Concat([blocks[i]]) == blocks[i] by {
      assert [blocks[i]][..0] == [];
    }
  }

  /** `for block in output: byte_output += block` */
  method DrainBlocks(blocks: seq<seq<byte>>) returns (bytes: seq<byte>)
    ensures bytes == Concat(blocks)
  {
    bytes := [];
    for i := 0 to |blocks|
      invariant bytes == Concat(blocks[..i])
    {
      assert blocks[..i + 1][..i] == blocks[..i];
      bytes := bytes + blocks[i];
    }
    assert blocks[..|blocks|] == blocks;
  }

  /** `rate` is what load_model reads for the voice: the config's sample rate, or 22050. */
  ghost predicate SampleRateRead(fs: Installed, locale: string, voice: string, rate: int) {
    if (locale, voice) in fs && fs[(locale, voice)].sampleRate.Some?
    then rate == fs[(locale, voice)].sampleRate.value
    else rate == DefaultSampleRate
  }

  /** PiperTTSPlugin: the active voice and speaker, the loaded model and its sample rate. */
  class PiperTts {
    const locale: string
    const catalog: Catalog
    var voice: string
    var speakerId: Option<int>
    var sampleRate: int
    var pipervoice: ModelHandle
    ghost var loads: nat

    /**
     * The loaded model is the active voice's, unless the active voice is not
     * in the catalog (say assigned it and then load_model raised).
     */
    ghost predicate Valid()
      reads this
    {
      pipervoice == ModelHandle(locale, voice) || !InCatalog(catalog, locale, voice)
    }

    /** __init__ (piper_tts.py:70-78), with the profile's voice, speaker and locale. */
    constructor (locale: string, catalog: Catalog, fs: Installed, profileVoice: string, profileSpeaker: string)
      requires InCatalog(catalog, locale, profileVoice)
      ensures this.locale == locale && this.catalog == catalog
      ensures voice == profileVoice
      ensures speakerId == GetSpeakerId(fs, catalog, locale, profileVoice, profileSpeaker).value
      ensures pipervoice == ModelHandle(locale, profileVoice) && loads == 1
      ensures SampleRateRead(fs, locale, profileVoice, sampleRate)
      ensures Valid()
    {
      this.locale := locale;
      this.catalog := catalog;
      voice := profileVoice;
      speakerId := GetSpeakerId(fs, catalog, locale, profileVoice, profileSpeaker).value;
      loads := 0;
      new;
      var _ := LoadModel(fs);
    }

    /**
     * load_model (piper_tts.py:80-93): loads the active voice's model and
     * reads its sample rate, falling back to 22050 when the config or the
     * field is missing. An unknown voice raises before anything changes.
     */
    method LoadModel(fs: Installed) returns (r: Result<(), Error>)
      modifies this
      ensures r.Success? <==> InCatalog(catalog, locale, voice)
      ensures r.Failure? ==> r.error == UnknownVoice && unchanged(this)
      ensures r.Success? ==> && pipervoice == ModelHandle(locale, voice)
                             && loads == old(loads) + 1
                             && SampleRateRead(fs, locale, voice, sampleRate)
      ensures voice == old(voice) && speakerId == old(speakerId)
      ensures Valid()
    {
      if !InCatalog(catalog, locale, voice) {
        return Failure(UnknownVoice);
      }
      pipervoice := ModelHandle(locale, voice);
      loads := loads + 1;
      var key := (locale, voice);
      if key in fs && fs[key].sampleRate.Some? {
        sampleRate := fs[key].sampleRate.value;
      } else {
        sampleRate := DefaultSampleRate;
      }
      r := Success(());
    }

    /**
     * say (piper_tts.py:196-218). A "voice#speaker" selector switches the
     * active voice (reloading only when it differs) and sets the speaker id;
     * any other selector leaves the object alone. The engine's blocks are
     * then joined and framed with the current sample rate.
     */
    method Say(phrase: string, selector: Option<string>, fs: Installed, engine: Engine)
      returns (r: Result<seq<byte>, Error>)
      requires Valid()
      modifies this
      ensures Valid()
      ensures Selector.Parse(selector).Unchanged? ==> unchanged(this)
      ensures Selector.Parse(selector).Malformed? ==> unchanged(this) && r == Failure(MalformedSelector)
      ensures Selector.Parse(selector).Compound? ==>
        var v := Selector.Parse(selector).voice;
        && voice == v
        && (v == old(voice) ==> pipervoice == old(pipervoice) && sampleRate == old(sampleRate) && loads == old(loads))
        && (v != old(voice) && InCatalog(catalog, locale, v) ==>
              loads == old(loads) + 1 && SampleRateRead(fs, locale, v, sampleRate))
        && (InCatalog(catalog, locale, v) ==>
              && pipervoice == ModelHandle(locale, v)
              && speakerId == GetSpeakerId(fs, catalog, locale, v, Selector.Parse(selector).speaker).value)
        && (!InCatalog(catalog, locale, v) ==>
              && r == Failure(UnknownVoice)
              && speakerId == old(speakerId) && pipervoice == old(pipervoice)
              && sampleRate == old(sampleRate) && loads == old(loads))
      ensures Selector.Parse(selector).Unchanged?
              || (Selector.Parse(selector).Compound? && InCatalog(catalog, locale, Selector.Parse(selector).voice)) ==>
        var audio := Concat(engine(pipervoice, phrase, speakerId));
        if CanFrame(audio, sampleRate)
        then r == Success(PcmToWav(audio, sampleRate, BitsPerSample, Channels))
        else r == Failure(HeaderOverflow)
    {
      var sel := Selector.Parse(selector);
      if sel.Malformed? {
        return Failure(MalformedSelector);
      }
      if sel.Compound? {
        if sel.voice != voice {
          voice := sel.voice;
          var loaded := LoadModel(fs);
          if loaded.Failure? {
            return Failure(loaded.error);
          }
        }
        var id := GetSpeakerId(fs, catalog, locale, sel.voice, sel.speaker);
        if id.Failure? {
          return Failure(id.error);
        }
        if id.value != speakerId {
          speakerId := id.value;
        }
      }
      var bytes := DrainBlocks(engine(pipervoice, phrase, speakerId));
      if !CanFrame(bytes, sampleRate) {
        return Failure(HeaderOverflow);
      }
      r := Success(PcmToWav(bytes, sampleRate, BitsPerSample, Channels));
    }
  }

  /** Saying twice with the same compound selector loads a model at most once. */
  method RepeatedSelectorLoadsAtMostOnce(tts: PiperTts, phrase: string, selector: Option<string>,
                                         fs: Installed, engine: Engine)
    requires tts.Valid()
    requires Selector.Parse(selector).Compound?
    modifies tts
    ensures tts.loads <= old(tts.loads) + 1
    ensures tts.voice == Selector.Parse(selector).voice
  {
    var _ := tts.Say(phrase, selector, fs, engine);
    ghost var afterFirst := tts.loads;
    var _ := tts.Say(phrase, selector, fs, engine);
    assert tts.loads == afterFirst;
  }

  /**
   * The speaker id a compound selector sets stays in force for a later call
   * without a selector, whose audio is synthesized with it.
   */
  method CompoundSpeakerPersists(tts: PiperTts, phrase: string, voice: string, speaker: string,
                                 fs: Installed, engine: Engine)
    returns (second: Result<seq<byte>, Error>)
    requires tts.Valid()
    requires Selector.Separator !in voice && Selector.Separator !in speaker
    requires InCatalog(tts.catalog, tts.locale, voice)
    modifies tts
    ensures tts.speakerId == GetSpeakerId(fs, tts.catalog, tts.locale, voice, speaker).value
    ensures tts.voice == voice && tts.pipervoice == ModelHandle(tts.locale, voice)
    ensures var audio := Concat(engine(ModelHandle(tts.locale, voice), phrase, tts.speakerId));
            CanFrame(audio, tts.sampleRate) ==> second == Success(PcmToWav(audio, tts.sampleRate, BitsPerSample, Channels))
  {
    Selector.ParseCompound(voice, speaker);
    var _ := tts.Say(phrase, Some(voice + [Selector.Separator] + speaker), fs, engine);
    second := tts.Say(phrase, None, fs, engine);
  }
}
