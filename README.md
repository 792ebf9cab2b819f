# Piper TTS plugin: a Dafny model

This project models the core of `piper_tts.py`, a text-to-speech plugin for
the Naomi assistant built on the Piper neural engine. Three parts are modelled:

- **The PCM framer** `pcm2wav` (module `Wav`). It prepends the 44-byte
  RIFF/WAVE header to raw 16-bit mono samples. A buffer that already starts
  with `RIFF` passes through unchanged. Bytes are a `byte` newtype over
  0..255, and `struct.pack('i')` and `struct.pack('h')` are written out as
  little-endian two's-complement encoders. Each encoder is proved to round-trip
  through a decoder. `HeaderLayout` proves every field of the header by
  decoding it from its offset.
- **Voice and speaker lookups** (modules `OrderedDict`, `Voices`,
  `Selector`). These cover `get_voices`, `install_voice`, `get_speakers`,
  `get_speaker_id`, and the `voice#speaker` selector of `say`. A Python
  dict is a sequence of (key, value) pairs with distinct keys, kept in
  stored order. The voice catalog maps a locale to such a table. The
  configs on disk are a map from (locale, voice) to the parsed sidecar
  JSON. A download is the `fetch` parameter: it gives the config a URL
  serves.
- **The plugin object** (module `Session`, class `PiperTts`). This covers
  `__init__`, `load_model` and `say`, which update `voice`, `speaker_id`,
  `sample_rate` and the loaded model. `PiperVoice.load` becomes a
  `ModelHandle` that names the voice it was loaded for, plus a ghost count
  of loads. The engine's `synthesize_stream_raw` is a function parameter
  that gives the blocks the engine yields. `DrainBlocks` is the loop that
  joins those blocks.

Behaviour of the code that the model keeps as written:

- The RIFF size at offset 4 is `len + 44`, which is the whole file length.
  The RIFF/WAVE format puts `len + 36` there.
- Offset 16 holds `bits_per_sample`, where the format has the fmt-chunk
  size. `pcm2wav` forces that value to 16, so the bytes are the standard ones.
- A selector without `#` is ignored. It does not switch the voice.
- A speaker id set by a `voice#speaker` selector is stored in `speaker_id`.
  Later calls without a selector keep using it. This reads line 210 as
  `self.get_speaker_id`; as written, it raises first (see Left out).
- For a voice outside the catalog, `say` assigns `self.voice` before
  `load_model` raises `KeyError`. The active voice changes even though the
  call fails.
- `get_speakers` installs a voice only when its config is missing. But
  `install_voice` downloads both files every time it is called.

How the model represents the exceptions it keeps:

- A selector with more than one `#` makes the tuple unpack at line 206
  raise `ValueError`. The model returns `Failure(MalformedSelector)` and
  changes nothing.
- When a header value does not fit its 32-bit field, `struct.pack` raises.
  `say` returns `Failure(HeaderOverflow)` in that case.

## Model

| member | source | states |
|---|---|---|
| `Wav.PcmToWav` | piper_tts.py:222-243 | output always starts with RIFF; input starting with RIFF is returned unchanged; otherwise the output is 44 bytes longer and ends with the input |
| `Wav.HeaderLayout` | piper_tts.py:224-241 | decoded field by field: RIFF, size len+44, "WAVEfmt ", 16, format 1, 1 channel, sample rate, byte rate rate*2, block align 2, 16 bits, "data", len; holds whatever bits_per_sample and channels the caller passes |
| `Wav.PcmToWavIdempotent` | piper_tts.py:226-230 | framing a framed buffer again, with any arguments, returns it unchanged |
| `Wav.RiffSizeIsFileLength` | piper_tts.py:231 | the size written at offset 4 equals the whole file length, 8 more than the bytes after the size field |
| `Wav.FourByteExample` | piper_tts.py:229-242 | four sample bytes at 22050 Hz give a 48-byte file whose header decodes to the canonical values |
| `Wav.PackInt32` | piper_tts.py:231 | `struct.pack('i', v)` is four bytes that decode back to v |
| `Wav.PackInt16` | piper_tts.py:234 | `struct.pack('h', v)` is two bytes that decode back to v |
| `Wav.LeRoundTrip` | piper_tts.py:231 | reading back w little-endian bytes of n < 256^w gives n |
| `OrderedDict.Lookup` | piper_tts.py:190-191 | the lookup finds a value exactly when the key is a key of the dict, and the value is stored with that key |
| `OrderedDict.LookupFindsEntry` | piper_tts.py:190-191 | in a dict, looking up any stored key returns the value stored with it |
| `OrderedDict.Keys` | piper_tts.py:171 | the key list holds exactly the dict's keys, in stored order, with no key twice |
| `Voices.GetVoices` | piper_tts.py:125-133 | an unknown locale fails; otherwise the locale's voice names in catalog order, which are exactly the voices the catalog can resolve |
| `Voices.InstallVoice` | piper_tts.py:135-145 | fails for a voice not in the catalog; otherwise the config served by the voice's config URL is stored under (locale, voice), even if one was already there, and every other config is unchanged |
| `Voices.SpeakersOf` | piper_tts.py:169-173 | never empty and never lists a name twice; `["Default"]` for an empty speaker map; otherwise one name per stored speaker, in stored order, each looking up to that speaker's id |
| `Voices.GetSpeakers` | piper_tts.py:147-174 | `["Default"]` with nothing installed when no voice is configured; fails for a voice not in the catalog; otherwise the config is present afterwards, nothing is installed when it was present already, other configs are untouched, and the list is `["Default"]` or the map's keys |
| `Voices.GetSpeakerId` | piper_tts.py:176-192 | fails only for a voice not in the catalog; returns an id only when the installed config maps the speaker to it; returns None when the config is missing or lacks the speaker |
| `Voices.ListedSpeakersResolve` | piper_tts.py:185-192 | every speaker get_speakers lists resolves through get_speaker_id to its stored id, and "Default" of a voice with an empty map resolves to None without failing |
| `Voices.ListedSpeakersDistinct` | piper_tts.py:169-174 | get_speakers never lists a name twice |
| `Selector.Split` | piper_tts.py:206 | `s.split('#')`: at least one part, no part holds '#', joining the parts with '#' gives s back, and there is one part exactly when s holds no '#' |
| `Selector.Parse` | piper_tts.py:203-206 | no selector, or one without '#', leaves the session alone; a compound selection is the two '#'-free names around the only '#' |
| `Selector.ParseCompound` | piper_tts.py:204-206 | any "voice#speaker" with '#'-free names parses back to that pair |
| `Session.ConcatAppend` | piper_tts.py:214-216 | joining two runs of blocks is joining their joins |
| `Session.ConcatBlockAt` | piper_tts.py:214-216 | each block appears unchanged in the output, right after the blocks yielded before it |
| `Session.DrainBlocks` | piper_tts.py:214-216 | the loop's output is the blocks concatenated in yield order |
| `Session.PiperTts.constructor` | piper_tts.py:70-78 | voice from the profile, speaker id resolved for the profile speaker, that voice's model loaded once, sample rate read from its config |
| `Session.PiperTts.LoadModel` | piper_tts.py:80-93 | loads the active voice's model, counting one load; sets the sample rate from the config, or to 22050 when the config or its field is missing; a voice not in the catalog fails with nothing changed |
| `Session.PiperTts.Say` | piper_tts.py:196-218 | without a compound selector nothing changes; a compound one sets the voice and reloads only when it differs; the speaker id becomes the resolved one; a voice not in the catalog fails after the voice is assigned; the result frames the joined engine blocks at the current sample rate |
| `Session.RepeatedSelectorLoadsAtMostOnce` | piper_tts.py:207-209 | two calls with the same compound selector load a model at most once |
| `Session.CompoundSpeakerPersists` | piper_tts.py:210-213 | after a compound selector, a call without a selector synthesizes with the speaker id it set |

## Left out

- `PiperVoice.load` and `synthesize_stream_raw` belong to the neural engine, whose code is not part of this model. They become a handle and a function parameter. The load failure when the model file is absent is not modelled.
- `settings()` is host UI plumbing and is not modelled.
- The contents of the static URL table are not modelled. The catalog is a parameter of every operation.
- `os.path.join` path building and `os.makedirs` are left out. Files are keyed by (locale, voice).
  Lines 157 and 184 join `model_dir` with a `model_filename` that already starts with `model_dir`.
  That names the same config file that lines 84 and 143 use only when `paths.sub('piper')` is an
  absolute path, because `os.path.join` then drops its first argument. The shared (locale, voice)
  key, and with it `Voices.ListedSpeakersResolve`, assumes that absolute path.
- Network and disk failures of `app_utils.download_file` are not modelled. `install_voice` also downloads the model file, which the model does not track; only the config is tracked.
- `print` logging is left out.
- `profile.get` becomes parameters. The locale is fixed for the life of a session.
- JSON parse errors are not modelled. A config without `speaker_id_map` would make `get_speakers` and `get_speaker_id` raise `KeyError`; every modelled config has that key.
- The sample rate is modelled as an integer. The source accepts any JSON value there.
- Session.PiperTts.constructor: requires the profile voice to be in the catalog, because a constructor cannot return a failure. The source raises `KeyError` there. A profile speaker of `None` is not modelled.
- Session.PiperTts.Say: the model calls `self.get_speaker_id`. Line 210 calls `get_speaker_id` without `self.`, which raises `NameError`. As written, every `voice#speaker` call therefore fails after `self.voice` and the loaded model have been updated. The model does not capture that failure.
- Wav.PcmToWav: requires every header value to fit its 32-bit field, where the source raises `struct.error`. `Say` checks the same condition and returns `Failure(HeaderOverflow)`.
- Native `struct` byte order is taken to be little-endian.
- Thread safety and locking are not modelled. The plugin has none.
