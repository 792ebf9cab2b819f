/**
 * The optional third argument of `say` (piper_tts.py:203-206): a selector
 * that, when it holds a '#', names a voice and a speaker as "voice#speaker".
 * Python's `voice.split('#')` is modelled by Split; unpacking its result into
 * two names fails (ValueError) unless there are exactly two parts.
 */
module Selector {
  import opened Wrappers

  const Separator := '#'

  /** The position of the first `c` in `s`. */
  function IndexOf(s: string, c: char): (k: nat)
    requires c in s
    ensures k < |s| && s[k] == c && c !in s[..k]
  {
    if s[0] == c then 0
    else
      assert c in s[1..];
      var k := IndexOf(s[1..], c);
      assert s[..k + 1] == [s[0]] + s[1..][..k];
      k + 1
  }

  /** `sep.join(parts)` */
  function Join(parts: seq<string>, sep: char): string
    requires |parts| >= 1
  {
    if |parts| == 1 then parts[0] else parts[0] + [sep] + Join(parts[1..], sep)
  }

  /** `s.split(sep)`: the maximal pieces of `s` between occurrences of `sep`. */
  function Split(s: string, sep: char): (parts: seq<string>)
    ensures |parts| >= 1
    ensures forall i :: 0 <= i < |parts| ==> sep !in parts[i]
    ensures Join(parts, sep) == s
    ensures |parts| == 1 <==> sep !in s
    decreases |s|
  {
    if sep !in s then [s]
    else
      var k := IndexOf(s, sep);
      var rest := Split(s[k + 1..], sep);
      assert s == s[..k] + [sep] + s[k + 1..];
      [s[..k]] + rest
  }

  /** What `say` makes of its selector. */
  datatype Selection =
    | Unchanged                          // None, empty, or no '#': the session is left alone
    | Compound(voice: string, speaker: string)
    | Malformed                          // more than one '#': the unpack raises

  /**
   * `if voice: if "#" in voice: voice, speaker = voice.split('#')`.
   * A compound selection is exactly the two names around the only '#'.
   */
  function Parse(selector: Option<string>): (sel: Selection)
    ensures sel.Unchanged? <==> selector.None? || Separator !in selector.value
    ensures sel.Compound? ==> selector == Some(sel.voice + [Separator] + sel.speaker)
                              && Separator !in sel.voice && Separator !in sel.speaker
  {
    match selector
    case None => Unchanged
    case Some(s) =>
      if s == [] || Separator !in s then Unchanged
      else
        var parts := Split(s, Separator);
        if |parts| == 2 then Compound(parts[0], parts[1]) else Malformed
  }

  /** Every "voice#speaker" with '#'-free names is read back as that pair. */
  lemma ParseCompound(voice: string, speaker: string)
    requires Separator !in voice && Separator !in speaker
    ensures Parse(Some(voice + [Separator] + speaker)) == Compound(voice, speaker)
  {
  }
}
