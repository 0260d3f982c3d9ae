/**
 * Voice settings: whatever was stored (or nothing) is sanitised into a complete settings
 * record, with every field defaulted, trimmed or clamped into range. Reading and writing
 * local storage and JSON are not part of this model.
 */
module VoiceSettings {
  import opened Wrappers
  import opened Text
  import opened JsValue

  /** The key the settings are stored under. */
  const StorageKey: string := "speechflowVoiceSettings"

  datatype Settings = Settings(
    language: string,
    autoRestart: bool,
    wakePhraseEnabled: bool,
    wakePhrase: string,
    pushToTalkEnabled: bool,
    confidenceThreshold: real,
    playbackRate: real,
    playbackPitch: real,
    playbackVoice: string)

  /** `DEFAULT_SETTINGS`. */
  const Defaults: Settings := Settings("en-US", true, false, "speechflow", false, 0.0, 1.0, 1.0, "")

  /** `clampNumber`: a finite `Number(value)` clamped to [lo, hi], otherwise the fallback. */
  function ClampNumber(value: Value, lo: real, hi: real, fallback: real): (r: real)
    requires lo <= hi
    ensures ToFinite(value).None? ==> r == fallback
    ensures ToFinite(value).Some? ==> lo <= r <= hi
    ensures ToFinite(value).Some? && lo <= ToFinite(value).value <= hi ==> r == ToFinite(value).value
    ensures ToFinite(value).Some? && ToFinite(value).value < lo ==> r == lo
    ensures ToFinite(value).Some? && ToFinite(value).value > hi ==> r == hi
  {
    match ToFinite(value)
    case None => fallback
    case Some(x) =>
      var atLeast := if x < lo then lo else x;
      if atLeast > hi then hi else atLeast
  }

  /** A string field that must be non-blank: its trim, or the fallback. */
  function NonBlankOr(v: Value, fallback: string): (r: string)
    ensures fallback != [] && IsTrimmed(fallback) ==> r != [] && IsTrimmed(r)
  {
    if v.Str? && Trim(v.s) != [] then Trim(v.s) else fallback
  }

  /** Lower-casing keeps a string non-empty and trimmed, and is idempotent. */
  lemma LowerOfTrimmed(s: string)
    requires s != [] && IsTrimmed(s)
    ensures Lower(s) != [] && IsTrimmed(Lower(s)) && Lower(Lower(s)) == Lower(s)
  {
    LowerIdempotent(s);
  }

  /**
   * `sanitizeSettings`; a non-object input is read as `{}`. The language and wake phrase are
   * never blank, the wake phrase is lower case, and the numbers are in their ranges.
   */
  function SanitizeSettings(input: Value): (r: Settings)
    ensures !IsObject(input) ==> r == Defaults
    ensures r.language != [] && IsTrimmed(r.language)
    ensures r.wakePhrase != [] && IsTrimmed(r.wakePhrase) && r.wakePhrase == Lower(r.wakePhrase)
    ensures 0.0 <= r.confidenceThreshold <= 1.0
    ensures 0.5 <= r.playbackRate <= 2.0 && 0.5 <= r.playbackPitch <= 2.0
  {
    var source := if IsObject(input) then input else Obj(map[]);
    var wake := NonBlankOr(Get(source, "wakePhrase"), "speechflow");
    LowerOfTrimmed(wake);
    Settings(
      NonBlankOr(Get(source, "language"), "en-US"),
      Get(source, "autoRestart") != Bool(false),
      Truthy(Get(source, "wakePhraseEnabled")),
      Lower(wake),
      Truthy(Get(source, "pushToTalkEnabled")),
      ClampNumber(Get(source, "confidenceThreshold"), 0.0, 1.0, 0.0),
      ClampNumber(Get(source, "playbackRate"), 0.5, 2.0, 1.0),
      ClampNumber(Get(source, "playbackPitch"), 0.5, 2.0, 1.0),
      if Get(source, "playbackVoice").Str? then Get(source, "playbackVoice").s else "")
  }

  /**
   * How each field is read: `autoRestart` is on unless it is `false`, the flags are the
   * truthiness of the stored values, the voice is kept only when it is a string, and each number
   * is clamped to its range, a missing or non-finite one falling back to its default.
   */
  lemma SanitizeSettingsFields(input: Value)
    ensures var source := if IsObject(input) then input else Obj(map[]);
      var r := SanitizeSettings(input);
      && r.language == NonBlankOr(Get(source, "language"), "en-US")
      && (r.autoRestart <==> Get(source, "autoRestart") != Bool(false))
      && r.wakePhraseEnabled == Truthy(Get(source, "wakePhraseEnabled"))
      && r.pushToTalkEnabled == Truthy(Get(source, "pushToTalkEnabled"))
      && r.wakePhrase == Lower(NonBlankOr(Get(source, "wakePhrase"), "speechflow"))
      && (ToFinite(Get(source, "playbackRate")).None? ==> r.playbackRate == 1.0)
      && (ToFinite(Get(source, "playbackPitch")).None? ==> r.playbackPitch == 1.0)
      && (ToFinite(Get(source, "confidenceThreshold")).None? ==> r.confidenceThreshold == 0.0)
      && r.playbackRate == ClampNumber(Get(source, "playbackRate"), 0.5, 2.0, 1.0)
      && r.playbackPitch == ClampNumber(Get(source, "playbackPitch"), 0.5, 2.0, 1.0)
      && r.confidenceThreshold == ClampNumber(Get(source, "confidenceThreshold"), 0.0, 1.0, 0.0)
      && r.playbackVoice == (if Get(source, "playbackVoice").Str? then Get(source, "playbackVoice").s else "")
  {
  }

  /** The settings as the object that is stored. */
  function SettingsValue(s: Settings): Value {
    Obj(map[
      "language" := Str(s.language), "autoRestart" := Bool(s.autoRestart),
      "wakePhraseEnabled" := Bool(s.wakePhraseEnabled), "wakePhrase" := Str(s.wakePhrase),
      "pushToTalkEnabled" := Bool(s.pushToTalkEnabled),
      "confidenceThreshold" := Num(s.confidenceThreshold), "playbackRate" := Num(s.playbackRate),
      "playbackPitch" := Num(s.playbackPitch), "playbackVoice" := Str(s.playbackVoice)])
  }

  /** A non-blank trimmed string is its own sanitised value. */
  lemma NonBlankOfTrimmed(s: string, fallback: string)
    requires s != [] && IsTrimmed(s)
    ensures NonBlankOr(Str(s), fallback) == s
  {
    TrimOfTrimmed(s);
  }

  /** A number already in range is its own clamp. */
  lemma ClampOfInRange(c: real, lo: real, hi: real, fallback: real)
    requires lo <= c <= hi
    ensures ClampNumber(Num(c), lo, hi, fallback) == c
  {
  }

  /** Each field of the stored object reads back as the field of the settings. */
  lemma SettingsValueFields(s: Settings)
    ensures var v := SettingsValue(s);
      && Get(v, "language") == Str(s.language)
      && Get(v, "autoRestart") == Bool(s.autoRestart)
      && Get(v, "wakePhraseEnabled") == Bool(s.wakePhraseEnabled)
      && Get(v, "wakePhrase") == Str(s.wakePhrase)
      && Get(v, "pushToTalkEnabled") == Bool(s.pushToTalkEnabled)
      && Get(v, "confidenceThreshold") == Num(s.confidenceThreshold)
      && Get(v, "playbackRate") == Num(s.playbackRate)
      && Get(v, "playbackPitch") == Num(s.playbackPitch)
      && Get(v, "playbackVoice") == Str(s.playbackVoice)
  {
  }

  /** Sanitising sanitised settings changes nothing. */
  lemma SanitizeIdempotent(input: Value)
    ensures SanitizeSettings(SettingsValue(SanitizeSettings(input))) == SanitizeSettings(input)
  {
    var s := SanitizeSettings(input);
    var v := SettingsValue(s);
    SettingsValueFields(s);
    var r := SanitizeSettings(v);
    assert r.language == s.language by { NonBlankOfTrimmed(s.language, "en-US"); }
    assert r.wakePhrase == s.wakePhrase by { NonBlankOfTrimmed(s.wakePhrase, "speechflow"); }
    assert r.confidenceThreshold == s.confidenceThreshold by { ClampOfInRange(s.confidenceThreshold, 0.0, 1.0, 0.0); }
    assert r.playbackRate == s.playbackRate by { ClampOfInRange(s.playbackRate, 0.5, 2.0, 1.0); }
    assert r.playbackPitch == s.playbackPitch by { ClampOfInRange(s.playbackPitch, 0.5, 2.0, 1.0); }
  }
}
