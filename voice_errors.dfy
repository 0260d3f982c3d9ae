/**
 * The error normaliser: a platform speech-recognition error code becomes a descriptor
 * with a semantic code, a user-facing message and whether the failure is recoverable and
 * whether listening should restart. The descriptor's timestamp is left out.
 */
module VoiceErrors {
  import opened Wrappers

  /** The semantic error codes a descriptor carries. */
  datatype SemanticCode =
    | PermissionDenied | ServiceBlocked | AudioCaptureUnavailable | NetworkError
    | NoSpeechDetected | RecognitionAborted | UnknownError | NotSupported

  function SemanticName(c: SemanticCode): string {
    match c
    case PermissionDenied => "permission_denied"
    case ServiceBlocked => "service_blocked"
    case AudioCaptureUnavailable => "audio_capture_unavailable"
    case NetworkError => "network_error"
    case NoSpeechDetected => "no_speech_detected"
    case RecognitionAborted => "recognition_aborted"
    case UnknownError => "unknown_error"
    case NotSupported => "not_supported"
  }

  /**
   * A user-facing message, kept as the case it comes from; `MessageText` gives its wording.
   */
  datatype Message = TableMessage(platform: PlatformCode) | UnknownMessage(raw: string) | NotSupportedMessage

  function MessageText(m: Message): string {
    match m
    case TableMessage(c) => KnownMessage(c)
    case UnknownMessage(raw) => "Speech recognition error: " + raw
    case NotSupportedMessage => "Speech recognition is not supported in this browser."
  }

  datatype ErrorDescriptor = ErrorDescriptor(
    rawCode: Option<string>,
    code: SemanticCode,
    message: Message,
    recoverable: bool,
    restart: bool)

  /** The platform codes the table knows. */
  datatype PlatformCode = NotAllowed | ServiceNotAllowed | AudioCapture | Network | NoSpeech | Aborted

  function CodeName(c: PlatformCode): string {
    match c
    case NotAllowed => "not-allowed"
    case ServiceNotAllowed => "service-not-allowed"
    case AudioCapture => "audio-capture"
    case Network => "network"
    case NoSpeech => "no-speech"
    case Aborted => "aborted"
  }

  /** The key lookup `ERROR_MAP[rawCode]`: which known code, if any, a raw code names. */
  function ParseCode(raw: string): (c: Option<PlatformCode>)
    ensures c.Some? ==> CodeName(c.value) == raw
    ensures c.None? ==> forall k :: CodeName(k) != raw
  {
    if raw == "not-allowed" then Some(NotAllowed)
    else if raw == "service-not-allowed" then Some(ServiceNotAllowed)
    else if raw == "audio-capture" then Some(AudioCapture)
    else if raw == "network" then Some(Network)
    else if raw == "no-speech" then Some(NoSpeech)
    else if raw == "aborted" then Some(Aborted)
    else None
  }

  /** One entry of the table of known platform codes. */
  datatype Mapping = Mapping(code: SemanticCode, message: Message, recoverable: bool, restart: bool)

  /** The codes that mean the user or the browser refused the microphone or the service. */
  predicate IsBlocked(c: PlatformCode) {
    c == NotAllowed || c == ServiceNotAllowed
  }

  /** The semantic code of each known platform code. */
  function SemanticOf(c: PlatformCode): SemanticCode {
    match c
    case NotAllowed => PermissionDenied
    case ServiceNotAllowed => ServiceBlocked
    case AudioCapture => AudioCaptureUnavailable
    case Network => NetworkError
    case NoSpeech => NoSpeechDetected
    case Aborted => RecognitionAborted
  }

  /** The user-facing message of each known platform code. */
  function KnownMessage(c: PlatformCode): string {
    match c
    case NotAllowed => "Microphone access is blocked. Enable microphone permissions and retry."
    case ServiceNotAllowed => "Speech recognition service is not allowed in this browser/session."
    case AudioCapture => "No microphone was detected. Check your audio input device."
    case Network => "Speech recognition network error. Retrying automatically."
    case NoSpeech => "No speech detected. Continue speaking to keep listening active."
    case Aborted => "Speech recognition was stopped."
  }

  /** The table of known platform codes: refusals are final, everything else is retried. */
  function ErrorMap(c: PlatformCode): (m: Mapping)
    ensures m.recoverable == m.restart == !IsBlocked(c)
    ensures m.code != UnknownError && m.code != NotSupported
  {
    Mapping(SemanticOf(c), TableMessage(c), !IsBlocked(c), !IsBlocked(c))
  }

  /** `input && input.error ? input.error : 'unknown'`; `None` is an event without an error field. */
  function RawCode(error: Option<string>): (raw: string)
    ensures raw != []
    ensures error.Some? && error.value != [] ==> raw == error.value
  {
    if error.Some? && error.value != [] then error.value else "unknown"
  }

  /** `normalizeRecognitionError`: total, and never mixes a restart with an unrecoverable error. */
  function NormalizeRecognitionError(error: Option<string>): (d: ErrorDescriptor)
    ensures d.rawCode == Some(RawCode(error))
    ensures d.recoverable == d.restart
    ensures !d.recoverable <==> exists c :: IsBlocked(c) && CodeName(c) == RawCode(error)
    ensures d.code == UnknownError <==> forall c :: CodeName(c) != RawCode(error)
    ensures (forall c :: CodeName(c) != RawCode(error)) ==>
      d.message == UnknownMessage(RawCode(error))
  {
    var raw := RawCode(error);
    match ParseCode(raw)
    case Some(c) =>
      var m := ErrorMap(c);
      ErrorDescriptor(Some(raw), m.code, m.message, m.recoverable, m.restart)
    case None => ErrorDescriptor(Some(raw), UnknownError, UnknownMessage(raw), true, true)
  }

  /** Every known code is recognised as itself by the table lookup. */
  lemma ParseCodeName(c: PlatformCode)
    ensures ParseCode(CodeName(c)) == Some(c)
  {
  }

  /** A known code yields exactly its table entry. */
  lemma NormalizeKnown(c: PlatformCode)
    ensures var m := ErrorMap(c);
      NormalizeRecognitionError(Some(CodeName(c))) ==
        ErrorDescriptor(Some(CodeName(c)), m.code, m.message, m.recoverable, m.restart)
  {
    ParseCodeName(c);
  }

  /** Distinct known platform codes keep distinct semantic codes, so no information is lost. */
  lemma KnownCodesDistinct(a: PlatformCode, b: PlatformCode)
    requires a != b
    ensures ErrorMap(a).code != ErrorMap(b).code
  {
  }

  /** A missing or empty error code reads as the unknown code `unknown`. */
  lemma MissingCodeIsUnknown(error: Option<string>)
    requires error.None? || error.value == []
    ensures NormalizeRecognitionError(error) ==
      ErrorDescriptor(Some("unknown"), UnknownError, UnknownMessage("unknown"), true, true)
  {
  }
}
