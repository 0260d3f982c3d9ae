/**
 * The voice router: a parsed transcript is dispatched to the callbacks the host supplied.
 * Dictation goes to `onDictation`, the five type keywords to `onTypedIntent` (or, for the
 * question keyword only, `onQuestionIntent`), and every other command to its handler from a
 * fixed table, behind a confirmation for the two destructive commands. Routing keeps no state,
 * so it is a function whose result is the ordered list of callbacks invoked.
 */
module VoiceRouter {
  import opened Wrappers
  import opened JsValue
  import opened VoiceParser

  /** The callbacks a host can supply; `Handler(i)` is the table's callback for intent `i`. */
  datatype Hook =
    | OnDictation | OnTypedIntent | OnQuestionIntent | ConfirmDestructive | OnIntent
    | Handler(intent: Intent)

  /** One callback invocation, with the arguments it receives besides the parse itself. */
  datatype Call =
    | Dictate(transcript: Option<string>)
    | TypedIntent(intent: Intent, remainder: string)
    | QuestionIntent(remainder: string)
    | Confirm(intent: Intent)
    | Handle(intent: Intent, args: Args)
    | IntentDone(intent: Intent)

  /** The two commands that may need confirmation. */
  predicate IsDestructive(i: Intent) {
    i == ClearMap || i == DeleteSelectedBubble
  }

  /** The handler table: the callback name for each intent that has one. */
  function HandlerName(i: Intent): (r: Option<string>)
    ensures r.Some? <==> !i.SetType? && !i.CreateBubble?
  {
    match i
    case SelectBubble => Some("onSelectBubble")
    case ToggleConnectMode => Some("onToggleConnectMode")
    case SetConnectModeOn => Some("onSetConnectModeOn")
    case SetConnectModeOff => Some("onSetConnectModeOff")
    case ClearMap => Some("onClearMap")
    case StartPlayback => Some("onStartPlayback")
    case StopPlayback => Some("onStopPlayback")
    case PausePlayback => Some("onPausePlayback")
    case ResumePlayback => Some("onResumePlayback")
    case Undo => Some("onUndo")
    case Redo => Some("onRedo")
    case AddBubble => Some("onAddBubble")
    case DeleteSelectedBubble => Some("onDeleteSelectedBubble")
    case LockSelectedBubble => Some("onLockSelectedBubble")
    case UnlockSelectedBubble => Some("onUnlockSelectedBubble")
    case SnapCenter => Some("onSnapCenter")
    case OpenPromptModal => Some("onOpenPromptModal")
    case OpenVoiceSettings => Some("onOpenVoiceSettings")
    case CloseVoiceSettings => Some("onCloseVoiceSettings")
    case VoiceHelp => Some("onVoiceHelp")
    case SetType(_) => None
    case CreateBubble => None
  }

  /** `parsed.args.transcript`: absent unless the arguments carry a transcript. */
  function TranscriptArg(a: Args): Option<string> {
    if a.Transcript? then Some(a.transcript) else None
  }

  /** `parsed.args.remainder || ''`. */
  function RemainderArg(a: Args): string {
    if a.Remainder? then a.remainder else ""
  }

  /** A router exists only over a parser that offers `parseVoiceInput`. */
  datatype Router = Router(hooks: set<Hook>)

  function CreateVoiceRouter(parserHasParse: bool, hooks: set<Hook>): (r: Result<Router, string>)
    ensures r.Ok? <==> parserHasParse
    ensures r.Ok? ==> r.value.hooks == hooks
    ensures r.Err? ==> r.error == "Voice router requires a parser with parseVoiceInput()."
  {
    if parserHasParse then Ok(Router(hooks))
    else Err("Voice router requires a parser with parseVoiceInput().")
  }

  /** No callback of the trace is a table handler, a confirmation or `onIntent`. */
  predicate OnlyTextCallbacks(r: seq<Call>) {
    forall j :: 0 <= j < |r| ==> !r[j].Handle? && !r[j].Confirm? && !r[j].IntentDone?
  }

  /**
   * The five type keywords: `onTypedIntent`, or for the question keyword `onQuestionIntent`,
   * then `onDictation` with the remainder when it is non-empty.
   */
  function RouteTyped(k: TypeKeyword, a: Args, hooks: set<Hook>): (r: seq<Call>)
    ensures OnlyTextCallbacks(r) && |r| <= 2
    ensures OnTypedIntent in hooks ==> |r| >= 1 && r[0] == TypedIntent(SetType(k), RemainderArg(a))
    ensures OnTypedIntent !in hooks && k == Question && OnQuestionIntent in hooks ==>
      |r| >= 1 && r[0] == QuestionIntent(RemainderArg(a))
    ensures forall j :: 0 <= j < |r| && r[j].QuestionIntent? ==> j == 0 && k == Question && OnTypedIntent !in hooks
    ensures forall j :: 0 <= j < |r| && r[j].Dictate? ==>
      j == |r| - 1 && RemainderArg(a) != [] && OnDictation in hooks
    ensures RemainderArg(a) != [] && OnDictation in hooks ==> |r| >= 1 && r[|r| - 1] == Dictate(Some(RemainderArg(a)))
  {
    var rem := RemainderArg(a);
    var first :=
      if OnTypedIntent in hooks then [TypedIntent(SetType(k), rem)]
      else if k == Question && OnQuestionIntent in hooks then [QuestionIntent(rem)]
      else [];
    var last := if rem != [] && OnDictation in hooks then [Dictate(Some(rem))] else [];
    first + last
  }

  /**
   * Every other command: nothing without its table handler; a destructive command stops at a
   * supplied confirmation that says no; otherwise the handler once, then `onIntent` once.
   */
  function RouteCommand(i: Intent, a: Args, hooks: set<Hook>, approved: bool): (r: seq<Call>)
    ensures HandlerName(i).None? || Handler(i) !in hooks ==> r == []
    ensures HandlerName(i).Some? && Handler(i) in hooks && IsDestructive(i) && ConfirmDestructive in hooks ==>
      |r| >= 1 && r[0] == Confirm(i)
    ensures forall j :: 0 <= j < |r| && r[j].Confirm? ==> j == 0 && IsDestructive(i) && ConfirmDestructive in hooks
    ensures IsDestructive(i) && ConfirmDestructive in hooks && !approved ==>
      forall j :: 0 <= j < |r| ==> !r[j].Handle? && !r[j].IntentDone?
    ensures HandlerName(i).Some? && Handler(i) in hooks && (IsDestructive(i) && ConfirmDestructive in hooks ==> approved) ==>
      var h := if IsDestructive(i) && ConfirmDestructive in hooks then 1 else 0;
      h < |r| && r[h] == Handle(i, a)
    ensures forall j :: 0 <= j < |r| && r[j].Handle? ==>
      && HandlerName(i).Some? && Handler(i) in hooks
      && (IsDestructive(i) && ConfirmDestructive in hooks ==> approved)
      && r[j] == Handle(i, a)
      && (forall m :: 0 <= m < |r| && m != j ==> !r[m].Handle?)
      && (OnIntent in hooks <==> j + 1 < |r|)
      && (j + 1 < |r| ==> r[j + 1] == IntentDone(i) && j + 2 == |r|)
  {
    if HandlerName(i).None? || Handler(i) !in hooks then []
    else
      var gate := if IsDestructive(i) && ConfirmDestructive in hooks then [Confirm(i)] else [];
      if gate != [] && !approved then gate
      else gate + [Handle(i, a)] + (if OnIntent in hooks then [IntentDone(i)] else [])
  }

  /**
   * `route` on a parse (`None` for a parser that returned nothing): the callbacks invoked, in
   * order. `approved` is what `confirmDestructive` answers when it is consulted.
   */
  function Route(parsed: Option<Parsed>, hooks: set<Hook>, approved: bool): (r: seq<Call>)
    ensures parsed.None? || parsed.value.mode == Ignore ==> r == []
    ensures parsed.Some? && parsed.value.mode == Dictation ==>
      r == if OnDictation in hooks then [Dictate(TranscriptArg(parsed.value.args))] else []
    ensures (parsed.Some? && parsed.value.mode == Command && parsed.value.intent.Some?
      && parsed.value.intent.value.SetType?) ==> OnlyTextCallbacks(r)
    // A command goes to the typed-bubble route or to its command handler, and nowhere else.
    ensures parsed.Some? && parsed.value.mode == Command && parsed.value.intent.Some? ==>
      var i := parsed.value.intent.value;
      r == if i.SetType? then RouteTyped(i.keyword, parsed.value.args, hooks)
           else RouteCommand(i, parsed.value.args, hooks, approved)
    ensures forall j :: 0 <= j < |r| && r[j].Confirm? ==>
      parsed.Some? && parsed.value.mode == Command && parsed.value.intent.Some?
      && IsDestructive(parsed.value.intent.value)
  {
    match parsed
    case None => []
    case Some(p) =>
      if p.mode == Ignore then []
      else if p.mode == Dictation then
        if OnDictation in hooks then [Dictate(TranscriptArg(p.args))] else []
      else if p.intent.Some? && p.intent.value.SetType? then
        RouteTyped(p.intent.value.keyword, p.args, hooks)
      else if p.intent.None? then []
      else
        assert p.mode == Command;
        RouteCommand(p.intent.value, p.args, hooks, approved)
  }

  /** `route(rawTranscript)` with the voice parser: the parse is never absent. */
  function RouteTranscript(router: Router, raw: Value, approved: bool): (r: seq<Call>)
    ensures var p := ParseVoiceInput(raw);
      p.mode == Ignore ==> r == []
    ensures var p := ParseVoiceInput(raw);
      p.mode == Dictation ==> r == if OnDictation in router.hooks then [Dictate(Some(p.normalized.text))] else []
    ensures var p := ParseVoiceInput(raw);
      p.mode == Command ==>
        var i := p.intent.value;
        r == if i.SetType? then RouteTyped(i.keyword, p.args, router.hooks)
             else RouteCommand(i, p.args, router.hooks, approved)
    // Only a destructive command ever asks for confirmation.
    ensures forall j :: 0 <= j < |r| && r[j].Confirm? ==>
      var p := ParseVoiceInput(raw); p.mode == Command && IsDestructive(p.intent.value)
  {
    var p := ParseVoiceInput(raw);
    Route(Some(p), router.hooks, approved)
  }

  /** The confirmation's answer changes nothing unless `confirmDestructive` is consulted. */
  lemma ApprovalOnlyWhenAsked(parsed: Option<Parsed>, hooks: set<Hook>)
    requires forall j :: 0 <= j < |Route(parsed, hooks, true)| ==> !Route(parsed, hooks, true)[j].Confirm?
    ensures Route(parsed, hooks, true) == Route(parsed, hooks, false)
  {
  }
}
