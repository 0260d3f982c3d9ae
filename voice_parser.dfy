/**
 * The transcript classifier: a transcript is normalised (trimmed, lower-cased, white space
 * collapsed, trailing punctuation cut), then classified by the first rule that matches, in
 * this order: select a bubble by number, add a bubble with text, a type-keyword prefix, an
 * exact command alias, and otherwise dictation.
 */
module VoiceParser {
  import opened Wrappers
  import opened Text
  import opened JsValue

  /** The keywords that set the type of the next bubble. */
  datatype TypeKeyword = Question | Task | Note | Blocker | Idea

  function KeywordName(k: TypeKeyword): string {
    match k
    case Question => "question"
    case Task => "task"
    case Note => "note"
    case Blocker => "blocker"
    case Idea => "idea"
  }

  datatype Intent =
    | VoiceHelp | SelectBubble | ToggleConnectMode | SetConnectModeOn | SetConnectModeOff
    | ClearMap | StartPlayback | StopPlayback | PausePlayback | ResumePlayback | Undo | Redo
    | AddBubble | DeleteSelectedBubble | LockSelectedBubble | UnlockSelectedBubble | SnapCenter
    | OpenPromptModal | OpenVoiceSettings | CloseVoiceSettings
    | SetType(keyword: TypeKeyword)
    | CreateBubble

  /** The intent names reported to callers. */
  function IntentName(i: Intent): string {
    match i
    case VoiceHelp => "voice_help"
    case SelectBubble => "select_bubble"
    case ToggleConnectMode => "toggle_connect_mode"
    case SetConnectModeOn => "set_connect_mode_on"
    case SetConnectModeOff => "set_connect_mode_off"
    case ClearMap => "clear_map"
    case StartPlayback => "start_playback"
    case StopPlayback => "stop_playback"
    case PausePlayback => "pause_playback"
    case ResumePlayback => "resume_playback"
    case Undo => "undo"
    case Redo => "redo"
    case AddBubble => "add_bubble"
    case DeleteSelectedBubble => "delete_selected_bubble"
    case LockSelectedBubble => "lock_selected_bubble"
    case UnlockSelectedBubble => "unlock_selected_bubble"
    case SnapCenter => "snap_center"
    case OpenPromptModal => "open_prompt_modal"
    case OpenVoiceSettings => "open_voice_settings"
    case CloseVoiceSettings => "close_voice_settings"
    case SetType(k) => "set_" + KeywordName(k) + "_intent"
    case CreateBubble => "create_bubble"
  }

  /** The four forms of a transcript after normalisation. */
  datatype Normalized = Normalized(text: string, lowered: string, compact: string, stripped: string)

  datatype Mode = Ignore | Command | Dictation

  /** A command's arguments; `NoArgs` is the empty object. */
  datatype Args = NoArgs | BubbleIndex(index: int) | Transcript(transcript: string) | Remainder(remainder: string)

  datatype Parsed = Parsed(mode: Mode, intent: Option<Intent>, args: Args, normalized: Normalized)

  /** `makeCommand`. */
  function MakeCommand(intent: Intent, args: Args, n: Normalized): Parsed {
    Parsed(Command, Some(intent), args, n)
  }

  /** The characters `[!?.,;:]`. */
  predicate IsPunct(c: char) {
    c == '!' || c == '?' || c == '.' || c == ',' || c == ';' || c == ':'
  }

  /** `replace(/[!?.,;:]+$/g, '')`: the trailing run of punctuation is cut. */
  function StripTrailingPunct(s: string): (r: string)
    ensures StartsWith(s, r)
    ensures forall i :: |r| <= i < |s| ==> IsPunct(s[i])
    ensures r == [] || !IsPunct(r[|r| - 1])
  {
    if s != [] && IsPunct(s[|s| - 1]) then StripTrailingPunct(s[..|s| - 1]) else s
  }

  /** `normalizeTranscript(raw)`: the transcript is `String(raw || '')`. */
  function NormalizeTranscript(raw: Value): (n: Normalized)
    ensures |n.compact| <= |n.text|
  {
    Normalize(ToStr(Or(raw, Str(""))))
  }

  /**
   * The normalisation of a transcript string: `text` is the trimmed transcript, `lowered`
   * its lower-case form, `compact` the lower-case form with white-space runs made single
   * spaces and trimmed, `stripped` the compact form without its trailing punctuation,
   * trimmed again. `NormalizeShape` states what the four forms look like.
   */
  function Normalize(s: string): (n: Normalized)
    ensures |n.compact| <= |n.text|
  {
    var text := Trim(s);
    var lowered := Lower(text);
    var compact := Trim(Collapse(lowered));
    var stripped := Trim(StripTrailingPunct(compact));
    Normalized(text, lowered, compact, stripped)
  }

  /** The shape of the four normalised forms. */
  lemma NormalizeShape(s: string)
    ensures var n := Normalize(s);
      && n.text == Trim(s)
      && n.lowered == Lower(n.text) && IsTrimmed(n.lowered)
      && IsTrimmed(n.compact) && SingleSpaced(n.compact)
      && (n.compact == [] <==> n.text == [])
      && IsTrimmed(n.stripped) && SingleSpaced(n.stripped) && StartsWith(n.compact, n.stripped)
      && (forall i :: |n.stripped| <= i < |n.compact| ==> IsPunct(n.compact[i]) || IsSpace(n.compact[i]))
  {
    var n := Normalize(s);
    LowerTrimmed(n.text);
    CollapseTrimmed(n.lowered);
    StripTrimmed(n.compact);
  }

  lemma LowerTrimmed(s: string)
    requires IsTrimmed(s)
    ensures IsTrimmed(Lower(s))
  {
    if s != [] {
      assert Lower(s)[0] == LowerChar(s[0]);
      assert Lower(s)[|s| - 1] == LowerChar(s[|s| - 1]);
    }
  }

  /** Collapsing and trimming trimmed text gives single-spaced text, empty only for empty input. */
  lemma CollapseTrimmed(s: string)
    requires IsTrimmed(s)
    ensures var c := Trim(Collapse(s)); SingleSpaced(c) && |c| <= |s| && (c == [] <==> s == [])
  {
    var collapsed := Collapse(s);
    CollapseShape(s);
    TrimSingleSpaced(collapsed);
    if s != [] {
      TrimStartOfTrimmed(collapsed);
      TrimEndNonEmpty(collapsed);
    }
  }

  lemma TrimSingleSpaced(x: string)
    requires SingleSpaced(x)
    ensures SingleSpaced(Trim(x))
  {
    var c := Trim(x);
    var k := |x| - |TrimStart(x)|;
    TrimSlices(x);
    SingleSpacedSlice(x, k, k + |c|);
  }

  lemma TrimEndNonEmpty(x: string)
    requires x != [] && !IsSpace(x[0])
    ensures TrimEnd(x) != []
  {
  }

  /** Cutting trailing punctuation and trimming again leaves a single-spaced prefix; what is
      cut is punctuation and white space. */
  lemma StripTrimmed(c: string)
    requires IsTrimmed(c) && SingleSpaced(c)
    ensures var t := Trim(StripTrailingPunct(c));
      && SingleSpaced(t) && StartsWith(c, t)
      && forall i :: |t| <= i < |c| ==> IsPunct(c[i]) || IsSpace(c[i])
  {
    var cut := StripTrailingPunct(c);
    assert SingleSpaced(cut) && (cut == [] || !IsSpace(cut[0])) by {
      assert cut == c[..|cut|];
      SingleSpacedSlice(c, 0, |cut|);
    }
    var t := Trim(cut);
    assert t == TrimEnd(cut) by {
      TrimStartOfTrimmed(cut);
    }
    assert SingleSpaced(t) by {
      SingleSpacedSlice(cut, 0, |t|);
    }
    CutTail(c, cut, t);
  }

  lemma CutTail(c: string, cut: string, t: string)
    requires cut == StripTrailingPunct(c) && t == TrimEnd(cut)
    ensures StartsWith(c, t)
    ensures forall i :: |t| <= i < |c| ==> IsPunct(c[i]) || IsSpace(c[i])
  {
    assert AllSpace(cut[|t|..]);
    forall i | |t| <= i < |c| ensures IsPunct(c[i]) || IsSpace(c[i]) {
      if i < |cut| {
        assert c[..|cut|][i] == c[i];
        assert cut[|t|..][i - |t|] == cut[i];
      }
    }
  }

  /** A transcript that is already trimmed, lower-case, single-spaced and ends without
      punctuation is its own text, compact and stripped form. */
  lemma {:induction false} NormalizePlain(w: string)
    requires IsTrimmed(w) && SingleSpaced(w) && Lower(w) == w
    requires w == [] || !IsPunct(w[|w| - 1])
    ensures Normalize(w) == Normalized(w, w, w, w)
  {
    TrimOfTrimmed(w);
    CollapseSingleSpaced(w);
    assert StripTrailingPunct(w) == w;
  }

  predicate IsNumeral(d: string) {
    d != [] && AllDigits(d)
  }

  /** `s` is `prefix` followed by a decimal numeral. */
  predicate NumberedAfter(s: string, prefix: string) {
    StartsWith(s, prefix) && IsNumeral(s[|prefix|..])
  }

  /** The number after `prefix`, as a 0-based bubble index. */
  function IndexAfter(s: string, prefix: string): int
    requires NumberedAfter(s, prefix)
  {
    DigitsValue(s[|prefix|..]) - 1
  }

  /** The select command for the numeral after `prefix`. */
  function SelectAfter(s: string, prefix: string, n: Normalized): Parsed
    requires NumberedAfter(s, prefix)
  {
    MakeCommand(SelectBubble, BubbleIndex(DigitsValue(s[|prefix|..]) - 1), n)
  }

  /**
   * `parseSelectBubble` on the stripped text: `bubble N`, `select bubble N`, `focus bubble N`
   * or `go to bubble N` selects the bubble at 0-based index N - 1.
   */
  function ParseSelectBubble(s: string, n: Normalized): (r: Option<Parsed>)
    ensures r.Some? <==> (NumberedAfter(s, "bubble ") || NumberedAfter(s, "select bubble ")
      || NumberedAfter(s, "focus bubble ") || NumberedAfter(s, "go to bubble "))
    ensures r.Some? ==> r.value.mode == Command && r.value.intent == Some(SelectBubble) && r.value.args.BubbleIndex?
    ensures NumberedAfter(s, "bubble ") ==> r == Some(SelectAfter(s, "bubble ", n))
    ensures NumberedAfter(s, "select bubble ") ==> r == Some(SelectAfter(s, "select bubble ", n))
    ensures NumberedAfter(s, "focus bubble ") ==> r == Some(SelectAfter(s, "focus bubble ", n))
    ensures NumberedAfter(s, "go to bubble ") ==> r == Some(SelectAfter(s, "go to bubble ", n))
  {
    if NumberedAfter(s, "bubble ") then
      assert s[0] == 'b';
      Some(SelectAfter(s, "bubble ", n))
    else if NumberedAfter(s, "select bubble ") then
      assert s[0] == 's';
      Some(SelectAfter(s, "select bubble ", n))
    else if NumberedAfter(s, "focus bubble ") then
      assert s[0] == 'f';
      Some(SelectAfter(s, "focus bubble ", n))
    else if NumberedAfter(s, "go to bubble ") then
      Some(SelectAfter(s, "go to bubble ", n))
    else None
  }

  /** `s` is `prefix` followed by at least one more character. */
  predicate FollowedBy(s: string, prefix: string) {
    StartsWith(s, prefix) && |s| > |prefix|
  }

  /**
   * `parseAddBubbleWithText` on the compact text: `add bubble <text>` or `create bubble <text>`
   * adds a bubble whose transcript is the lower-case rest.
   */
  function ParseAddBubbleWithText(n: Normalized): (r: Option<Parsed>)
    ensures r.Some? <==> FollowedBy(n.compact, "add bubble ") || FollowedBy(n.compact, "create bubble ")
    ensures r.Some? ==> r.value.mode == Command && r.value.intent == Some(AddBubble) && r.value.args.Transcript?
    ensures FollowedBy(n.compact, "add bubble ") ==> r == Some(MakeCommand(AddBubble, Transcript(n.compact[11..]), n))
    ensures FollowedBy(n.compact, "create bubble ") ==> r == Some(MakeCommand(AddBubble, Transcript(n.compact[14..]), n))
  {
    var c := n.compact;
    if FollowedBy(c, "add bubble ") then
      assert c[0] == 'a';
      Some(MakeCommand(AddBubble, Transcript(c[11..]), n))
    else if FollowedBy(c, "create bubble ") then
      assert c[0] == 'c';
      Some(MakeCommand(AddBubble, Transcript(c[14..]), n))
    else None
  }

  /** Which type keyword, followed by a space and more text, `compact` starts with. */
  function TypeKeywordOf(compact: string): (r: Option<TypeKeyword>)
    ensures r.Some? ==> FollowedBy(compact, KeywordName(r.value) + " ")
    ensures r.None? ==> forall k :: !FollowedBy(compact, KeywordName(k) + " ")
  {
    if FollowedBy(compact, "question ") then Some(Question)
    else if FollowedBy(compact, "task ") then Some(Task)
    else if FollowedBy(compact, "note ") then Some(Note)
    else if FollowedBy(compact, "blocker ") then Some(Blocker)
    else if FollowedBy(compact, "idea ") then Some(Idea)
    else None
  }

  /** The original-case text after the keyword, trimmed. */
  function TypeRemainder(text: string, keyword: string): (r: string)
    requires |keyword| <= |text|
    ensures IsTrimmed(r) && |r| <= |text| - |keyword|
  {
    Trim(text[|keyword|..])
  }

  /**
   * The remainder as the source computes it: `text` cut after the first `keyword + ' '` found
   * in its lower-case form, or after `keyword` when there is none.
   */
  function TypeRemainderAsWritten(text: string, keyword: string): (r: string)
    requires |keyword| <= |text|
  {
    var at := IndexOf(Lower(text), keyword + " ");
    var from := at + |keyword| + 1;
    if from > |text| then [] else Trim(text[from..])
  }

  /** When the keyword is followed by a plain space, both readings give the same remainder. */
  lemma TypeRemainderAgrees(text: string, keyword: string)
    requires |keyword| < |text| && StartsWith(Lower(text), keyword + " ")
    ensures TypeRemainderAsWritten(text, keyword) == TypeRemainder(text, keyword)
  {
    IndexOfPrefix(Lower(text), keyword + " ");
    assert Lower(text)[|keyword|] == ' ';
    assert text[|keyword|] == ' ';
    var t := text[|keyword|..];
    assert t == [' '] + text[|keyword| + 1..];
    TrimAfterLeadingSpace(t);
  }

  lemma TrimAfterLeadingSpace(t: string)
    requires t != [] && IsSpace(t[0])
    ensures Trim(t) == Trim(t[1..])
  {
  }

  /** `IndexFrom` skips the positions before the first occurrence. */
  lemma {:induction false} IndexFromFirst(s: string, p: string, from: nat, at: nat)
    requires from <= at && OccursAt(s, p, at)
    requires forall j :: from <= j < at ==> !OccursAt(s, p, j)
    ensures IndexFrom(s, p, from) == at
    decreases at - from
  {
    if from < at {
      IndexFromFirst(s, p, from + 1, at);
    }
  }

  /** A keyword followed by a tab and, later, by `keyword + ' '` loses the text between. */
  lemma TypeRemainderAsWrittenLosesText()
    ensures TypeRemainderAsWritten("note\ta note b", "note") == "b"
    ensures TypeRemainder("note\ta note b", "note") == "a note b"
  {
    TabbedNoteAsWritten("note\ta note b");
    TabbedNoteTail("note\ta note b");
  }

  lemma TabbedNoteAsWritten(text: string)
    requires text == "note\ta note b"
    ensures TypeRemainderAsWritten(text, "note") == "b"
  {
    TabbedNoteIndex(text);
    assert "note" + " " == "note ";
    var tail := text[12..];
    assert tail == "b" && IsTrimmed(tail) by {
      assert |tail| == 1 && tail[0] == text[12];
    }
    TrimOfTrimmed(tail);
  }

  lemma TabbedNoteIndex(text: string)
    requires text == "note\ta note b"
    ensures IndexOf(Lower(text), "note ") == 7
  {
    assert Lower(text) == text;
    assert OccursAt(text, "note ", 7);
    forall j | 0 <= j < 7 ensures !OccursAt(text, "note ", j) {
      assert text[j..j + 5][0] == text[j] && text[j..j + 5][4] == text[j + 4];
    }
    IndexFromFirst(text, "note ", 0, 7);
  }

  lemma TabbedNoteTail(text: string)
    requires text == "note\ta note b"
    ensures Trim(text[4..]) == "a note b"
  {
    var t := text[4..];
    assert IsSpace(t[0]);
    TrimAfterLeadingSpace(t);
    assert t[1..] == "a note b";
    TrimOfTrimmed("a note b");
  }

  /**
   * `parseTypePrefix` on the compact text: `<keyword> <rest>` sets the type intent, with the
   * original-case text after the keyword, trimmed, as its remainder.
   */
  function ParseTypePrefix(n: Normalized): (r: Option<Parsed>)
    requires |n.compact| <= |n.text|
    ensures r.Some? <==> exists k :: FollowedBy(n.compact, KeywordName(k) + " ")
    ensures r.Some? ==> r.value.mode == Command && r.value.intent.Some? && r.value.intent.value.SetType?
    ensures forall k :: FollowedBy(n.compact, KeywordName(k) + " ") ==>
      r == Some(MakeCommand(SetType(k), Remainder(TypeRemainder(n.text, KeywordName(k))), n))
  {
    KeywordsExclusive(n.compact);
    match TypeKeywordOf(n.compact)
    case None => None
    case Some(k) => Some(MakeCommand(SetType(k), Remainder(TypeRemainder(n.text, KeywordName(k))), n))
  }

  /**
   * When the compact text starts with a keyword and a space, the trimmed text starts with that
   * keyword in any letter case and then white space, and the remainder is the original-case
   * text after that white space.
   */
  lemma TypedRemainderFollowsKeyword(s: string, k: TypeKeyword)
    requires FollowedBy(Normalize(s).compact, KeywordName(k) + " ")
    ensures var t := Normalize(s).text; var w := KeywordName(k);
      && |w| < |t| && Lower(t[..|w|]) == w && IsSpace(t[|w|])
      && TypeRemainder(t, w) == Trim(t[|w| + 1..])
  {
    KeywordPlain(k);
    WordAfterCollapse(Normalize(s).text, KeywordName(k));
  }

  /** A trimmed text whose compact form starts with `w + ' '` starts with `w`, in any case, and white space. */
  lemma WordAfterCollapse(t: string, w: string)
    requires IsTrimmed(t) && NoSpace(w) && FollowedBy(Trim(Collapse(Lower(t))), w + " ")
    ensures && |w| < |t| && Lower(t[..|w|]) == w && IsSpace(t[|w|])
      && TypeRemainder(t, w) == Trim(t[|w| + 1..])
  {
    var l := Lower(t);
    assert |w| < |l| && StartsWith(l, w) && IsSpace(l[|w|]) by {
      var c := Collapse(l);
      assert Trim(c) == TrimEnd(c) by {
        LowerTrimmed(t);
        CollapseFirst(l);
        TrimStartOfTrimmed(c);
      }
      assert StartsWith(c, w + " ") by {
        var p, compact := w + " ", Trim(c);
        assert compact == c[..|compact|];
        assert c[..|p|] == compact[..|p|];
      }
      CollapseStartsWith(l, w);
    }
    assert Lower(t[..|w|]) == w by {
      assert Lower(t[..|w|]) == l[..|w|];
    }
    assert IsSpace(t[|w|]) by { assert l[|w|] == LowerChar(t[|w|]); }
    var rest := t[|w|..];
    TrimAfterLeadingSpace(rest);
    assert rest[1..] == t[|w| + 1..];
  }

  /** No text starts with two different keywords each followed by a space. */
  lemma KeywordsExclusive(s: string)
    ensures forall a, b :: FollowedBy(s, KeywordName(a) + " ") && FollowedBy(s, KeywordName(b) + " ") ==> a == b
  {
    forall a, b | FollowedBy(s, KeywordName(a) + " ") && FollowedBy(s, KeywordName(b) + " ")
      ensures a == b
    {
      var pa, pb := KeywordName(a) + " ", KeywordName(b) + " ";
      assert s[0] == pa[0] && s[0] == pb[0];
    }
  }

  /** The exact phrases of each command alias (empty for intents without one). */
  function AliasPhrases(i: Intent): seq<string> {
    match i
    case VoiceHelp => ["help", "voice help", "command list", "commands", "what can i say"]
    case ToggleConnectMode => ["connect mode", "toggle connect mode"]
    case SetConnectModeOn => ["connect mode on", "enable connect mode", "start connect mode"]
    case SetConnectModeOff => ["connect mode off", "disable connect mode", "stop connect mode"]
    case ClearMap => ["clear", "clear map", "reset map"]
    case StartPlayback => ["play", "start playback", "playback start", "play map"]
    case StopPlayback => ["stop", "stop playback", "playback stop"]
    case PausePlayback => ["pause", "pause playback"]
    case ResumePlayback => ["resume", "resume playback"]
    case Undo => ["undo", "undo last change"]
    case Redo => ["redo", "redo last change"]
    case AddBubble => ["add bubble", "new bubble", "create bubble"]
    case DeleteSelectedBubble => ["delete bubble", "delete selected bubble", "remove bubble"]
    case LockSelectedBubble => ["lock bubble", "lock selected bubble"]
    case UnlockSelectedBubble => ["unlock bubble", "unlock selected bubble"]
    case SnapCenter => ["snap center", "center map", "center view"]
    case OpenPromptModal => ["open prompt", "create from prompt"]
    case OpenVoiceSettings => ["voice settings", "open voice settings"]
    case CloseVoiceSettings => ["close voice settings"]
    case SelectBubble => []
    case SetType(_) => []
    case CreateBubble => []
  }

  /** The order in which the alias table is searched. */
  function AliasOrder(): seq<Intent> {
    [VoiceHelp, ToggleConnectMode, SetConnectModeOn, SetConnectModeOff, ClearMap, StartPlayback,
     StopPlayback, PausePlayback, ResumePlayback, Undo, Redo, AddBubble, DeleteSelectedBubble,
     LockSelectedBubble, UnlockSelectedBubble, SnapCenter, OpenPromptModal, OpenVoiceSettings,
     CloseVoiceSettings]
  }

  /** The first intent of `order` that lists `s` among its phrases. */
  function FirstAlias(s: string, order: seq<Intent>): (r: Option<Intent>)
    ensures r.Some? ==> s in AliasPhrases(r.value) && r.value in order
    ensures r.None? ==> forall k :: 0 <= k < |order| ==> s !in AliasPhrases(order[k])
  {
    if order == [] then None
    else if s in AliasPhrases(order[0]) then Some(order[0])
    else FirstAlias(s, order[1..])
  }

  /** Every intent with phrases is in the search order. */
  lemma AliasOrderComplete(i: Intent)
    ensures AliasPhrases(i) != [] ==> i in AliasOrder()
  {
  }

  /**
   * `parseCommandAliases` on the stripped text: a command fires only when the text is
   * exactly one of its phrases, and carries no arguments.
   */
  function ParseCommandAliases(s: string, n: Normalized): (r: Option<Parsed>)
    ensures r.Some? ==>
      && r.value.mode == Command && r.value.args == NoArgs && r.value.intent.Some?
      && s in AliasPhrases(r.value.intent.value) && r.value.intent.value in AliasOrder()
    ensures r.None? <==> forall i :: s !in AliasPhrases(i)
  {
    match FirstAlias(s, AliasOrder())
    case None =>
      assert forall i :: s !in AliasPhrases(i) by {
        forall i ensures s !in AliasPhrases(i) {
          AliasOrderComplete(i);
          if AliasPhrases(i) != [] {
            var k :| 0 <= k < |AliasOrder()| && AliasOrder()[k] == i;
          }
        }
      }
      None
    case Some(i) => Some(MakeCommand(i, NoArgs, n))
  }

  /** The command rules, tried in order on non-empty stripped text; the first that matches decides. */
  function ParseRules(n: Normalized): (r: Option<Parsed>)
    requires |n.compact| <= |n.text|
    ensures r.Some? ==> r.value.mode == Command && r.value.intent.Some? && r.value.intent.value != CreateBubble
    ensures r.Some? ==> r.value.normalized == n
  {
    var s := n.stripped;
    var select := ParseSelectBubble(s, n);
    if select.Some? then select
    else
      var add := ParseAddBubbleWithText(n);
      if add.Some? then add
      else
        var typed := ParseTypePrefix(n);
        if typed.Some? then typed
        else
          var alias := ParseCommandAliases(s, n);
          assert alias.Some? ==> alias.value.intent.value != CreateBubble;
          alias
  }

  /** `parseVoiceInput`: empty text is ignored, a matching rule gives a command, anything else is dictation. */
  function ParseVoiceInput(raw: Value): (r: Parsed)
    ensures r.normalized == NormalizeTranscript(raw)
    ensures r.mode == Ignore <==> r.normalized.stripped == []
    ensures r.mode == Ignore ==> r.intent == None && r.args == NoArgs
    ensures r.mode == Dictation ==> r.intent == Some(CreateBubble) && r.args == Transcript(r.normalized.text)
    ensures r.mode == Command ==> r.intent.Some? && r.intent.value != CreateBubble
    // A non-empty transcript goes through the rule cascade; dictation is its fallback.
    ensures r.normalized.stripped != [] ==>
      && |r.normalized.compact| <= |r.normalized.text|
      && (ParseRules(r.normalized).Some? ==> r == ParseRules(r.normalized).value)
      && (ParseRules(r.normalized).None? ==> r.mode == Dictation)
  {
    var n := NormalizeTranscript(raw);
    if n.stripped == [] then Parsed(Ignore, None, NoArgs, n)
    else
      match ParseRules(n)
      case Some(p) => p
      case None => Parsed(Dictation, Some(CreateBubble), Transcript(n.text), n)
  }

  /** The order of the rules: each applies exactly when no earlier one matched. */
  lemma ParseOrder(n: Normalized)
    requires |n.compact| <= |n.text|
    ensures var s := n.stripped; var r := ParseRules(n);
      && (ParseSelectBubble(s, n).Some? ==> r == ParseSelectBubble(s, n))
      && (ParseSelectBubble(s, n).None? && ParseAddBubbleWithText(n).Some? ==> r == ParseAddBubbleWithText(n))
      && (ParseSelectBubble(s, n).None? && ParseAddBubbleWithText(n).None? && ParseTypePrefix(n).Some? ==>
            r == ParseTypePrefix(n))
      && (r.None? <==>
            ParseSelectBubble(s, n).None? && ParseAddBubbleWithText(n).None?
            && ParseTypePrefix(n).None? && ParseCommandAliases(s, n).None?)
  {
  }

  /** The transcript string of a raw string value (`String(raw || '')`). */
  lemma StrOfString(w: string)
    ensures ToStr(Or(Str(w), Str(""))) == w
  {
  }

  /** White space alone is ignored. */
  lemma BlankIsIgnored(w: string)
    requires AllSpace(w)
    ensures ParseVoiceInput(Str(w)).mode == Ignore
  {
    StrOfString(w);
    assert w + [] == w;
    TrimStartOfSpaces(w, []);
    assert Normalize(w).text == [];
  }

  /** A single run of trailing-punctuation characters is ignored. */
  lemma PunctuationRunIsIgnored(w: string)
    requires w != [] && forall i :: 0 <= i < |w| ==> IsPunct(w[i])
    ensures ParseVoiceInput(Str(w)).mode == Ignore
  {
    StrOfString(w);
    PunctuationRunStripped(w);
  }

  lemma PunctuationRunStripped(w: string)
    requires w != [] && forall i :: 0 <= i < |w| ==> IsPunct(w[i])
    ensures Normalize(w).stripped == []
  {
    assert IsTrimmed(w) by {
      assert IsPunct(w[0]) && IsPunct(w[|w| - 1]);
    }
    assert Trim(Collapse(Lower(Trim(w)))) == w by {
      TrimOfTrimmed(w);
      assert Lower(w) == w;
      CollapseSingleSpaced(w);
    }
    StripAllPunct(w);
    TrimOfTrimmed([]);
  }

  lemma StripAllPunct(w: string)
    requires forall i :: 0 <= i < |w| ==> IsPunct(w[i])
    ensures StripTrailingPunct(w) == []
  {
  }

  /** Each keyword is a single lower-case word. */
  lemma KeywordPlain(k: TypeKeyword)
    ensures var w := KeywordName(k); w != [] && NoSpace(w) && Lower(w) == w && !IsPunct(w[|w| - 1])
  {
    var w := KeywordName(k);
    assert forall i :: 0 <= i < |w| ==> 'a' <= w[i] <= 'z';
  }

  /** The example phrases the command reference shows for an intent. */
  function ReferencePhrases(i: Intent): seq<string> {
    match i
    case VoiceHelp => ["help", "voice help", "command list", "what can i say"]
    case SelectBubble => ["bubble 3", "select bubble 3", "focus bubble 3", "go to bubble 3"]
    case ToggleConnectMode => ["connect mode", "toggle connect mode"]
    case SetConnectModeOn => ["connect mode on", "enable connect mode", "start connect mode"]
    case SetConnectModeOff => ["connect mode off", "disable connect mode", "stop connect mode"]
    case ClearMap => ["clear", "clear map", "reset map"]
    case StartPlayback => ["play", "start playback", "play map"]
    case StopPlayback => ["stop", "stop playback"]
    case PausePlayback => ["pause", "pause playback"]
    case ResumePlayback => ["resume", "resume playback"]
    case Undo => ["undo"]
    case Redo => ["redo"]
    case AddBubble => ["add bubble", "new bubble", "create bubble"]
    case DeleteSelectedBubble => ["delete bubble", "delete selected bubble"]
    case LockSelectedBubble => ["lock bubble", "lock selected bubble"]
    case UnlockSelectedBubble => ["unlock bubble", "unlock selected bubble"]
    case SnapCenter => ["snap center", "center map", "center view"]
    case OpenPromptModal => ["open prompt", "create from prompt"]
    case OpenVoiceSettings => ["voice settings", "open voice settings"]
    case CloseVoiceSettings => ["close voice settings"]
    case SetType(k) => [KeywordName(k) + " <text>"]
    case CreateBubble => []
  }

  /** The intents of the command reference, in its order. */
  function ReferenceOrder(): seq<Intent> {
    [VoiceHelp, SelectBubble, ToggleConnectMode, SetConnectModeOn, SetConnectModeOff, ClearMap,
     StartPlayback, StopPlayback, PausePlayback, ResumePlayback, Undo, Redo, AddBubble,
     DeleteSelectedBubble, LockSelectedBubble, UnlockSelectedBubble, SnapCenter, OpenPromptModal,
     OpenVoiceSettings, CloseVoiceSettings,
     SetType(Question), SetType(Task), SetType(Note), SetType(Blocker), SetType(Idea)]
  }

  /** An entry of the command reference: an intent and the example phrases shown for it. */
  datatype ReferenceEntry = ReferenceEntry(intent: Intent, phrases: seq<string>)

  /** `getCommandReference`: a copy of `COMMAND_REFERENCE`, one entry per intent in order. */
  function CommandReference(): (r: seq<ReferenceEntry>)
    ensures |r| == |ReferenceOrder()|
    ensures forall k :: 0 <= k < |r| ==> r[k] == ReferenceEntry(ReferenceOrder()[k], ReferencePhrases(ReferenceOrder()[k]))
  {
    seq(|ReferenceOrder()|, k requires 0 <= k < |ReferenceOrder()| =>
      ReferenceEntry(ReferenceOrder()[k], ReferencePhrases(ReferenceOrder()[k])))
  }

  /** Every intent but the dictation fallback has an entry, with at least one phrase. */
  lemma ReferenceComplete(i: Intent)
    requires i != CreateBubble
    ensures i in ReferenceOrder() && ReferencePhrases(i) != []
  {
    var order := ReferenceOrder();
    match i
    case VoiceHelp => assert order[0] == i;
    case SelectBubble => assert order[1] == i;
    case ToggleConnectMode => assert order[2] == i;
    case SetConnectModeOn => assert order[3] == i;
    case SetConnectModeOff => assert order[4] == i;
    case ClearMap => assert order[5] == i;
    case StartPlayback => assert order[6] == i;
    case StopPlayback => assert order[7] == i;
    case PausePlayback => assert order[8] == i;
    case ResumePlayback => assert order[9] == i;
    case Undo => assert order[10] == i;
    case Redo => assert order[11] == i;
    case AddBubble => assert order[12] == i;
    case DeleteSelectedBubble => assert order[13] == i;
    case LockSelectedBubble => assert order[14] == i;
    case UnlockSelectedBubble => assert order[15] == i;
    case SnapCenter => assert order[16] == i;
    case OpenPromptModal => assert order[17] == i;
    case OpenVoiceSettings => assert order[18] == i;
    case CloseVoiceSettings => assert order[19] == i;
    case SetType(k) =>
      match k
      case Question => assert order[20] == i;
      case Task => assert order[21] == i;
      case Note => assert order[22] == i;
      case Blocker => assert order[23] == i;
      case Idea => assert order[24] == i;
  }

  /**
   * The reference advertises no alias phrase the parser would not accept: every phrase it
   * shows for an alias command is one of that command's exact phrases.
   */
  lemma ReferencedAliasesAccepted(i: Intent, p: string)
    requires i in AliasOrder() && p in ReferencePhrases(i)
    ensures p in AliasPhrases(i)
  {
    match i
    case VoiceHelp => case ToggleConnectMode => case SetConnectModeOn => case SetConnectModeOff =>
    case ClearMap => case StartPlayback => case StopPlayback => case PausePlayback =>
    case ResumePlayback => case Undo => case Redo => case AddBubble => case DeleteSelectedBubble =>
    case LockSelectedBubble => case UnlockSelectedBubble => case SnapCenter => case OpenPromptModal =>
    case OpenVoiceSettings => case CloseVoiceSettings =>
  }
}
