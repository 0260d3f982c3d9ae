/**
 * The editor page's own bookkeeping: the bubble and connection lists, the undo and redo
 * stacks of serialised snapshots, the playback flags with the collapsed single-button cycle,
 * the map and bubble-type names, and the voice triggers checked before a bubble is created.
 * Bubbles are identified by a key that stands for the object's identity.
 */
module Editor {
  import opened Wrappers
  import opened Text

  // Names and labels

  /** ASCII upper-casing of one character. */
  function UpperChar(c: char): (r: char)
    ensures 'a' <= c <= 'z' ==> r as int == c as int - 32
    ensures !('a' <= c <= 'z') ==> r == c
  {
    if 'a' <= c <= 'z' then (c as int - 32) as char else c
  }

  /** `titleCaseFirst`: the first character upper-cased, the rest unchanged. */
  function TitleCaseFirst(input: string): string {
    if input == [] then input else [UpperChar(input[0])] + input[1..]
  }

  /** Title-casing keeps the length and everything after the first character, and is idempotent. */
  lemma TitleCaseFirstSpec(input: string)
    ensures |TitleCaseFirst(input)| == |input|
    ensures input != [] ==>
      TitleCaseFirst(input)[0] == UpperChar(input[0]) && TitleCaseFirst(input)[1..] == input[1..]
    ensures TitleCaseFirst(TitleCaseFirst(input)) == TitleCaseFirst(input)
  {
    if input != [] {
      assert TitleCaseFirst(input)[1..] == input[1..];
    }
  }

  /** `setMapName`: the trimmed name, or `Untitled Map` when nothing is left. */
  function MapNameFor(nextName: string): string {
    if Trim(nextName) != [] then Trim(nextName) else "Untitled Map"
  }

  /** The stored map name is never blank, is the trimmed input when it can be, and is stable. */
  lemma MapNameForSpec(nextName: string)
    ensures MapNameFor(nextName) != [] && IsTrimmed(MapNameFor(nextName))
    ensures Trim(nextName) != [] ==> MapNameFor(nextName) == Trim(nextName)
    ensures Trim(nextName) == [] ==> MapNameFor(nextName) == "Untitled Map"
    ensures MapNameFor(MapNameFor(nextName)) == MapNameFor(nextName)
  {
    TrimTrimmed(nextName);
    var untitled := "Untitled Map";
    assert IsTrimmed(untitled) by { assert !IsSpace(untitled[0]) && !IsSpace(untitled[|untitled| - 1]); }
    TrimOfTrimmed(MapNameFor(nextName));
  }

  /** `normalizeBubbleTypeLabel`: the trimmed label, or the fallback when nothing is left. */
  function NormalizeBubbleTypeLabel(labelText: string, fallback: string): string {
    if Trim(labelText) != [] then Trim(labelText) else fallback
  }

  /** A normalised label is the trimmed input or the fallback; normalising again changes nothing. */
  lemma NormalizeBubbleTypeLabelSpec(labelText: string, fallback: string)
    requires fallback != [] && IsTrimmed(fallback)
    ensures var r := NormalizeBubbleTypeLabel(labelText, fallback);
      && r != [] && IsTrimmed(r)
      && (Trim(labelText) != [] ==> r == Trim(labelText))
      && (Trim(labelText) == [] ==> r == fallback)
      && NormalizeBubbleTypeLabel(r, fallback) == r
  {
    TrimTrimmed(labelText);
    TrimOfTrimmed(NormalizeBubbleTypeLabel(labelText, fallback));
  }

  /** `DEFAULT_BUBBLE_TYPE_LABELS`. */
  const DefaultBubbleTypeLabels: map<string, string> :=
    map["idea" := "Idea", "task" := "Task", "question" := "Question", "blocker" := "Blocker", "note" := "Note"]

  /** `getBubbleTypeLabel`: the configured label, else the default label, else the title-cased type. */
  function BubbleTypeLabel(labels: map<string, string>, bubbleType: string): string {
    if bubbleType in labels && labels[bubbleType] != [] then labels[bubbleType]
    else if bubbleType in DefaultBubbleTypeLabels then DefaultBubbleTypeLabels[bubbleType]
    else TitleCaseFirst(bubbleType)
  }

  /** Each default label is its type title-cased. */
  lemma DefaultLabelsAreTitleCase(bubbleType: string)
    requires bubbleType in DefaultBubbleTypeLabels
    ensures DefaultBubbleTypeLabels[bubbleType] == TitleCaseFirst(bubbleType)
  {
  }

  /**
   * The fallback order of `getBubbleTypeLabel`, and with no configured label the result is the
   * title-cased type whether or not it has a default label.
   */
  lemma BubbleTypeLabelFallbacks(labels: map<string, string>, bubbleType: string)
    ensures bubbleType in labels && labels[bubbleType] != [] ==> BubbleTypeLabel(labels, bubbleType) == labels[bubbleType]
    ensures !(bubbleType in labels && labels[bubbleType] != []) ==>
      BubbleTypeLabel(labels, bubbleType) == TitleCaseFirst(bubbleType)
    ensures bubbleType != [] ==> BubbleTypeLabel(labels, bubbleType) != []
  {
    if bubbleType in DefaultBubbleTypeLabels {
      DefaultLabelsAreTitleCase(bubbleType);
    }
    TitleCaseFirstSpec(bubbleType);
  }

  // Bubble and connection lists

  /** A bubble on the canvas; `key` stands for the object's identity. */
  datatype Bubble = Bubble(key: nat, order: int)

  /** A connection holds the two bubble objects it joins. */
  datatype Connection = Connection(from: nat, to: nat, labelText: string)

  predicate DistinctKeys(bubbles: seq<Bubble>) {
    forall i, j :: 0 <= i < j < |bubbles| ==> bubbles[i].key != bubbles[j].key
  }

  /** `bubbles.indexOf(data)`. */
  function IndexOfKey(bubbles: seq<Bubble>, key: nat): (r: int)
    ensures -1 <= r < |bubbles|
    ensures r >= 0 ==> bubbles[r].key == key && forall j :: 0 <= j < r ==> bubbles[j].key != key
    ensures r == -1 <==> forall j :: 0 <= j < |bubbles| ==> bubbles[j].key != key
  {
    if bubbles == [] then -1
    else if bubbles[0].key == key then 0
    else var rest := IndexOfKey(bubbles[1..], key); if rest == -1 then -1 else rest + 1
  }

  function RemoveAt<T>(s: seq<T>, i: nat): seq<T>
    requires i < |s|
  {
    s[..i] + s[i + 1..]
  }

  function InsertAt<T>(s: seq<T>, i: nat, x: T): seq<T>
    requires i <= |s|
  {
    s[..i] + [x] + s[i..]
  }

  /** `Math.max(0, Math.min(target, length - 1))`. */
  function ClampIndex(target: int, length: nat): (r: int)
    ensures length > 0 ==> 0 <= r < length
    ensures length > 0 && 0 <= target < length ==> r == target
  {
    var upper := if target < length - 1 then target else length - 1;
    if upper < 0 then 0 else upper
  }

  /** The two `splice` calls of `moveBubbleToIndex`. */
  function MoveToIndex<T>(s: seq<T>, from: nat, to: nat): seq<T>
    requires from < |s| && to < |s|
  {
    InsertAt(RemoveAt(s, from), to, s[from])
  }

  /**
   * After a move the moved element sits at the target, and taking it out again leaves the others
   * in their original order.
   */
  lemma MoveToIndexSpec<T>(s: seq<T>, from: nat, to: nat)
    requires from < |s| && to < |s|
    ensures var r := MoveToIndex(s, from, to);
      && |r| == |s| && r[to] == s[from]
      && RemoveAt(r, to) == RemoveAt(s, from)
  {
    var t := RemoveAt(s, from);
    var r := MoveToIndex(s, from, to);
    assert r[..to] == t[..to] && r[to + 1..] == t[to..];
  }

  /** A move keeps the same elements. */
  lemma MoveToIndexPermutes<T>(s: seq<T>, from: nat, to: nat)
    requires from < |s| && to < |s|
    ensures multiset(MoveToIndex(s, from, to)) == multiset(s)
  {
    var t := RemoveAt(s, from);
    var r := MoveToIndex(s, from, to);
    assert r == t[..to] + [s[from]] + t[to..];
    assert t == t[..to] + t[to..];
    assert s == s[..from] + [s[from]] + s[from + 1..];
    calc {
      multiset(r);
      multiset(t[..to]) + multiset([s[from]]) + multiset(t[to..]);
      multiset(t) + multiset([s[from]]);
      multiset(s[..from]) + multiset(s[from + 1..]) + multiset([s[from]]);
      multiset(s);
    }
  }

  /** Whether a connection touches the bubble with this key. */
  predicate Touches(c: Connection, key: nat) {
    c.from == key || c.to == key
  }

  /** The connections that do not touch the bubble, in their original order. */
  function Untouched(connections: seq<Connection>, key: nat): (r: seq<Connection>)
    ensures |r| <= |connections|
  {
    if connections == [] then []
    else (if Touches(connections[0], key) then [] else [connections[0]]) + Untouched(connections[1..], key)
  }

  /** A connection survives pruning exactly when it does not touch the removed bubble. */
  lemma {:induction false} UntouchedMembers(connections: seq<Connection>, key: nat)
    ensures forall c :: c in Untouched(connections, key) <==> c in connections && !Touches(c, key)
  {
    if connections != [] {
      UntouchedMembers(connections[1..], key);
      assert connections == [connections[0]] + connections[1..];
    }
  }

  /** Pruning keeps a list in which nothing touches the bubble as it is. */
  lemma {:induction false} UntouchedOfUntouching(connections: seq<Connection>, key: nat)
    requires forall i :: 0 <= i < |connections| ==> !Touches(connections[i], key)
    ensures Untouched(connections, key) == connections
  {
    if connections != [] {
      UntouchedOfUntouching(connections[1..], key);
    }
  }

  /**
   * One step of the backward pruning loop: with the connections after `i` already pruned,
   * dropping the `i`-th when it touches the bubble leaves those from `i` on pruned.
   */
  lemma PruneStep(original: seq<Connection>, i: nat, key: nat)
    requires i < |original|
    ensures var current := original[..i + 1] + Untouched(original[i + 1..], key);
      && current[i] == original[i]
      && (Touches(original[i], key) ==> current[..i] + current[i + 1..] == original[..i] + Untouched(original[i..], key))
      && (!Touches(original[i], key) ==> current == original[..i] + Untouched(original[i..], key))
  {
    var current := original[..i + 1] + Untouched(original[i + 1..], key);
    assert original[i..][1..] == original[i + 1..];
    assert original[..i + 1] == original[..i] + [original[i]];
    if Touches(original[i], key) {
      assert current[..i] == original[..i];
      assert current[i + 1..] == Untouched(original[i + 1..], key);
    }
  }

  /** `updateBubbleIds`: each bubble's order becomes its position plus one. */
  function Renumbered(bubbles: seq<Bubble>): (r: seq<Bubble>)
    ensures |r| == |bubbles|
    ensures forall i :: 0 <= i < |r| ==> r[i] == bubbles[i].(order := i + 1)
  {
    seq(|bubbles|, i requires 0 <= i < |bubbles| => bubbles[i].(order := i + 1))
  }

  /** Renumbering keeps the bubbles and their order, and renumbering again changes nothing. */
  lemma RenumberedSpec(bubbles: seq<Bubble>)
    ensures forall i :: 0 <= i < |bubbles| ==> Renumbered(bubbles)[i].key == bubbles[i].key
    ensures Renumbered(Renumbered(bubbles)) == Renumbered(bubbles)
    ensures DistinctKeys(bubbles) ==> DistinctKeys(Renumbered(bubbles))
  {
  }

  // Undo and redo

  /** The undo and redo stacks of serialised snapshots. */
  datatype History = History(undo: seq<string>, redo: seq<string>)

  /** `saveSnapshot`. */
  function AfterSave(h: History, snapshot: string): History {
    History(h.undo + [snapshot], [])
  }

  /** `undo`: with more than one entry the top moves to the redo stack. */
  function AfterUndo(h: History): History {
    if |h.undo| <= 1 then h
    else History(h.undo[..|h.undo| - 1], h.redo + [h.undo[|h.undo| - 1]])
  }

  /** `redo`: the top of the redo stack moves back to the undo stack. */
  function AfterRedo(h: History): History {
    if h.redo == [] then h
    else History(h.undo + [h.redo[|h.redo| - 1]], h.redo[..|h.redo| - 1])
  }

  /** Saving pushes the snapshot and leaves nothing to redo. */
  lemma SaveSpec(h: History, snapshot: string)
    ensures var r := AfterSave(h, snapshot);
      && |r.undo| == |h.undo| + 1 && r.undo[|r.undo| - 1] == snapshot && r.undo[..|h.undo|] == h.undo
      && AfterRedo(r) == r
  {
    assert (h.undo + [snapshot])[..|h.undo|] == h.undo;
  }

  /** `undo` with one entry or fewer is a no-op, and `redo` with an empty stack is one too. */
  lemma UndoRedoNoOps(h: History)
    ensures |h.undo| <= 1 ==> AfterUndo(h) == h
    ensures h.redo == [] ==> AfterRedo(h) == h
    ensures |h.undo| > 1 ==> |AfterUndo(h).undo| == |h.undo| - 1 && |AfterUndo(h).redo| == |h.redo| + 1
  {
  }

  /** `undo` then `redo` restores both stacks. */
  lemma RedoAfterUndo(h: History)
    requires |h.undo| > 1
    ensures AfterRedo(AfterUndo(h)) == h
  {
    var u := AfterUndo(h);
    assert u.redo[|u.redo| - 1] == h.undo[|h.undo| - 1];
    assert u.undo + [h.undo[|h.undo| - 1]] == h.undo;
    assert u.redo[..|u.redo| - 1] == h.redo;
  }

  /** `redo` then `undo` restores both stacks when there was something to undo to. */
  lemma UndoAfterRedo(h: History)
    requires h.redo != [] && h.undo != []
    ensures AfterUndo(AfterRedo(h)) == h
  {
    var r := AfterRedo(h);
    assert r.undo[..|r.undo| - 1] == h.undo;
    assert r.redo + [h.redo[|h.redo| - 1]] == h.redo;
  }

  // Playback flags

  /** `playbackActive`, `playbackPaused`, `playbackIndex`, `orderedPlayback`, `collapsedAudioStep`. */
  datatype PlaybackFlags = PlaybackFlags(active: bool, paused: bool, index: nat, queue: seq<Bubble>, step: int)

  /** What `stopPlayback` leaves, which is also the initial state. */
  const Idle: PlaybackFlags := PlaybackFlags(false, false, 0, [], 0)

  /**
   * The single button's step agrees with the flags: 0 when stopped, 2 when paused, 1 or 3 while
   * playing; a stopped player has an empty queue, and the index never passes the queue's end.
   */
  predicate StepConsistent(f: PlaybackFlags) {
    && 0 <= f.step <= 3
    && (f.step == 0 <==> !f.active)
    && (f.step == 2 <==> f.active && f.paused)
    && (!f.active ==> !f.paused && f.index == 0 && f.queue == [])
    && f.index <= |f.queue|
  }

  /** `stopPlayback`. */
  function Stop(f: PlaybackFlags): PlaybackFlags {
    Idle
  }

  /** `playNextBubble`: advance to the next bubble, or stop once the queue is used up. */
  function PlayNext(f: PlaybackFlags): PlaybackFlags {
    if !f.active || f.paused then f
    else if f.index >= |f.queue| then Stop(f)
    else f.(index := f.index + 1)
  }

  /** `startPlayback`: nothing without bubbles; otherwise play the bubbles from the first. */
  function Start(f: PlaybackFlags, bubbles: seq<Bubble>): PlaybackFlags {
    if bubbles == [] then f
    else PlayNext(PlaybackFlags(true, false, 0, bubbles, 1))
  }

  /** `pausePlayback`. */
  function Pause(f: PlaybackFlags): PlaybackFlags {
    if !f.active || f.paused then f else f.(paused := true, step := 2)
  }

  /** `resumePlayback`. */
  function Resume(f: PlaybackFlags): PlaybackFlags {
    if !f.active || !f.paused then f else PlayNext(f.(paused := false, step := 3))
  }

  /** `handleCollapsedAudioToggle`. */
  function Toggle(f: PlaybackFlags, bubbles: seq<Bubble>): PlaybackFlags {
    if f.step == 0 then Start(f, bubbles)
    else if f.step == 1 then Pause(f)
    else if f.step == 2 then Resume(f)
    else Stop(f)
  }

  /** The conditions under which pause, resume and the next-bubble step act at all. */
  lemma PlaybackGuards(f: PlaybackFlags)
    ensures Pause(f) != f <==> f.active && !f.paused
    ensures Resume(f) != f ==> f.active && f.paused
    ensures f.active && f.paused ==> Resume(f).active ==> !Resume(f).paused && Resume(f).step == 3
    ensures Stop(f) == PlaybackFlags(false, false, 0, [], 0)
    ensures f.active && !f.paused && f.index >= |f.queue| ==> PlayNext(f) == Idle
    ensures f.active && !f.paused && f.index < |f.queue| ==> PlayNext(f) == f.(index := f.index + 1)
  {
  }

  /** Every playback operation keeps the step consistent with the flags. */
  lemma PlaybackKeepsConsistent(f: PlaybackFlags, bubbles: seq<Bubble>)
    requires StepConsistent(f)
    ensures StepConsistent(PlayNext(f)) && StepConsistent(Start(f, bubbles))
    ensures StepConsistent(Pause(f)) && StepConsistent(Resume(f)) && StepConsistent(Stop(f))
    ensures StepConsistent(Toggle(f, bubbles))
  {
  }

  /**
   * The single button cycles 0 → 1 → 2 → 3 → 0. Starting with no bubbles stays at 0, and
   * resuming when the last bubble has already been shown ends playback at once.
   */
  lemma ToggleCycle(f: PlaybackFlags, bubbles: seq<Bubble>)
    requires StepConsistent(f)
    ensures f.step == 0 && bubbles == [] ==> Toggle(f, bubbles) == f
    ensures f.step == 0 && bubbles != [] ==> Toggle(f, bubbles).step == 1 && Toggle(f, bubbles).active
    ensures f.step == 1 ==> Toggle(f, bubbles).step == 2 && Toggle(f, bubbles).paused
    ensures f.step == 2 && f.index < |f.queue| ==> Toggle(f, bubbles).step == 3 && !Toggle(f, bubbles).paused
    ensures f.step == 2 && f.index >= |f.queue| ==> Toggle(f, bubbles) == Idle
    ensures f.step == 3 ==> Toggle(f, bubbles) == Idle
  {
  }

  /** The playback part of `clearMapData` as written: the single button's step is not reset. */
  function ClearPlaybackAsWritten(f: PlaybackFlags): PlaybackFlags {
    f.(active := false, paused := false, queue := [], index := 0)
  }

  /**
   * Clearing the map while playing leaves the single button at step 1: the flags no longer
   * agree with it, and every further press pauses a stopped player, which does nothing.
   */
  lemma ClearDuringPlaybackSticks(b: Bubble, bubbles: seq<Bubble>)
    ensures var cleared := ClearPlaybackAsWritten(Start(Idle, [b]));
      && StepConsistent(Start(Idle, [b]))
      && !StepConsistent(cleared)
      && cleared.step == 1 && !cleared.active
      && Toggle(cleared, bubbles) == cleared
  {
  }

  /** The playback part of `clearMapData`, with the single button's step reset as `stopPlayback` does. */
  function ClearPlayback(f: PlaybackFlags): PlaybackFlags {
    f.(active := false, paused := false, queue := [], index := 0, step := 0)
  }

  /** Clearing keeps the flags consistent, and the next press starts playback when there are bubbles. */
  lemma ClearPlaybackRestarts(f: PlaybackFlags, bubbles: seq<Bubble>)
    ensures ClearPlayback(f) == Idle && StepConsistent(ClearPlayback(f))
    ensures bubbles != [] ==> Toggle(ClearPlayback(f), bubbles).active && Toggle(ClearPlayback(f), bubbles).step == 1
  {
  }

  // Voice triggers

  /** What `handleTriggers` does with a transcript. */
  datatype Trigger = ClearMap | ToggleConnectMode | Question | FocusBubble(number: nat) | NoTrigger

  /** The value `handleTriggers` returns: whether bubble creation is skipped. */
  predicate Handled(t: Trigger) {
    t.ClearMap? || t.ToggleConnectMode? || t.FocusBubble?
  }

  /** `\w`. */
  predicate IsWordChar(c: char) {
    'a' <= c <= 'z' || 'A' <= c <= 'Z' || IsDigit(c) || c == '_'
  }

  /** The length of the leading run of `\s` characters. */
  function SpaceRun(s: string): (n: nat)
    ensures n <= |s| && AllSpace(s[..n]) && (n < |s| ==> !IsSpace(s[n]))
  {
    if s != [] && IsSpace(s[0]) then 1 + SpaceRun(s[1..]) else 0
  }

  /** The length of the leading run of decimal digits. */
  function DigitRun(s: string): (n: nat)
    ensures n <= |s| && AllDigits(s[..n]) && (n < |s| ==> !IsDigit(s[n]))
  {
    if s != [] && IsDigit(s[0]) then 1 + DigitRun(s[1..]) else 0
  }

  /** `text.match(/^bubble\s+(\d+)\b/)` and `parseInt` of the captured digits. */
  function BubbleNumber(text: string): (r: Option<nat>)
    ensures r.Some? ==> StartsWith(text, "bubble")
  {
    if !StartsWith(text, "bubble") then None
    else
      var rest := text[6..];
      var spaces := SpaceRun(rest);
      var tail := rest[spaces..];
      var digits := DigitRun(tail);
      if spaces == 0 || digits == 0 || (digits < |tail| && IsWordChar(tail[digits])) then None
      else Some(DigitsValue(tail[..digits]))
  }

  lemma {:induction false} SpaceRunOf(w: string, t: string)
    requires AllSpace(w) && (t != [] ==> !IsSpace(t[0]))
    ensures SpaceRun(w + t) == |w|
  {
    if w != [] {
      assert (w + t)[1..] == w[1..] + t;
      SpaceRunOf(w[1..], t);
    }
  }

  lemma {:induction false} DigitRunOf(d: string, t: string)
    requires AllDigits(d) && (t != [] ==> !IsDigit(t[0]))
    ensures DigitRun(d + t) == |d|
  {
    if d != [] {
      assert (d + t)[1..] == d[1..] + t;
      DigitRunOf(d[1..], t);
    }
  }

  /**
   * `bubble`, white space, digits and then a non-word character or the end: the captured
   * number is the digits' value.
   */
  lemma BubbleNumberOf(w: string, d: string, after: string)
    requires w != [] && AllSpace(w) && d != [] && AllDigits(d)
    requires after == [] || !IsWordChar(after[0])
    ensures BubbleNumber("bubble" + w + d + after) == Some(DigitsValue(d))
  {
    var text := "bubble" + w + d + after;
    assert text[6..] == w + (d + after);
    assert !IsSpace(d[0]);
    SpaceRunOf(w, d + after);
    assert text[6..][|w|..] == d + after;
    DigitRunOf(d, after);
    assert (d + after)[..|d|] == d;
  }

  /** `handleTriggers` as written: `clear` anywhere in the transcript clears the map. */
  function TriggerAsWritten(text: string): Trigger {
    if Contains(text, "clear") then ClearMap
    else if Contains(text, "connect mode") then ToggleConnectMode
    else if StartsWith(text, "question ") then Question
    else match BubbleNumber(text)
      case Some(n) => FocusBubble(n)
      case None => NoTrigger
  }

  /** The word `clear` occurs with no word character on either side. */
  predicate ContainsWord(text: string, word: string) {
    exists i | 0 <= i <= |text| :: OccursAt(text, word, i)
      && (i == 0 || !IsWordChar(text[i - 1]))
      && (i + |word| == |text| || !IsWordChar(text[i + |word|]))
  }

  /** `handleTriggers` with the map cleared only when `clear` is a word of the transcript. */
  function TriggerOf(text: string): Trigger {
    if ContainsWord(text, "clear") then ClearMap
    else if Contains(text, "connect mode") then ToggleConnectMode
    else if StartsWith(text, "question ") then Question
    else match BubbleNumber(text)
      case Some(n) => FocusBubble(n)
      case None => NoTrigger
  }

  /** A word occurrence is an occurrence. */
  lemma ContainsWordContains(text: string, word: string)
    requires ContainsWord(text, word)
    ensures Contains(text, word)
  {
    ContainsIff(text, word);
  }

  /**
   * The order of the checks: `clear` wins over everything, then `connect mode`; a `question `
   * prefix is not handled; a `bubble N` command is handled even when no bubble has that number.
   */
  lemma TriggerOrder(text: string)
    ensures ContainsWord(text, "clear") ==> TriggerOf(text) == ClearMap
    ensures !ContainsWord(text, "clear") && Contains(text, "connect mode") ==> TriggerOf(text) == ToggleConnectMode
    ensures !ContainsWord(text, "clear") && !Contains(text, "connect mode") && StartsWith(text, "question ") ==>
      TriggerOf(text) == Question && !Handled(TriggerOf(text))
    ensures !ContainsWord(text, "clear") && !Contains(text, "connect mode") && !StartsWith(text, "question ") ==>
      (Handled(TriggerOf(text)) <==> BubbleNumber(text).Some?)
    ensures !Contains(text, "clear") ==> TriggerOf(text) == TriggerAsWritten(text)
  {
    if ContainsWord(text, "clear") {
      ContainsWordContains(text, "clear");
    }
  }

  /** As written, the transcript `unclear` clears the whole map. */
  lemma UnclearClearsMap()
    ensures TriggerAsWritten("unclear") == ClearMap
  {
    assert OccursAt("unclear", "clear", 2);
    ContainsIff("unclear", "clear");
  }

  /** With `clear` matched as a word, the transcript `unclear` triggers nothing. */
  lemma UnclearTriggersNothing()
    ensures TriggerOf("unclear") == NoTrigger
  {
    var text := "unclear";
    forall i | 0 <= i <= |text| && OccursAt(text, "clear", i)
      ensures i > 0 && IsWordChar(text[i - 1])
    {
      assert text[i] == "clear"[0];
      assert i == 2;
    }
    assert !Contains(text, "connect mode") by {
      ContainsIff(text, "connect mode");
    }
  }

  /** A spoken `clear` on its own still clears the map. */
  lemma ClearWordClears(before: string, after: string)
    requires before == [] || !IsWordChar(before[|before| - 1])
    requires after == [] || !IsWordChar(after[0])
    ensures TriggerOf(before + "clear" + after) == ClearMap
  {
    var text := before + "clear" + after;
    assert OccursAt(text, "clear", |before|);
    if |before| > 0 {
      assert text[|before| - 1] == before[|before| - 1];
    }
    if after != [] {
      assert text[|before| + 5] == after[0];
    }
  }

  /** `bubble 7` is handled with two bubbles on the canvas: nothing is focused, yet it returns true. */
  lemma OutOfRangeBubbleHandled()
    ensures TriggerOf("bubble 7") == FocusBubble(7) && Handled(TriggerOf("bubble 7"))
  {
    BubbleNumberOf(" ", "7", "");
    assert "bubble" + " " + "7" + "" == "bubble 7";
    assert !ContainsWord("bubble 7", "clear");
    assert !Contains("bubble 7", "connect mode") by { ContainsIff("bubble 7", "connect mode"); }
    assert !StartsWith("bubble 7", "question ");
  }

  // The editor page

  /** The canvas lists and the bubble the editor has active. */
  datatype BoardState = BoardState(bubbles: seq<Bubble>, connections: seq<Connection>, activeBubble: Option<nat>)

  /** The map name, labels and voice-command state. */
  datatype SessionState = SessionState(
    mapName: string,
    bubbleTypeLabels: map<string, string>,
    isConnectMode: bool,
    selectedBubble: Option<nat>,
    pendingConnectionFrom: Option<nat>,
    lastSpokenIntent: string)

  /** Everything on the page a voice trigger can act on. */
  datatype PageState = PageState(board: BoardState, session: SessionState, flags: PlaybackFlags, stacks: History)

  /**
   * The page after `handleTriggers` has acted on trigger `t`; `snapshot` is the serialised state
   * saved after clearing.
   */
  function AfterTrigger(p: PageState, t: Trigger, snapshot: string): PageState {
    match t
    case ClearMap =>
      PageState(BoardState([], [], None),
        p.session.(selectedBubble := None, pendingConnectionFrom := None),
        ClearPlayback(p.flags), AfterSave(p.stacks, snapshot))
    case ToggleConnectMode =>
      p.(session := p.session.(isConnectMode := !p.session.isConnectMode, selectedBubble := None))
    case Question => p.(session := p.session.(lastSpokenIntent := "question"))
    case FocusBubble(n) =>
      if 1 <= n <= |p.board.bubbles| then p.(board := p.board.(activeBubble := Some(p.board.bubbles[n - 1].key)))
      else p
    case NoTrigger => p
  }

  /**
   * A trigger keeps bubble identities distinct and the playback step consistent, and never
   * touches the map name or the labels. Only `clear` changes the lists, the playback flags or the
   * history: it empties the canvas, stops playback and pushes the snapshot with the redo stack
   * dropped.
   */
  lemma AfterTriggerKeeps(p: PageState, t: Trigger, snapshot: string)
    requires DistinctKeys(p.board.bubbles) && StepConsistent(p.flags)
    ensures var r := AfterTrigger(p, t, snapshot);
      && DistinctKeys(r.board.bubbles) && StepConsistent(r.flags)
      && r.session.mapName == p.session.mapName && r.session.bubbleTypeLabels == p.session.bubbleTypeLabels
      && (t == ClearMap ==>
            && r.board == BoardState([], [], None) && r.flags == Idle
            && r.stacks.undo == p.stacks.undo + [snapshot] && r.stacks.redo == []
            && r.session.selectedBubble == None && r.session.pendingConnectionFrom == None)
      && (t != ClearMap ==>
            && r.board.bubbles == p.board.bubbles && r.board.connections == p.board.connections
            && r.flags == p.flags && r.stacks == p.stacks
            && r.session.pendingConnectionFrom == p.session.pendingConnectionFrom)
  {
    if t == ClearMap {
      ClearPlaybackRestarts(p.flags, []);
    }
  }

  /**
   * `bubble N` makes the N-th bubble of the canvas order active when there is one, and changes
   * nothing otherwise.
   */
  lemma FocusBubbleSpec(p: PageState, n: nat, snapshot: string)
    ensures 1 <= n <= |p.board.bubbles| ==>
      AfterTrigger(p, FocusBubble(n), snapshot).board.activeBubble == Some(p.board.bubbles[n - 1].key)
    ensures 1 <= n <= |p.board.bubbles| ==>
      exists i | 0 <= i < |p.board.bubbles| :: AfterTrigger(p, FocusBubble(n), snapshot).board.activeBubble == Some(p.board.bubbles[i].key)
    ensures !(1 <= n <= |p.board.bubbles|) ==> AfterTrigger(p, FocusBubble(n), snapshot) == p
  {
  }

  /**
   * `connect mode` twice restores the mode and leaves nothing selected; `clear` twice is `clear`
   * once as far as the canvas and playback go, with the snapshot pushed twice.
   */
  lemma RepeatedTriggers(p: PageState, snapshot: string)
    ensures var once := AfterTrigger(p, ToggleConnectMode, snapshot);
      AfterTrigger(once, ToggleConnectMode, snapshot) == p.(session := p.session.(selectedBubble := None))
    ensures var once := AfterTrigger(p, ClearMap, snapshot);
      var twice := AfterTrigger(once, ClearMap, snapshot);
      && twice.board == once.board && twice.flags == once.flags && twice.session == once.session
      && twice.stacks == History(p.stacks.undo + [snapshot, snapshot], [])
  {
  }

  /** The page's global variables. */
  class EditorPage {
    var bubbles: seq<Bubble>
    var connections: seq<Connection>
    var activeBubble: Option<nat>
    var undoStack: seq<string>
    var redoStack: seq<string>
    var mapName: string
    var bubbleTypeLabels: map<string, string>
    var isConnectMode: bool
    var selectedBubble: Option<nat>
    var pendingConnectionFrom: Option<nat>
    var lastSpokenIntent: string
    var playbackActive: bool
    var playbackPaused: bool
    var playbackIndex: nat
    var orderedPlayback: seq<Bubble>
    var collapsedAudioStep: int

    function Board(): BoardState
      reads this`bubbles, this`connections, this`activeBubble
    {
      BoardState(bubbles, connections, activeBubble)
    }

    function Session(): SessionState
      reads this`mapName, this`bubbleTypeLabels, this`isConnectMode, this`selectedBubble
      reads this`pendingConnectionFrom, this`lastSpokenIntent
    {
      SessionState(mapName, bubbleTypeLabels, isConnectMode, selectedBubble, pendingConnectionFrom, lastSpokenIntent)
    }

    function Stacks(): History
      reads this`undoStack, this`redoStack
    {
      History(undoStack, redoStack)
    }

    function Flags(): PlaybackFlags
      reads this`playbackActive, this`playbackPaused, this`playbackIndex, this`orderedPlayback, this`collapsedAudioStep
    {
      PlaybackFlags(playbackActive, playbackPaused, playbackIndex, orderedPlayback, collapsedAudioStep)
    }

    function Page(): PageState
      reads this`bubbles, this`connections, this`activeBubble
      reads this`mapName, this`bubbleTypeLabels, this`isConnectMode, this`selectedBubble
      reads this`pendingConnectionFrom, this`lastSpokenIntent
      reads this`playbackActive, this`playbackPaused, this`playbackIndex, this`orderedPlayback, this`collapsedAudioStep
      reads this`undoStack, this`redoStack
    {
      PageState(Board(), Session(), Flags(), Stacks())
    }

    /** Bubble identities are distinct and the single button's step agrees with the flags. */
    ghost predicate Valid()
      reads this`bubbles, this`playbackActive, this`playbackPaused, this`playbackIndex, this`orderedPlayback, this`collapsedAudioStep
    {
      DistinctKeys(bubbles) && StepConsistent(Flags())
    }

    /** The page as loaded: empty canvas and history, default names, playback stopped. */
    constructor()
      ensures Valid()
      ensures Board() == BoardState([], [], None) && Stacks() == History([], []) && Flags() == Idle
      ensures Session() == SessionState("Untitled Map", DefaultBubbleTypeLabels, false, None, None, "")
    {
      bubbles, connections, activeBubble := [], [], None;
      undoStack, redoStack := [], [];
      mapName, bubbleTypeLabels := "Untitled Map", DefaultBubbleTypeLabels;
      isConnectMode, selectedBubble, pendingConnectionFrom, lastSpokenIntent := false, None, None, "";
      playbackActive, playbackPaused, playbackIndex, orderedPlayback := false, false, 0, [];
      collapsedAudioStep := 0;
    }

    /** `setMapName`. */
    method SetMapName(nextName: string)
      modifies this`mapName
      ensures mapName == MapNameFor(nextName)
    {
      var trimmed := Trim(nextName);
      mapName := if trimmed != [] then trimmed else "Untitled Map";
    }

    /** `getBubbleTypeLabel`, over the configured labels. */
    method GetBubbleTypeLabel(bubbleType: string) returns (r: string)
      ensures r == BubbleTypeLabel(bubbleTypeLabels, bubbleType)
    {
      r := BubbleTypeLabel(bubbleTypeLabels, bubbleType);
    }

    /** `saveSnapshot`, with the serialised state of `getStateSnapshot` as the argument. */
    method SaveSnapshot(snapshot: string)
      modifies this`undoStack, this`redoStack
      ensures Stacks() == AfterSave(old(Stacks()), snapshot)
    {
      undoStack := undoStack + [snapshot];
      redoStack := [];
    }

    /** `undo`; the result is the snapshot the canvas is rebuilt from, if any. */
    method Undo() returns (restore: Option<string>)
      modifies this`undoStack, this`redoStack
      ensures Stacks() == AfterUndo(old(Stacks()))
      ensures |old(undoStack)| <= 1 ==> restore == None
      ensures |old(undoStack)| > 1 ==> restore == Some(undoStack[|undoStack| - 1])
    {
      if |undoStack| <= 1 {
        return None;
      }
      var snap := undoStack[|undoStack| - 1];
      undoStack := undoStack[..|undoStack| - 1];
      redoStack := redoStack + [snap];
      restore := Some(undoStack[|undoStack| - 1]);
    }

    /** `redo`; the result is the snapshot the canvas is rebuilt from, if any. */
    method Redo() returns (restore: Option<string>)
      modifies this`undoStack, this`redoStack
      ensures Stacks() == AfterRedo(old(Stacks()))
      ensures old(redoStack) == [] ==> restore == None
      ensures old(redoStack) != [] ==> restore == Some(old(redoStack)[|old(redoStack)| - 1])
    {
      if |redoStack| == 0 {
        return None;
      }
      var snap := redoStack[|redoStack| - 1];
      redoStack := redoStack[..|redoStack| - 1];
      undoStack := undoStack + [snap];
      restore := Some(snap);
    }

    /** `updateBubbleIds`. */
    method UpdateBubbleIds()
      modifies this`bubbles
      ensures bubbles == Renumbered(old(bubbles))
    {
      for i := 0 to |bubbles|
        invariant |bubbles| == |old(bubbles)|
        invariant forall j :: 0 <= j < i ==> bubbles[j] == old(bubbles)[j].(order := j + 1)
        invariant forall j :: i <= j < |bubbles| ==> bubbles[j] == old(bubbles)[j]
      {
        bubbles := bubbles[i := bubbles[i].(order := i + 1)];
      }
    }

    /** `moveBubbleToIndex`. */
    method MoveBubbleToIndex(key: nat, targetIndex: int) returns (moved: bool)
      modifies this`bubbles
      ensures var from := IndexOfKey(old(bubbles), key);
        && (moved <==> from >= 0 && ClampIndex(targetIndex, |old(bubbles)|) != from)
        && (moved ==> bubbles == MoveToIndex(old(bubbles), from, ClampIndex(targetIndex, |old(bubbles)|)))
        && (!moved ==> bubbles == old(bubbles))
    {
      var fromIndex := IndexOfKey(bubbles, key);
      if fromIndex < 0 {
        return false;
      }
      var boundedIndex := ClampIndex(targetIndex, |bubbles|);
      if fromIndex == boundedIndex {
        return false;
      }
      var moving := bubbles[fromIndex];
      bubbles := bubbles[..fromIndex] + bubbles[fromIndex + 1..];
      bubbles := bubbles[..boundedIndex] + [moving] + bubbles[boundedIndex..];
      moved := true;
    }

    /** The reverse loop of `removeBubble` that splices out every connection touching the bubble. */
    method PruneConnections(key: nat)
      modifies this`connections
      ensures connections == Untouched(old(connections), key)
    {
      ghost var original := connections;
      var i := |connections| - 1;
      while i >= 0
        invariant -1 <= i < |original|
        invariant connections == original[..i + 1] + Untouched(original[i + 1..], key)
      {
        PruneStep(original, i, key);
        if Touches(connections[i], key) {
          connections := connections[..i] + connections[i + 1..];
        }
        i := i - 1;
      }
      assert original[0..] == original;
    }

    /**
     * `removeBubble`: the bubble and every connection touching it are gone, the others stay in
     * order, an active reference to it is cleared, the rest are renumbered and, when asked, the
     * new state is saved.
     */
    method RemoveBubble(key: nat, shouldSaveSnapshot: bool, snapshot: string)
      requires DistinctKeys(bubbles)
      modifies this`bubbles, this`connections, this`activeBubble, this`undoStack, this`redoStack
      ensures DistinctKeys(bubbles)
      ensures var index := IndexOfKey(old(bubbles), key);
        bubbles == Renumbered(if index >= 0 then RemoveAt(old(bubbles), index) else old(bubbles))
      ensures forall j :: 0 <= j < |bubbles| ==> bubbles[j].key != key
      ensures connections == Untouched(old(connections), key)
      ensures activeBubble == (if old(activeBubble) == Some(key) then None else old(activeBubble))
      ensures Stacks() == (if shouldSaveSnapshot then AfterSave(old(Stacks()), snapshot) else old(Stacks()))
    {
      var index := IndexOfKey(bubbles, key);
      if index > -1 {
        bubbles := bubbles[..index] + bubbles[index + 1..];
        assert bubbles == RemoveAt(old(bubbles), index);
      }
      assert forall j :: 0 <= j < |bubbles| ==> bubbles[j].key != key;
      assert DistinctKeys(bubbles);
      PruneConnections(key);
      if activeBubble == Some(key) {
        activeBubble := None;
      }
      UpdateBubbleIds();
      RenumberedSpec(old(bubbles));
      if shouldSaveSnapshot {
        SaveSnapshot(snapshot);
      }
    }

    /** `stopPlayback`. */
    method StopPlayback()
      requires Valid()
      modifies this`playbackActive, this`playbackPaused, this`orderedPlayback, this`playbackIndex, this`collapsedAudioStep
      ensures Valid() && Flags() == Stop(old(Flags()))
    {
      playbackActive, playbackPaused, orderedPlayback, playbackIndex := false, false, [], 0;
      collapsedAudioStep := 0;
    }

    /** `playNextBubble`; the result is the bubble shown and spoken, if any. */
    method PlayNextBubble() returns (shown: Option<Bubble>)
      requires Valid()
      modifies this`playbackActive, this`playbackPaused, this`orderedPlayback, this`playbackIndex, this`collapsedAudioStep
      ensures Valid() && Flags() == PlayNext(old(Flags()))
      ensures shown == (if old(playbackActive) && !old(playbackPaused) && old(playbackIndex) < |old(orderedPlayback)|
        then Some(old(orderedPlayback)[old(playbackIndex)]) else None)
    {
      PlaybackKeepsConsistent(Flags(), bubbles);
      if !playbackActive || playbackPaused {
        return None;
      }
      if playbackIndex >= |orderedPlayback| {
        StopPlayback();
        return None;
      }
      shown := Some(orderedPlayback[playbackIndex]);
      playbackIndex := playbackIndex + 1;
    }

    /** `startPlayback`. */
    method StartPlayback()
      requires Valid()
      modifies this`playbackActive, this`playbackPaused, this`orderedPlayback, this`playbackIndex, this`collapsedAudioStep
      ensures Valid() && Flags() == Start(old(Flags()), old(bubbles))
    {
      if |bubbles| == 0 {
        return;
      }
      playbackActive, playbackPaused := true, false;
      collapsedAudioStep := 1;
      orderedPlayback := bubbles;
      playbackIndex := 0;
      var _ := PlayNextBubble();
    }

    /** `pausePlayback`. */
    method PausePlayback()
      requires Valid()
      modifies this`playbackPaused, this`collapsedAudioStep
      ensures Valid() && Flags() == Pause(old(Flags()))
    {
      if !playbackActive || playbackPaused {
        return;
      }
      playbackPaused := true;
      collapsedAudioStep := 2;
    }

    /** `resumePlayback`. */
    method ResumePlayback()
      requires Valid()
      modifies this`playbackActive, this`playbackPaused, this`orderedPlayback, this`playbackIndex, this`collapsedAudioStep
      ensures Valid() && Flags() == Resume(old(Flags()))
    {
      if !playbackActive || !playbackPaused {
        return;
      }
      playbackPaused := false;
      collapsedAudioStep := 3;
      var _ := PlayNextBubble();
    }

    /** `handleCollapsedAudioToggle`. */
    method HandleCollapsedAudioToggle()
      requires Valid()
      modifies this`playbackActive, this`playbackPaused, this`orderedPlayback, this`playbackIndex, this`collapsedAudioStep
      ensures Valid() && Flags() == Toggle(old(Flags()), old(bubbles))
    {
      if collapsedAudioStep == 0 {
        StartPlayback();
        return;
      }
      if collapsedAudioStep == 1 {
        PausePlayback();
        return;
      }
      if collapsedAudioStep == 2 {
        ResumePlayback();
        return;
      }
      StopPlayback();
    }

    /** `clearMapData`, with the single button's step reset along with the other playback flags. */
    method ClearMapData()
      requires Valid()
      modifies this`bubbles, this`connections, this`activeBubble, this`pendingConnectionFrom, this`selectedBubble
      modifies this`playbackActive, this`playbackPaused, this`orderedPlayback, this`playbackIndex, this`collapsedAudioStep
      ensures Valid() && Flags() == ClearPlayback(old(Flags()))
      ensures bubbles == [] && connections == [] && activeBubble == None
      ensures selectedBubble == None && pendingConnectionFrom == None
    {
      bubbles, connections, activeBubble, pendingConnectionFrom, selectedBubble := [], [], None, None, None;
      playbackActive, playbackPaused, orderedPlayback, playbackIndex := false, false, [], 0;
      collapsedAudioStep := 0;
    }

    /** `makeBubbleActive`. */
    method MakeBubbleActive(key: nat)
      modifies this`activeBubble
      ensures activeBubble == Some(key)
    {
      activeBubble := Some(key);
    }

    /**
     * The actions of `handleTriggers` once the transcript has been classified; `snapshot` is the
     * serialised state saved after clearing. The page changes as `AfterTrigger` says.
     */
    method ApplyTrigger(trigger: Trigger, snapshot: string)
      requires Valid()
      modifies this`bubbles, this`connections, this`activeBubble, this`pendingConnectionFrom, this`selectedBubble
      modifies this`playbackActive, this`playbackPaused, this`orderedPlayback, this`playbackIndex, this`collapsedAudioStep
      modifies this`undoStack, this`redoStack, this`isConnectMode, this`lastSpokenIntent
      ensures Valid()
      ensures Board() == AfterTrigger(old(Page()), trigger, snapshot).board
      ensures Session() == AfterTrigger(old(Page()), trigger, snapshot).session
      ensures Flags() == AfterTrigger(old(Page()), trigger, snapshot).flags
      ensures Stacks() == AfterTrigger(old(Page()), trigger, snapshot).stacks
    {
      match trigger
      case ClearMap =>
        ClearMapData();
        SaveSnapshot(snapshot);
      case ToggleConnectMode =>
        isConnectMode, selectedBubble := !isConnectMode, None;
      case Question =>
        lastSpokenIntent := "question";
      case FocusBubble(n) =>
        if 1 <= n <= |bubbles| {
          MakeBubbleActive(bubbles[n - 1].key);
        }
      case NoTrigger =>
    }

    /**
     * `handleTriggers`, with `clear` matched as a word. The result says whether bubble creation
     * is skipped.
     */
    method HandleTriggers(text: string, snapshot: string) returns (handled: bool)
      requires Valid()
      modifies this`bubbles, this`connections, this`activeBubble, this`pendingConnectionFrom, this`selectedBubble
      modifies this`playbackActive, this`playbackPaused, this`orderedPlayback, this`playbackIndex, this`collapsedAudioStep
      modifies this`undoStack, this`redoStack, this`isConnectMode, this`lastSpokenIntent
      ensures Valid() && handled == Handled(TriggerOf(text))
      ensures Page() == AfterTrigger(old(Page()), TriggerOf(text), snapshot)
    {
      var trigger := TriggerOf(text);
      ApplyTrigger(trigger, snapshot);
      handled := Handled(trigger);
    }
  }
}
