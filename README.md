# speechflow, modelled in Dafny

speechflow is a voice-driven mind-mapping canvas. A user speaks, and the transcript becomes
bubbles, connections between them, or commands (select a bubble, clear the map, start
playback, undo). This project models the logic behind that, one Dafny module per source file:

- **Voice pipeline:**
  - the voice state machine (`VoiceState`);
  - the recognition error normaliser (`VoiceErrors`);
  - the transcript classifier (`VoiceParser`);
  - the callback router (`VoiceRouter`);
  - the recognition controller, which drives the machine and schedules restarts with
    exponential backoff (`VoiceRecognition`).
- **Graph helpers:**
  - adjacency, breadth-first reachability, ancestors and descendants;
  - dependency paths, connected components, cycle detection;
  - roots and whole-graph validation (`Graph`).
- **Normalisers for the stored records:**
  - bubbles (`Node`) and connections (`Edge`);
  - snapshot migration (`Persistence`);
  - voice settings (`VoiceSettings`);
  - the application state store (`AppState`).
- **Playback order generation** (`Playback`).
- **The bookkeeping of the page script** (`Editor`):
  - bubble list moves and removals, connection pruning, renumbering;
  - undo and redo stacks;
  - the playback flags and the single collapsed play button;
  - map-name and label helpers;
  - the spoken-trigger handler.

Shared modules:

- `Text`: the JavaScript string operations the source relies on, such as `trim`,
  `toLowerCase`, `replace(/\s+/g, ' ')` and `indexOf`.
- `JsValue`: JavaScript values, truthiness, `||`, `Number(...)` and `String(...)`.
- `Wrappers`: `Option` and `Result`.

Objects whose fields the source reassigns are Dafny classes with `modifies` frames:

- the state machine;
- the recognition controller;
- the state store;
- the page (`Editor.EditorPage`).

The loops of the source become methods with invariants, proved against specification
functions: the breadth-first searches, the depth-first cycle search, the dependency-path walk,
the connection pruning and the `loop` playback mode. Everything else is functions and lemmas.

The platform parts are not modelled:

- **The speech session.** It is abstract. Its `start` either succeeds or throws a named error,
  and its events are methods (`OnResult`, `OnError`, `OnEnd`).
- **Timers.** A timer is an optional pending delay, and firing it is a method.
- **Clocks, generated ids and serialised snapshots.** These are parameters.

## Model

| member | source | states |
|---|---|---|
| VoiceState.Parse | core/voice-state.js:4-12 | a name is accepted exactly when it is the name of one of the seven states, and then gives that state |
| VoiceState.NameInjective | core/voice-state.js:4-12 | different states have different names |
| VoiceState.ParseName | core/voice-state.js:38 | every state is accepted under its own name |
| VoiceState.Allowed | core/voice-state.js:14-22 | no state lists itself; ERROR is in every other state's set, IDLE in every other state's set, and PROCESSING only in LISTENING's |
| VoiceState.CanMoveFacts | core/voice-state.js:14-35 | a move to ERROR, to IDLE or to the same state is always legal; PROCESSING can be entered only from LISTENING or itself |
| VoiceState.ErrorAfter | core/voice-state.js:47-52 | a `meta.error` becomes the last error whatever the target; otherwise the last error is cleared unless the target is ERROR, where it is kept |
| VoiceState.VoiceStateMachine.constructor | core/voice-state.js:28-29 | the machine starts in IDLE with no error and no notifications |
| VoiceState.VoiceStateMachine.CanTransition | core/voice-state.js:31-35 | true exactly when the name is a state the current one may move to (itself included); reads only |
| VoiceState.VoiceStateMachine.Transition | core/voice-state.js:37-64 | an unknown name or an illegal move gives the source's error message and changes nothing; a legal one moves the state, sets the last error by `ErrorAfter` and appends exactly one notification with the previous and new state |
| VoiceState.VoiceStateMachine.SetError | core/voice-state.js:66-68 | always succeeds, ends in ERROR holding the error, with one notification |
| VoiceState.VoiceStateMachine.GetState | core/voice-state.js:70-75 | returns the state and last error and changes nothing |
| VoiceErrors.ParseCode | core/voice-errors.js:4-45 | the table lookup finds a known code exactly when the raw code is its name |
| VoiceErrors.ErrorMap | core/voice-errors.js:4-41 | the two refusals (`not-allowed`, `service-not-allowed`) are neither recoverable nor restartable, every other entry is both; no entry is `unknown_error` or `not_supported` |
| VoiceErrors.RawCode | core/voice-errors.js:44 | the raw code is the event's error when it is non-empty, else `unknown`; never empty |
| VoiceErrors.NormalizeRecognitionError | core/voice-errors.js:43-60 | total; `recoverable == restart`; not recoverable exactly for the two refusals; `unknown_error`, with the raw code in the message, exactly for codes outside the table |
| VoiceErrors.ParseCodeName | core/voice-errors.js:45 | every known code is found under its own name |
| VoiceErrors.NormalizeKnown | core/voice-errors.js:4-59 | a known code yields exactly its table entry |
| VoiceErrors.KnownCodesDistinct | core/voice-errors.js:4-41 | distinct platform codes map to distinct semantic codes |
| VoiceErrors.MissingCodeIsUnknown | core/voice-errors.js:44-50 | an event with no or an empty error is the recoverable, restartable `unknown` error |
| VoiceParser.StripTrailingPunct | core/voice-parser.js:44 | the result is a prefix of the input, all that was cut is `!?.,;:`, and it does not end in one of them |
| VoiceParser.NormalizeShape | core/voice-parser.js:40-51 | `text` is the trimmed input, `lowered` its lower case, `compact` trimmed and single-spaced and empty only for empty text, `stripped` trimmed, single-spaced and a prefix of `compact` with only punctuation or space cut |
| VoiceParser.NormalizeTranscript | core/voice-parser.js:40-41 | the compact form is never longer than the text |
| VoiceParser.NormalizePlain | core/voice-parser.js:40-51 | a trimmed, single-spaced, lower-case transcript with no trailing punctuation is its own four forms |
| VoiceParser.ParseSelectBubble | core/voice-parser.js:62-74 | matches exactly `bubble N`, `select bubble N`, `focus bubble N` or `go to bubble N`, giving `select_bubble` with index N - 1 |
| VoiceParser.ParseAddBubbleWithText | core/voice-parser.js:118-122 | matches exactly `add bubble <text>` or `create bubble <text>` on the compact text, with the lower-case rest as transcript |
| VoiceParser.TypeKeywordOf | core/voice-parser.js:77 | finds the keyword the compact text starts with, followed by a space, or says there is none |
| VoiceParser.KeywordsExclusive | core/voice-parser.js:77 | no text starts with two different keywords each followed by a space |
| VoiceParser.ParseTypePrefix | core/voice-parser.js:76-83 | corrected, see Findings: matches exactly when the compact text starts with a keyword and a space, giving `set_<keyword>_intent` with the original-case text after the keyword, trimmed |
| VoiceParser.TypedRemainderFollowsKeyword | core/voice-parser.js:77-80 | when the compact text starts with a keyword and a space, the trimmed text starts with the keyword in any case and white space, and the remainder is the original-case text after it |
| VoiceParser.TypeRemainderAgrees | core/voice-parser.js:80 | when the keyword is followed by a plain space, the source's `indexOf` reading gives the corrected remainder |
| VoiceParser.TypeRemainderAsWrittenLosesText | core/voice-parser.js:80 | for `note\ta note b` the source's reading gives `b`, while the text after the keyword is `a note b` |
| VoiceParser.FirstAlias | core/voice-parser.js:108-113 | the first intent in table order whose phrases include the text, or none when no phrase matches |
| VoiceParser.AliasOrderComplete | core/voice-parser.js:86-106 | every intent with alias phrases is searched |
| VoiceParser.ParseCommandAliases | core/voice-parser.js:85-116 | a command fires only when the text equals one of its phrases, with empty args; none fires when no phrase matches |
| VoiceParser.ParseRules | core/voice-parser.js:137-147 | a match is always a command other than dictation, carrying the normalised forms |
| VoiceParser.ParseVoiceInput | core/voice-parser.js:124-155 | empty stripped text is ignored with no intent and empty args; otherwise the first matching rule's parse (select, add, typed, alias) is the result, and with no match it is dictation of the trimmed original-case text |
| VoiceParser.ParseOrder | core/voice-parser.js:137-154 | each rule decides exactly when every earlier rule did not match |
| VoiceParser.BlankIsIgnored | core/voice-parser.js:128-135 | white space alone is ignored |
| VoiceParser.PunctuationRunIsIgnored | core/voice-parser.js:128-135 | a run of trailing-punctuation characters alone is ignored |
| VoiceParser.KeywordPlain | core/voice-parser.js:4-10 | every keyword is a non-empty lower-case word |
| VoiceParser.CommandReference | core/voice-parser.js:12-38 | one entry per intent of the reference, in order, with that intent's example phrases |
| VoiceParser.ReferenceComplete | core/voice-parser.js:12-38 | every intent but the dictation fallback has an entry with at least one phrase |
| VoiceParser.ReferencedAliasesAccepted | core/voice-parser.js:12-106 | every phrase the reference shows for an alias command is one the alias table accepts |
| VoiceRouter.HandlerName | core/voice-router.js:6-27 | an intent has a handler exactly when it is neither a type intent nor dictation |
| VoiceRouter.CreateVoiceRouter | core/voice-router.js:29-35 | a router is made exactly when the parser has `parseVoiceInput`, otherwise the source's error |
| VoiceRouter.RouteTyped | core/voice-router.js:48-63 | `onTypedIntent` first when supplied, else `onQuestionIntent` for the question keyword only; then `onDictation` with a non-empty remainder; only text callbacks, at most two |
| VoiceRouter.RouteCommand | core/voice-router.js:66-78 | nothing without a handler; a supplied confirmation is asked first and only for the two destructive intents, and a no stops everything; otherwise the handler once, then `onIntent` once |
| VoiceRouter.Route | core/voice-router.js:37-79 | no parse or `ignore` calls nothing; dictation calls only `onDictation` when supplied; a type intent goes to the typed-bubble route and never reaches the handler table; every other command goes to its handler; only a destructive intent asks for confirmation |
| VoiceRouter.RouteTranscript | core/voice-router.js:37-46 | routing a transcript through the parser: ignored input calls nothing; dictation passes the trimmed original-case text to `onDictation` when supplied; a command goes to the typed-bubble route or its handler; only a destructive command asks for confirmation |
| VoiceRouter.ApprovalOnlyWhenAsked | core/voice-router.js:70-73 | the confirmation's answer changes nothing unless the confirmation is consulted |
| VoiceRecognition.BackoffDelay | core/voice-recognition.js:32-36 | the delay is between 500 and 32000 ms |
| VoiceRecognition.BackoffSteps | core/voice-recognition.js:32-36 | the delay doubles with each attempt up to the sixth and stays at 32000 ms after it |
| VoiceRecognition.BackoffMonotone | core/voice-recognition.js:32-36 | more attempts never wait less |
| VoiceRecognition.StartFailure | core/voice-recognition.js:125 | a thrown error's name is the raw code, or `start_failed` when it has none |
| VoiceRecognition.RecognitionController.constructor | core/voice-recognition.js:11-23 | language defaults to `en-US`; no session, timer, attempts, stop or run yet |
| VoiceRecognition.RecognitionController.ClearRestartTimer | core/voice-recognition.js:25-30 | no timer is pending afterwards |
| VoiceRecognition.RecognitionController.ScheduleRestart | core/voice-recognition.js:38-46 | nothing when auto-restart is off or the user stopped; otherwise one timer with the delay for the old count, and the count goes up by one |
| VoiceRecognition.RecognitionController.EnsureRecognition | core/voice-recognition.js:82-92 | a session exists afterwards exactly when it did or can be made; an existing one keeps its language |
| VoiceRecognition.RecognitionController.FailStart | core/voice-recognition.js:124-132 | the start error is reported once, held in ERROR and notified once; a restart with the delay for the old count is scheduled only when it is recoverable and restartable and retries are on |
| VoiceRecognition.RecognitionController.TryStart | core/voice-recognition.js:118-132 | success notifies `start` (to REQUESTING_PERMISSION) then `start_success` (to LISTENING) and sets running; a failure reports the error, notifies ERROR and schedules a restart as `FailStart` does, not running |
| VoiceRecognition.RecognitionController.StartListening | core/voice-recognition.js:94-133 | already running: true with nothing changed; unsupported: the `not_supported` error notified, false, nothing scheduled; otherwise the stop flag and timer are cleared, the count reset unless `allowRetry` is false, then success notifies `start` and `start_success`, and a failure schedules a restart from the reset count as `FailStart` does |
| VoiceRecognition.RecognitionController.FireRestartTimer | core/voice-recognition.js:43-45 | the timer slot empties and listening restarts keeping the attempt count; a failed restart reports the error and schedules the next one with the next delay as `FailStart` does |
| VoiceRecognition.RecognitionController.StopListening | core/voice-recognition.js:135-151 | stopped by the user, no timer, count zero, not running, in IDLE; when it was not already IDLE, exactly one notification (old state → IDLE, source `stop`) and the last error cleared, else none |
| VoiceRecognition.RecognitionController.OnResult | core/voice-recognition.js:49-55 | the transcript is delivered between PROCESSING and LISTENING, with the `onresult` and `onresult_complete` notifications; from a state that cannot reach PROCESSING nothing is delivered |
| VoiceRecognition.RecognitionController.OnError | core/voice-recognition.js:57-65 | the normalised error is held in ERROR, notified and reported once; a restart is scheduled only for recoverable, restartable errors |
| VoiceRecognition.RecognitionController.OnEnd | core/voice-recognition.js:67-79 | after a user stop: IDLE, the notification old state → IDLE with source `onend_stopped`, and no restart; otherwise IDLE with source `onend` unless in ERROR (then no notification and the error kept), then a restart when auto-restart is on |
| VoiceRecognition.RecognitionController.SetLanguage | core/voice-recognition.js:153-159 | an empty name is ignored, any other becomes the language |
| VoiceRecognition.RecognitionController.SetAutoRestart | core/voice-recognition.js:161-166 | the flag is set; switching it off cancels the pending timer |
| VoiceRecognition.RecognitionController.IsListening | core/voice-recognition.js:168-170 | reports whether the session is running |
| Graph.OutLinksSpec | core/graph.js:18-24 | an edge is in a node's outgoing list exactly when it is a kept edge from that node |
| Graph.InLinksSpec | core/graph.js:18-24 | an edge is in a node's incoming list exactly when it is a kept edge to that node |
| Graph.BuildAdjacency | core/graph.js:8-27 | every node id gets an outgoing and an incoming list, holding its kept edges in edge order |
| Graph.Walk | core/graph.js:29-44 | the result has no repetition and holds exactly the ids reachable in one or more steps, other than the start |
| Graph.VisitNeighbors | core/graph.js:35-42 | each unvisited neighbour other than the start is appended to the visited list and the queue in list order, keeping the search invariant; afterwards every successor is visited or the start |
| Graph.GetDescendants | core/graph.js:58-61 | exactly the ids other than the start reachable along kept edges, without repetition |
| Graph.GetAncestors | core/graph.js:46-56 | exactly the ids other than the start from which it is reachable along kept edges, without repetition |
| Graph.DescendantStep | core/graph.js:18-36 | with no empty node id, a search step follows exactly one kept edge forwards |
| Graph.AncestorStep | core/graph.js:49-54 | a search step follows exactly one kept edge backwards |
| Graph.GetBranchFromRoot | core/graph.js:82-85 | the root first, then exactly its descendants, without repetition |
| Graph.GetConnectedComponent | core/graph.js:87-114 | the start first, then without repetition every id reachable from it with edges followed either way |
| Graph.VisitComponentNeighbors | core/graph.js:105-110 | each unvisited neighbour is appended to the visited list and the queue in list order, keeping the search invariant; afterwards every neighbour is visited |
| Graph.ComponentClosed | core/graph.js:87-114 | the component is closed under kept edges in both directions |
| Graph.Dfs | core/graph.js:121-129 | a reported cycle is a real cycle; when none is found, every id searched has finished with all its successors finished before it |
| Graph.FinishedAcyclic | core/graph.js:116-132 | when every id has finished, there is no cycle |
| Graph.BackEdgeCycle | core/graph.js:122 | an edge back into the current search path closes a cycle |
| Graph.DetectCycles | core/graph.js:116-132 | true exactly when the kept edges contain a directed cycle |
| Graph.ForwardStep | core/graph.js:125 | one search step follows exactly one kept edge forwards |
| Graph.Dependencies | core/graph.js:71 | exactly the `dependency` edges of the list |
| Graph.FirstDependencySpec | core/graph.js:71-73 | the chosen source belongs to a kept dependency edge into the id, and there is none only when no such edge exists |
| Graph.GetDependencyPath | core/graph.js:63-80 | ends with the node; each earlier id is the source of the first dependency edge into its successor; it stops at an empty id, an id with no dependency or a repeat; no repetition after the head |
| Graph.FollowDependencies | core/graph.js:64-79 | the loop over the looked-up incoming lists meets every promise of `GetDependencyPath` |
| Graph.Roots | core/graph.js:134-137 | exactly the node ids with no kept incoming edge |
| Graph.RootsAmongIsFilter | core/graph.js:134-137 | `filter`: each node is kept, in order and once, exactly when no kept edge enters it |
| Graph.RootsSpec | core/graph.js:134-137 | a root is exactly a node that no kept edge enters |
| Graph.InLinksTwo | core/graph.js:176 | two or more incoming-list entries exactly when two kept edges enter the node |
| Graph.MultiParentSpec | core/graph.js:176 | the multi-parent flag is set exactly when some node is entered by two kept edges |
| Graph.Orphans | core/graph.js:143-147 | exactly the nodes with no kept incoming edge and no edge at all leaving them |
| Graph.OrphansAmongIsFilter | core/graph.js:143-147 | `filter`: each node is kept, in order and once, exactly when no kept edge enters it and no edge leaves it |
| Graph.OrphanIsRoot | core/graph.js:143-147 | an orphan is exactly a root that no edge leaves |
| Graph.DuplicateKeysAppend | core/graph.js:155-156 | one more key is listed as a duplicate exactly when it was seen before |
| Graph.DuplicateKeysCount | core/graph.js:149-157 | each key is listed once for each occurrence after its first |
| Graph.FindDuplicateEdges | core/graph.js:149-157 | the loop lists exactly the duplicate `from->to:type` keys, in order |
| Graph.FindClusters | core/graph.js:159-168 | each cluster is a non-empty component smaller than the node count, starting at a node; a later cluster does not start inside an earlier one |
| Graph.ValidateGraph | core/graph.js:139-177 | orphans, duplicate keys, roots and clusters as above; `hasCycle` is false when `detectCycles: false`, else the cycle test; `hasMultiParentNodes` as `MultiParentSpec` |
| Edge.NormalizeEdgeType | core/edge.js:4-12 | always an allowed type; an allowed type is kept; anything else is `sequence` |
| Edge.NormalizeEdgeTypeIdempotent | core/edge.js:10-12 | normalising again changes nothing |
| Edge.NormalizeWeight | core/edge.js:14-18 | in [0, 10]; 1 when `Number` of the value is not finite (a one-element array reads as its element); an in-range value is kept, others are clamped to the nearer bound |
| Edge.NormalizeWeightIdempotent | core/edge.js:14-18 | normalising again changes nothing |
| Edge.ValidateEdgePayload | core/edge.js:20-30 | accepted exactly when it is an object with truthy `from` and `to`; otherwise the first failing check's message |
| Edge.CreateEdge | core/edge.js:32-43 | fails exactly when validation does, with its message; otherwise `from`/`to` copied, the id kept or fresh, a non-string label empty, weight and type normalised; `metadata` the spread of an object or array (`['x']` gives `{"0": "x"}`), empty otherwise |
| Edge.EdgeExists | core/edge.js:45-53 | false for a non-array; a `TypeError` (none) when a `null` or `undefined` edge comes before any match; true when a matching edge comes first; with no such element, true exactly when some edge matches ids and type |
| Edge.AnyMatches | core/edge.js:47-52 | `some` stops at the first match: true exactly when a match comes before every nullish edge, a throw exactly when a nullish edge comes before every match |
| Edge.AnyMatchesTotal | core/edge.js:47-52 | without nullish edges the scan answers, true exactly when some edge matches |
| Edge.UntypedMatchNeedsAllowedType | core/edge.js:50-51 | with no type argument, an edge matches only if its stored type is an allowed one |
| Edge.TypedMatch | core/edge.js:48-51 | with an allowed type, an edge matches exactly when its endpoints and stored type agree |
| Edge.CreatedEdgeExists | core/edge.js:32-53 | an edge built by `createEdge` is found under its own type and with no type |
| Node.NormalizePriority | core/node.js:8-12 | an integer in [0, 10]; 0 when `Number` of the value is not finite (a one-element array reads as its element); otherwise the rounded value clamped |
| Node.NormalizePriorityIdempotent | core/node.js:8-12 | normalising again changes nothing |
| Node.NormalizeTags | core/node.js:14-20 | none for a non-array; otherwise at most 20 trimmed non-empty strings, the first 20 non-empty ones in order |
| Node.NormalizeTagsIdempotent | core/node.js:14-20 | normalising again changes nothing |
| Node.NodeText | core/node.js:28 | the trimmed text, or `New idea` when that is empty; never blank |
| Node.CreateNode | core/node.js:22-42 | text as `NodeText` of the input's text; finite x and y kept, any other 0; tags and priority their normalisations; the id, `createdAt` and `updatedAt` kept when truthy, else the fresh id and `now`; `notes` the string of a truthy value, else empty; `colorOverride` and `dueDate` kept when strings, else null; `aiSummary` and `voiceNote` kept when strings, else empty; `metadata` the spread of an object or array (an array's items under their indexes), empty otherwise |
| Node.CreatedNodeNormalized | core/node.js:32-33 | a created node's tags and priority are their own normalisations |
| Node.UpdateNode | core/node.js:44-51 | a falsy node or non-object patch leaves the node as it is; otherwise the result is normalised and stamped with `now` |
| Node.UpdateNodeFields | core/node.js:46 | the update keeps every field of node and patch, the patch winning, and adds only `tags`, `priority` and `updatedAt` |
| JsValue.Fields | core/node.js:46 | object spread: an object gives its own fields; a value that is neither object, array nor string gives none |
| JsValue.SpreadIndexes | core/node.js:46 | object spread of an array or string: element `i` (a one-character string for a string) under the key `String(i)`, and no other keys |
| Node.UpdateNodeNormalizes | core/node.js:47-48 | `tags` and `priority` are the normalisations of the merged values |
| Node.EmptyPatchOnlyStamps | core/node.js:44-51 | on a normalised node an empty patch only stamps `updatedAt` |
| Node.MarkNodeMoved | core/node.js:53-58 | a falsy node is returned as it is (for `null` and `undefined` only when both coordinates are finite, since the node's own are not read then); otherwise x and y become the arguments when finite, else keep the node's |
| Node.MoveKeys | core/node.js:53-58 | moving adds `x`, `y` and `updatedAt` to the fields and no others |
| Node.MoveKeepsNormalized | core/node.js:53-58 | moving a normalised node keeps its tags and priority |
| Node.MoveChangesOnlyPosition | core/node.js:53-58 | moving a normalised node changes no field but `x`, `y` and `updatedAt` |
| Persistence.NormalizeDate | core/persistence.js:6-8 | never empty |
| Persistence.MigrateNode | core/persistence.js:10-31 | a truthy id (the source's, else `node_{i+1}`) and non-empty timestamps; text and type the source's strings, else `New idea` and `idea`; x, y, order and priority the source's finite numbers, else 0, 0, `i+1` and 0; `locked` the truthiness of the source's; notes, aiSummary and voiceNote the strings, else empty; colorOverride and dueDate the strings, else null; metadata the object or array itself, else `{}`; both timestamps `NormalizeDate` of the source's |
| Persistence.MigrateNodeDefaults | core/persistence.js:13-29 | the stored object: id, text, x, y and order the source's when of the right type, else `node_{i+1}`, `New idea`, 0, 0, `i+1`; `locked` the boolean of the source's truthiness; priority finite, else 0; notes, aiSummary and voiceNote the string, else `''`; colorOverride and dueDate the string, else null; metadata the object or array, else `{}`; `createdAt`/`updatedAt` their `NormalizeDate` |
| Persistence.MigrateNodeTags | core/persistence.js:21 | the tags are all strings: each source tag's `String(tag)`, or none for a non-array; the type is the source's string or `idea` |
| Persistence.MigrateNodeIdempotent | core/persistence.js:10-31 | migrating a migrated bubble again, at any later time, changes nothing |
| Persistence.MigrateEdge | core/persistence.js:33-44 | a migrated connection has a truthy id |
| Persistence.MigrateEdgeDefaults | core/persistence.js:35-43 | id `edge_{i+1}`, weight 1, type `sequence`, label `''` by default; endpoints copied unchanged; metadata the object or array, else `{}` |
| Persistence.MigrateEdgeIdempotent | core/persistence.js:33-44 | migrating a migrated connection again changes nothing |
| Persistence.MigrateSnapshot | core/persistence.js:46-59 | schema version 2, a truthy name and type set, a null or truthy id, list lengths kept, each item migrated at its index |
| Persistence.MigrateSnapshotDefaults | core/persistence.js:47-57 | non-array lists become empty, array lengths are kept; name `Untitled Map`, id null and bubble types `{ labels: {}, locked: false }` by default |
| Persistence.MigrateSnapshotIdempotent | core/persistence.js:46-59 | migrating a migrated snapshot again changes nothing |
| VoiceSettings.ClampNumber | core/voice-settings.js:18-22 | the fallback when `Number` of the value is not finite (a one-element array reads as its element); otherwise within the bounds, the value itself when in range |
| VoiceSettings.SanitizeSettings | core/voice-settings.js:24-37 | defaults for a non-object; language and wake phrase non-blank and trimmed, the wake phrase lower case; numbers within their ranges |
| VoiceSettings.SanitizeSettingsFields | core/voice-settings.js:25-35 | `autoRestart` off only for `false`, the flags are truthiness, the voice kept only when a string, playback rate and pitch `ClampNumber` into [0.5, 2] with default 1, the confidence threshold into [0, 1] with default 0 |
| VoiceSettings.SanitizeIdempotent | core/voice-settings.js:24-37 | sanitising sanitised settings changes nothing |
| AppState.NextZoom | core/state.js:36-43 | a non-object is ignored; each finite field replaces the old value, others keep it |
| AppState.NextZoomOfValue | core/state.js:36-43 | setting a complete zoom object stores exactly it |
| AppState.NextZoomIdempotent | core/state.js:36-43 | repeating the update changes nothing further |
| AppState.NextFilters | core/state.js:45-52 | a non-object is ignored; array tags replace; a finite `minPriority` replaces, `null` clears, others keep; a string `type` replaces, `null` clears, others keep |
| AppState.NextFiltersOfValue | core/state.js:45-52 | setting a complete filters object, nulls included, stores exactly it |
| AppState.NextFiltersIdempotent | core/state.js:45-52 | repeating the update changes nothing further |
| AppState.StateStore.constructor | core/state.js:4-13 | the store starts as the default state |
| AppState.StateStore.ResetState | core/state.js:15-18 | every field back to its default, and that state is returned |
| AppState.StateStore.SetDirty | core/state.js:24-26 | only `dirty` changes, to the truthiness of the argument |
| AppState.StateStore.SetSelectedNode | core/state.js:28-30 | only the selection changes: the id when truthy, else null |
| AppState.StateStore.SetPlaybackMode | core/state.js:32-34 | only the mode changes: the argument when truthy, else `linear` |
| AppState.StateStore.SetZoomState | core/state.js:36-43 | only the zoom changes, as `NextZoom` |
| AppState.StateStore.SetActiveFilters | core/state.js:45-52 | only the filters change, as `NextFilters` |
| AppState.StateStore.SetGraph | core/state.js:54-59 | only the graph changes; a non-array list is stored as empty |
| Playback.SortByPriority | core/playback.js:4-6 | a permutation, in non-increasing `PriorityKey`, with each key class in input order |
| Playback.PriorityKeyOrder | core/playback.js:5 | the key orders two bubbles as the comparator does: finite priorities by value, one reading as `Infinity` before every other, one reading as `-Infinity` after every other |
| Playback.SortSorted | core/playback.js:5 | the sort is in non-increasing key order |
| Playback.SortStable | core/playback.js:5 | the sort is stable |
| Playback.NodeById | core/playback.js:8-12 | every node's id is a key, each key maps to a node carrying that id, and a node no later node shares its id with is the one kept (`Map.set` overwrites) |
| Playback.BubblesOf | core/playback.js:24-42 | the bubbles of the ids that have one, and no others |
| Playback.BubblesOfIsFilter | core/playback.js:33 | `map` then `filter(Boolean)`: each id gives its own bubble, in order, or nothing when it has none |
| Playback.TypeFilter | core/playback.js:44-46 | the nodes whose type is the option's, or all for a falsy option |
| Playback.TypeFilterIsFilter | core/playback.js:44-46 | `filter`: each bubble is kept, in order and once, exactly when the option is falsy or its type matches |
| Playback.TypeFilterAll | core/playback.js:45 | a falsy type keeps every node in order |
| Playback.LoopCount | core/playback.js:50 | at least 1; 2 for a non-finite value; the floor of a value of 1 or more |
| Playback.RepeatAt | core/playback.js:52-54 | round q of the result holds the nodes again, in order |
| Playback.LoopPlayback | core/playback.js:49-55 | the loop builds exactly the nodes repeated `rounds` times |
| Playback.WeightedFilter | core/playback.js:59-63 | exactly the nodes whose `priority || 0` is at least the minimum under `Number` (`Infinity` included, NaN excluded) and that carry the tag, when given |
| Playback.WeightedFilterIsFilter | core/playback.js:59-63 | `filter`: each bubble is kept, in order and once, exactly when it passes the priority and tag tests |
| Playback.GeneratePlayback | core/playback.js:14-68 | empty nodes give nothing; linear and unknown modes give the nodes; type-filter, loop and weighted as above; graph modes give only known bubbles, and branch starts with the start bubble when it exists |
| Text.Trim | core/voice-parser.js:41 | the result is trimmed and no longer than the input |
| Text.TrimSlices | core/voice-parser.js:41 | the trim is a slice of the input with only white space on either side |
| Text.TrimIdempotent | core/voice-settings.js:27 | trimming twice is trimming once |
| Text.Lower | core/voice-parser.js:42 | lower-casing keeps the length and maps each character on its own |
| Text.CollapseShape | core/voice-parser.js:43 | replacing white-space runs gives single-spaced text, empty exactly for empty input, starting and ending with white space exactly when the input does |
| Text.CollapseSingleSpaced | core/voice-parser.js:43 | collapsing single-spaced text changes nothing |
| Text.IndexOf | core/voice-parser.js:80 | the first occurrence, or -1 when there is none |
| Editor.TitleCaseFirstSpec | script.js:111-114 | same length, first character upper-cased, the rest unchanged; idempotent |
| Editor.EditorPage.constructor | script.js:55-59 | the page starts with an empty canvas and history, the default map name and labels, and playback stopped |
| Editor.MapNameForSpec | script.js:116-119 | never blank; the trimmed input when not blank, else `Untitled Map`; stable |
| Editor.EditorPage.SetMapName | script.js:116-119 | the map name becomes `MapNameFor` of the argument |
| Editor.NormalizeBubbleTypeLabelSpec | script.js:211-214 | the trimmed label, or the fallback when blank; idempotent |
| Editor.DefaultLabelsAreTitleCase | script.js:47-54 | each default label is its type title-cased |
| Editor.BubbleTypeLabelFallbacks | script.js:216-218 | a configured label first, else the title-cased type; never blank for a non-empty type |
| Editor.EditorPage.GetBubbleTypeLabel | script.js:216-218 | the label by the configured labels |
| Editor.IndexOfKey | script.js:438-461 | the first position of the bubble, or -1 exactly when it is absent |
| Editor.ClampIndex | script.js:456 | within the list, and the target itself when it is in range |
| Editor.MoveToIndexSpec | script.js:458-459 | the moved bubble sits at the target, and the others keep their relative order |
| Editor.MoveToIndexPermutes | script.js:458-459 | a move keeps the same bubbles |
| Editor.EditorPage.MoveBubbleToIndex | script.js:453-461 | false and no change when the bubble is absent or already at the clamped target; otherwise the move to the clamped target |
| Editor.UntouchedMembers | script.js:442-446 | a connection survives pruning exactly when it does not touch the bubble |
| Editor.UntouchedOfUntouching | script.js:442-446 | pruning a list where nothing touches the bubble changes nothing |
| Editor.PruneStep | script.js:442-446 | one backward step keeps the connections from that index on pruned, the earlier ones untouched |
| Editor.EditorPage.PruneConnections | script.js:442-446 | the backward loop leaves exactly the untouched connections, in order |
| Editor.EditorPage.RemoveBubble | script.js:438-451 | the bubble and its connections are gone, the rest in order and renumbered, an active reference cleared, a snapshot saved when asked |
| Editor.Renumbered | script.js:1357-1362 | each bubble's order becomes its position plus one |
| Editor.RenumberedSpec | script.js:1357-1362 | renumbering keeps the bubbles and their identities, and is idempotent |
| Editor.EditorPage.UpdateBubbleIds | script.js:1357-1362 | the bubbles become their renumbering |
| Editor.SaveSpec | script.js:1350-1356 | saving pushes the snapshot and leaves nothing to redo |
| Editor.UndoRedoNoOps | script.js:1365-1379 | undo with one entry or fewer and redo with none change nothing; otherwise undo moves one entry |
| Editor.RedoAfterUndo | script.js:1365-1379 | undo then redo restores both stacks |
| Editor.UndoAfterRedo | script.js:1365-1379 | redo then undo restores both stacks |
| Editor.EditorPage.SaveSnapshot | script.js:1350-1356 | the stacks change as `AfterSave` |
| Editor.EditorPage.Undo | script.js:1365-1371 | the stacks change as `AfterUndo`, returning the snapshot to rebuild from, if any |
| Editor.EditorPage.Redo | script.js:1373-1379 | the stacks change as `AfterRedo`, returning the popped snapshot, if any |
| Editor.PlaybackGuards | script.js:996-1045 | pause acts exactly when active and not paused; resume only when active and paused; stop resets every flag; the next step stops at the end of the queue and otherwise advances |
| Editor.PlaybackKeepsConsistent | script.js:976-1061 | every playback operation keeps the button step consistent with the flags |
| Editor.ToggleCycle | script.js:1047-1061 | the button cycles 0, 1, 2, 3, 0; starting with no bubbles stays at 0 |
| Editor.EditorPage.StartPlayback | script.js:976-994 | the flags change as `Start` |
| Editor.EditorPage.StopPlayback | script.js:996-1004 | the flags change as `Stop` |
| Editor.EditorPage.PausePlayback | script.js:1006-1012 | the flags change as `Pause` |
| Editor.EditorPage.ResumePlayback | script.js:1014-1021 | the flags change as `Resume` |
| Editor.EditorPage.PlayNextBubble | script.js:1023-1045 | the flags change as `PlayNext`, and the bubble shown is the next in the queue when playing |
| Editor.EditorPage.HandleCollapsedAudioToggle | script.js:1047-1061 | the flags change as `Toggle` |
| Editor.ClearDuringPlaybackSticks | script.js:195-209 | as written, clearing during playback leaves the button at step 1 with playback stopped, and every further press changes nothing |
| Editor.ClearPlaybackRestarts | script.js:195-209 | with the step reset, clearing gives consistent idle flags, and the next press starts playback when there are bubbles |
| Editor.EditorPage.ClearMapData | script.js:195-209 | corrected, see Findings: empty lists, no active, selected or pending bubble, and idle flags |
| Editor.EditorPage.MakeBubbleActive | script.js:1448-1453 | the bubble becomes the active one |
| Editor.BubbleNumberOf | script.js:937-939 | `bubble`, white space, digits and then a non-word character or the end give the digits' value |
| Editor.TriggerOrder | script.js:918-952 | corrected, see Findings: `clear` wins, then `connect mode`; a `question ` prefix is not handled; otherwise handled exactly when `bubble N` matches |
| Editor.UnclearClearsMap | script.js:919 | as written, the transcript `unclear` clears the map |
| Editor.UnclearTriggersNothing | script.js:919 | with `clear` matched as a word, `unclear` triggers nothing |
| Editor.ClearWordClears | script.js:919-923 | a spoken `clear` between non-word characters still clears the map |
| Editor.OutOfRangeBubbleHandled | script.js:937-949 | `bubble 7` is handled even with fewer bubbles |
| Editor.AfterTriggerKeeps | script.js:918-952 | corrected, see Findings: a trigger keeps bubble identities distinct and the step consistent; only `clear` changes the lists, flags and stacks |
| Editor.FocusBubbleSpec | script.js:937-949 | `bubble N` makes the N-th bubble active when there is one, and changes nothing otherwise |
| Editor.RepeatedTriggers | script.js:918-930 | `connect mode` twice restores the mode; `clear` twice is `clear` once but for the second saved snapshot |
| Editor.EditorPage.ApplyTrigger | script.js:919-949 | corrected, see Findings: the page changes as `AfterTrigger` for the classified transcript |
| Editor.EditorPage.HandleTriggers | script.js:918-952 | corrected, see Findings: the page changes as `AfterTrigger`, and the result says whether bubble creation is skipped |

## Left out

- Speech recognition, speech synthesis and the browser: the session is abstract. A start that throws is a parameter naming the error, and the platform's `stop()` failures are not modelled (they are swallowed).
- `mapError`: the recognition controller always uses `normalizeRecognitionError`. A caller's own mapping, or the identity default, is not modelled.
- Timers and time: a pending restart is an optional delay, and firing it is a method call. The three-second step in `playNextBubble` is the `PlayNextBubble` call itself.
- Clocks, random ids and timestamps: `now`, `freshId` and snapshot strings are parameters. The `timestamp` field of an error descriptor is dropped.
- Local storage and JSON:
  - `loadSettings`, `saveSettings`, `parseSnapshot` and `stringifySnapshot`;
  - the map database;
  - the `bubbleHistory` copy.
  These are storage and serialisation wrappers around the modelled functions.
- DOM, rendering, camera, layout and geometry: highlighting, panning, sidebar updates, alerts and element removal in `script.js`; also `core/layout.js`, `core/camera.js` and `core/ui.js`.
- Object identity: bubbles in `script.js` are identified by a key. `indexOf(data)` and `=== data` compare keys, and only the key and `order` of a bubble are kept.
- Graph endpoints: edges are modelled with resolved string ids. `getNodeId` on an object endpoint (`node?.id`) is not modelled.
- Text.Lower: `toLowerCase` is modelled on ASCII letters only. Other characters are unchanged.
- JsValue.StringToNumber: `Number(s)` is modelled for plain decimal integers (optionally signed) and blank strings only. Decimal fractions, exponents and hexadecimal in strings read as not finite.
- JsValue.NumberToString: `String(n)` is exact for integral numbers only. A number with a fractional part is rendered as its floor.
- Graph.FindClusters: the clusters are proved to be components, smaller than the graph, with no later cluster starting inside an earlier one. That every node lies in some cluster or the whole graph is connected is not proved.
- Graph.ValidateGraph: the clusters carry the same weaker statement as `Graph.FindClusters`.
- Graph.DescendantStep: stated for graphs without an empty node id. With one, `edge.toId || edge.fromId` falls back to the source id.
- Playback.GeneratePlayback: requires bubbles with string ids, and string start and target ids when given. The graph helpers see bubbles only through those ids. For the graph modes, only "known bubbles only" and the branch start are stated, not the full order.
- Playback.SortByPriority: `priority || 0` that `Number` reads as NaN (an object, a non-numeric string) sorts as 0. JavaScript's comparator returns `NaN` for it against every bubble, a tie, so the comparator is inconsistent and the order depends on the engine. Infinite priorities are modelled: `Infinity` first, `-Infinity` last, and two equal infinities tie.
- Editor.EditorPage.RemoveBubble: keeps only the bubble-identity part of the page invariant. The playback flags are not in its frame, so step consistency is untouched.
- Editor.EditorPage.HandleTriggers: the camera move after `bubble N` and the `alert` on `connect mode` are not modelled.
- VoiceErrors.NormalizeRecognitionError: the error table is read as a plain map. In the source `ERROR_MAP[rawCode]` also sees `Object.prototype` keys, so a code such as `constructor` gives a descriptor with undefined fields instead of `unknown_error`.
- Editor.TitleCaseFirstSpec: `toUpperCase` is modelled on ASCII letters only (as `Editor.UpperChar`). Other characters are unchanged, while the source upper-cases them by Unicode rules, where `ß` becomes `SS` and the length changes.
- VoiceParser.ParseTypePrefix: models the corrected remainder, the text after the keyword whatever white space follows it. The source cuts after the first `keyword + ' '` found in the lower-cased text (see Findings).
- Editor.EditorPage.ClearMapData: models the corrected clear, which also resets the single-button step to 0. The source leaves `collapsedAudioStep` as it was (see Findings).
- Editor.TriggerOrder: models the corrected `clear` test, the whole word only. The source clears on `clear` anywhere in the text, inside words such as `unclear` (see Findings).
- Editor.AfterTriggerKeeps: states the corrected clear, whose playback flags are `ClearPlayback`. As written, the step would keep its old value.
- Editor.EditorPage.ApplyTrigger: applies the corrected word test and the corrected clear (see Findings).
- Editor.EditorPage.HandleTriggers: uses the corrected word test and the corrected clear (see Findings).
- Editor.EditorPage.Valid: the step consistency it includes is an invariant of the corrected page only. As written, clearing during playback leaves the step at 1 with playback stopped (`Editor.ClearDuringPlaybackSticks`).

## Findings

| source | as written | input that shows it | evidently intended | confidence | as-written member | corrected member |
|---|---|---|---|---|---|---|
| script.js:195-209 | `clearMapData` stops playback but does not reset `collapsedAudioStep` | clear the map while playing one bubble: the step stays at 1 with playback stopped, and each later press of the single button calls `pausePlayback`, which does nothing | the step goes back to 0 with the other playback flags, so the button starts playback again | not executed | Editor.ClearDuringPlaybackSticks | Editor.ClearPlaybackRestarts |
| script.js:919 | `text.includes('clear')` matches `clear` inside any word | the transcript `unclear` (also `nuclear`, `clearly`) clears the whole map | only the word `clear` clears the map | not executed | Editor.UnclearClearsMap | Editor.UnclearTriggersNothing |
| core/voice-parser.js:80 | the remainder starts after the first `keyword + ' '` found in the lower-cased text, but the match on line 77 allows any white space after the keyword | `note\ta note b` gives remainder `b` | the text after the keyword, trimmed: `a note b` | not executed | VoiceParser.TypeRemainderAsWrittenLosesText | VoiceParser.TypedRemainderFollowsKeyword |
