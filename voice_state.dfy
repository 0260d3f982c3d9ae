/**
 * The voice state machine: seven states, a fixed table of legal moves, the last error and
 * an observer told of every successful move. Failed moves change nothing.
 */
module VoiceState {
  import opened Wrappers
  import opened VoiceErrors

  datatype State = Idle | RequestingPermission | Listening | Processing | Speaking | Paused | Error

  /** The state names the machine accepts and reports. */
  function Name(s: State): string {
    match s
    case Idle => "idle"
    case RequestingPermission => "requesting_permission"
    case Listening => "listening"
    case Processing => "processing"
    case Speaking => "speaking"
    case Paused => "paused"
    case Error => "error"
  }

  /** `Object.values(STATES).includes(name)`, giving the state so named. */
  function Parse(name: string): (r: Option<State>)
    ensures r.Some? ==> Name(r.value) == name
    ensures r.None? ==> forall s :: Name(s) != name
  {
    if name == "idle" then Some(Idle)
    else if name == "requesting_permission" then Some(RequestingPermission)
    else if name == "listening" then Some(Listening)
    else if name == "processing" then Some(Processing)
    else if name == "speaking" then Some(Speaking)
    else if name == "paused" then Some(Paused)
    else if name == "error" then Some(Error)
    else None
  }

  /** The length of each state name; no two are alike. */
  function NameLength(s: State): nat {
    match s
    case Idle => 4
    case RequestingPermission => 21
    case Listening => 9
    case Processing => 10
    case Speaking => 8
    case Paused => 6
    case Error => 5
  }

  lemma NameLengthIs(s: State)
    ensures |Name(s)| == NameLength(s)
  {
  }

  /** Different states have different names. */
  lemma NameInjective(a: State, b: State)
    requires Name(a) == Name(b)
    ensures a == b
  {
    NameLengthIs(a);
    NameLengthIs(b);
  }

  /** Every state is accepted under its own name. */
  lemma ParseName(s: State)
    ensures Parse(Name(s)) == Some(s)
  {
    NameInjective(Parse(Name(s)).value, s);
  }

  /** The table of moves out of each state (a move to the same state is legal apart from it). */
  function Allowed(s: State): (r: set<State>)
    ensures s !in r
    ensures s != Error ==> Error in r
    ensures s != Idle ==> Idle in r
    ensures Processing in r <==> s == Listening
  {
    match s
    case Idle => {RequestingPermission, Listening, Error}
    case RequestingPermission => {Listening, Error, Idle}
    case Listening => {Processing, Error, Idle, Paused, Speaking}
    case Processing => {Listening, Speaking, Error, Idle}
    case Speaking => {Listening, Paused, Error, Idle}
    case Paused => {Listening, Speaking, Error, Idle}
    case Error => {Idle, RequestingPermission, Listening}
  }

  /** A move is legal when it stays put or the table lists it. */
  predicate CanMove(from: State, to: State) {
    to == from || to in Allowed(from)
  }

  /** ERROR and IDLE can be entered from every state, PROCESSING only from LISTENING or itself. */
  lemma CanMoveFacts(from: State, to: State)
    ensures to == Error || to == Idle || to == from ==> CanMove(from, to)
    ensures to == Processing ==> (CanMove(from, to) <==> from == Listening || from == Processing)
  {
  }

  /** What a move carries besides its target: a source tag, or the error being reported. */
  datatype Meta = Tag(source: string) | Failure(error: ErrorDescriptor)

  /** `meta && meta.error`. */
  function MetaError(meta: Option<Meta>): Option<ErrorDescriptor> {
    if meta.Some? && meta.value.Failure? then Some(meta.value.error) else None
  }

  /** What the observer is told after a successful move (`meta || null`). */
  datatype Change = Change(prevState: State, state: State, lastError: Option<ErrorDescriptor>, meta: Option<Meta>)

  /** The last error after a move to `next`: the move's own error, else kept only in ERROR. */
  function ErrorAfter(prev: Option<ErrorDescriptor>, next: State, meta: Option<Meta>): (e: Option<ErrorDescriptor>)
    ensures MetaError(meta).Some? ==> e == MetaError(meta)
    ensures MetaError(meta).None? && next != Error ==> e == None
    ensures MetaError(meta).None? && next == Error ==> e == prev
  {
    if MetaError(meta).Some? then MetaError(meta)
    else if next != Error then None
    else prev
  }

  class VoiceStateMachine {
    var current: State
    var lastError: Option<ErrorDescriptor>
    /** Every change the `onChange` observer has been told of, oldest first. */
    var notifications: seq<Change>

    constructor ()
      ensures current == Idle && lastError == None && notifications == []
    {
      current := Idle;
      lastError := None;
      notifications := [];
    }

    /** `canTransition`: the name is a state that the current state may move to. */
    function CanTransition(nextName: string): (r: bool)
      reads this
      ensures r <==> exists s :: Name(s) == nextName && CanMove(current, s)
    {
      match Parse(nextName)
      case None => false
      case Some(s) =>
        assert forall t :: Name(t) == nextName ==> t == s by {
          forall t | Name(t) == nextName ensures t == s { NameInjective(t, s); }
        }
        CanMove(current, s)
    }

    /**
     * `transition`: an unknown name or an illegal move fails and changes nothing; otherwise
     * the state moves, the last error follows `ErrorAfter` and the observer is told once.
     */
    method Transition(nextName: string, meta: Option<Meta>) returns (r: Result<State, string>)
      modifies this
      ensures Parse(nextName).None? ==> r == Err("Unknown voice state: " + nextName)
      ensures Parse(nextName).Some? && !CanMove(old(current), Parse(nextName).value) ==>
        r == Err("Invalid voice state transition: " + Name(old(current)) + " -> " + nextName)
      ensures r.Err? ==> unchanged(this)
      ensures r.Ok? <==> old(CanTransition(nextName))
      ensures r.Ok? ==>
        && Name(current) == nextName && r.value == current
        && lastError == ErrorAfter(old(lastError), current, meta)
        && notifications == old(notifications) + [Change(old(current), current, lastError, meta)]
    {
      var next := Parse(nextName);
      if next.None? {
        return Err("Unknown voice state: " + nextName);
      }
      if !CanMove(current, next.value) {
        return Err("Invalid voice state transition: " + Name(current) + " -> " + nextName);
      }
      var prev := current;
      current := next.value;
      if current != Error {
        lastError := None;
      }
      if MetaError(meta).Some? {
        lastError := MetaError(meta);
      }
      notifications := notifications + [Change(prev, current, lastError, meta)];
      r := Ok(current);
    }

    /** `setError`: always legal; ends in ERROR holding `e`, with one notification. */
    method SetError(e: ErrorDescriptor) returns (r: Result<State, string>)
      modifies this
      ensures r == Ok(Error) && current == Error && lastError == Some(e)
      ensures notifications == old(notifications) + [Change(old(current), Error, Some(e), Some(Failure(e)))]
    {
      ParseName(Error);
      r := Transition(Name(Error), Some(Failure(e)));
    }

    /** `getState`: reads the state and the last error without changing anything. */
    method GetState() returns (state: State, error: Option<ErrorDescriptor>)
      ensures state == current && error == lastError
    {
      state, error := current, lastError;
    }
  }
}
