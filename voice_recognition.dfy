/**
 * The recognition controller: it starts and stops an abstract recognition session, drives
 * the voice state machine from the session's events, reports errors, and retries with
 * exponential back-off through at most one pending restart timer.
 *
 * The session is abstract: whether `start()` throws (and the error's name) is a parameter
 * of `StartListening`, and its events are the methods `OnResult`, `OnError` and `OnEnd`.
 * Errors are mapped by `NormalizeRecognitionError`.
 */
module VoiceRecognition {
  import opened Wrappers
  import opened VoiceErrors
  import opened VoiceState

  function Pow2(k: nat): (p: nat)
    ensures p >= 1
  {
    if k == 0 then 1 else 2 * Pow2(k - 1)
  }

  /** `backoffDelayMs`: 500 ms doubled per attempt, the exponent capped at 6. */
  function BackoffDelay(attempts: nat): (ms: nat)
    ensures 500 <= ms <= 32000
  {
    var e := if attempts < 6 then attempts else 6;
    assert Pow2(e) <= 64 by { assert Pow2(6) == 64; PowMonotone(e, 6); }
    500 * Pow2(e)
  }

  lemma {:induction false} PowMonotone(a: nat, b: nat)
    requires a <= b
    ensures Pow2(a) <= Pow2(b)
  {
    if a < b { PowMonotone(a, b - 1); }
  }

  /** The delay doubles with each attempt up to the sixth, and stays at 32 s after it. */
  lemma BackoffSteps(attempts: nat)
    ensures attempts < 6 ==> BackoffDelay(attempts + 1) == 2 * BackoffDelay(attempts)
    ensures attempts >= 6 ==> BackoffDelay(attempts) == 32000
  {
    assert Pow2(6) == 64;
  }

  /** More attempts never wait less. */
  lemma {:induction false} BackoffMonotone(a: nat, b: nat)
    requires a <= b
    ensures BackoffDelay(a) <= BackoffDelay(b)
  {
    PowMonotone(if a < 6 then a else 6, if b < 6 then b else 6);
  }

  /** The descriptor reported when no session can be created. */
  const NotSupportedError := ErrorDescriptor(None, NotSupported, NotSupportedMessage, false, false)

  /** `mapError({ error: error?.name || 'start_failed' })` for an exception thrown while starting. */
  function StartFailure(errorName: string): (d: ErrorDescriptor)
    ensures errorName != [] ==> d.rawCode == Some(errorName)
    ensures errorName == [] ==> d.rawCode == Some("start_failed") && d.code == UnknownError
  {
    var raw := if errorName != [] then errorName else "start_failed";
    assert forall c :: CodeName(c) != "start_failed";
    NormalizeRecognitionError(Some(raw))
  }

  /** The name of the exception a rejected state-machine move throws (`new Error(...)`). */
  const ThrownErrorName := "Error"

  /**
   * The timer and attempt count a failure with descriptor `d` leaves behind: `scheduleRestart`
   * runs only for a recoverable, restartable error, and it schedules only when `retries`
   * (auto-restart on and no user stop).
   */
  predicate RestartAfter(d: ErrorDescriptor, retries: bool, timer: Option<nat>, attempts: nat,
                         timer': Option<nat>, attempts': nat)
  {
    if d.recoverable && d.restart && retries
    then timer' == Some(BackoffDelay(attempts)) && attempts' == attempts + 1
    else timer' == timer && attempts' == attempts
  }

  /** The notification a failure with descriptor `d` sends from `prev` (`setError`). */
  function FailureChange(prev: State, d: ErrorDescriptor): Change {
    Change(prev, Error, Some(d), Some(Failure(d)))
  }

  /** The two notifications of a successful start from `prev`. */
  function StartChanges(prev: State): seq<Change> {
    [Change(prev, RequestingPermission, None, Some(Tag("start"))),
     Change(RequestingPermission, Listening, None, Some(Tag("start_success")))]
  }

  class RecognitionController {
    const machine: VoiceStateMachine
    /** Whether a session constructor was supplied. */
    const supported: bool
    /** Whether the session has been created (`recognition` is set). */
    var hasSession: bool
    var language: string
    /** The session's `lang`, meaningful once the session exists. */
    var sessionLanguage: string
    var autoRestart: bool
    /** The pending restart timer's delay in ms; at most one timer is ever pending. */
    var restartTimer: Option<nat>
    var restartAttempts: nat
    var stoppedByUser: bool
    var isRunning: bool
    /** The errors passed to `onRecognitionError`, oldest first. */
    var reportedErrors: seq<ErrorDescriptor>
    /** The transcripts passed to `onResult`, oldest first. */
    var results: seq<string>

    ghost predicate Valid()
      reads this
    {
      && (isRunning ==> hasSession)
      && (hasSession ==> supported && sessionLanguage == language)
      && (restartTimer.Some? ==>
            autoRestart && !stoppedByUser && restartAttempts >= 1
            && restartTimer.value == BackoffDelay(restartAttempts - 1))
    }

    /** `createVoiceRecognitionController`; `language` is `opts.language || 'en-US'`. */
    constructor (machine: VoiceStateMachine, supported: bool, language: string, autoRestart: bool)
      ensures Valid()
      ensures this.machine == machine && this.supported == supported
      ensures this.language == (if language != [] then language else "en-US")
      ensures this.autoRestart == autoRestart && restartTimer == None && restartAttempts == 0
      ensures !hasSession && !stoppedByUser && !isRunning && reportedErrors == [] && results == []
    {
      this.machine := machine;
      this.supported := supported;
      hasSession := false;
      this.language := if language != [] then language else "en-US";
      sessionLanguage := "";
      this.autoRestart := autoRestart;
      restartTimer := None;
      restartAttempts := 0;
      stoppedByUser := false;
      isRunning := false;
      reportedErrors := [];
      results := [];
    }

    /** `clearRestartTimer`. */
    method ClearRestartTimer()
      modifies this`restartTimer
      ensures restartTimer == None
    {
      restartTimer := None;
    }

    /**
     * `scheduleRestart`: nothing when auto-restart is off or the user stopped; otherwise
     * the pending timer is replaced by one whose delay is computed before the count grows.
     */
    method ScheduleRestart()
      requires Valid()
      modifies this`restartTimer, this`restartAttempts
      ensures Valid()
      ensures !autoRestart || stoppedByUser ==>
        restartTimer == old(restartTimer) && restartAttempts == old(restartAttempts)
      ensures autoRestart && !stoppedByUser ==>
        restartTimer == Some(BackoffDelay(old(restartAttempts))) && restartAttempts == old(restartAttempts) + 1
    {
      if !autoRestart || stoppedByUser {
        return;
      }
      ClearRestartTimer();
      var delay := BackoffDelay(restartAttempts);
      restartAttempts := restartAttempts + 1;
      restartTimer := Some(delay);
    }

    /** `ensureRecognition`: creates the session once, in the configured language. */
    method EnsureRecognition() returns (available: bool)
      requires Valid()
      modifies this`hasSession, this`sessionLanguage
      ensures Valid()
      ensures available == hasSession == (old(hasSession) || supported)
      ensures old(hasSession) ==> sessionLanguage == old(sessionLanguage)
    {
      if hasSession {
        return true;
      }
      if !supported {
        return false;
      }
      hasSession := true;
      sessionLanguage := language;
      return true;
    }

    /** The `catch` of `startListening`: report the normalised error and retry if it allows. */
    method FailStart(errorName: string)
      requires Valid()
      modifies this, machine
      ensures Valid()
      ensures machine.current == Error && machine.lastError == Some(StartFailure(errorName))
      ensures machine.notifications == old(machine.notifications) + [FailureChange(old(machine.current), StartFailure(errorName))]
      ensures reportedErrors == old(reportedErrors) + [StartFailure(errorName)]
      ensures hasSession == old(hasSession) && isRunning == old(isRunning) && stoppedByUser == old(stoppedByUser)
      ensures RestartAfter(StartFailure(errorName), autoRestart && !stoppedByUser,
                           old(restartTimer), old(restartAttempts), restartTimer, restartAttempts)
      ensures unchanged(this`language, this`sessionLanguage, this`autoRestart, this`results)
    {
      var d := StartFailure(errorName);
      var _ := machine.SetError(d);
      reportedErrors := reportedErrors + [d];
      if d.restart && d.recoverable {
        ScheduleRestart();
      }
    }

    /**
     * The `try` of `startListening` with its `catch`: ask for permission, start the session,
     * then listen. A move the machine rejects throws an `Error`; `startThrows` is the name of
     * the error the session's `start()` throws, if it throws.
     */
    method TryStart(startThrows: Option<string>) returns (ok: bool)
      requires Valid() && hasSession && !isRunning
      modifies this, machine
      ensures Valid() && (ok <==> isRunning)
      ensures hasSession && stoppedByUser == old(stoppedByUser)
      ensures CanMove(old(machine.current), RequestingPermission) && startThrows.None? ==>
        && ok && machine.current == Listening && machine.lastError == None
        && machine.notifications == old(machine.notifications) + StartChanges(old(machine.current))
        && reportedErrors == old(reportedErrors)
        && restartTimer == old(restartTimer) && restartAttempts == old(restartAttempts)
      ensures !CanMove(old(machine.current), RequestingPermission) ==>
        var d := StartFailure(ThrownErrorName);
        && !ok && machine.current == Error && machine.lastError == Some(d)
        && machine.notifications == old(machine.notifications) + [FailureChange(old(machine.current), d)]
        && reportedErrors == old(reportedErrors) + [d]
        && RestartAfter(d, autoRestart && !stoppedByUser, old(restartTimer), old(restartAttempts),
                        restartTimer, restartAttempts)
      ensures CanMove(old(machine.current), RequestingPermission) && startThrows.Some? ==>
        var d := StartFailure(startThrows.value);
        && !ok && machine.current == Error && machine.lastError == Some(d)
        && machine.notifications == old(machine.notifications)
             + [StartChanges(old(machine.current))[0], FailureChange(RequestingPermission, d)]
        && reportedErrors == old(reportedErrors) + [d]
        && RestartAfter(d, autoRestart && !stoppedByUser, old(restartTimer), old(restartAttempts),
                        restartTimer, restartAttempts)
      ensures language == old(language) && autoRestart == old(autoRestart) && results == old(results)
    {
      ghost var prev, sent := machine.current, machine.notifications;
      ParseName(RequestingPermission);
      var asked := machine.Transition(Name(RequestingPermission), Some(Tag("start")));
      if asked.Err? {
        FailStart(ThrownErrorName);
        return false;
      }
      assert CanMove(prev, RequestingPermission) && machine.current == RequestingPermission;
      assert machine.notifications == sent + [StartChanges(prev)[0]];
      if startThrows.Some? {
        FailStart(startThrows.value);
        return false;
      }
      isRunning := true;
      ParseName(Listening);
      var _ := machine.Transition(Name(Listening), Some(Tag("start_success")));
      assert machine.current == Listening && machine.lastError == None;
      assert machine.notifications == sent + [StartChanges(prev)[0]] + [StartChanges(prev)[1]];
      return true;
    }

    /**
     * `startListening`. `allowRetry` is false only for `{ allowRetry: false }`; `startThrows`
     * is as for `TryStart`.
     */
    method StartListening(allowRetry: bool, startThrows: Option<string>) returns (ok: bool)
      requires Valid()
      modifies this, machine
      ensures Valid() && (ok <==> isRunning)
      // Already running: nothing changes.
      ensures old(isRunning) ==> ok && unchanged(this) && unchanged(machine)
      // No session can be created: the unsupported error is reported and nothing is scheduled.
      ensures !old(isRunning) && !supported ==>
        && !ok && machine.current == Error && machine.lastError == Some(NotSupportedError)
        && machine.notifications == old(machine.notifications) + [FailureChange(old(machine.current), NotSupportedError)]
        && reportedErrors == old(reportedErrors) + [NotSupportedError]
        && restartTimer == old(restartTimer) && restartAttempts == old(restartAttempts)
        && stoppedByUser == old(stoppedByUser)
      // Otherwise the user stop is forgotten, any pending timer is cancelled and, unless
      // this is a timer's retry, the attempt count starts again.
      ensures !old(isRunning) && supported ==> hasSession && !stoppedByUser
      ensures (!old(isRunning) && supported && CanMove(old(machine.current), RequestingPermission)
        && startThrows.None?) ==>
        && ok && machine.current == Listening && reportedErrors == old(reportedErrors)
        && machine.notifications == old(machine.notifications) + StartChanges(old(machine.current))
        && restartTimer == None && restartAttempts == (if allowRetry then 0 else old(restartAttempts))
      // A failed start is reported and retried as `FailStart` says, from the reset count.
      ensures !old(isRunning) && supported && !CanMove(old(machine.current), RequestingPermission) ==>
        var d := StartFailure(ThrownErrorName);
        && !ok && machine.current == Error && machine.lastError == Some(d)
        && reportedErrors == old(reportedErrors) + [d]
        && RestartAfter(d, autoRestart, None, if allowRetry then 0 else old(restartAttempts),
                        restartTimer, restartAttempts)
      ensures (!old(isRunning) && supported && CanMove(old(machine.current), RequestingPermission)
        && startThrows.Some?) ==>
        var d := StartFailure(startThrows.value);
        && !ok && machine.current == Error && machine.lastError == Some(d)
        && reportedErrors == old(reportedErrors) + [d]
        && RestartAfter(d, autoRestart, None, if allowRetry then 0 else old(restartAttempts),
                        restartTimer, restartAttempts)
      ensures language == old(language) && autoRestart == old(autoRestart) && results == old(results)
    {
      if isRunning {
        return true;
      }
      var available := EnsureRecognition();
      if !available {
        var _ := machine.SetError(NotSupportedError);
        reportedErrors := reportedErrors + [NotSupportedError];
        return false;
      }
      stoppedByUser := false;
      ClearRestartTimer();
      if allowRetry {
        restartAttempts := 0;
      }
      assert machine.current == old(machine.current) && machine.notifications == old(machine.notifications);
      assert restartTimer == None && !stoppedByUser
        && restartAttempts == if allowRetry then 0 else old(restartAttempts);
      ok := TryStart(startThrows);
    }

    /** The restart timer fires: the slot empties and listening restarts keeping the count. */
    method FireRestartTimer(startThrows: Option<string>) returns (ok: bool)
      requires Valid() && restartTimer.Some?
      modifies this, machine
      ensures Valid()
      ensures old(isRunning) ==> ok && restartTimer == None && restartAttempts == old(restartAttempts)
      ensures (!old(isRunning) && supported && CanMove(old(machine.current), RequestingPermission)
        && startThrows.None?) ==>
        ok && machine.current == Listening && restartTimer == None && restartAttempts == old(restartAttempts)
      ensures !old(isRunning) && !supported ==>
        && !ok && machine.current == Error && reportedErrors == old(reportedErrors) + [NotSupportedError]
        && restartTimer == None && restartAttempts == old(restartAttempts)
      ensures !old(isRunning) && supported && !CanMove(old(machine.current), RequestingPermission) ==>
        var d := StartFailure(ThrownErrorName);
        && !ok && machine.current == Error && reportedErrors == old(reportedErrors) + [d]
        && RestartAfter(d, autoRestart, None, old(restartAttempts), restartTimer, restartAttempts)
      ensures (!old(isRunning) && supported && CanMove(old(machine.current), RequestingPermission)
        && startThrows.Some?) ==>
        var d := StartFailure(startThrows.value);
        && !ok && machine.current == Error && reportedErrors == old(reportedErrors) + [d]
        && RestartAfter(d, autoRestart, None, old(restartAttempts), restartTimer, restartAttempts)
    {
      restartTimer := None;
      ok := StartListening(false, startThrows);
    }

    /** `stopListening`: the user's stop wins over any retry and the machine ends in IDLE. */
    method StopListening()
      requires Valid()
      modifies this, machine
      ensures Valid()
      ensures stoppedByUser && restartTimer == None && restartAttempts == 0 && !isRunning
      ensures machine.current == Idle
      ensures old(machine.current) == Idle ==> machine.notifications == old(machine.notifications)
      ensures old(machine.current) != Idle ==>
        && machine.lastError == None
        && machine.notifications == old(machine.notifications) + [Change(old(machine.current), Idle, None, Some(Tag("stop")))]
      ensures hasSession == old(hasSession) && language == old(language) && autoRestart == old(autoRestart)
      ensures reportedErrors == old(reportedErrors) && results == old(results)
    {
      stoppedByUser := true;
      ClearRestartTimer();
      restartAttempts := 0;
      isRunning := false;
      var state, _ := machine.GetState();
      if state != Idle {
        ParseName(Idle);
        var _ := machine.Transition(Name(Idle), Some(Tag("stop")));
      }
    }

    /** `onresult`: the result is delivered between PROCESSING and LISTENING; from a state that
      * cannot move to PROCESSING the handler throws before delivering anything. */
    method OnResult(transcript: string)
      requires Valid() && hasSession
      modifies this`results, machine
      ensures Valid()
      ensures CanMove(old(machine.current), Processing) ==>
        && machine.current == Listening && results == old(results) + [transcript]
        && machine.notifications == old(machine.notifications) + [
             Change(old(machine.current), Processing, None, Some(Tag("onresult"))),
             Change(Processing, Listening, None, Some(Tag("onresult_complete")))]
      ensures !CanMove(old(machine.current), Processing) ==>
        results == old(results) && unchanged(machine)
    {
      ParseName(Processing);
      var processing := machine.Transition(Name(Processing), Some(Tag("onresult")));
      if processing.Err? {
        return;
      }
      results := results + [transcript];
      ParseName(Listening);
      var _ := machine.Transition(Name(Listening), Some(Tag("onresult_complete")));
    }

    /** `onerror`: report the normalised error; retry only when it is recoverable and restartable. */
    method OnError(code: Option<string>)
      requires Valid() && hasSession
      modifies this`reportedErrors, this`restartTimer, this`restartAttempts, machine
      ensures Valid()
      ensures var d := NormalizeRecognitionError(code);
        && machine.current == Error && machine.lastError == Some(d)
        && reportedErrors == old(reportedErrors) + [d]
        && machine.notifications == old(machine.notifications) + [FailureChange(old(machine.current), d)]
        && RestartAfter(d, autoRestart && !stoppedByUser, old(restartTimer), old(restartAttempts),
                        restartTimer, restartAttempts)
    {
      var d := NormalizeRecognitionError(code);
      var _ := machine.SetError(d);
      reportedErrors := reportedErrors + [d];
      if !d.recoverable || !d.restart {
        return;
      }
      ScheduleRestart();
    }

    /** `onend`: after a user stop go to IDLE and stay; otherwise leave ERROR alone and retry. */
    method OnEnd()
      requires Valid() && hasSession
      modifies this`isRunning, this`restartTimer, this`restartAttempts, machine
      ensures Valid() && !isRunning
      ensures stoppedByUser ==>
        machine.current == Idle && restartTimer == old(restartTimer) && restartAttempts == old(restartAttempts)
      ensures !stoppedByUser ==>
        && machine.current == (if old(machine.current) == Error then Error else Idle)
        && (autoRestart ==>
              restartTimer == Some(BackoffDelay(old(restartAttempts))) && restartAttempts == old(restartAttempts) + 1)
        && (!autoRestart ==> restartTimer == old(restartTimer) && restartAttempts == old(restartAttempts))
      ensures stoppedByUser ==>
        && machine.lastError == None
        && machine.notifications == old(machine.notifications) + [Change(old(machine.current), Idle, None, Some(Tag("onend_stopped")))]
      ensures !stoppedByUser && old(machine.current) != Error ==>
        && machine.lastError == None
        && machine.notifications == old(machine.notifications) + [Change(old(machine.current), Idle, None, Some(Tag("onend")))]
      ensures !stoppedByUser && old(machine.current) == Error ==>
        machine.lastError == old(machine.lastError) && machine.notifications == old(machine.notifications)
    {
      isRunning := false;
      var state, _ := machine.GetState();
      ParseName(Idle);
      if stoppedByUser {
        var _ := machine.Transition(Name(Idle), Some(Tag("onend_stopped")));
        return;
      }
      if state != Error {
        var _ := machine.Transition(Name(Idle), Some(Tag("onend")));
      }
      ScheduleRestart();
    }

    /** `setLanguage`: an empty name is ignored; the session, once created, follows. */
    method SetLanguage(newLanguage: string)
      requires Valid()
      modifies this`language, this`sessionLanguage
      ensures Valid()
      ensures language == (if newLanguage != [] then newLanguage else old(language))
    {
      if newLanguage == [] {
        return;
      }
      language := newLanguage;
      if hasSession {
        sessionLanguage := newLanguage;
      }
    }

    /** `setAutoRestart`: switching it off cancels the pending timer. */
    method SetAutoRestart(value: bool)
      requires Valid()
      modifies this`autoRestart, this`restartTimer
      ensures Valid() && autoRestart == value
      ensures !value ==> restartTimer == None
      ensures value ==> restartTimer == old(restartTimer)
    {
      autoRestart := value;
      if !autoRestart {
        ClearRestartTimer();
      }
    }

    /** `isListening`. */
    method IsListening() returns (r: bool)
      ensures r == isRunning
    {
      r := isRunning;
    }
  }
}
