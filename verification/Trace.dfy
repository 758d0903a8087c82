/** The trace acceptor of pony/agent/observability.py: one pass over the events
    with the sets and maps of `validate_trace`. */
module Trace {
  import opened Common

  datatype Kind =
    | ModelRequested | ActionDecoded | ModelTurn | ModelFailed
    | AuxiliaryCompleted | RunFinished
    | ToolStarted | ToolExecuted | ToolInterrupted | ToolFinished
    | OtherKind

  /** The listed tool statuses; any other text is Unlisted. */
  datatype Status = Ok | Error | PartialSuccess | Rejected | Interrupted | Unlisted(text: string)

  datatype Streaming = Streaming(committed: bool, previewEmitted: bool, firstPreviewMs: Option<int>)

  const INITIAL := Streaming(false, false, None)

  /** Outcome of the envelope and field-safety filters, which stay uninterpreted. */
  datatype Envelope = Current | Legacy | UnknownFields | OldSchema | Unsafe

  datatype Event = Event(
    envelope: Envelope,
    id: nat,
    runId: string,
    taskId: string,
    kind: Kind,
    attempt: Option<nat>,
    streaming: Option<Streaming>,
    toolUseId: string,            // "" when the field is absent
    toolName: string,             // "" when the field is absent
    toolStatus: Option<Status>)

  datatype TraceError =
    | EmptyTrace | LegacyContract | UnknownFieldNames | SchemaMigration | UnsafeMetadata
    | DuplicateEventId | RunIdMismatch | TaskIdMismatch
    | StreamingOnInvalidEvent | StreamingWithoutAttempt | StreamingNotInitial
    | DuplicateInitialState | NoInitialState | ActionLifecycle | DuplicateTerminalState
    | SuccessLifecycle | TerminalDiffersFromAction | NotMonotonic
    | ToolAfterTerminal | ToolFieldsIncomplete | ToolLifecycle | ToolStatusInvalid
    | TerminalCount | ToolsOpen | StreamingOpen

  datatype ToolOutcome = ToolOutcome(name: string, status: Status, kind: Kind)

  /** The eleven variables `validate_trace` carries from event to event. */
  datatype State = State(
    eventIds: set<nat>,
    terminal: nat,
    runFinished: bool,
    pendingTools: map<string, string>,
    terminalTools: map<string, ToolOutcome>,
    finishedTools: set<string>,
    streamingAttempts: map<nat, Streaming>,
    actionStates: map<nat, Streaming>,
    requested: set<nat>,
    acted: set<nat>,
    ended: set<nat>)

  const START := State({}, 0, false, map[], map[], {}, map[], map[], {}, {}, {})

  /** `_streaming_metadata`: a preview needs a commit, and a first-preview time is present exactly with a preview. */
  predicate StreamingMetadata(s: Streaming) {
    && (s.firstPreviewMs.Some? ==> s.firstPreviewMs.value >= 0)
    && (s.previewEmitted ==> s.committed)
    && s.firstPreviewMs.Some? == s.previewEmitted
  }

  predicate CarriesStreaming(k: Kind) {
    k.ModelRequested? || k.ActionDecoded? || k.ModelTurn? || k.ModelFailed?
  }

  predicate IsTool(k: Kind) {
    k.ToolStarted? || k.ToolExecuted? || k.ToolInterrupted? || k.ToolFinished?
  }

  predicate Listed(s: Option<Status>) {
    s.Some? && !s.value.Unlisted?
  }

  predicate Regresses(before: Streaming, after: Streaming) {
    || (before.committed && !after.committed)
    || (before.previewEmitted && !after.previewEmitted)
    || (before.firstPreviewMs.Some? && after.firstPreviewMs != before.firstPreviewMs)
  }

  function EnvelopeError(e: Event): Option<TraceError> {
    if e.envelope.Legacy? then Some(LegacyContract)
    else if e.envelope.UnknownFields? then Some(UnknownFieldNames)
    else if e.envelope.OldSchema? then Some(SchemaMigration)
    else if e.envelope.Unsafe? || (e.streaming.Some? && !StreamingMetadata(e.streaming.value)) then Some(UnsafeMetadata)
    else None
  }

  function HeaderError(ids: set<nat>, e: Event, runId: string, taskId: string): Option<TraceError> {
    if EnvelopeError(e).Some? then EnvelopeError(e)
    else if e.id in ids then Some(DuplicateEventId)
    else if runId != "" && e.runId != runId then Some(RunIdMismatch)
    else if taskId != "" && e.taskId != taskId then Some(TaskIdMismatch)
    else None
  }

  function StreamingError(s: State, e: Event): Option<TraceError>
    requires e.streaming.Some?
  {
    var now := e.streaming.value;
    if !CarriesStreaming(e.kind) then Some(StreamingOnInvalidEvent)
    else if e.attempt.None? || e.attempt.value < 1 then Some(StreamingWithoutAttempt)
    else
      var a := e.attempt.value;
      if e.kind.ModelRequested? && now != INITIAL then Some(StreamingNotInitial)
      else if e.kind.ModelRequested? && a in s.requested then Some(DuplicateInitialState)
      else if !e.kind.ModelRequested? && a !in s.requested then Some(NoInitialState)
      else if e.kind.ActionDecoded? && (a in s.acted || a in s.ended) then Some(ActionLifecycle)
      else if (e.kind.ModelTurn? || e.kind.ModelFailed?) && a in s.ended then Some(DuplicateTerminalState)
      else if e.kind.ModelTurn? && (a !in s.acted || !now.committed) then Some(SuccessLifecycle)
      else if (e.kind.ModelTurn? || e.kind.ModelFailed?) && a in s.actionStates && now != s.actionStates[a]
        then Some(TerminalDiffersFromAction)
      else if a in s.streamingAttempts && Regresses(s.streamingAttempts[a], now) then Some(NotMonotonic)
      else None
  }

  function StreamStep(s: State, e: Event): Result<State, TraceError> {
    if e.streaming.None? then Success(s)
    else if StreamingError(s, e).Some? then Failure(StreamingError(s, e).value)
    else
      var a, now := e.attempt.value, e.streaming.value;
      Success(s.(
        streamingAttempts := s.streamingAttempts[a := now],
        actionStates := if e.kind.ActionDecoded? then s.actionStates[a := now] else s.actionStates,
        requested := if e.kind.ModelRequested? then s.requested + {a} else s.requested,
        acted := if e.kind.ActionDecoded? then s.acted + {a} else s.acted,
        ended := if e.kind.ModelTurn? || e.kind.ModelFailed? then s.ended + {a} else s.ended))
  }

  function ToolStep(s: State, e: Event): Result<State, TraceError> {
    var id, name := e.toolUseId, e.toolName;
    if e.kind.RunFinished? then Success(s.(terminal := s.terminal + 1, runFinished := true))
    else if !IsTool(e.kind) then Success(s)
    else if s.runFinished then Failure(ToolAfterTerminal)
    else if id == "" || name == "" then Failure(ToolFieldsIncomplete)
    else if e.kind.ToolStarted? then
      if e.toolStatus.Some? || id in s.pendingTools || id in s.terminalTools then Failure(ToolLifecycle)
      else Success(s.(pendingTools := s.pendingTools[id := name]))
    else if !Listed(e.toolStatus) then Failure(ToolStatusInvalid)
    else if e.kind.ToolFinished? then
      if id !in s.terminalTools || s.terminalTools[id] != ToolOutcome(name, e.toolStatus.value, ToolExecuted)
         || id in s.finishedTools
      then Failure(ToolLifecycle)
      else Success(s.(finishedTools := s.finishedTools + {id}))
    else if id in s.terminalTools || id !in s.pendingTools || s.pendingTools[id] != name
            || (e.kind.ToolInterrupted? && !e.toolStatus.value.Interrupted?)
            || (e.kind.ToolExecuted? && e.toolStatus.value.Interrupted?)
    then Failure(ToolLifecycle)
    else Success(s.(
      pendingTools := s.pendingTools - {id},
      terminalTools := s.terminalTools[id := ToolOutcome(name, e.toolStatus.value, e.kind)]))
  }

  /** What one turn of the loop does to the carried variables. */
  function Step(s: State, e: Event, runId: string, taskId: string): Result<State, TraceError> {
    if HeaderError(s.eventIds, e, runId, taskId).Some? then
      Failure(HeaderError(s.eventIds, e, runId, taskId).value)
    else
      var streamed := StreamStep(s.(eventIds := s.eventIds + {e.id}), e);
      if streamed.Failure? then streamed else ToolStep(streamed.value, e)
  }

  function Scan(t: seq<Event>, runId: string, taskId: string): Result<State, TraceError> {
    if t == [] then Success(START)
    else
      var before := Scan(t[..|t| - 1], runId, taskId);
      if before.Failure? then before else Step(before.value, t[|t| - 1], runId, taskId)
  }

  /** The three checks after the loop. */
  function CloseError(s: State): Option<TraceError> {
    if s.terminal != 1 then Some(TerminalCount)
    else if s.pendingTools != map[] then Some(ToolsOpen)
    else if s.requested != s.ended then Some(StreamingOpen)
    else None
  }

  function Verdict(t: seq<Event>, runId: string, taskId: string): Option<TraceError> {
    if t == [] then Some(EmptyTrace)
    else
      match Scan(t, runId, taskId)
      case Failure(error) => Some(error)
      case Success(s) => CloseError(s)
  }

  predicate Accepts(t: seq<Event>, runId: string, taskId: string) {
    Verdict(t, runId, taskId).None?
  }

  /** A scan that fails on a prefix fails on the whole trace with the same error. */
  lemma {:induction false} ScanSticks(t: seq<Event>, i: nat, runId: string, taskId: string)
    requires i <= |t|
    requires Scan(t[..i], runId, taskId).Failure?
    ensures Scan(t, runId, taskId) == Scan(t[..i], runId, taskId)
    decreases |t|
  {
    if i == |t| {
      assert t[..i] == t;
    } else {
      assert t[..|t| - 1][..i] == t[..i];
      ScanSticks(t[..|t| - 1], i, runId, taskId);
    }
  }

  /** `validate_trace`: the loop over the events, updating its variables in place. */
  method ValidateTrace(events: seq<Event>, runId: string, taskId: string) returns (error: Option<TraceError>)
    ensures error == Verdict(events, runId, taskId)
  {
    if |events| == 0 { return Some(EmptyTrace); }
    var eventIds: set<nat> := {};
    var terminal, runFinished := 0, false;
    var pendingTools: map<string, string> := map[];
    var terminalTools: map<string, ToolOutcome> := map[];
    var finishedTools: set<string> := {};
    var streamingAttempts: map<nat, Streaming> := map[];
    var actionStates: map<nat, Streaming> := map[];
    var requested: set<nat>, acted: set<nat>, ended: set<nat> := {}, {}, {};
    var i := 0;
    while i < |events|
      invariant 0 <= i <= |events|
      invariant Scan(events[..i], runId, taskId)
             == Success(State(eventIds, terminal, runFinished, pendingTools, terminalTools, finishedTools,
                              streamingAttempts, actionStates, requested, acted, ended))
    {
      var event := events[i];
      ghost var before := State(eventIds, terminal, runFinished, pendingTools, terminalTools, finishedTools,
                                streamingAttempts, actionStates, requested, acted, ended);
      assert Scan(events[..i + 1], runId, taskId) == Step(before, event, runId, taskId) by {
        assert events[..i + 1][..i] == events[..i];
      }
      i := i + 1;
      error := HeaderError(eventIds, event, runId, taskId);
      if error.Some? {
        ScanSticks(events, i, runId, taskId);
        return;
      }
      eventIds := eventIds + {event.id};
      ghost var identified := before.(eventIds := eventIds);
      if event.streaming.Some? {
        error := CheckStreaming(event, streamingAttempts, actionStates, requested, acted, ended, identified);
        if error.Some? {
          ScanSticks(events, i, runId, taskId);
          return;
        }
        var attempt, streaming := event.attempt.value, event.streaming.value;
        match event.kind {
          case ModelRequested => requested := requested + {attempt};
          case ActionDecoded =>
            acted := acted + {attempt};
            actionStates := actionStates[attempt := streaming];
          case _ => ended := ended + {attempt};
        }
        streamingAttempts := streamingAttempts[attempt := streaming];
      }
      ghost var streamed := State(eventIds, terminal, runFinished, pendingTools, terminalTools, finishedTools,
                                  streamingAttempts, actionStates, requested, acted, ended);
      assert StreamStep(identified, event) == Success(streamed);
      assert Scan(events[..i], runId, taskId) == ToolStep(streamed, event);
      if event.kind.RunFinished? {
        terminal, runFinished := terminal + 1, true;
        continue;
      }
      if !IsTool(event.kind) {
        continue;
      }
      var id, name, status := event.toolUseId, event.toolName, event.toolStatus;
      if runFinished {
        error := Some(ToolAfterTerminal);
      } else if id == "" || name == "" {
        error := Some(ToolFieldsIncomplete);
      } else if event.kind.ToolStarted? {
        if status.Some? || id in pendingTools || id in terminalTools {
          error := Some(ToolLifecycle);
        } else {
          pendingTools := pendingTools[id := name];
        }
      } else if !Listed(status) {
        error := Some(ToolStatusInvalid);
      } else if event.kind.ToolFinished? {
        if id !in terminalTools || terminalTools[id] != ToolOutcome(name, status.value, ToolExecuted)
           || id in finishedTools {
          error := Some(ToolLifecycle);
        } else {
          finishedTools := finishedTools + {id};
        }
      } else if id in terminalTools || id !in pendingTools || pendingTools[id] != name
                || (event.kind.ToolInterrupted? && status.value != Interrupted)
                || (event.kind.ToolExecuted? && status.value == Interrupted) {
        error := Some(ToolLifecycle);
      } else {
        pendingTools := pendingTools - {id};
        terminalTools := terminalTools[id := ToolOutcome(name, status.value, event.kind)];
      }
      if error.Some? {
        ScanSticks(events, i, runId, taskId);
        return;
      }
    }
    assert events[..i] == events;
    if terminal != 1 {
      return Some(TerminalCount);
    }
    if pendingTools != map[] {
      return Some(ToolsOpen);
    }
    if requested != ended {
      return Some(StreamingOpen);
    }
    return None;
  }

  /** The streaming checks of one event, in the source's order. */
  method CheckStreaming(event: Event, streamingAttempts: map<nat, Streaming>, actionStates: map<nat, Streaming>,
                        requested: set<nat>, acted: set<nat>, ended: set<nat>, ghost s: State)
    returns (error: Option<TraceError>)
    requires event.streaming.Some?
    requires s.streamingAttempts == streamingAttempts && s.actionStates == actionStates
    requires s.requested == requested && s.acted == acted && s.ended == ended
    ensures error == StreamingError(s, event)
    ensures error == Some(NotMonotonic) || error.None? ==> event.attempt.Some?
    ensures error == Some(NotMonotonic) || (error.None? && event.attempt.value in streamingAttempts) ==>
              && event.attempt.value in streamingAttempts
              && var before, now := streamingAttempts[event.attempt.value], event.streaming.value;
                 error.None? <==>
                   && (before.committed ==> now.committed)
                   && (before.previewEmitted ==> now.previewEmitted)
                   && (before.firstPreviewMs.Some? ==> now.firstPreviewMs == before.firstPreviewMs)
  {
    var streaming := event.streaming.value;
    if !CarriesStreaming(event.kind) { return Some(StreamingOnInvalidEvent); }
    if event.attempt.None? || event.attempt.value < 1 { return Some(StreamingWithoutAttempt); }
    var attempt := event.attempt.value;
    if event.kind.ModelRequested? {
      if streaming.committed || streaming.previewEmitted || streaming.firstPreviewMs.Some? {
        return Some(StreamingNotInitial);
      }
      if attempt in requested { return Some(DuplicateInitialState); }
    } else if attempt !in requested {
      return Some(NoInitialState);
    }
    if event.kind.ActionDecoded? && (attempt in acted || attempt in ended) { return Some(ActionLifecycle); }
    if event.kind.ModelTurn? || event.kind.ModelFailed? {
      if attempt in ended { return Some(DuplicateTerminalState); }
      if event.kind.ModelTurn? && (attempt !in acted || !streaming.committed) { return Some(SuccessLifecycle); }
      if attempt in actionStates && streaming != actionStates[attempt] { return Some(TerminalDiffersFromAction); }
    }
    if attempt in streamingAttempts && Regresses(streamingAttempts[attempt], streaming) {
      return Some(NotMonotonic);
    }
    return None;
  }
}
