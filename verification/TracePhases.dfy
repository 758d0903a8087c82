/** Where the acceptor stands between two events of a run that is still going. */
module TracePhases {
  import opened Common
  import opened Trace

  datatype Phase =
    | Rest                                        // no tool open, every streaming attempt ended
    | AskedFor(attempt: nat)                      // a streaming request is out
    | ActionIn(attempt: nat, state: Streaming)    // its action has been decoded
    | ToolOpen(id: string, name: string)          // a tool has started
    | Lost                                        // the acceptor has already rejected

  ghost predicate CleanState(s: State, events: nat, attempts: nat, used: set<string>) {
    && (forall id :: id in s.eventIds ==> id < events)
    && s.terminal == 0 && !s.runFinished
    && (forall a :: a in s.requested ==> a <= attempts)
    && used == s.pendingTools.Keys + s.terminalTools.Keys
    && s.finishedTools <= s.terminalTools.Keys
    && s.acted == s.actionStates.Keys
    && s.acted <= s.requested && s.ended <= s.requested
    && s.requested == s.streamingAttempts.Keys
  }

  ghost predicate StandsAt(s: State, p: Phase) {
    match p
    case Rest => s.pendingTools == map[] && s.requested == s.ended
    case AskedFor(a) =>
      && s.pendingTools == map[] && a !in s.ended && s.requested == s.ended + {a}
      && a !in s.acted && a in s.streamingAttempts && s.streamingAttempts[a] == INITIAL
    case ActionIn(a, state) =>
      && s.pendingTools == map[] && a !in s.ended && s.requested == s.ended + {a}
      && a in s.acted && a in s.actionStates && s.actionStates[a] == state
      && a in s.streamingAttempts && s.streamingAttempts[a] == state
    case ToolOpen(id, name) =>
      s.pendingTools == map[id := name] && id !in s.terminalTools && s.requested == s.ended
    case Lost => false
  }

  /** `attempts` is the attempt counter so far, `used` the tool ids seen so far. */
  ghost predicate InPhase(t: seq<Event>, p: Phase, attempts: nat, used: set<string>, runId: string, taskId: string) {
    match Scan(t, runId, taskId)
    case Failure(_) => p.Lost?
    case Success(s) => CleanState(s, |t|, attempts, used) && StandsAt(s, p)
  }

  /** An event that neither carries streaming state nor concerns a tool nor ends the run. */
  predicate Neutral(e: Event) {
    e.streaming.None? && !IsTool(e.kind) && !e.kind.RunFinished?
  }

  predicate Emitted(e: Event, t: seq<Event>, runId: string, taskId: string) {
    e.envelope.Current? && e.id == |t| && e.runId == runId && e.taskId == taskId
    && (e.streaming.Some? ==> StreamingMetadata(e.streaming.value))
  }

  lemma ScanAppend(t: seq<Event>, e: Event, runId: string, taskId: string)
    ensures Scan(t + [e], runId, taskId) ==
            var before := Scan(t, runId, taskId);
            if before.Failure? then before else Step(before.value, e, runId, taskId)
  {
    assert (t + [e])[..|t|] == t;
  }

  /** A run starts at rest. */
  lemma EmptyRests(runId: string, taskId: string)
    ensures InPhase([], Rest, 0, {}, runId, taskId)
  {
  }

  lemma MoreAttempts(t: seq<Event>, p: Phase, attempts: nat, more: nat, used: set<string>, runId: string, taskId: string)
    requires InPhase(t, p, attempts, used, runId, taskId) && attempts <= more
    ensures InPhase(t, p, more, used, runId, taskId)
  {
  }

  lemma NeutralKeeps(t: seq<Event>, e: Event, p: Phase, attempts: nat, used: set<string>, runId: string, taskId: string)
    requires InPhase(t, p, attempts, used, runId, taskId)
    requires Emitted(e, t, runId, taskId) && Neutral(e)
    ensures InPhase(t + [e], p, attempts, used, runId, taskId)
  {
    ScanAppend(t, e, runId, taskId);
  }

  /** A streaming request opens an attempt that no earlier event used. */
  lemma RequestOpens(t: seq<Event>, e: Event, p: Phase, attempts: nat, used: set<string>, runId: string, taskId: string)
    requires InPhase(t, p, attempts, used, runId, taskId) && (p.Rest? || p.Lost?)
    requires Emitted(e, t, runId, taskId)
    requires e.kind.ModelRequested? && e.streaming == Some(INITIAL) && e.attempt == Some(attempts + 1)
    ensures InPhase(t + [e], if p.Lost? then Lost else AskedFor(attempts + 1), attempts + 1, used, runId, taskId)
  {
    ScanAppend(t, e, runId, taskId);
  }

  lemma ActionEnters(t: seq<Event>, e: Event, p: Phase, attempts: nat, used: set<string>, runId: string, taskId: string)
    requires InPhase(t, p, attempts, used, runId, taskId) && (p == AskedFor(attempts) || p.Lost?)
    requires Emitted(e, t, runId, taskId) && attempts >= 1
    requires e.kind.ActionDecoded? && e.streaming.Some? && e.attempt == Some(attempts)
    ensures InPhase(t + [e], if p.Lost? then Lost else ActionIn(attempts, e.streaming.value), attempts, used, runId, taskId)
  {
    ScanAppend(t, e, runId, taskId);
  }

  /** A turn is accepted exactly when the stream had committed. */
  lemma TurnEnds(t: seq<Event>, e: Event, p: Phase, attempts: nat, used: set<string>, runId: string, taskId: string)
    requires InPhase(t, p, attempts, used, runId, taskId)
    requires Emitted(e, t, runId, taskId) && attempts >= 1
    requires e.kind.ModelTurn? && e.streaming.Some? && e.attempt == Some(attempts)
    requires p == ActionIn(attempts, e.streaming.value) || p.Lost?
    ensures InPhase(t + [e], if p.ActionIn? && p.state.committed then Rest else Lost, attempts, used, runId, taskId)
  {
    ScanAppend(t, e, runId, taskId);
  }

  lemma FailureEnds(t: seq<Event>, e: Event, p: Phase, attempts: nat, used: set<string>, runId: string, taskId: string)
    requires InPhase(t, p, attempts, used, runId, taskId)
    requires Emitted(e, t, runId, taskId) && attempts >= 1
    requires e.kind.ModelFailed? && e.streaming.Some? && e.attempt == Some(attempts)
    requires p == AskedFor(attempts) || p.Lost?
    ensures InPhase(t + [e], if p.Lost? then Lost else Rest, attempts, used, runId, taskId)
  {
    ScanAppend(t, e, runId, taskId);
  }

  /** A started tool is accepted exactly when its id is present and new. */
  lemma ToolStarts(t: seq<Event>, e: Event, p: Phase, attempts: nat, used: set<string>, runId: string, taskId: string)
    requires InPhase(t, p, attempts, used, runId, taskId) && (p.Rest? || p.Lost?)
    requires Emitted(e, t, runId, taskId) && e.streaming.None?
    requires e.kind.ToolStarted? && e.toolStatus.None? && e.toolName != ""
    ensures var unseen := e.toolUseId != "" && e.toolUseId !in used;
            InPhase(t + [e], if p.Rest? && unseen then ToolOpen(e.toolUseId, e.toolName) else Lost, attempts,
                    used + {e.toolUseId}, runId, taskId)
  {
    ScanAppend(t, e, runId, taskId);
  }

  /** An open tool is closed by an execution that was not interrupted, or by an interruption that was. */
  lemma ToolCloses(t: seq<Event>, e: Event, p: Phase, attempts: nat, used: set<string>, runId: string, taskId: string)
    requires InPhase(t, p, attempts, used, runId, taskId)
    requires Emitted(e, t, runId, taskId) && e.streaming.None?
    requires e.kind.ToolExecuted? || e.kind.ToolInterrupted?
    requires Listed(e.toolStatus) && e.toolName != ""
    requires (p == ToolOpen(e.toolUseId, e.toolName) && e.toolUseId != "") || p.Lost?
    ensures var proper := e.kind.ToolInterrupted? == e.toolStatus.value.Interrupted?;
            InPhase(t + [e], if p.ToolOpen? && proper then Rest else Lost, attempts, used, runId, taskId)
    ensures Scan(t + [e], runId, taskId).Success? ==>
            var s := Scan(t + [e], runId, taskId).value;
            && e.toolUseId in s.terminalTools && e.toolUseId !in s.finishedTools
            && s.terminalTools[e.toolUseId] == ToolOutcome(e.toolName, e.toolStatus.value, e.kind)
  {
    ScanAppend(t, e, runId, taskId);
  }

  lemma ToolFinishes(t: seq<Event>, executed: Event, e: Event, p: Phase, attempts: nat, used: set<string>,
                     runId: string, taskId: string)
    requires InPhase(t, p, attempts, used, runId, taskId)
    requires (p == ToolOpen(e.toolUseId, e.toolName) && e.toolUseId != "") || p.Lost?
    requires Emitted(executed, t, runId, taskId) && executed.streaming.None? && executed.kind.ToolExecuted?
    requires Emitted(e, t + [executed], runId, taskId) && e.streaming.None? && e.kind.ToolFinished?
    requires Listed(executed.toolStatus) && executed.toolName != ""
    requires e.toolUseId == executed.toolUseId && e.toolName == executed.toolName && e.toolStatus == executed.toolStatus
    ensures InPhase(t + [executed] + [e], if p.ToolOpen? && e.toolStatus != Some(Interrupted) then Rest else Lost,
                    attempts, used, runId, taskId)
  {
    ToolCloses(t, executed, p, attempts, used, runId, taskId);
    ScanAppend(t + [executed], e, runId, taskId);
  }

  /** Ending the run yields an accepted trace exactly from Rest. */
  lemma RunEnds(t: seq<Event>, e: Event, p: Phase, attempts: nat, used: set<string>, runId: string, taskId: string)
    requires InPhase(t, p, attempts, used, runId, taskId)
    requires Emitted(e, t, runId, taskId) && e.kind.RunFinished? && e.streaming.None?
    ensures Accepts(t + [e], runId, taskId) <==> p.Rest?
  {
    ScanAppend(t, e, runId, taskId);
  }

  /** A neutral event behind the end changes nothing. */
  lemma RunNoted(t: seq<Event>, e: Event, note: Event, p: Phase, attempts: nat, used: set<string>, runId: string, taskId: string)
    requires InPhase(t, p, attempts, used, runId, taskId)
    requires Emitted(e, t, runId, taskId) && e.kind.RunFinished? && e.streaming.None?
    requires Emitted(note, t + [e], runId, taskId) && Neutral(note)
    ensures Accepts(t + [e] + [note], runId, taskId) <==> p.Rest?
  {
    ScanAppend(t, e, runId, taskId);
    ScanAppend(t + [e], note, runId, taskId);
  }
}
