/** The bounded agent run of pony/agent/loop.py. Providers, tools, files and foreign Session
    writers are nondeterministic (`*`), so a method's `ensures` speaks of every run. */
module RunLoop {
  import opened Common
  import opened Trace
  import opened TracePhases
  import opened RunSummary
  import opened Session
  import SessionTranscript
  import Transcript

  /** What an attempt is made for; the last two are auxiliary summary calls. */
  datatype Origin = Initial | ToolFollowup | RetryOfAction | RetryOfModel | CompactionCall | SplitCompactionCall

  datatype Stop =
    | Running | FinalAnswer | StepLimit | RetryLimit | InterruptedStop | ModelErrorStop | PersistenceError | RuntimeError

  datatype TaskState = TaskState(attempts: nat, toolSteps: nat, stop: Stop)

  datatype ModelExecution = ModelExecution(
    attempts: nat, turns: nat, failures: nat, retries: nat,
    origins: multiset<Origin>)   // `attempt_origin_counts`

  /** The exceptions that leave a step: KeyboardInterrupt, SessionCommitError, the guard checks' SessionFormatError, any other. */
  datatype Raised = Interrupt | CommitError | GuardLost | OtherException

  /** What providers, tools and compaction raise. */
  type Outside = r: Raised | r.Interrupt? || r.OtherException? witness OtherException

  /** A look at the Session that may find another client's binding, or fail. */
  datatype Capture = Captured(guard: Guard) | BindingDiffers | Unreadable

  /** A look that compares with the guard. */
  datatype Look = Intact | Differs | Unread

  datatype Action = ToolAction(name: string, id: string, blocked: bool) | FinalAction | RetryAction

  datatype Code = InvalidArguments | WorkspaceEntryUnsafe | OtherCode

  datatype ToolMetadata = ToolMetadata(status: Status, code: Code, sessionState: bool, effectUnknown: bool)

  datatype ToolReturn = ToolReturned(metadata: ToolMetadata) | ToolRaised(status: Option<Status>, raised: Outside)

  datatype Reply =
    | Responded(action: Action)
    | ModelError(retryable: bool, contextLength: bool)
    | ReplyRaised(raised: Outside)

  datatype Summary = Summarised | SummaryFailed | SummaryRaised(raised: Outside)

  datatype Compacted = CompactedTo(leaf: nat) | NoProgress | CompactionFailed | CompactionRaised(raised: Outside)

  /** How `_run_agent_attempts` ends: with a stop reason, with a model error, or by an exception. */
  datatype Exit = Ended | FailedModel | Threw(raised: Raised)

  /** Why the loop goes round again. */
  datatype Cause = AfterTool | Malformed | TransportRetry | ContextRecovered

  /** One completed attempt that another one follows. */
  datatype Turn = Turn(committed: bool, responded: bool, cause: Cause)

  /** The events that cost a run its accepted trace. */
  datatype Fault =
    | GuardUnconfirmed        // a streaming request is out when the Session has changed or cannot be read
    | TurnNeverCommitted      // a streaming response without a commit
    | UnusableToolId          // a tool id the trace cannot show, or one used before
    | InterruptedResult       // a tool returning status interrupted, or raising with another status
    | ToolLeftOpen            // a tool started but neither executed nor interrupted in the trace

  /** Every model call recorded is a turn, a failure, a completed auxiliary call, or still out. */
  ghost predicate Accounted(task: TaskState, exec: ModelExecution, auxiliary: nat, inFlight: nat) {
    && task.attempts == exec.attempts == |exec.origins|
    && exec.attempts == exec.turns + exec.failures + auxiliary + inFlight
    && inFlight <= 1
  }

  function CauseCount(h: seq<Turn>, c: Cause): nat {
    if h == [] then 0 else CauseCount(h[..|h| - 1], c) + if h[|h| - 1].cause == c then 1 else 0
  }

  /** Transport retries since the last successful response. */
  function RetriesInARow(h: seq<Turn>): nat {
    if h == [] then 0
    else if h[|h| - 1].responded then 0
    else RetriesInARow(h[..|h| - 1]) + if h[|h| - 1].cause.TransportRetry? then 1 else 0
  }

  /** The retry rules over a whole run. */
  ghost predicate Disciplined(h: seq<Turn>) {
    && (forall i :: 0 <= i < |h| && h[i].committed ==> h[i].cause.AfterTool?)
    && (forall i :: 0 <= i < |h| ==> (h[i].responded <==> h[i].cause.AfterTool? || h[i].cause.Malformed?))
    && (forall i :: 0 <= i <= |h| ==> RetriesInARow(h[..i]) <= 2)
    && CauseCount(h, Malformed) <= 1
    && CauseCount(h, ContextRecovered) <= 1
  }

  lemma DisciplineGrows(h: seq<Turn>, turn: Turn)
    requires Disciplined(h)
    requires turn.committed ==> turn.cause.AfterTool?
    requires turn.responded <==> turn.cause.AfterTool? || turn.cause.Malformed?
    requires turn.cause.TransportRetry? ==> RetriesInARow(h) < 2
    requires turn.cause.Malformed? ==> CauseCount(h, Malformed) == 0
    requires turn.cause.ContextRecovered? ==> CauseCount(h, ContextRecovered) == 0
    ensures Disciplined(h + [turn])
    ensures RetriesInARow(h + [turn]) == if turn.responded then 0 else RetriesInARow(h) + if turn.cause.TransportRetry? then 1 else 0
    ensures forall c :: CauseCount(h + [turn], c) == CauseCount(h, c) + if turn.cause == c then 1 else 0
  {
    var g := h + [turn];
    assert g[..|h|] == h && h[..|h|] == h;
    assert RetriesInARow(h[..|h|]) <= 2;
    forall i | 0 <= i <= |g| ensures RetriesInARow(g[..i]) <= 2 {
      if i <= |h| { assert g[..i] == h[..i]; } else { assert g[..i] == g; }
    }
  }

  /** Without a response in between, transport retries add up. */
  lemma {:induction false} RowGrows(h: seq<Turn>, a: nat, b: nat)
    requires a <= b <= |h|
    requires forall m :: a <= m < b ==> !h[m].responded
    ensures RetriesInARow(h[..b]) >= RetriesInARow(h[..a])
    decreases b - a
  {
    if a < b {
      RowGrows(h, a, b - 1);
      assert h[..b][..b - 1] == h[..b - 1];
    }
  }

  lemma {:induction false} CountGrows(h: seq<Turn>, a: nat, b: nat, c: Cause)
    requires a <= b <= |h|
    ensures CauseCount(h[..b], c) >= CauseCount(h[..a], c)
    ensures a < b && h[a].cause == c ==> CauseCount(h[..b], c) >= CauseCount(h[..a], c) + 1
    decreases b - a
  {
    if a < b {
      CountGrows(h, a, b - 1, c);
      assert h[..b][..b - 1] == h[..b - 1];
    }
  }

  /** Of three transport retries the first and the last have a response in between. */
  lemma ThreeRetries(h: seq<Turn>, i: nat, j: nat, k: nat) returns (m: nat)
    requires Disciplined(h)
    requires i < j < k < |h| && h[i].cause == h[j].cause == h[k].cause == TransportRetry
    ensures i < m < k && h[m].cause in {AfterTool, Malformed}
  {
    if exists n :: i < n < k && h[n].responded {
      m :| i < m < k && h[m].responded;
    } else {
      assert h[..i + 1][..i] == h[..i] && h[..j + 1][..j] == h[..j] && h[..k + 1][..k] == h[..k];
      RowGrows(h, i + 1, j);
      RowGrows(h, j + 1, k);
      assert false;
    }
  }

  lemma TwiceCounted(h: seq<Turn>, i: nat, j: nat)
    requires i < j < |h| && h[i].cause == h[j].cause
    ensures CauseCount(h, h[i].cause) >= 2
  {
    CountGrows(h, i, j, h[i].cause);
    CountGrows(h, j, |h|, h[i].cause);
    assert h[..|h|] == h;
  }

  /** The retry rules in plain words: besides, at most one malformed response and one context recovery are answered
      by another attempt. */
  lemma RulesInFull(h: seq<Turn>)
    requires Disciplined(h)
    ensures forall i :: 0 <= i < |h| && h[i].committed ==> h[i].cause == AfterTool
    ensures forall i, j :: 0 <= i < j < |h| && h[i].cause in {Malformed, ContextRecovered} ==> h[j].cause != h[i].cause
    ensures forall i, j, k :: 0 <= i < j < k < |h| && h[i].cause == h[j].cause == h[k].cause == TransportRetry ==>
              exists m :: i < m < k && h[m].cause in {AfterTool, Malformed}
  {
    hide CauseCount, RetriesInARow;
    forall i, j | 0 <= i < j < |h| && h[i].cause in {Malformed, ContextRecovered} ensures h[j].cause != h[i].cause {
      if h[j].cause == h[i].cause { TwiceCounted(h, i, j); }
    }
    hide Disciplined;
    forall i, j, k | 0 <= i < j < k < |h| && h[i].cause == h[j].cause == h[k].cause == TransportRetry
      ensures exists m :: i < m < k && h[m].cause in {AfterTool, Malformed}
    {
      var m := ThreeRetries(h, i, j, k);
    }
  }

  function OriginAfter(c: Cause): Origin {
    match c
    case AfterTool => ToolFollowup
    case Malformed => RetryOfAction
    case _ => RetryOfModel
  }

  predicate Correctable(m: ToolMetadata) {
    m.status.Rejected? && (m.code.InvalidArguments? || m.code.WorkspaceEntryUnsafe?)
  }

  /** Correctable rejections in order: all different, but the last may repeat one if the run stopped there. */
  ghost predicate Corrected(rejections: seq<(string, Code)>, stopped: bool) {
    if stopped
    then |rejections| > 0 && Distinct(rejections[..|rejections| - 1])
         && rejections[|rejections| - 1] in rejections[..|rejections| - 1]
    else Distinct(rejections)
  }

  lemma RejectionAdded(rejections: seq<(string, Code)>, key: (string, Code))
    requires Corrected(rejections, false)
    ensures Corrected(rejections + [key], key in rejections)
    ensures forall c :: c in rejections + [key] <==> c in rejections || c == key
  {
    assert (rejections + [key])[..|rejections|] == rejections;
  }

  function MaxAttempts(maxSteps: nat): (r: nat)
    ensures r >= maxSteps * 3 && r >= maxSteps + 4
    ensures r == maxSteps * 3 || r == maxSteps + 4
  {
    if maxSteps * 3 >= maxSteps + 4 then maxSteps * 3 else maxSteps + 4
  }

  /** What the run knows about its guard: the leaf lies in the log, and the attempt reached it from its captured
      leaf by its own entries, unless it ran a Session tool. */
  ghost predicate GuardFine(log: seq<Entry>, g: Option<Guard>, captures: seq<nat>, tools: set<nat>) {
    g.Some? ==>
      && g.value.leaf <= |log|
      && (|captures| > 0 ==> captures[|captures| - 1] <= g.value.leaf)
      && (|captures| > 0 && |captures| !in tools ==> OwnSpan(log, captures[|captures| - 1], g.value.leaf, |captures|))
  }

  ghost predicate SessionFine(log: seq<Entry>, g: Option<Guard>, blocked: bool, start: nat, frozenAt: nat,
                              captures: seq<nat>, tools: set<nat>) {
    && start <= |log|
    && GuardFine(log, g, captures, tools)
    && Isolated(log, start, captures, tools)
    && (blocked ==> frozenAt <= |log| && NoRunAfter(log, frozenAt))
  }

  /** Entries by others change nothing the run relies on. */
  lemma FineGrows(log: seq<Entry>, log': seq<Entry>, g: Option<Guard>, blocked: bool, start: nat, frozenAt: nat,
                  captures: seq<nat>, tools: set<nat>)
    requires SessionFine(log, g, blocked, start, frozenAt, captures, tools)
    requires log <= log' && NoRunAfter(log', |log|)
    ensures SessionFine(log', g, blocked, start, frozenAt, captures, tools)
  {
    IsolatedGrows(log, log', start, captures, captures, tools, tools);
    if blocked { NoRunGrows(log, log', frozenAt); }
  }

  lemma GuardInLog(log: seq<Entry>, g: Option<Guard>, blocked: bool, start: nat, frozenAt: nat,
                   captures: seq<nat>, tools: set<nat>)
    requires SessionFine(log, g, blocked, start, frozenAt, captures, tools)
    ensures g.Some? ==> g.value.leaf <= |log|
  {
  }

  lemma FrozenInLog(log: seq<Entry>, g: Option<Guard>, blocked: bool, start: nat, frozenAt: nat,
                    captures: seq<nat>, tools: set<nat>)
    requires SessionFine(log, g, blocked, start, frozenAt, captures, tools)
    ensures blocked ==> frozenAt <= |log|
  {
  }

  /** A fresh attempt has captured the end of the log and done nothing yet. */
  lemma AttemptOpens(log: seq<Entry>, g: Option<Guard>, blocked: bool, start: nat, frozenAt: nat,
                     captures: seq<nat>, tools: set<nat>)
    requires SessionFine(log, g, blocked, start, frozenAt, captures, tools)
    ensures forall binding :: SessionFine(log, Some(Guard(|log|, binding)), blocked, start, frozenAt, captures + [|log|], tools)
  {
    IsolatedGrows(log, log, start, captures, captures + [|log|], tools, tools);
  }

  /** A guarded append is the attempt's own and moves the guard past it. */
  lemma FineCommits(log: seq<Entry>, bodies: seq<Body>, g: Guard, start: nat, frozenAt: nat,
                    captures: seq<nat>, tools: set<nat>)
    requires SessionFine(log, Some(g), false, start, frozenAt, captures, tools) && g.leaf == |log|
    ensures var log' := log + Entries(Run(|captures|), bodies);
            SessionFine(log', Some(g.(leaf := |log'|)), false, start, frozenAt, captures, tools)
  {
    IsolatedAppend(log, bodies, start, captures, tools);
  }

  /** Outside the guard the run only appends what is not an answer of an attempt. */
  lemma FineUnguarded(log: seq<Entry>, log': seq<Entry>, bodies: seq<Body>, g: Option<Guard>, start: nat, frozenAt: nat,
                      captures: seq<nat>, tools: set<nat>)
    requires SessionFine(log, g, false, start, frozenAt, captures, tools)
    requires log <= log' && |log| <= |log'| - |bodies|
    requires ForeignOnly(log'[..|log'| - |bodies|], |log|)
    requires log'[|log'| - |bodies|..] == Entries(Run(|captures|), bodies)
    requires captures == [] || forall b :: b in bodies ==> !IsAnswer(b)
    ensures SessionFine(log', g, false, start, frozenAt, captures, tools)
  {
    var middle := log'[..|log'| - |bodies|];
    forall i | |middle| <= i < |log'| ensures log'[i] == Entry(Run(|captures|), bodies[i - |middle|]) {
      assert log'[i] == log'[|middle|..][i - |middle|];
    }
    forall i | start <= i < |log'| && log'[i].author.Run? && log'[i].author.attempt >= 1 && IsAnswer(log'[i].body)
      ensures IsolatedAt(log', i, captures, tools)
    {
      if i < |log| {
        assert log'[i] == log[i];
        assert IsolatedAt(log, i, captures, tools);
      }
    }
  }

  /** All that the run has in a stretch of appends are the bodies it appended. */
  lemma AppendedOnly(log: seq<Entry>, log': seq<Entry>, bodies: seq<Body>, attempt: nat)
    requires log <= log' && |log| <= |log'| - |bodies|
    requires ForeignOnly(log'[..|log'| - |bodies|], |log|)
    requires log'[|log'| - |bodies|..] == Entries(Run(attempt), bodies)
    ensures forall i :: |log| <= i < |log'| && log'[i].author.Run? ==> log'[i].body in bodies
  {
    var middle := log'[..|log'| - |bodies|];
    forall i | |log| <= i < |log'| && log'[i].author.Run? ensures log'[i].body in bodies {
      if i >= |middle| {
        assert log'[i] == log'[|middle|..][i - |middle|];
      }
    }
  }

  lemma ForeignIsNoRun(log: seq<Entry>, from: nat)
    requires ForeignOnly(log, from)
    ensures NoRunAfter(log, from)
    ensures forall i :: from <= i < |log| ==> !log[i].author.Run?
  {
  }

  lemma UnguardedDone(log: seq<Entry>, log': seq<Entry>, bodies: seq<Body>, all: seq<Body>, g: Option<Guard>,
                      start: nat, frozenAt: nat, captures: seq<nat>, tools: set<nat>)
    requires SessionFine(log, g, false, start, frozenAt, captures, tools)
    requires all == bodies || all == bodies + [SessionInfo]
    requires log <= log' && |log| <= |log'| - |all|
    requires ForeignOnly(log'[..|log'| - |all|], |log|)
    requires log'[|log'| - |all|..] == Entries(Run(|captures|), all)
    requires captures == [] || forall b :: b in bodies ==> !IsAnswer(b)
    ensures SessionFine(log', g, false, start, frozenAt, captures, tools)
    ensures forall i :: |log| <= i < |log'| && log'[i].author.Run? ==> log'[i].body in bodies || log'[i].body == SessionInfo
  {
    hide SessionFine, ForeignOnly;
    assert forall b :: b in all ==> b in bodies || b == SessionInfo;
    FineUnguarded(log, log', all, g, start, frozenAt, captures, tools);
    AppendedOnly(log, log', all, |captures|);
  }

  /** The attempt committed the tool's messages at or after this point of the log. */
  ghost predicate ExchangeAfter(log: seq<Entry>, from: nat, attempt: nat, id: string) {
    exists i :: from <= i < |log| && log[i] == Entry(Run(attempt), ToolExchange(id))
  }

  class AgentRun {
    const runId: string
    const taskId: string
    const tools: set<string>
    const maxSteps: nat
    const streamEnabled: bool
    const compactionEnabled: bool
    const clientBinding: int
    const store: SessionStore
    ghost const opening: seq<Entry>   // the Session when the run was set up

    var trace: seq<Event>
    var task: TaskState
    var exec: ModelExecution
    var report: ToolReport
    var guard: Option<Guard>
    var blocked: bool

    ghost var phase: Phase
    ghost var used: set<string>
    ghost var faults: set<Fault>
    ghost var auxiliary: nat
    ghost var inFlight: nat
    ghost var start: nat
    ghost var frozenAt: nat
    ghost var detectedAt: Option<nat>   // the length of the log when the guard first found the Session changed
    var origin: Origin
    var modelRetries: nat
    var retryActions: nat
    var recoveries: nat
    var corrections: set<(string, Code)>
    var captures: seq<nat>   // the leaf captured at the start of each attempt so far
    ghost var toolAttempts: set<nat>
    ghost var turns: seq<Turn>
    ghost var rejections: seq<(string, Code)>
    ghost var corrected: bool

    constructor (runId: string, taskId: string, tools: set<string>, maxSteps: nat, streamEnabled: bool,
                 compactionEnabled: bool, clientBinding: int, store: SessionStore, blocked: bool)
      ensures this.store == store && this.blocked == blocked
      ensures this.runId == runId && this.taskId == taskId && this.tools == tools && this.maxSteps == maxSteps
      ensures this.streamEnabled == streamEnabled && this.compactionEnabled == compactionEnabled
      ensures this.clientBinding == clientBinding && Untouched()
    {
      this.runId, this.taskId, this.tools, this.maxSteps := runId, taskId, tools, maxSteps;
      this.streamEnabled, this.compactionEnabled := streamEnabled, compactionEnabled;
      this.clientBinding, this.store, this.blocked := clientBinding, store, blocked;
      opening := store.log;
      trace, task, exec, report := [], TaskState(0, 0, Running), ModelExecution(0, 0, 0, 0, multiset{}), EMPTY_REPORT;
      guard, detectedAt := None, None;
      phase, used, faults, auxiliary, inFlight := Rest, {}, {}, 0, 0;
      start, frozenAt, captures, toolAttempts, turns, rejections := |store.log|, |store.log|, [], {}, [], [];
      corrected, origin, modelRetries, retryActions, recoveries, corrections := false, Initial, 0, 0, 0, {};
    }

    // ----- the trace

    ghost predicate Clean()
      reads this`faults, this`trace, this`report
    {
      faults == {} && SummaryMatches(trace, report)
    }

    /** The acceptor stands where `phase` says; at rest nothing has gone wrong and the report agrees with the trace. */
    ghost predicate TraceOk()
      reads this`faults, this`trace, this`report, this`phase, this`task, this`used
    {
      && InPhase(trace, phase, task.attempts, used, runId, taskId)
      && (phase.Lost? ==> faults != {})
      && (phase.Rest? ==> Clean())
      && TotalsAgree(report)
    }

    ghost predicate Settled()
      reads this`faults, this`trace, this`report, this`phase, this`task, this`used
    {
      TraceOk() && (phase.Rest? || phase.Lost?) && (phase.Rest? <==> faults == {})
    }

    ghost predicate Counted()
      reads this`task, this`exec, this`auxiliary, this`inFlight
    {
      Accounted(task, exec, auxiliary, inFlight)
    }

    function NewEvent(kind: Kind, streaming: Option<Streaming>, id: string, name: string, status: Option<Status>): Event
      reads this
    {
      Event(Current, |trace|, runId, taskId, kind,
            if (CarriesStreaming(kind) || kind.ToolExecuted?) && task.attempts > 0 then Some(task.attempts) else None,
            streaming, id, name, status)
    }

    /** `emit_trace` for an event the acceptor ignores. */
    method EmitNeutral(kind: Kind)
      requires TraceOk() && !IsTool(kind) && !kind.RunFinished?
      modifies this`trace
      ensures TraceOk() && |trace| == |old(trace)| + 1
      ensures old(Clean()) ==> Clean()
    {
      hide InPhase, TotalsAgree, SummaryMatches;
      ghost var before := trace;
      var event := NewEvent(kind, None, "", "", None);
      trace := trace + [event];
      NeutralKeeps(before, event, phase, task.attempts, used, runId, taskId);
      if SummaryMatches(before, report) {
        SummaryExtends(before, event, report);
      }
    }

    /** `emit_trace` of a model event with streaming metadata: the phase follows the acceptor. */
    method EmitStreaming(kind: Kind, streaming: Streaming)
      requires kind.ActionDecoded? || kind.ModelTurn? || kind.ModelFailed?
      requires StreamingMetadata(streaming) && task.attempts >= 1 && TraceOk()
      requires phase.Lost? || (Clean() && phase == if kind.ModelTurn? then ActionIn(task.attempts, streaming) else AskedFor(task.attempts))
      modifies this`trace, this`phase, this`faults
      ensures TraceOk() && |trace| == |old(trace)| + 1
      ensures phase == if old(phase).Lost? then Lost
                       else if kind.ActionDecoded? then ActionIn(task.attempts, streaming)
                       else if kind.ModelTurn? && !streaming.committed then Lost
                       else Rest
      ensures faults == if kind.ModelTurn? && !streaming.committed then old(faults) + {TurnNeverCommitted} else old(faults)
      ensures !phase.Lost? ==> Clean()
    {
      hide InPhase, TotalsAgree, SummaryMatches;
      ghost var before, p := trace, phase;
      var event := NewEvent(kind, Some(streaming), "", "", None);
      trace := trace + [event];
      if SummaryMatches(before, report) {
        SummaryExtends(before, event, report);
      }
      if kind.ActionDecoded? {
        ActionEnters(before, event, p, task.attempts, used, runId, taskId);
        phase := if p.Lost? then Lost else ActionIn(task.attempts, streaming);
      } else if kind.ModelTurn? {
        TurnEnds(before, event, p, task.attempts, used, runId, taskId);
        phase := if p.ActionIn? && p.state.committed then Rest else Lost;
        if !streaming.committed {
          faults := faults + {TurnNeverCommitted};
        }
      } else {
        FailureEnds(before, event, p, task.attempts, used, runId, taskId);
        phase := if p.Lost? then Lost else Rest;
      }
    }

    /** `record_attempt` with the counters of `model_execution`, for a call that is about to go out. */
    method RecordAttempt(origin: Origin, retry: bool)
      requires Counted() && inFlight == 0 && TraceOk()
      modifies this`task, this`exec, this`inFlight
      ensures Counted() && inFlight == 1 && TraceOk()
      ensures task == old(task).(attempts := old(task).attempts + 1)
      ensures exec == old(exec).(attempts := old(exec).attempts + 1, origins := old(exec).origins + multiset{origin},
                                 retries := old(exec).retries + if retry then 1 else 0)
      ensures InPhase(trace, phase, task.attempts - 1, used, runId, taskId)
    {
      hide TotalsAgree, SummaryMatches;
      task := task.(attempts := task.attempts + 1);
      exec := exec.(attempts := exec.attempts + 1,
                    retries := if retry then exec.retries + 1 else exec.retries,
                    origins := exec.origins + multiset{origin});
      inFlight := 1;
      MoreAttempts(trace, phase, task.attempts - 1, task.attempts, used, runId, taskId);
    }

    /** `_record_model_failure`, and its trace event. */
    method RecordFailure(streaming: Option<Streaming>)
      requires Counted() && inFlight == 1 && TraceOk() && task.attempts >= 1
      requires streaming.Some? ==>
                 && StreamingMetadata(streaming.value)
                 && (phase.Lost? || (Clean() && phase == AskedFor(task.attempts)))
      modifies this`exec, this`inFlight, this`trace, this`phase, this`faults
      ensures Counted() && inFlight == 0 && TraceOk()
      ensures exec == old(exec).(failures := old(exec).failures + 1)
      ensures faults == old(faults)
      ensures phase == if streaming.Some? && !old(phase).Lost? then Rest else old(phase)
    {
      hide TotalsAgree, SummaryMatches, InPhase;
      exec := exec.(failures := exec.failures + 1);
      inFlight := 0;
      if streaming.Some? {
        EmitStreaming(ModelFailed, streaming.value);
      } else {
        EmitNeutral(ModelFailed);
      }
    }

    // ----- the Session

    ghost predicate SessionOk()
      reads this`guard, this`blocked, this`start, this`frozenAt, this`detectedAt, this`captures, this`toolAttempts, store
    {
      && SessionFine(store.log, guard, blocked, start, frozenAt, captures, toolAttempts)
      && (detectedAt.Some? ==> blocked && frozenAt <= detectedAt.value <= |store.log|)
      && opening <= store.log
    }

    /** Foreign writers and Session tools append; the run's Session facts stay. */
    method ForeignSteps()
      requires SessionOk()
      modifies store
      ensures SessionOk() && |store.log| >= |old(store.log)|
    {
      ghost var before := store.log;
      store.ForeignSteps();
      FineGrows(before, store.log, guard, blocked, start, frozenAt, captures, toolAttempts);
    }

    /** From now on nothing of this run may reach the Session. */
    method Block()
      requires SessionOk()
      modifies this`blocked, this`frozenAt
      ensures SessionOk() && blocked
      ensures frozenAt == if old(blocked) then old(frozenAt) else |store.log|
    {
      if !blocked {
        frozenAt := |store.log|;
      }
      blocked := true;
    }

    /** The guard has found the Session changed. */
    method Detect()
      requires SessionOk()
      modifies this`blocked, this`frozenAt, this`detectedAt
      ensures SessionOk() && blocked
      ensures frozenAt == if old(blocked) then old(frozenAt) else |store.log|
      ensures detectedAt == if old(detectedAt).Some? then old(detectedAt) else Some(|store.log|)
    {
      hide SessionFine;
      FrozenInLog(store.log, guard, blocked, start, frozenAt, captures, toolAttempts);
      Block();
      if detectedAt.None? {
        detectedAt := Some(|store.log|);
      }
    }

    /** `_capture_model_session_guard`: read leaf and binding, refusing a binding that is not the client's. */
    method CaptureGuard() returns (r: Capture)
      requires SessionOk()
      modifies store, this`blocked, this`frozenAt, this`detectedAt
      ensures SessionOk()
      ensures r.Captured? ==> r.guard == Guard(|store.log|, store.binding) && store.binding == clientBinding
      ensures r.BindingDiffers? ==> store.binding != clientBinding && blocked && detectedAt.Some?
      ensures !r.BindingDiffers? ==> blocked == old(blocked) && detectedAt == old(detectedAt)
      ensures old(blocked) ==> blocked && frozenAt == old(frozenAt)
      ensures old(detectedAt).Some? ==> detectedAt == old(detectedAt)
    {
      hide SessionFine;
      ForeignSteps();
      var readable: bool := *;
      if !readable {
        return Unreadable;
      }
      if store.binding != clientBinding {
        Detect();
        return BindingDiffers;
      }
      return Captured(Guard(|store.log|, store.binding));
    }

    /** `_validate_model_session_guard`: the Session must still be as captured. */
    method ValidateGuard() returns (look: Look)
      requires SessionOk() && guard.Some?
      modifies store, this`blocked, this`frozenAt, this`detectedAt
      ensures SessionOk()
      ensures look.Intact? ==> guard.value == Guard(|store.log|, store.binding) && store.binding == clientBinding
      ensures look.Differs? ==> !(guard.value == Guard(|store.log|, store.binding) && store.binding == clientBinding)
      ensures look.Differs? ==> blocked && detectedAt.Some?
      ensures !look.Differs? ==> blocked == old(blocked) && detectedAt == old(detectedAt)
      ensures old(blocked) ==> blocked && frozenAt == old(frozenAt)
      ensures old(detectedAt).Some? ==> detectedAt == old(detectedAt)
    {
      hide SessionOk;
      var current := CaptureGuard();
      match current {
        case Unreadable => return Unread;
        case BindingDiffers => return Differs;
        case Captured(now) =>
          if now == guard.value {
            return Intact;
          }
          Detect();
          return Differs;
      }
    }

    /** If the Session is no longer as the guard says, that has been detected. */
    ghost predicate Noticed()
      reads this`guard, this`detectedAt, store
    {
      guard.Some? && (|store.log| != guard.value.leaf || store.binding != guard.value.binding) ==> detectedAt.Some?
    }

    /** `_commit_session` with the guard: one atomic append, at the guard's leaf or not at all. A changed Session, or one the
        store refuses as malformed, blocks all further writes. */
    method CommitGuarded(bodies: seq<Body>) returns (done: bool)
      requires SessionOk() && guard.Some?
      modifies store, this`guard, this`blocked, this`frozenAt, this`detectedAt
      ensures SessionOk() && old(store.log) <= store.log && guard.Some?
      ensures !done ==> guard == old(guard) && NoRunAfter(store.log, |old(store.log)|)
      ensures done ==>
                && |old(store.log)| == old(guard).value.leaf && store.binding == old(guard).value.binding
                && (|| store.log == old(store.log) + Entries(Run(|captures|), bodies)
                    || store.log == old(store.log) + Entries(Run(|captures|), bodies + [SessionInfo]))
                && guard.value == Guard(|store.log|, old(guard).value.binding)
      ensures done ==> !blocked
      ensures !done && !old(blocked) && (|store.log| != guard.value.leaf || store.binding != guard.value.binding) ==> detectedAt.Some?
      ensures old(detectedAt).Some? ==> detectedAt == old(detectedAt)
      ensures old(blocked) ==> !done && blocked && frozenAt == old(frozenAt)
    {
      if blocked {
        return false;
      }
      hide SessionFine;
      GuardInLog(store.log, guard, blocked, start, frozenAt, captures, toolAttempts);
      var info: bool := *;
      var all := if info then bodies + [SessionInfo] else bodies;
      ghost var before := store.log;
      var r := store.AppendEntries(Run(|captures|), all, Some(guard.value.leaf), Some(guard.value.binding));
      if r.Appended? {
        FineCommits(before, all, guard.value, start, frozenAt, captures, toolAttempts);
        assert store.log == before + Entries(Run(|captures|), all);
        guard := Some(Guard(r.leaf, guard.value.binding));
        return true;
      }
      FineGrows(before, store.log, guard, blocked, start, frozenAt, captures, toolAttempts);
      var refused: bool := *;
      if r.Changed? {
        Detect();
      } else if refused {
        Block();
      }
      return false;
    }

    /** `_commit_session` without a guard: appended wherever the Session now ends. */
    method CommitUnguarded(bodies: seq<Body>) returns (done: bool)
      requires SessionOk()
      requires captures == [] || forall b :: b in bodies ==> !IsAnswer(b)
      modifies store
      ensures SessionOk() && old(store.log) <= store.log
      ensures !done ==> NoRunAfter(store.log, |old(store.log)|)
      ensures blocked ==> !done
      ensures forall i :: |old(store.log)| <= i < |store.log| && store.log[i].author.Run? ==>
                store.log[i].body in bodies || store.log[i].body == SessionInfo
    {
      hide SessionFine, ForeignOnly, IsAnswer, Entries;
      if blocked {
        return false;
      }
      var info: bool := *;
      var all := if info then bodies + [SessionInfo] else bodies;
      ghost var before := store.log;
      var r := store.AppendEntries(Run(|captures|), all, None, None);
      if r.Appended? {
        UnguardedDone(before, store.log, bodies, all, guard, start, frozenAt, captures, toolAttempts);
      } else {
        ForeignIsNoRun(store.log, |before|);
        FineGrows(before, store.log, guard, blocked, start, frozenAt, captures, toolAttempts);
      }
      return r.Appended?;
    }

    // ----- auxiliary calls

    /** Between two steps of a run that may go on. */
    ghost predicate Going()
      reads this, store
    {
      Settled() && SessionOk() && Counted() && inFlight == 0 && !blocked && guard.Some?
    }

    /** The reasons for a run's own end. */
    predicate EndStop(stop: Stop) {
      stop.FinalAnswer? || stop.StepLimit? || stop.RetryLimit? || stop.RuntimeError?
    }

    /** What a step that only talks to the model leaves alone. */
    twostate predicate SameRun()
      reads this
    {
      && phase == old(phase) && faults == old(faults)
      && task.toolSteps == old(task).toolSteps && task.stop == old(task).stop
      && task.attempts >= old(task).attempts
    }

    /** The observer's "requested": the call is counted, the task state written, the event emitted. */
    method ObserveRequested(kind: Origin, retry: bool) returns (written: bool)
      requires Settled() && Counted() && inFlight == 0
      modifies this`trace, this`task, this`exec, this`inFlight
      ensures Settled() && Counted() && inFlight == 1
      ensures task == old(task).(attempts := old(task).attempts + 1)
      ensures exec == old(exec).(attempts := old(exec).attempts + 1, origins := old(exec).origins + multiset{kind},
                                 retries := old(exec).retries + if retry then 1 else 0)
    {
      hide TotalsAgree, SummaryMatches, InPhase;
      RecordAttempt(kind, retry);
      written := *;
      if written {
        EmitNeutral(ModelRequested);
      }
    }

    /** The observer's "completed". */
    method ObserveCompleted()
      requires Settled() && Counted() && inFlight == 1
      modifies this`trace, this`inFlight, this`auxiliary
      ensures Settled() && Counted() && inFlight == 0
    {
      hide TotalsAgree, SummaryMatches, InPhase;
      inFlight, auxiliary := 0, auxiliary + 1;
      EmitNeutral(AuxiliaryCompleted);
    }

    /** One summary call: look at the leaf, announce the call, make it, report how it ended. */
    method SummaryCall(kind: Origin, leaf: nat, retry: bool) returns (r: Summary, retryable: bool)
      requires Going() && (kind.CompactionCall? || kind.SplitCompactionCall?)
      modifies store, this`trace, this`task, this`exec, this`inFlight, this`auxiliary, this`phase, this`faults
      ensures Settled() && SessionOk() && Counted() && SameRun()
      ensures !r.SummaryRaised? ==> inFlight == 0 && exec.attempts == old(exec).attempts + 1
      ensures exec.attempts <= old(exec).attempts + 1
      ensures exec.retries == old(exec).retries + if retry then exec.attempts - old(exec).attempts else 0
    {
      hide TraceOk, SessionOk, Counted, Clean;
      retryable := *;
      ForeignSteps();
      if |store.log| != leaf {
        return SummaryRaised(OtherException), false;
      }
      var written := ObserveRequested(kind, retry);
      var interrupted: bool, answered: bool, usable: bool := *, *, *;
      if !written || interrupted {
        return SummaryRaised(if written then Interrupt else OtherException), false;
      }
      if answered && usable {
        ObserveCompleted();
        return Summarised, false;
      }
      RecordFailure(None);
      return SummaryFailed, retryable && !answered;
    }

    /** `_summary_request`: at most three calls, the later ones after retryable transport errors; a failure that is itself
        retryable is final only at the third. */
    method SummaryRequest(kind: Origin, leaf: nat) returns (r: Summary, ghost retryable: bool)
      requires Going() && (kind.CompactionCall? || kind.SplitCompactionCall?)
      modifies store, this`trace, this`task, this`exec, this`inFlight, this`auxiliary, this`phase, this`faults
      ensures Settled() && SessionOk() && Counted() && SameRun()
      ensures !r.SummaryRaised? ==> inFlight == 0
      ensures exec.attempts <= old(exec).attempts + 3
      ensures r.SummaryFailed? && retryable ==> exec.attempts == old(exec).attempts + 3
      ensures !r.SummaryRaised? ==> exec.retries - old(exec).retries == exec.attempts - old(exec).attempts - 1
    {
      hide TraceOk, SessionOk, Counted, Clean;
      var attempt := 0;
      while true
        invariant 0 <= attempt <= 2
        invariant Going() && SameRun()
        invariant exec.attempts == old(exec).attempts + attempt
        invariant exec.retries == old(exec).retries + if attempt == 0 then 0 else attempt - 1
        decreases 3 - attempt
      {
        var again;
        r, again := SummaryCall(kind, leaf, attempt > 0);
        retryable := again;
        if !r.SummaryFailed? || !again || attempt == 2 {
          return;
        }
        attempt := attempt + 1;
      }
    }

    /** The entry `compact_session` ends with: appended at the leaf the plan was made for, or not at all. */
    method AppendControl(body: Body) returns (r: Append)
      requires SessionOk() && guard.Some? && !blocked && !IsAnswer(body)
      modifies store, this`guard
      ensures SessionOk() && guard.Some?
      ensures r.Appended? ==>
                && r.leaf == |store.log| && |old(store.log)| == old(guard).value.leaf
                && store.log == old(store.log) + [Entry(Run(|captures|), body)]
                && guard.value == old(guard).value.(leaf := |store.log|)
      ensures !r.Appended? ==> guard == old(guard)
    {
      ghost var before := store.log;
      r := store.AppendEntries(Run(|captures|), [body], Some(guard.value.leaf), None);
      if r.Appended? {
        assert store.log == before + Entries(Run(|captures|), [body]);
        assert Entries(Run(|captures|), [body]) == [Entry(Run(|captures|), body)];
        FineCommits(before, [body], guard.value, start, frozenAt, captures, toolAttempts);
        guard := Some(guard.value.(leaf := r.leaf));
      } else {
        FineGrows(before, store.log, guard, blocked, start, frozenAt, captures, toolAttempts);
      }
    }

    /** The summaries of one compaction: the prefix, then the split turn. */
    method Summaries(prefix: bool, split: bool, leaf: nat) returns (r: Summary)
      requires Going()
      modifies store, this`trace, this`task, this`exec, this`inFlight, this`auxiliary, this`phase, this`faults
      ensures Settled() && SessionOk() && Counted() && SameRun()
      ensures !r.SummaryRaised? ==> inFlight == 0
      ensures exec.attempts <= old(exec).attempts + 6
    {
      hide TraceOk, SessionOk, Counted, Clean;
      r := Summarised;
      if prefix {
        ghost var retryable;
        r, retryable := SummaryRequest(CompactionCall, leaf);
      }
      if split && r.Summarised? {
        ghost var retryable;
        r, retryable := SummaryRequest(SplitCompactionCall, leaf);
      }
    }

    /** `compact_session` at the guard's leaf, which moves past the compaction entry;
        the plan itself is the subject of module Compaction. */
    method CompactSession() returns (r: Compacted)
      requires Going()
      modifies store, this`guard, this`trace, this`task, this`exec, this`inFlight, this`auxiliary, this`phase, this`faults
      ensures Settled() && SessionOk() && Counted() && SameRun() && guard.Some?
      ensures !r.CompactionRaised? ==> inFlight == 0
      ensures r.CompactedTo? ==> guard.value.leaf == |store.log| > 0 && store.log[|store.log| - 1] == Entry(Run(|captures|), Compaction)
      ensures !r.CompactedTo? ==> guard == old(guard)
      ensures exec.attempts <= old(exec).attempts + 6
    {
      hide TraceOk, SessionOk, Counted, Clean;
      ForeignSteps();
      if |store.log| != guard.value.leaf {
        return CompactionRaised(OtherException);
      }
      var planned: bool, prefix: bool, split: bool, smaller: bool := *, *, *, *;
      if !planned || (!prefix && !split) {
        return NoProgress;
      }
      var s := Summaries(prefix, split, guard.value.leaf);
      if s.SummaryRaised? {
        return CompactionRaised(s.raised);
      }
      if s.SummaryFailed? {
        return CompactionFailed;
      }
      if !smaller {
        return NoProgress;
      }
      var appended := AppendControl(Compaction);
      return if appended.Appended? then CompactedTo(appended.leaf) else CompactionRaised(OtherException);
    }

    // ----- one attempt

    /** A model call is out: with streaming, the trace waits for its end. */
    ghost predicate Asking()
      reads this, store
    {
      && TraceOk() && SessionOk() && Counted() && inFlight == 1 && task.attempts >= 1
      && (phase.Lost? ==> faults != {})
      && (phase.Lost? || (Clean() && phase == if streamEnabled then AskedFor(task.attempts) else Rest))
    }

    /** The `model_requested` event, with the initial streaming metadata when the client streams. */
    method EmitRequested()
      requires Settled() && task.attempts >= 1
      requires InPhase(trace, phase, task.attempts - 1, used, runId, taskId)
      modifies this`trace, this`phase
      ensures TraceOk()
      ensures phase.Lost? || (Clean() && phase == if streamEnabled then AskedFor(task.attempts) else Rest)
    {
      hide InPhase, TotalsAgree, SummaryMatches;
      ghost var before, p := trace, phase;
      if streamEnabled {
        var event := NewEvent(ModelRequested, Some(INITIAL), "", "", None);
        trace := trace + [event];
        RequestOpens(before, event, p, task.attempts - 1, used, runId, taskId);
        if SummaryMatches(before, report) {
          SummaryExtends(before, event, report);
        }
        phase := if p.Lost? then Lost else AskedFor(task.attempts);
      } else {
        EmitNeutral(ModelRequested);
      }
    }

    /** Extra events between `record_attempt` and `model_requested`. */
    method EmitPreamble()
      requires task.attempts >= 1 && InPhase(trace, phase, task.attempts - 1, used, runId, taskId)
      requires Settled()
      modifies this`trace
      ensures InPhase(trace, phase, task.attempts - 1, used, runId, taskId)
      ensures Settled()
    {
      hide InPhase, TotalsAgree, SummaryMatches;
      ghost var before := trace;
      var built := NewEvent(OtherKind, None, "", "", None);
      trace := trace + [built];
      NeutralKeeps(before, built, phase, task.attempts - 1, used, runId, taskId);
      NeutralKeeps(before, built, phase, task.attempts, used, runId, taskId);
      if SummaryMatches(before, report) {
        SummaryExtends(before, built, report);
      }
    }

    /** Recall state, if there is any, is committed at the guard. */
    method CommitRecall() returns (done: bool)
      requires SessionOk() && !blocked && guard.Some?
      modifies store, this`guard, this`blocked, this`frozenAt, this`detectedAt
      ensures SessionOk() && (if done then !blocked && guard.Some? else Noticed())
    {
      hide SessionOk;
      var recalled: bool := *;
      done := true;
      if recalled {
        done := CommitGuarded([]);
      }
    }

    /** Count the attempt, then announce the request; `written` says whether the task state could be stored. */
    method Announce(origin: Origin) returns (written: bool)
      requires Settled() && Counted() && inFlight == 0
      modifies this`trace, this`task, this`exec, this`inFlight, this`phase
      ensures Counted() && inFlight == 1 && task.attempts >= 1 && TraceOk()
      ensures !written ==> Settled()
      ensures written ==> phase.Lost? || (Clean() && phase == if streamEnabled then AskedFor(task.attempts) else Rest)
      ensures task == old(task).(attempts := old(task).attempts + 1)
      ensures exec == old(exec).(attempts := old(exec).attempts + 1, origins := old(exec).origins + multiset{origin},
                                 retries := old(exec).retries + if origin == RetryOfModel then 1 else 0)
    {
      hide TraceOk, Counted, Clean, InPhase;
      written := *;
      var mismatch: bool := *;
      RecordAttempt(origin, origin.RetryOfModel?);
      if !written {
        return;
      }
      EmitPreamble();
      if mismatch {
        EmitPreamble();
      }
      EmitRequested();
    }

    /** The last part of `_build_attempt_request`: commit recall state, count the attempt, announce the request. */
    method IssueRequest(origin: Origin) returns (raised: Option<Raised>)
      requires Going()
      modifies store, this`guard, this`blocked, this`frozenAt, this`detectedAt, this`trace, this`task, this`exec, this`inFlight, this`phase
      ensures raised.None? ==> Asking() && !blocked && guard.Some?
      ensures Settled() || raised.None?
      ensures SessionOk() && Counted()
      ensures task.toolSteps == old(task).toolSteps && task.stop == old(task).stop && task.attempts >= old(task).attempts
      ensures exec.attempts <= old(exec).attempts + 1
      ensures raised != Some(GuardLost) && (raised == Some(CommitError) ==> Noticed())
      ensures raised.None? ==> exec.origins == old(exec).origins + multiset{origin}
    {
      hide InPhase, SessionOk, Counted, SummaryMatches;
      var done := CommitRecall();
      if !done {
        return Some(CommitError);
      }
      var written := Announce(origin);
      return if written then None else Some(OtherException);
    }

    /** `_build_attempt_request`: up to three tries, with at most two compactions when the budget is exceeded. */
    method BuildAttemptRequest(origin: Origin) returns (raised: Option<Raised>)
      requires Going()
      modifies store, this`guard, this`blocked, this`frozenAt, this`detectedAt, this`trace, this`task, this`exec, this`inFlight,
               this`auxiliary, this`phase, this`faults
      ensures raised.None? ==> Asking() && !blocked && guard.Some?
      ensures Settled() || raised.None?
      ensures SessionOk() && Counted()
      ensures task.toolSteps == old(task).toolSteps && task.stop == old(task).stop && task.attempts >= old(task).attempts
      ensures exec.attempts <= old(exec).attempts + if compactionEnabled then 13 else 1
      ensures raised != Some(GuardLost) && (raised == Some(CommitError) ==> Noticed())
    {
      hide TraceOk, SessionOk, Counted, Clean;
      for compactionAttempt := 0 to 3
        invariant Going() && SameRun()
        invariant exec.attempts <= old(exec).attempts + 6 * (if compactionAttempt <= 2 then compactionAttempt else 2)
        invariant !compactionEnabled ==> compactionAttempt == 0
      {
        var built: bool, overBudget: bool := *, *;
        if built {
          break;
        }
        if !overBudget || !compactionEnabled || compactionAttempt >= 2 {
          return Some(OtherException);
        }
        var r := CompactSession();
        if r.CompactionRaised? {
          return Some(r.raised);
        }
        if r.CompactionFailed? {
          return Some(OtherException);
        }
        if r.CompactedTo? {
          EmitNeutral(OtherKind);
        }
      }
      raised := IssueRequest(origin);
    }

    /** `_complete_model_attempt`. The streaming state is the preview's own `metadata()`. */
    method CompleteModelAttempt() returns (reply: Reply, committed: bool)
      requires Asking()
      modifies this`trace, this`exec, this`inFlight, this`phase, this`faults
      ensures Settled() && Counted() && inFlight == 0
      ensures exec == if reply.Responded? then old(exec).(turns := old(exec).turns + 1)
                      else old(exec).(failures := old(exec).failures + 1)
      ensures committed ==> streamEnabled
      ensures faults == if reply.Responded? && streamEnabled && !committed then old(faults) + {TurnNeverCommitted} else old(faults)
    {
      hide InPhase, TotalsAgree, SummaryMatches, SessionFine;
      var streaming: Streaming := *;
      if !StreamingMetadata(streaming) {
        streaming := INITIAL;
      }
      committed := streamEnabled && streaming.committed;
      var shown := if streamEnabled then Some(streaming) else None;
      reply := *;
      if !reply.Responded? {
        RecordFailure(shown);
        return;
      }
      if streamEnabled {
        EmitStreaming(ActionDecoded, streaming);
        EmitStreaming(ModelTurn, streaming);
      } else {
        EmitNeutral(ActionDecoded);
        EmitNeutral(ModelTurn);
      }
      exec := exec.(turns := exec.turns + 1);
      inFlight := 0;
    }

    // ----- tools

    /** A tool has started: either the acceptor saw it open, or something is lost already. */
    ghost predicate ToolRunning(name: string, id: string)
      reads this
    {
      TraceOk() && name != "" && (phase.Lost? || (Clean() && id != "" && phase == ToolOpen(id, name)))
    }

    method EmitToolStarted(name: string, id: string)
      requires Settled() && name != ""
      modifies this`trace, this`phase, this`used, this`faults
      ensures ToolRunning(name, id)
      ensures used == old(used) + {id}
      ensures faults == if id == "" || id in old(used) then old(faults) + {UnusableToolId} else old(faults)
    {
      hide InPhase, TotalsAgree, SummaryMatches;
      ghost var before, p := trace, phase;
      var event := NewEvent(ToolStarted, None, id, name, None);
      trace := trace + [event];
      ToolStarts(before, event, p, task.attempts, used, runId, taskId);
      if SummaryMatches(before, report) {
        SummaryExtends(before, event, report);
      }
      phase := if p.Rest? && id != "" && id !in used then ToolOpen(id, name) else Lost;
      if id == "" || id in used {
        faults := faults + {UnusableToolId};
      }
      used := used + {id};
    }

    /** The tool is recorded and its trace history closed by a `tool_interrupted` event. */
    method EmitToolInterrupted(name: string, id: string, status: Status)
      requires ToolRunning(name, id) && Listed(Some(status))
      modifies this`trace, this`phase, this`faults, this`report
      ensures Settled()
      ensures report == Recorded(old(report), name, status)
      ensures faults == if status.Interrupted? then old(faults) else old(faults) + {InterruptedResult}
    {
      hide InPhase, TotalsAgree, SummaryMatches;
      ghost var before, p := trace, phase;
      if SummaryMatches(before, report) {
        SummaryExtends(before, NewEvent(ToolInterrupted, None, id, name, Some(status)), report);
      }
      TotalsGrow(report, name, status);
      report := Recorded(report, name, status);
      var event := NewEvent(ToolInterrupted, None, id, name, Some(status));
      trace := trace + [event];
      ToolCloses(before, event, p, task.attempts, used, runId, taskId);
      phase := if p.ToolOpen? && status.Interrupted? then Rest else Lost;
      if !status.Interrupted? {
        faults := faults + {InterruptedResult};
      }
    }

    /** The `tool_executed` and `tool_finished` events; `before` is the report without this call. */
    method EmitToolExecuted(name: string, id: string, status: Status, ghost before: ToolReport)
      requires TraceOk() && name != "" && Listed(Some(status))
      requires phase.Lost? || (faults == {} && SummaryMatches(trace, before) && id != "" && phase == ToolOpen(id, name))
      requires report == Recorded(before, name, status)
      modifies this`trace, this`phase, this`faults
      ensures Settled()
      ensures faults == if status.Interrupted? then old(faults) + {InterruptedResult} else old(faults)
    {
      hide InPhase, TotalsAgree, SummaryMatches;
      ghost var t, p := trace, phase;
      var executed := NewEvent(ToolExecuted, None, id, name, Some(status));
      trace := trace + [executed];
      var finished := NewEvent(ToolFinished, None, id, name, Some(status));
      trace := trace + [finished];
      ToolFinishes(t, executed, finished, p, task.attempts, used, runId, taskId);
      if SummaryMatches(t, before) {
        SummaryExtends(t, executed, before);
        SummaryExtends(t + [executed], finished, report);
      }
      phase := if p.ToolOpen? && !status.Interrupted? then Rest else Lost;
      if status.Interrupted? {
        faults := faults + {InterruptedResult};
      }
    }

    /** `execute_tool`: any listed status, or an exception with or without one. Only a Session tool writes the Session,
        perhaps before it raises. */
    method ExecuteTool() returns (r: ToolReturn)
      requires SessionOk()
      modifies store
      ensures SessionOk() && |store.log| >= |old(store.log)|
      ensures r.ToolReturned? ==> Listed(Some(r.metadata.status))
      ensures r.ToolRaised? && r.status.Some? ==> Listed(r.status)
    {
      r := *;
      if r.ToolReturned? && r.metadata.status.Unlisted? {
        r := ToolReturned(r.metadata.(status := Error));
      }
      if r.ToolRaised? && r.status.Some? && r.status.value.Unlisted? {
        r := r.(status := None);
      }
      ForeignSteps();
      var writes: bool := *;
      if (r.ToolReturned? && r.metadata.sessionState) || (r.ToolRaised? && writes) {
        var written: seq<Body> := *;
        ghost var before := store.log;
        var done := store.AppendEntries(SessionTool(|captures|), written, None, None);
        FineGrows(before, store.log, guard, blocked, start, frozenAt, captures, toolAttempts);
      }
    }

    /** `_advance_session_guard_after_session_tool`: adopt whatever leaf the Session has now, under the same binding. */
    method AdvanceGuard() returns (look: Look)
      requires SessionOk() && guard.Some?
      modifies store, this`guard, this`blocked, this`frozenAt, this`detectedAt, this`toolAttempts
      ensures SessionOk() && guard.Some? && |store.log| >= |old(store.log)|
      ensures look.Intact? ==> guard.value == Guard(|store.log|, old(guard).value.binding) && store.binding == guard.value.binding
      ensures toolAttempts == old(toolAttempts) + if look.Intact? then {|captures|} else {}
      ensures look.Differs? ==> store.binding != guard.value.binding && blocked && detectedAt.Some?
      ensures !look.Differs? ==> blocked == old(blocked) && detectedAt == old(detectedAt)
      ensures old(detectedAt).Some? ==> detectedAt == old(detectedAt)
    {
      ForeignSteps();
      var readable: bool := *;
      if !readable {
        return Unread;
      }
      if store.binding != guard.value.binding {
        Detect();
        return Differs;
      }
      ghost var tools := toolAttempts;
      toolAttempts := toolAttempts + {|captures|};
      IsolatedGrows(store.log, store.log, start, captures, captures, tools, toolAttempts);
      guard := Some(guard.value.(leaf := |store.log|));
      return Intact;
    }

    /** The run can stop here: the acceptor is at rest exactly when no fault happened. */
    ghost predicate Stoppable()
      reads this, store
    {
      TraceOk() && (phase.Rest? <==> faults == {}) && SessionOk() && Counted()
    }

    /** The Session side of a tool result: follow a Session tool's own writes, prepare the pair, then commit it at the guard. */
    method CommitTool(id: string, sessionState: bool) returns (raised: Option<Raised>)
      requires SessionOk() && !blocked && guard.Some?
      modifies store, this`guard, this`blocked, this`frozenAt, this`detectedAt, this`toolAttempts
      ensures SessionOk() && guard.Some?
      ensures raised != Some(GuardLost) && (raised == Some(CommitError) ==> Noticed())
      ensures raised.None? ==> !blocked && ExchangeAfter(store.log, |old(store.log)|, |captures|, id)
      ensures !sessionState ==> toolAttempts == old(toolAttempts)
      ensures toolAttempts <= old(toolAttempts) + {|captures|}
    {
      hide SessionFine;
      if sessionState {
        var look := AdvanceGuard();
        if !look.Intact? {
          return Some(if look.Differs? then CommitError else OtherException);
        }
      }
      var prepared: bool := *;
      if !prepared {
        return Some(OtherException);
      }
      ghost var at := |store.log|;
      var done := CommitGuarded([ToolExchange(id)]);
      if done {
        assert store.log[at] == Entry(Run(|captures|), ToolExchange(id));
      }
      return if done then None else Some(CommitError);
    }

    method CountToolStep()
      requires Counted()
      modifies this`task
      ensures Counted() && task == old(task).(toolSteps := old(task).toolSteps + 1)
    {
      task := task.(toolSteps := task.toolSteps + 1);
    }

    /** Commit the result's messages, and count the step unless the tool was rejected. */
    method CommitResult(id: string, metadata: ToolMetadata) returns (raised: Option<Raised>)
      requires SessionOk() && Counted() && !blocked && guard.Some?
      modifies store, this`guard, this`blocked, this`frozenAt, this`detectedAt, this`toolAttempts, this`task
      ensures SessionOk() && Counted() && guard.Some?
      ensures task.attempts == old(task).attempts && task.stop == old(task).stop
      ensures old(task).toolSteps <= task.toolSteps <= old(task).toolSteps + 1
      ensures raised != Some(GuardLost) && (raised == Some(CommitError) ==> Noticed())
      ensures raised.None? ==>
                && !blocked && ExchangeAfter(store.log, |old(store.log)|, |captures|, id)
                && task.toolSteps == old(task).toolSteps + if metadata.status.Rejected? then 0 else 1
      ensures !metadata.sessionState ==> toolAttempts == old(toolAttempts)
      ensures toolAttempts <= old(toolAttempts) + {|captures|}
    {
      hide SessionOk, Counted, ExchangeAfter;
      raised := CommitTool(id, metadata.sessionState);
      if raised.Some? {
        return;
      }
      if !metadata.status.Rejected? {
        CountToolStep();
      }
      var written: bool := *;
      return if written then None else Some(OtherException);
    }

    /** The tool's result is in hand: record it, commit the pair, count the step, close the trace. */
    method FinishTool(name: string, id: string, metadata: ToolMetadata) returns (raised: Option<Raised>)
      requires ToolRunning(name, id) && Listed(Some(metadata.status))
      requires SessionOk() && Counted() && inFlight == 0 && !blocked && guard.Some?
      modifies store, this`guard, this`blocked, this`frozenAt, this`detectedAt, this`toolAttempts, this`trace, this`task, this`report,
               this`phase, this`faults
      ensures raised.None? ==> Going()
      ensures Stoppable()
      ensures report == Recorded(old(report), name, metadata.status)
      ensures raised != Some(GuardLost) && (raised == Some(CommitError) ==> Noticed())
      ensures !metadata.sessionState ==> toolAttempts == old(toolAttempts)
      ensures toolAttempts <= old(toolAttempts) + {|captures|}
      ensures raised.None? ==>
                task == old(task).(toolSteps := old(task).toolSteps + if metadata.status.Rejected? then 0 else 1)
      ensures task.attempts == old(task).attempts && task.stop == old(task).stop
      ensures old(task).toolSteps <= task.toolSteps <= old(task).toolSteps + 1
      ensures raised.None? ==>
                ExchangeAfter(store.log, |old(store.log)|, |captures|, id)
    {
      hide InPhase, TotalsAgree, SummaryMatches, SessionOk, Accounted, ExchangeAfter;
      ghost var before := report;
      TotalsGrow(report, name, metadata.status);
      report := Recorded(report, name, metadata.status);
      raised := CommitResult(id, metadata);
      if raised.Some? {
        faults := faults + {ToolLeftOpen};
        return;
      }
      EmitToolExecuted(name, id, metadata.status, before);
    }

    /** `_apply_tool_action`. */
    method ApplyToolAction(name: string, id: string, blockedAction: bool)
      returns (metadata: ToolMetadata, raised: Option<Raised>)
      requires Going() && name != ""
      modifies store, this`guard, this`blocked, this`frozenAt, this`detectedAt, this`toolAttempts, this`trace, this`task, this`report,
               this`phase, this`faults, this`used
      ensures raised.None? ==> Going() && report == Recorded(old(report), name, metadata.status)
      ensures Stoppable() && inFlight == 0
      ensures task.attempts == old(task).attempts && task.stop == old(task).stop
      ensures old(task).toolSteps <= task.toolSteps <= old(task).toolSteps + 1
      ensures raised.None? ==> (task.toolSteps == old(task).toolSteps <==> metadata.status.Rejected?)
      ensures raised != Some(GuardLost) && (raised == Some(CommitError) ==> Noticed())
      ensures raised.None? && blockedAction ==> metadata.status.Rejected? && metadata.code == OtherCode && !metadata.effectUnknown
      ensures raised.None? && !metadata.sessionState ==> toolAttempts == old(toolAttempts)
      ensures raised.None? ==>
                ExchangeAfter(store.log, |old(store.log)|, |captures|, id)
    {
      hide InPhase, TotalsAgree, SummaryMatches, SessionFine, Accounted;
      EmitToolStarted(name, id);
      metadata := *;
      if blockedAction {
        metadata := metadata.(status := Rejected, code := OtherCode, effectUnknown := false);
      } else {
        var r := ExecuteTool();
        if r.ToolRaised? {
          if r.status.Some? {
            EmitToolInterrupted(name, id, r.status.value);
          } else {
            faults := faults + {ToolLeftOpen};
          }
          return metadata, Some(r.raised);
        }
        metadata := r.metadata;
      }
      raised := FinishTool(name, id, metadata);
    }

    // ----- the loop

    method DropGuard()
      requires SessionOk()
      modifies this`guard
      ensures SessionOk() && guard.None?
    {
      guard := None;
    }

    /** The loop's own variables agree with the attempts that were followed by another. */
    ghost predicate Book()
      reads this`turns, this`modelRetries, this`retryActions, this`recoveries, this`origin, this`corrections,
            this`rejections, this`corrected
    {
      && Disciplined(turns)
      && modelRetries == RetriesInARow(turns)
      && retryActions == CauseCount(turns, Malformed)
      && recoveries == CauseCount(turns, ContextRecovered)
      && origin == (if turns == [] then Initial else OriginAfter(turns[|turns| - 1].cause))
      && (forall c :: c in corrections <==> c in rejections)
      && Corrected(rejections, corrected)
    }

    /** Go round again for `cause`, counting it as the loop does. */
    method Again(committed: bool, cause: Cause)
      requires Book() && !corrected
      requires committed ==> cause.AfterTool?
      requires cause.TransportRetry? ==> modelRetries < 2
      requires cause.Malformed? ==> retryActions == 0
      requires cause.ContextRecovered? ==> recoveries == 0
      modifies this`turns, this`modelRetries, this`retryActions, this`recoveries, this`origin
      ensures Book() && !corrected
      ensures turns == old(turns) + [Turn(committed, cause.AfterTool? || cause.Malformed?, cause)]
      ensures origin == if cause == AfterTool then ToolFollowup else if cause == Malformed then RetryOfAction else RetryOfModel
      ensures modelRetries == if cause in {AfterTool, Malformed} then 0
                              else if cause == TransportRetry then old(modelRetries) + 1 else old(modelRetries)
      ensures retryActions == old(retryActions) + if cause == Malformed then 1 else 0
      ensures recoveries == old(recoveries) + if cause == ContextRecovered then 1 else 0
    {
      hide Corrected;
      ghost var turn := Turn(committed, cause.AfterTool? || cause.Malformed?, cause);
      DisciplineGrows(turns, turn);
      turns := turns + [turn];
      match cause {
        case AfterTool => modelRetries := 0;
        case Malformed => modelRetries, retryActions := 0, retryActions + 1;
        case TransportRetry => modelRetries := modelRetries + 1;
        case ContextRecovered => recoveries := recoveries + 1;
      }
      origin := OriginAfter(cause);
    }

    method SetStop(stop: Stop)
      requires TraceOk() && Counted()
      modifies this`task
      ensures TraceOk() && Counted() && task == old(task).(stop := stop)
    {
      hide TotalsAgree, SummaryMatches, InPhase;
      task := task.(stop := stop);
    }

    /** A new attempt starts at the leaf the Session has now. */
    method OpenAttempt() returns (raised: Option<Raised>)
      requires SessionOk() && !blocked
      modifies store, this`captures, this`guard, this`blocked, this`frozenAt, this`detectedAt
      ensures SessionOk() && (raised == Some(GuardLost) ==> blocked && detectedAt.Some?)
      ensures raised.None? ==>
                && !blocked && captures == old(captures) + [|store.log|]
                && guard == Some(Guard(|store.log|, store.binding))
      ensures raised.Some? ==> captures == old(captures) && guard == old(guard) && !raised.value.CommitError?
    {
      hide SessionFine;
      var captured := CaptureGuard();
      match captured {
        case BindingDiffers => return Some(GuardLost);
        case Unreadable => return Some(OtherException);
        case Captured(now) =>
          AttemptOpens(store.log, guard, blocked, start, frozenAt, captures, toolAttempts);
          guard, captures := Some(now), captures + [now.leaf];
          return None;
      }
    }

    /** Capture the guard, build and announce the request, look at the Session once more. */
    method BeginAttempt() returns (raised: Option<Raised>)
      requires Settled() && SessionOk() && Counted() && inFlight == 0 && !blocked
      modifies store, this`captures, this`guard, this`blocked, this`frozenAt, this`detectedAt, this`trace, this`task, this`exec,
               this`inFlight, this`auxiliary, this`phase, this`faults
      ensures raised.None? ==> Asking() && !blocked && guard.Some? && |captures| == |old(captures)| + 1
      ensures Stoppable() || raised.None?
      ensures raised == Some(GuardLost) ==> blocked && detectedAt.Some?
      ensures raised == Some(CommitError) ==> Noticed()
      ensures |old(captures)| <= |captures| <= |old(captures)| + 1
      ensures task.toolSteps == old(task).toolSteps && task.stop == old(task).stop
      ensures exec.attempts <= old(exec).attempts + 13 * (|captures| - |old(captures)|)
    {
      hide InPhase, SessionOk, Counted, SummaryMatches, Noticed, Asking, Clean;
      raised := OpenAttempt();
      if raised.Some? {
        return;
      }
      raised := BuildAttemptRequest(origin);
      if raised.Some? {
        return;
      }
      raised := ConfirmGuard();
    }

    /** The look at the Session behind an announced request. */
    method ConfirmGuard() returns (raised: Option<Raised>)
      requires Asking() && !blocked && guard.Some?
      modifies store, this`blocked, this`frozenAt, this`detectedAt, this`faults
      ensures raised.None? ==> Asking() && !blocked
      ensures raised.Some? ==> Stoppable() && !raised.value.CommitError?
      ensures raised == Some(GuardLost) ==> blocked && detectedAt.Some?
      ensures faults == if raised.Some? && phase.AskedFor? then old(faults) + {GuardUnconfirmed} else old(faults)
    {
      hide InPhase, SessionOk, Counted, SummaryMatches;
      var look := ValidateGuard();
      if !look.Intact? {
        if phase.AskedFor? {
          faults := faults + {GuardUnconfirmed};
        }
        return Some(if look.Differs? then GuardLost else OtherException);
      }
      return None;
    }

    /** Recovery from a provider's context error: compact, then note it in the Session. */
    method RecoverContext() returns (recovered: bool, raised: Option<Outside>)
      requires Going()
      modifies store, this`guard, this`trace, this`task, this`exec, this`inFlight, this`auxiliary, this`phase, this`faults
      ensures raised.None? ==> Going()
      ensures Stoppable() && SameRun() && guard.Some?
      ensures exec.attempts <= old(exec).attempts + 6
      ensures recovered ==>
                && raised.None? && |store.log| > 1 && guard.value.leaf == |store.log|
                && store.log[|store.log| - 2..] == [Entry(Run(|captures|), Compaction), Entry(Run(|captures|), ContextRecovery)]
    {
      hide TraceOk, SessionOk, Counted, Clean;
      var r := CompactSession();
      if r.CompactionRaised? {
        return false, Some(r.raised);
      }
      if !r.CompactedTo? {
        return false, None;
      }
      var noted := AppendControl(ContextRecovery);
      if !noted.Appended? {
        return false, Some(OtherException);
      }
      EmitNeutral(OtherKind);
      return true, None;
    }

    /** A failed model call: recover the context, retry the transport, or stop with a model error. */
    method HandleModelError(retryable: bool, contextLength: bool, committed: bool, last: bool) returns (exit: Option<Exit>)
      requires Going() && Book() && !corrected
      modifies store, this`guard, this`trace, this`task, this`exec, this`inFlight, this`auxiliary, this`phase, this`faults,
               this`turns, this`modelRetries, this`retryActions, this`recoveries, this`origin
      ensures Book() && !corrected && Stoppable() && guard.Some? && task.toolSteps == old(task).toolSteps
      ensures exit.None? ==> Going() && |turns| == |old(turns)| + 1 && !last && !committed && task.stop == old(task).stop
      ensures exit.Some? ==> turns == old(turns) && !exit.value.Ended?
      ensures exit == Some(FailedModel) ==> inFlight == 0 && task.stop == ModelErrorStop
      ensures exit == Some(FailedModel) ==> committed || last || !retryable || old(modelRetries) >= 2
      ensures exit.None? ==>
                var cause := turns[|old(turns)|].cause;
                && (cause.ContextRecovered? || cause.TransportRetry?)
                && (cause.ContextRecovered? ==> contextLength && old(recoveries) == 0)
                && (cause.TransportRetry? ==> retryable && old(modelRetries) < 2)
      ensures exec.attempts <= old(exec).attempts + 6
      ensures task.stop == old(task).stop || task.stop == ModelErrorStop
      ensures committed || !contextLength || old(recoveries) >= 1 || last ==>
                && exec == old(exec) && store.log == old(store.log)
                && (exit.None? <==> !committed && retryable && old(modelRetries) < 2 && !last)
      ensures exit.None? && turns[|old(turns)|].cause.ContextRecovered? ==>
                |store.log| > 0 && store.log[|store.log| - 1] == Entry(Run(|captures|), ContextRecovery)
      ensures exit.Some? && exit.value.Threw? ==> exit.value.raised.Interrupt? || exit.value.raised.OtherException?
    {
      hide TraceOk, SessionOk, Counted, Clean, Book;
      if !committed && contextLength && recoveries < 1 && !last {
        var recovered, raised := RecoverContext();
        if raised.Some? {
          return Some(Threw(raised.value));
        }
        if recovered {
          Again(false, ContextRecovered);
          return None;
        }
      }
      if !committed && retryable && modelRetries < 2 && !last {
        Again(false, TransportRetry);
        return None;
      }
      SetStop(ModelErrorStop);
      return Some(FailedModel);
    }

    /** Stop with a message of the run's own, committed at the guard. */
    method StopWith(stop: Stop) returns (exit: Exit)
      requires Going() && stop != Running
      modifies store, this`guard, this`blocked, this`frozenAt, this`detectedAt, this`task
      ensures Stoppable() && inFlight == 0 && !exit.FailedModel?
      ensures task == old(task).(stop := stop)
      ensures exit.Threw? ==> exit == Threw(CommitError) && Noticed()
      ensures exit.Ended? ==>
                && |old(store.log)| < |store.log|
                && store.log[|old(store.log)|] == Entry(Run(|captures|), AssistantMessage)
    {
      hide TraceOk, SessionOk, Counted, Clean;
      SetStop(stop);
      ghost var at := |store.log|;
      var done := CommitGuarded([AssistantMessage]);
      if !done {
        return Threw(CommitError);
      }
      assert store.log[at] == Entry(Run(|captures|), AssistantMessage);
      return Ended;
    }

    /** `_advance_rejection_correction`: the second correctable rejection of one kind is one too many. */
    method AdvanceRejection(name: string, metadata: ToolMetadata) returns (stop: bool)
      requires Book() && !corrected
      modifies this`rejections, this`corrected, this`corrections
      ensures stop <==>
                && metadata.status == Rejected && metadata.code in {InvalidArguments, WorkspaceEntryUnsafe}
                && (name, metadata.code) in old(rejections)
      ensures rejections == old(rejections)
                + if metadata.status == Rejected && metadata.code != OtherCode then [(name, metadata.code)] else []
      ensures corrected == stop
      ensures Book()
    {
      if !Correctable(metadata) {
        return false;
      }
      var key := (name, metadata.code);
      RejectionAdded(rejections, key);
      stop := key in corrections;
      rejections := rejections + [key];
      corrections := corrections + {key};
      corrected := stop;
    }

    /** After a tool: stop on unknown effects or on a repeated correction, else go round again. */
    method FollowTool(name: string, metadata: ToolMetadata, committed: bool) returns (exit: Option<Exit>)
      requires Going() && Book() && !corrected
      modifies store, this`guard, this`blocked, this`frozenAt, this`detectedAt, this`task, this`rejections, this`corrected, this`corrections,
               this`turns, this`modelRetries, this`retryActions, this`recoveries, this`origin
      ensures Stoppable() && inFlight == 0 && task.toolSteps == old(task).toolSteps && Book()
      ensures exit.None? ==> Going() && !corrected && |turns| == |old(turns)| + 1 && task.stop == old(task).stop
      ensures exit.Some? ==> turns == old(turns) && !exit.value.FailedModel? && task.stop != Running
      ensures corrected ==> task.stop == RetryLimit
      ensures exit.None? ==> turns[|old(turns)|] == Turn(committed, true, AfterTool)
      ensures exit.Some? <==>
                || metadata.effectUnknown
                || (metadata.status == Rejected && metadata.code in {InvalidArguments, WorkspaceEntryUnsafe}
                    && (name, metadata.code) in old(rejections))
      ensures exit.Some? ==> task.stop == if metadata.effectUnknown then RuntimeError else RetryLimit
      ensures exit != Some(Threw(GuardLost)) && (exit == Some(Threw(CommitError)) ==> Noticed())
    {
      hide TraceOk, SessionOk, Counted, Clean, Book;
      if metadata.effectUnknown {
        var stopped := StopWith(RuntimeError);
        return Some(stopped);
      }
      var stop := AdvanceRejection(name, metadata);
      if stop {
        var stopped := StopWith(RetryLimit);
        return Some(stopped);
      }
      Again(committed, AfterTool);
      return None;
    }

    /** The tool branch of the loop. */
    method HandleTool(rawName: string, id: string, blockedAction: bool, committed: bool) returns (exit: Option<Exit>)
      requires Going() && Book() && !corrected
      modifies store, this`guard, this`blocked, this`frozenAt, this`detectedAt, this`toolAttempts, this`trace, this`task, this`report,
               this`phase, this`faults, this`used, this`rejections, this`corrected, this`corrections,
               this`turns, this`modelRetries, this`retryActions, this`recoveries, this`origin
      ensures Stoppable() && inFlight == 0 && Book()
      ensures old(task).toolSteps <= task.toolSteps <= old(task).toolSteps + 1
      ensures exit.None? ==> Going() && !corrected && |turns| == |old(turns)| + 1 && task.stop == old(task).stop
      ensures exit.None? ==> turns[|old(turns)|] == Turn(committed, true, AfterTool)
      ensures exit.Some? ==> turns == old(turns) && !exit.value.FailedModel?
      ensures exit == Some(Ended) ==> task.stop.RuntimeError? || task.stop.RetryLimit?
      ensures task.stop == old(task).stop || task.stop.RuntimeError? || task.stop.RetryLimit?
      ensures exit.None? ==>
                var name := if rawName in tools && rawName != "" then rawName else "unknown_tool";
                && name in report.nameCounts
                && report.nameCounts[name] == (if name in old(report).nameCounts then old(report).nameCounts[name] else 0) + 1
      ensures corrected ==> task.stop == RetryLimit
      ensures exit != Some(Threw(GuardLost)) && (exit == Some(Threw(CommitError)) ==> Noticed())
    {
      hide TraceOk, SessionOk, Counted, Clean, Book;
      var name := if rawName in tools && rawName != "" then rawName else "unknown_tool";
      var metadata, raised := ApplyToolAction(name, id, blockedAction);
      if raised.Some? {
        return Some(Threw(raised.value));
      }
      exit := FollowTool(name, metadata, committed);
    }

    /** The malformed-response branch: one retry per run, none after a committed stream. */
    method HandleMalformed(committed: bool) returns (exit: Option<Exit>)
      requires Going() && Book() && !corrected
      modifies store, this`guard, this`blocked, this`frozenAt, this`detectedAt, this`task,
               this`turns, this`modelRetries, this`retryActions, this`recoveries, this`origin
      ensures Stoppable() && inFlight == 0 && task.toolSteps == old(task).toolSteps && Book() && !corrected
      ensures exit.None? ==> Going() && |turns| == |old(turns)| + 1 && !committed && task.stop == old(task).stop
      ensures exit.None? ==> turns[|old(turns)|] == Turn(false, true, Malformed) && old(retryActions) == 0
      ensures committed || old(retryActions) >= 1 ==> exit.Some? && task.stop == RetryLimit
      ensures exit.Some? ==> turns == old(turns) && !exit.value.FailedModel? && (exit.value.Ended? ==> task.stop.RetryLimit?)
      ensures task.stop == old(task).stop || task.stop.RetryLimit?
      ensures exit != Some(Threw(GuardLost)) && (exit == Some(Threw(CommitError)) ==> Noticed())
    {
      hide TraceOk, SessionOk, Counted, Clean, Book;
      if committed || retryActions >= 1 {
        var stopped := StopWith(RetryLimit);
        return Some(stopped);
      }
      var written: bool := *;
      if !written {
        return Some(Threw(OtherException));
      }
      Again(committed, Malformed);
      return None;
    }

    /** The final answer: committed first, then the task is finished. */
    method HandleFinal() returns (exit: Exit)
      requires Going()
      modifies store, this`guard, this`blocked, this`frozenAt, this`detectedAt, this`task
      ensures Stoppable() && inFlight == 0 && task.toolSteps == old(task).toolSteps
      ensures !exit.FailedModel? && (exit.Ended? ==> task.stop == FinalAnswer) && (exit.Threw? ==> task == old(task))
      ensures exit.Threw? ==> exit == Threw(CommitError) && Noticed()
      ensures exit.Ended? ==>
                && |old(store.log)| < |store.log|
                && store.log[|old(store.log)|] == Entry(Run(|captures|), AssistantMessage)
    {
      hide TraceOk, SessionOk, Counted, Clean;
      ghost var at := |store.log|;
      var done := CommitGuarded([AssistantMessage]);
      if !done {
        return Threw(CommitError);
      }
      assert store.log[at] == Entry(Run(|captures|), AssistantMessage);
      SetStop(FinalAnswer);
      return Ended;
    }

    /** What the response asks for, after one more look at the Session. */
    method HandleAction(action: Action, committed: bool) returns (exit: Option<Exit>)
      requires Settled() && SessionOk() && Counted() && inFlight == 0 && !blocked && guard.Some? && Book() && !corrected
      modifies store, this`guard, this`blocked, this`frozenAt, this`detectedAt, this`toolAttempts, this`trace, this`task, this`report,
               this`phase, this`faults, this`used, this`rejections, this`corrected, this`corrections,
               this`turns, this`modelRetries, this`retryActions, this`recoveries, this`origin
      ensures Stoppable() && inFlight == 0 && Book()
      ensures old(task).toolSteps <= task.toolSteps <= old(task).toolSteps + 1
      ensures exit.None? ==> Going() && !corrected && |turns| == |old(turns)| + 1 && task.stop == old(task).stop
      ensures exit.None? ==> !action.FinalAction? && turns[|old(turns)|].cause == if action.ToolAction? then AfterTool else Malformed
      ensures exit.Some? ==> turns == old(turns) && !exit.value.FailedModel? && (exit.value.Ended? ==> EndStop(task.stop))
      ensures exit == Some(Ended) ==> (task.stop.FinalAnswer? <==> action.FinalAction?)
      ensures task.stop == old(task).stop || !task.stop.StepLimit?
      ensures corrected ==> task.stop == RetryLimit
      ensures exit == Some(Threw(GuardLost)) ==> blocked && detectedAt.Some?
      ensures exit == Some(Threw(CommitError)) ==> Noticed()
    {
      hide TraceOk, SessionOk, Counted, Clean, Book;
      var look := ValidateGuard();
      if !look.Intact? {
        return Some(Threw(if look.Differs? then GuardLost else OtherException));
      }
      match action {
        case ToolAction(name, id, blockedAction) =>
          exit := HandleTool(name, id, blockedAction, committed);
        case RetryAction =>
          exit := HandleMalformed(committed);
        case FinalAction =>
          var ended := HandleFinal();
          exit := Some(ended);
      }
    }

    /** One turn of the loop: an attempt and what it leads to. */
    method OneTurn(last: bool) returns (exit: Option<Exit>)
      requires Settled() && SessionOk() && Counted() && inFlight == 0 && !blocked && Book() && !corrected
      modifies store, this
      ensures Stoppable() && Book()
      ensures old(task).toolSteps <= task.toolSteps <= old(task).toolSteps + 1
      ensures exec.attempts <= old(exec).attempts + 19 * (|captures| - |old(captures)|)
      ensures |old(captures)| <= |captures| <= |old(captures)| + 1
      ensures exit.None? ==>
                Going() && !corrected && |captures| == |old(captures)| + 1 && |turns| == |old(turns)| + 1 && task.stop == old(task).stop
      ensures exit.Some? && !exit.value.Threw? ==> inFlight == 0
      ensures exit == Some(Ended) ==> EndStop(task.stop)
      ensures exit == Some(FailedModel) ==> task.stop == ModelErrorStop
      ensures task.stop == old(task).stop || !task.stop.StepLimit?
      ensures exit.Some? ==> turns == old(turns)
      ensures start == old(start)
      ensures corrected ==> task.stop == RetryLimit
      ensures exit == Some(Threw(GuardLost)) ==> blocked && detectedAt.Some?
      ensures exit == Some(Threw(CommitError)) ==> Noticed()
    {
      hide TraceOk, SessionOk, Counted, Clean, Book;
      var raised := BeginAttempt();
      if raised.Some? {
        return Some(Threw(raised.value));
      }
      var reply, committed := CompleteModelAttempt();
      match reply {
        case ReplyRaised(what) => exit := Some(Threw(what));
        case ModelError(retryable, contextLength) => exit := HandleModelError(retryable, contextLength, committed, last);
        case Responded(action) => exit := HandleAction(action, committed);
      }
    }

    /** Nothing has been done yet in this run. */
    ghost predicate Untouched()
      reads this, store
    {
      && trace == [] && task == TaskState(0, 0, Running) && exec == ModelExecution(0, 0, 0, 0, multiset{}) && report == EMPTY_REPORT
      && phase.Rest? && used == {} && faults == {} && auxiliary == 0 && inFlight == 0
      && start == frozenAt == |store.log| && opening == store.log && detectedAt.None? && captures == [] && toolAttempts == {} && turns == [] && rejections == []
      && !corrected && origin.Initial? && modelRetries == retryActions == recoveries == 0 && corrections == {}
      && guard.None?
    }

    /** The limits of a run. */
    ghost predicate WithinLimits()
      reads this`captures, this`task, this`exec
    {
      && (|captures| <= 3 * maxSteps || |captures| <= maxSteps + 4)
      && task.toolSteps <= maxSteps
      && exec.attempts <= 19 * |captures|
    }

    /** The closing message once steps or attempts are used up; without any attempt there is no guard yet. */
    method StopAtLimit(attempts: nat) returns (exit: Exit)
      requires Settled() && SessionOk() && Counted() && inFlight == 0 && !blocked
      requires guard.Some? || captures == []
      requires attempts == |captures| && (task.toolSteps >= maxSteps || attempts >= MaxAttempts(maxSteps))
      modifies store, this`guard, this`blocked, this`frozenAt, this`detectedAt, this`task
      ensures Stoppable() && inFlight == 0 && !exit.FailedModel?
      ensures task == old(task).(stop := if old(task).toolSteps < maxSteps then RetryLimit else StepLimit)
      ensures task.stop.RetryLimit? ==> |captures| >= 3 * maxSteps && |captures| >= maxSteps + 4
      ensures exit.Threw? ==> exit == Threw(CommitError) && Noticed()
    {
      hide TraceOk, SessionOk, Counted, Clean;
      var stop := if attempts >= MaxAttempts(maxSteps) && task.toolSteps < maxSteps then RetryLimit else StepLimit;
      if guard.Some? {
        exit := StopWith(stop);
      } else {
        SetStop(stop);
        var done := CommitUnguarded([AssistantMessage]);
        exit := if done then Ended else Threw(CommitError);
      }
    }

    /** `_run_agent_attempts`. */
    method RunAgentAttempts() returns (exit: Exit)
      requires Settled() && SessionOk() && Counted() && inFlight == 0 && !blocked && Book()
      requires captures == [] && turns == [] && !corrected && task == TaskState(0, 0, Running) && exec.attempts == 0
      modifies store, this
      ensures Stoppable() && Book() && WithinLimits()
      ensures |captures| <= 3 * maxSteps || |captures| <= maxSteps + 4
      ensures task.toolSteps <= maxSteps && exec.attempts <= 19 * |captures|
      ensures task.stop == StepLimit ==> task.toolSteps == maxSteps
      ensures !exit.Threw? ==> inFlight == 0
      ensures exit.Ended? ==> EndStop(task.stop)
      ensures exit.FailedModel? ==> task.stop == ModelErrorStop
      ensures |turns| <= |captures| && start == old(start)
      ensures corrected ==> task.stop == RetryLimit
      ensures exit == Threw(GuardLost) ==> blocked && detectedAt.Some?
      ensures exit == Threw(CommitError) ==> Noticed()
    {
      hide TraceOk, SessionOk, Counted, Clean, Book;
      var created: bool, prepared: bool := *, *;
      if !created {
        return Threw(OtherException);
      }
      EmitNeutral(OtherKind);
      if !prepared {
        return Threw(OtherException);
      }
      var attempts := 0;
      DropGuard();
      while task.toolSteps < maxSteps && attempts < MaxAttempts(maxSteps)
        invariant Settled() && SessionOk() && Counted() && inFlight == 0 && !blocked && Book() && !corrected
        invariant attempts == |captures| == |turns| && WithinLimits()
        invariant guard.Some? || captures == []
        invariant task.stop == Running && start == old(start)
        decreases MaxAttempts(maxSteps) - attempts
      {
        attempts := attempts + 1;
        var left := OneTurn(attempts == MaxAttempts(maxSteps));
        if left.Some? {
          return left.value;
        }
      }
      exit := StopAtLimit(attempts);
    }

    /** `_create_resume_checkpoint`: a Session entry and its event, or a recorded failure. */
    method CreateCheckpoint() returns (made: bool)
      requires TraceOk() && SessionOk() && !blocked
      modifies store, this`trace
      ensures TraceOk() && SessionOk() && old(store.log) <= store.log
      ensures forall i :: |old(store.log)| <= i < |store.log| && store.log[i].author.Run? ==> store.log[i].body == Checkpoint
    {
      hide InPhase, TotalsAgree, SummaryMatches, SessionFine;
      ghost var before := store.log;
      var r := store.AppendEntries(Run(|captures|), [Checkpoint], None, None);
      if r.Appended? {
        FineUnguarded(before, store.log, [Checkpoint], guard, start, frozenAt, captures, toolAttempts);
        AppendedOnly(before, store.log, [Checkpoint], |captures|);
      } else {
        FineGrows(before, store.log, guard, blocked, start, frozenAt, captures, toolAttempts);
      }
      var written: bool := *;
      made := r.Appended? && written;
      if made {
        EmitNeutral(OtherKind);
      }
    }

    /** The accepted trace a run ends with, or the reason it has none. */
    ghost predicate TraceVerdict()
      reads this`trace, this`faults, this`report
    {
      && (Accepts(trace, runId, taskId) <==> faults == {})
      && (faults == {} ==> SummaryMatches(trace, report))
      && TotalsAgree(report)
    }

    /** The `run_finished` event, and `finalization_failed` if the report could not be written. */
    method EmitRunFinished()
      requires TraceOk() && (phase.Rest? <==> faults == {})
      modifies this`trace
      ensures TraceVerdict()
    {
      hide InPhase, TotalsAgree, SummaryMatches, Accepts;
      ghost var before, r := trace, report;
      var event := NewEvent(RunFinished, None, "", "", None);
      trace := trace + [event];
      RunEnds(before, event, phase, task.attempts, used, runId, taskId);
      if SummaryMatches(before, r) {
        SummaryExtends(before, event, r);
      }
      var reported: bool := *;
      if !reported {
        ghost var ended := trace;
        var note := NewEvent(OtherKind, None, "", "", None);
        trace := trace + [note];
        RunNoted(before, event, note, phase, task.attempts, used, runId, taskId);
        if SummaryMatches(ended, r) {
          SummaryExtends(ended, note, r);
        }
      }
    }

    /** `_finalize_run`: the terminal message and the checkpoint reach the Session only while writes are not blocked. */
    method FinalizeRun(exit: Exit)
      requires Stoppable() && task.stop != Running
      modifies store, this`task, this`trace
      ensures TraceVerdict() && SessionOk() && Counted()
      ensures task == old(task) || (task == old(task).(stop := PersistenceError) && exit.Ended?)
      ensures old(store.log) <= store.log
      ensures forall i :: |old(store.log)| <= i < |store.log| && store.log[i].author.Run? ==>
                !blocked && (store.log[i].body in {Checkpoint, SessionInfo, TerminalMessage})
                && (exit.Ended? ==> store.log[i].body == Checkpoint)
    {
      hide TraceOk, SessionOk, Counted, Clean, TraceVerdict;
      if !exit.Ended? && !blocked {
        var done := CommitUnguarded([TerminalMessage]);
      }
      if !blocked {
        var made := CreateCheckpoint();
        if !made && exit.Ended? {
          SetStop(PersistenceError);
        }
      }
      EmitRunFinished();
    }

    /** The exception handlers of `_run` give every raised exit its stop reason. */
    method SettleExit(exit: Exit)
      requires Stoppable() && (!exit.Threw? ==> task.stop != Running)
      modifies this`task
      ensures Stoppable() && task.stop != Running && task == old(task).(stop := task.stop)
      ensures exit.Threw? && exit.raised.Interrupt? ==> task.stop == InterruptedStop
      ensures exit.Threw? && exit.raised.CommitError? ==> task.stop == PersistenceError
      ensures exit.Threw? && (exit.raised.GuardLost? || exit.raised.OtherException?) && old(task).stop == Running ==>
                task.stop == RuntimeError
      ensures !exit.Threw? ==> task == old(task)
      ensures task.stop.StepLimit? ==> old(task).stop.StepLimit?
    {
      hide TraceOk, SessionOk, Counted, Clean;
      if exit.Threw? {
        match exit.raised {
          case Interrupt => SetStop(InterruptedStop);
          case CommitError => SetStop(PersistenceError);
          case _ =>
            if task.stop == Running {
              SetStop(RuntimeError);
            }
        }
      }
    }

    /** The end of `_run`: the stop reason of the way out, then finalization. */
    method EndRun(exit: Exit)
      requires Stoppable() && (!exit.Threw? ==> task.stop != Running)
      modifies store, this`task, this`trace
      ensures TraceVerdict() && SessionOk() && Counted() && old(store.log) <= store.log
      ensures task == old(task).(stop := task.stop) && task.stop != Running
      ensures exit == Ended ==> task.stop == old(task).stop || task.stop == PersistenceError
      ensures exit == FailedModel ==> task.stop == old(task).stop
      ensures exit == Threw(Interrupt) ==> task.stop == InterruptedStop
      ensures exit == Threw(CommitError) ==> task.stop == PersistenceError
      ensures task.stop == StepLimit ==> old(task).stop == StepLimit
    {
      hide Stoppable, TraceVerdict, SessionOk, Counted;
      SettleExit(exit);
      FinalizeRun(exit);
    }

    /** The user's message opens the run; if it cannot be committed at the captured leaf there is no run. */
    method OpenRun() returns (begun: bool)
      requires SessionOk() && guard.None? && captures == []
      modifies store, this`guard, this`blocked, this`frozenAt, this`detectedAt
      ensures SessionOk()
      ensures begun ==>
                && !blocked && guard == Some(Guard(|store.log|, clientBinding)) && |store.log| > 0
                && exists i :: 0 <= i < |store.log| && store.log[i..] in
                     {[Entry(Run(0), UserMessage)], [Entry(Run(0), UserMessage), Entry(Run(0), SessionInfo)]}
      ensures old(blocked) ==> !begun
    {
      hide SessionOk;
      var captured := CaptureGuard();
      if !captured.Captured? {
        return false;
      }
      AdoptGuard(captured.guard);
      ghost var at := |store.log|;
      begun := CommitGuarded([UserMessage]);
      if begun {
        assert Entries(Run(0), [UserMessage]) == [Entry(Run(0), UserMessage)];
        assert Entries(Run(0), [UserMessage] + [SessionInfo]) == [Entry(Run(0), UserMessage), Entry(Run(0), SessionInfo)];
        assert store.log[at..] in
            {[Entry(Run(0), UserMessage)], [Entry(Run(0), UserMessage), Entry(Run(0), SessionInfo)]};
      }
    }

    method AdoptGuard(g: Guard)
      requires SessionOk() && captures == [] && g.leaf <= |store.log|
      modifies this`guard
      ensures SessionOk() && guard == Some(g)
    {
      guard := Some(g);
    }

    lemma StartsWell()
      requires Untouched()
      ensures Settled() && SessionOk() && Counted() && Book() && WithinLimits()
    {
      hide InPhase, TotalsAgree, SummaryMatches;
      EmptyRests(runId, taskId);
      EmptyAgrees();
    }

    lemma RulesKept()
      requires Book()
      ensures forall i :: 0 <= i < |turns| && turns[i].committed ==> turns[i].cause == AfterTool
      ensures forall i, j :: 0 <= i < j < |turns| && turns[i].cause in {Malformed, ContextRecovered} ==> turns[j].cause != turns[i].cause
      ensures forall i, j, k :: 0 <= i < j < k < |turns| && turns[i].cause == turns[j].cause == turns[k].cause == TransportRetry ==>
                exists m :: i < m < k && turns[m].cause in {AfterTool, Malformed}
      ensures forall i, j :: 0 <= i < j < |rejections| && rejections[i] == rejections[j] ==> j == |rejections| - 1 && corrected
    {
      hide Disciplined;
      RulesInFull(turns);
    }

    lemma AnswersIsolated()
      requires SessionOk()
      ensures forall i :: start <= i < |store.log| && store.log[i].author.Run? && store.log[i].author.attempt >= 1
                             && (store.log[i].body.ToolExchange? || store.log[i].body.AssistantMessage?) ==>
                var k := store.log[i].author.attempt;
                && k <= |captures| && captures[k - 1] <= i
                && (k !in toolAttempts ==> forall j :: captures[k - 1] <= j <= i ==> store.log[j].author == Run(k))
    {
      forall i | start <= i < |store.log| && store.log[i].author.Run? && store.log[i].author.attempt >= 1
                 && (store.log[i].body.ToolExchange? || store.log[i].body.AssistantMessage?)
        ensures IsolatedAt(store.log, i, captures, toolAttempts)
      {
        assert IsAnswer(store.log[i].body);
      }
    }

    lemma VerdictInFull()
      requires TraceVerdict() && Counted()
      ensures (Accepts(trace, runId, taskId) <==> faults == {}) && (faults == {} ==> SummaryMatches(trace, report))
      ensures report.calls == report.allowed + report.denied
      ensures report.denied == if Rejected in report.statusCounts then report.statusCounts[Rejected] else 0
      ensures task.attempts == exec.attempts == |exec.origins| == exec.turns + exec.failures + auxiliary + inFlight && inFlight <= 1
    {
    }

    lemma KeepsOpening()
      requires SessionOk()
      ensures opening <= store.log
    {
    }

    /** Behind a detected change the log holds nothing of the run, whoever wrote since. */
    lemma DetectionFreezes()
      requires SessionOk() && detectedAt.Some?
      ensures blocked && detectedAt.value <= |store.log|
      ensures forall i :: detectedAt.value <= i < |store.log| ==> !store.log[i].author.Run?
    {
    }

    /** `_run` behind the user's message: what RunTurn says of a run that started, for the counters and the history. */
    method RunStarted() returns (exit: Exit)
      requires Settled() && SessionOk() && Counted() && inFlight == 0 && !blocked && Book()
      requires captures == [] && turns == [] && !corrected && task == TaskState(0, 0, Running) && exec.attempts == 0
      modifies store, this
      ensures SessionOk() && start == old(start) && (exit == Threw(GuardLost) ==> detectedAt.Some?)
      ensures (Accepts(trace, runId, taskId) <==> faults == {}) && (faults == {} ==> SummaryMatches(trace, report))
      ensures report.calls == report.allowed + report.denied
      ensures report.denied == if Rejected in report.statusCounts then report.statusCounts[Rejected] else 0
      ensures task.attempts == exec.attempts == |exec.origins| == exec.turns + exec.failures + auxiliary + inFlight
      ensures inFlight <= 1 && (!exit.Threw? ==> inFlight == 0)
      ensures |captures| <= 3 * maxSteps || |captures| <= maxSteps + 4
      ensures task.toolSteps <= maxSteps && exec.attempts <= 19 * |captures|
      ensures task.stop == StepLimit ==> task.toolSteps == maxSteps
      ensures |turns| <= |captures| && forall i :: 0 <= i < |turns| && turns[i].committed ==> turns[i].cause == AfterTool
      ensures forall i, j :: 0 <= i < j < |turns| && turns[i].cause in {Malformed, ContextRecovered} ==>
                turns[j].cause != turns[i].cause
      ensures
                forall i, j, k :: 0 <= i < j < k < |turns| && turns[i].cause == turns[j].cause == turns[k].cause == TransportRetry ==>
                  exists m :: i < m < k && turns[m].cause in {AfterTool, Malformed}
      ensures forall i, j :: 0 <= i < j < |rejections| && rejections[i] == rejections[j] ==> j == |rejections| - 1 && corrected
      ensures task.stop != Running
      ensures exit == Ended ==> task.stop in {FinalAnswer, StepLimit, RetryLimit, RuntimeError, PersistenceError}
      ensures exit == FailedModel ==> task.stop == ModelErrorStop
      ensures exit == Threw(Interrupt) ==> task.stop == InterruptedStop
      ensures exit == Threw(CommitError) ==> task.stop == PersistenceError
    {
      hide TraceOk, SessionOk, Counted, Clean, Book, TraceVerdict, TotalsAgree, SummaryMatches, Accepts, Stoppable, WithinLimits, Noticed;
      exit := RunAgentAttempts();
      EndRun(exit);
      RulesKept();
      VerdictInFull();
    }

    /** MAIN RESULT, for every resolution of what providers, tools, files and other writers do. A run that starts ends with
        (1) a trace that `validate_trace` accepts exactly if none of the five faults happened, and then the report agrees with it;
        (2) every model call accounted for, and none left out on a normal or model-error exit;
        (3) attempts, tool steps and model calls within their limits;
        (4) the retry rules kept over the whole run;
        (5) each answer isolated from foreign writers, and nothing of the run behind the point where its guard found the
            Session changed;
        (6) a valid Session left a valid transcript exactly if every tool id committed was new to it. */
    method RunTurn() returns (started: bool, exit: Exit)
      requires Untouched()
      modifies store, this
      ensures started ==> (Accepts(trace, runId, taskId) <==> faults == {}) && (faults == {} ==> SummaryMatches(trace, report))
      ensures started ==> report.calls == report.allowed + report.denied
      ensures started ==> report.denied == if Rejected in report.statusCounts then report.statusCounts[Rejected] else 0
      ensures started ==> task.attempts == exec.attempts == |exec.origins| == exec.turns + exec.failures + auxiliary + inFlight
      ensures started ==> inFlight <= 1 && (!exit.Threw? ==> inFlight == 0)
      ensures started ==> |captures| <= 3 * maxSteps || |captures| <= maxSteps + 4
      ensures started ==> task.toolSteps <= maxSteps && exec.attempts <= 19 * |captures|
      ensures started && task.stop == StepLimit ==> task.toolSteps == maxSteps
      ensures started ==> |turns| <= |captures| && forall i :: 0 <= i < |turns| && turns[i].committed ==> turns[i].cause == AfterTool
      ensures started ==> forall i, j :: 0 <= i < j < |turns| && turns[i].cause in {Malformed, ContextRecovered} ==>
                turns[j].cause != turns[i].cause
      ensures started ==>
                forall i, j, k :: 0 <= i < j < k < |turns| && turns[i].cause == turns[j].cause == turns[k].cause == TransportRetry ==>
                  exists m :: i < m < k && turns[m].cause in {AfterTool, Malformed}
      ensures started ==> forall i, j :: 0 <= i < j < |rejections| && rejections[i] == rejections[j] ==> j == |rejections| - 1 && corrected
      ensures forall i :: |old(store.log)| <= i < |store.log| && store.log[i].author.Run? && store.log[i].author.attempt >= 1
                             && (store.log[i].body.ToolExchange? || store.log[i].body.AssistantMessage?) ==>
                var k := store.log[i].author.attempt;
                && k <= |captures| && captures[k - 1] <= i
                && (k !in toolAttempts ==> forall j :: captures[k - 1] <= j <= i ==> store.log[j].author == Run(k))
      ensures detectedAt.Some? ==>
                && blocked && detectedAt.value <= |store.log|
                && forall i :: detectedAt.value <= i < |store.log| ==> !store.log[i].author.Run?
      ensures started && exit == Threw(GuardLost) ==> detectedAt.Some?
      ensures old(store.log) <= store.log
      ensures Transcript.InGrammar(SessionTranscript.LogMessages(old(store.log)), true) ==>
                (Transcript.InGrammar(SessionTranscript.LogMessages(store.log), true) <==>
                 forall i :: |old(store.log)| <= i < |store.log| ==> SessionTranscript.FreshAt(store.log, i))
      ensures started ==> task.stop != Running
      ensures started && exit == Ended ==> task.stop in {FinalAnswer, StepLimit, RetryLimit, RuntimeError, PersistenceError}
      ensures started && exit == FailedModel ==> task.stop == ModelErrorStop
      ensures started && exit == Threw(Interrupt) ==> task.stop == InterruptedStop
      ensures started && exit == Threw(CommitError) ==> task.stop == PersistenceError
      ensures !started ==> trace == [] && task == TaskState(0, 0, Running)
      ensures old(blocked) ==> !started
    {
      hide TraceOk, SessionOk, Counted, Clean, Book, TraceVerdict, TotalsAgree, SummaryMatches, Accepts, Transcript.InGrammar, SessionTranscript.LogMessages;
      hide SessionTranscript.FreshAt, Stoppable, WithinLimits, Noticed, NoRunAfter;
      StartsWell();
      started := OpenRun();
      exit := Threw(OtherException);
      if started {
        exit := RunStarted();
      }
      AnswersIsolated();
      if detectedAt.Some? {
        DetectionFreezes();
      }
      KeepsOpening();
      if Transcript.InGrammar(SessionTranscript.LogMessages(old(store.log)), true) {
        SessionTranscript.AppendsKeepGrammar(old(store.log), store.log);
      }
    }
  }
}
