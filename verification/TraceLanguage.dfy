/** What a trace may look like, said without the acceptor's variables: the history of
    each tool id and of each streaming attempt, read off the trace on its own. */
module TraceLanguage {
  import opened Common
  import opened Trace

  datatype ToolFact = ToolFact(kind: Kind, name: string, status: Option<Status>)

  datatype StreamFact = StreamFact(kind: Kind, streaming: Streaming)

  predicate ConcernsTool(k: Kind) {
    k in {ToolStarted, ToolExecuted, ToolInterrupted, ToolFinished}
  }

  predicate IsToolOf(e: Event, id: string) {
    ConcernsTool(e.kind) && e.toolUseId == id
  }

  predicate IsStreamOf(e: Event, attempt: nat) {
    e.streaming.Some? && e.attempt == Some(attempt)
  }

  function ToolHistory(t: seq<Event>, id: string): seq<ToolFact> {
    if t == [] then []
    else
      var e := t[|t| - 1];
      ToolHistory(t[..|t| - 1], id)
      + if IsToolOf(e, id) then [ToolFact(e.kind, e.toolName, e.toolStatus)] else []
  }

  function StreamHistory(t: seq<Event>, attempt: nat): seq<StreamFact> {
    if t == [] then []
    else
      var e := t[|t| - 1];
      StreamHistory(t[..|t| - 1], attempt)
      + if IsStreamOf(e, attempt) then [StreamFact(e.kind, e.streaming.value)] else []
  }

  /** A started tool either is interrupted, or is executed and perhaps then finished under the same name and status. */
  predicate CompleteTool(h: seq<ToolFact>) {
    || h == []
    || (|h| == 2 && StartsTool(h) && h[1] == ToolFact(ToolInterrupted, h[0].name, Some(Interrupted)))
    || (|h| == 2 && StartsTool(h) && ExecutesTool(h))
    || (|h| == 3 && StartsTool(h) && ExecutesTool(h) && h[2] == h[1].(kind := ToolFinished))
  }

  predicate StartsTool(h: seq<ToolFact>)
    requires |h| >= 1
  {
    h[0].kind.ToolStarted? && h[0].status.None?
  }

  predicate ExecutesTool(h: seq<ToolFact>)
    requires |h| >= 2
  {
    h[1].kind.ToolExecuted? && h[1].name == h[0].name
    && h[1].status in {Some(Ok), Some(Error), Some(PartialSuccess), Some(Rejected)}
  }

  /** An attempt starts uncommitted, decodes at most one action, and ends once, in the action's state;
      it ends as a turn only after a committed action. */
  predicate CompleteStream(h: seq<StreamFact>) {
    || h == []
    || (|h| == 2 && h[0] == StreamFact(ModelRequested, Streaming(false, false, None)) && h[1].kind.ModelFailed?)
    || (|h| == 3 && h[0] == StreamFact(ModelRequested, Streaming(false, false, None)) && h[1].kind.ActionDecoded?
        && h[2].streaming == h[1].streaming
        && (h[2].kind.ModelFailed? || (h[2].kind.ModelTurn? && h[2].streaming.committed)))
  }

  /** What an event may be on its own, in its own fields. */
  predicate WellFormedEvent(e: Event, runId: string, taskId: string) {
    && e.envelope == Current
    && (runId != "" ==> e.runId == runId)
    && (taskId != "" ==> e.taskId == taskId)
    && (e.streaming.Some? ==> StreamsSoundly(e))
    && (ConcernsTool(e.kind) ==> e.toolUseId != "" && e.toolName != "")
  }

  /** A preview needs a commit, its first time is there exactly with it, and the event is about an attempt. */
  predicate StreamsSoundly(e: Event)
    requires e.streaming.Some?
  {
    var now := e.streaming.value;
    && (now.previewEmitted ==> now.committed)
    && (now.previewEmitted <==> now.firstPreviewMs.Some?)
    && (now.firstPreviewMs.Some? ==> now.firstPreviewMs.value >= 0)
    && e.kind in {ModelRequested, ActionDecoded, ModelTurn, ModelFailed}
    && e.attempt.Some? && e.attempt.value >= 1
  }

  ghost predicate WellFormedEvents(t: seq<Event>, runId: string, taskId: string) {
    && (forall i :: 0 <= i < |t| ==> WellFormedEvent(t[i], runId, taskId))
    && (forall i, j :: 0 <= i < j < |t| ==> t[i].id != t[j].id)
    && (forall i, j :: 0 <= i < j < |t| && t[i].kind.RunFinished? ==> !ConcernsTool(t[j].kind))
  }

  function RunFinishedCount(t: seq<Event>): nat {
    if t == [] then 0
    else RunFinishedCount(t[..|t| - 1]) + if t[|t| - 1].kind.RunFinished? then 1 else 0
  }

  /** The declarative language. */
  ghost predicate InLanguage(t: seq<Event>, runId: string, taskId: string) {
    && WellFormedEvents(t, runId, taskId)
    && RunFinishedCount(t) == 1
    && (forall id: string :: CompleteTool(ToolHistory(t, id)))
    && (forall a: nat :: CompleteStream(StreamHistory(t, a)))
  }

  // ----- one tool id, one attempt: what the acceptor knows about it

  datatype ToolView = Unseen | Open(name: string) | Closed(outcome: ToolOutcome, finished: bool) | BrokenTool

  datatype StreamView = Quiet | Asked | Acted(state: Streaming) | Ended | BrokenStream

  function ToolNext(v: ToolView, f: ToolFact): ToolView {
    match f.kind
    case ToolStarted => if v.Unseen? && f.status.None? then Open(f.name) else BrokenTool
    case ToolFinished =>
      if Listed(f.status) && v == Closed(ToolOutcome(f.name, f.status.value, ToolExecuted), false)
      then v.(finished := true) else BrokenTool
    case _ =>
      if v == Open(f.name) && Listed(f.status) && f.status.value.Interrupted? == f.kind.ToolInterrupted?
      then Closed(ToolOutcome(f.name, f.status.value, f.kind), false) else BrokenTool
  }

  function ToolRun(h: seq<ToolFact>): ToolView {
    if h == [] then Unseen else ToolNext(ToolRun(h[..|h| - 1]), h[|h| - 1])
  }

  function StreamNext(v: StreamView, f: StreamFact): StreamView {
    match f.kind
    case ModelRequested => if v.Quiet? && f.streaming == INITIAL then Asked else BrokenStream
    case ActionDecoded => if v.Asked? then Acted(f.streaming) else BrokenStream
    case ModelTurn => if v == Acted(f.streaming) && f.streaming.committed then Ended else BrokenStream
    case ModelFailed => if v.Asked? || v == Acted(f.streaming) then Ended else BrokenStream
    case _ => BrokenStream
  }

  function StreamRun(h: seq<StreamFact>): StreamView {
    if h == [] then Quiet else StreamNext(StreamRun(h[..|h| - 1]), h[|h| - 1])
  }

  ghost predicate ToolFactsOnly(h: seq<ToolFact>) {
    forall i :: 0 <= i < |h| ==> IsTool(h[i].kind)
  }

  /** The view of one tool determines its history. */
  lemma {:induction false} ToolRunShape(h: seq<ToolFact>)
    requires ToolFactsOnly(h)
    ensures ToolRun(h).Unseen? <==> h == []
    ensures ToolRun(h).Open? ==> |h| == 1 && StartsTool(h) && ToolRun(h).name == h[0].name
    ensures ToolRun(h).Closed? ==> CompleteTool(h) && |h| >= 2 && (|h| == 3 <==> ToolRun(h).finished)
    ensures ToolRun(h).Closed? ==> ToolRun(h).outcome.kind == h[1].kind && ToolRun(h).outcome.name == h[1].name
                                   && h[1].status == Some(ToolRun(h).outcome.status)
  {
    if h != [] { ToolRunShape(h[..|h| - 1]); }
  }

  lemma {:induction false} ToolRunComplete(h: seq<ToolFact>)
    requires ToolFactsOnly(h)
    ensures CompleteTool(h) <==> ToolRun(h).Unseen? || ToolRun(h).Closed?
  {
    ToolRunShape(h);
    if CompleteTool(h) && h != [] {
      assert h[..1][..0] == [] && h[..2][..1] == h[..1];
      assert ToolRun(h[..1]) == Open(h[0].name);
      assert ToolRun(h[..2]) == ToolNext(ToolRun(h[..1]), h[1]);
      if |h| == 2 { assert h[..2] == h; } else { assert ToolRun(h) == ToolNext(ToolRun(h[..2]), h[2]); }
    }
  }

  lemma {:induction false} StreamRunShape(h: seq<StreamFact>)
    ensures StreamRun(h).Quiet? <==> h == []
    ensures StreamRun(h).Asked? ==> h == [StreamFact(ModelRequested, INITIAL)]
    ensures StreamRun(h).Acted? ==> h == [StreamFact(ModelRequested, INITIAL), StreamFact(ActionDecoded, StreamRun(h).state)]
    ensures StreamRun(h).Ended? ==> CompleteStream(h) && h != []
  {
    if h != [] { StreamRunShape(h[..|h| - 1]); }
  }

  lemma {:induction false} StreamRunComplete(h: seq<StreamFact>)
    ensures CompleteStream(h) <==> StreamRun(h).Quiet? || StreamRun(h).Ended?
  {
    StreamRunShape(h);
    if CompleteStream(h) && h != [] {
      assert h[..1][..0] == [] && h[..2][..1] == h[..1];
      assert StreamRun(h[..1]) == Asked;
      assert StreamRun(h[..2]) == StreamNext(StreamRun(h[..1]), h[1]);
      if |h| == 2 { assert h[..2] == h; } else { assert StreamRun(h) == StreamNext(StreamRun(h[..2]), h[2]); }
    }
  }

  // ----- the acceptor's maps are the product of those views

  function ToolViewOf(s: State, id: string): ToolView {
    if id in s.pendingTools then Open(s.pendingTools[id])
    else if id in s.terminalTools then Closed(s.terminalTools[id], id in s.finishedTools)
    else Unseen
  }

  function StreamViewOf(s: State, a: nat): StreamView {
    if a in s.ended then Ended
    else if a in s.actionStates then Acted(s.actionStates[a])
    else if a in s.requested then Asked
    else Quiet
  }

  function AdvanceTool(v: ToolView, e: Event, id: string): ToolView {
    if IsToolOf(e, id) then ToolNext(v, ToolFact(e.kind, e.toolName, e.toolStatus)) else v
  }

  function AdvanceStream(v: StreamView, e: Event, a: nat): StreamView {
    if IsStreamOf(e, a) then StreamNext(v, StreamFact(e.kind, e.streaming.value)) else v
  }

  /** The tool variables show the view `tools(id)` of every id, after `ends` terminal events. */
  ghost predicate ToolsAgree(s: State, ends: nat, tools: string -> ToolView) {
    && s.pendingTools.Keys !! s.terminalTools.Keys
    && s.finishedTools <= s.terminalTools.Keys
    && s.terminal == ends
    && s.runFinished == (ends > 0)
    && (forall id: string :: ToolViewOf(s, id) == tools(id))
  }

  ghost predicate StreamsAgree(s: State, streams: nat -> StreamView) {
    && StreamShape(s)
    && (forall a: nat :: StreamViewOf(s, a) == streams(a))
  }

  ghost predicate StreamShape(s: State) {
    && s.acted == s.actionStates.Keys
    && s.acted <= s.requested && s.ended <= s.requested
    && s.requested == s.streamingAttempts.Keys
    && (forall a :: a in s.requested && a !in s.ended ==>
          s.streamingAttempts[a] == if a in s.acted then s.actionStates[a] else INITIAL)
  }

  predicate NamesStream(e: Event) {
    e.streaming.Some? ==> CarriesStreaming(e.kind) && e.attempt.Some? && e.attempt.value >= 1
  }

  predicate NamesTool(e: Event) {
    IsTool(e.kind) ==> e.toolUseId != "" && e.toolName != ""
  }

  /** The streaming checks fail exactly if the event breaks its attempt's history. */
  lemma StreamErrorExact(s: State, e: Event)
    requires StreamShape(s) && EnvelopeError(e).None? && e.streaming.Some? && NamesStream(e)
    ensures StreamNext(StreamViewOf(s, e.attempt.value), StreamFact(e.kind, e.streaming.value)).BrokenStream?
       <==> StreamingError(s, e).Some?
    ensures StreamingError(s, e) != Some(NotMonotonic)
  {
    hide EnvelopeError;
  }

  lemma StreamKeepsShape(s: State, e: Event)
    requires StreamShape(s) && e.streaming.Some? && StreamingError(s, e).None?
    ensures StreamShape(StreamStep(s, e).value)
  {
  }

  /** One streaming event moves the view of its own attempt as `StreamNext` says, and no other view. */
  lemma StreamStepViews(s: State, e: Event, b: nat)
    requires StreamShape(s) && EnvelopeError(e).None? && e.streaming.Some? && NamesStream(e)
    ensures var a := e.attempt.value;
            var v := StreamNext(StreamViewOf(s, a), StreamFact(e.kind, e.streaming.value));
            match StreamStep(s, e)
            case Success(s') =>
              && !v.BrokenStream? && StreamShape(s')
              && StreamViewOf(s', b) == (if b == a then v else StreamViewOf(s, b))
            case Failure(error) => v.BrokenStream? && error != NotMonotonic
  {
    hide StreamNext, StreamShape, StreamViewOf, StreamingError, EnvelopeError;
    StreamErrorExact(s, e);
    if StreamingError(s, e).None? {
      StreamKeepsShape(s, e);
      StreamMoves(s, e, b);
    }
  }

  lemma StreamMoves(s: State, e: Event, b: nat)
    requires StreamShape(s) && e.streaming.Some? && NamesStream(e) && StreamingError(s, e).None?
    ensures var a := e.attempt.value;
            StreamViewOf(StreamStep(s, e).value, b) ==
              if b == a then StreamNext(StreamViewOf(s, a), StreamFact(e.kind, e.streaming.value)) else StreamViewOf(s, b)
  {
  }

  /** Streaming checks reject an event exactly when it breaks its attempt's history or names no attempt. */
  lemma StreamStepExact(s: State, e: Event, before: nat -> StreamView, after: nat -> StreamView)
    requires StreamsAgree(s, before) && EnvelopeError(e).None?
    requires forall a: nat :: after(a) == AdvanceStream(before(a), e, a)
    requires forall a: nat :: !before(a).BrokenStream?
    ensures match StreamStep(s, e)
            case Success(s') => NamesStream(e) && StreamsAgree(s', after) && forall a: nat :: !after(a).BrokenStream?
            case Failure(error) => error != NotMonotonic && (NamesStream(e) ==> exists a: nat :: after(a).BrokenStream?)
  {
    if e.streaming.None? {
      forall b: nat ensures StreamViewOf(s, b) == after(b) && !after(b).BrokenStream? {
        assert StreamViewOf(s, b) == before(b);
      }
    } else if NamesStream(e) {
      hide StreamShape, StreamStep, StreamNext, StreamViewOf, EnvelopeError, CarriesStreaming;
      var a := e.attempt.value;
      StreamStepViews(s, e, a);
      assert StreamViewOf(s, a) == before(a);
      if StreamStep(s, e).Success? {
        forall b: nat ensures StreamViewOf(StreamStep(s, e).value, b) == after(b) && !after(b).BrokenStream? {
          StreamStepViews(s, e, b);
          assert StreamViewOf(s, b) == before(b);
        }
      } else {
        assert after(a).BrokenStream?;
      }
    } else {
      hide StreamsAgree, StreamNext, AdvanceStream, EnvelopeError;
      assert StreamingError(s, e) in {Some(StreamingOnInvalidEvent), Some(StreamingWithoutAttempt)};
    }
  }

  /** One tool event moves the view of its own id as `ToolNext` says, and no other view. */
  lemma ToolStepViews(s: State, e: Event, id: string)
    requires s.pendingTools.Keys !! s.terminalTools.Keys
    requires s.finishedTools <= s.terminalTools.Keys
    requires IsTool(e.kind) && NamesTool(e) && !s.runFinished
    ensures var v := ToolNext(ToolViewOf(s, e.toolUseId), ToolFact(e.kind, e.toolName, e.toolStatus));
            match ToolStep(s, e)
            case Success(s') =>
              && !v.BrokenTool?
              && ToolViewOf(s', id) == (if id == e.toolUseId then v else ToolViewOf(s, id))
              && s'.pendingTools.Keys !! s'.terminalTools.Keys
              && s'.finishedTools <= s'.terminalTools.Keys
              && s'.terminal == s.terminal && s'.runFinished == s.runFinished
            case Failure(error) => v.BrokenTool? && error != NotMonotonic
  {
  }

  /** Tool checks reject an event exactly when it breaks its id's history, lacks id or name, or comes too late. */
  lemma ToolStepExact(s: State, e: Event, ends: nat, before: string -> ToolView, after: string -> ToolView)
    requires ToolsAgree(s, ends, before)
    requires forall id: string :: after(id) == AdvanceTool(before(id), e, id)
    requires forall id: string :: !before(id).BrokenTool?
    ensures match ToolStep(s, e)
            case Success(s') =>
              && NamesTool(e) && (IsTool(e.kind) ==> ends == 0)
              && ToolsAgree(s', if e.kind.RunFinished? then ends + 1 else ends, after)
              && (forall id: string :: !after(id).BrokenTool?)
            case Failure(error) =>
              && error != NotMonotonic
              && (NamesTool(e) && (IsTool(e.kind) ==> ends == 0) ==> exists id: string :: after(id).BrokenTool?)
  {
    if IsTool(e.kind) && NamesTool(e) && !s.runFinished {
      ToolStepViews(s, e, e.toolUseId);
      assert ToolViewOf(s, e.toolUseId) == before(e.toolUseId);
      if ToolStep(s, e).Success? {
        forall id: string
          ensures ToolViewOf(ToolStep(s, e).value, id) == after(id) && !after(id).BrokenTool?
        {
          ToolStepViews(s, e, id);
          assert ToolViewOf(s, id) == before(id);
        }
      } else {
        assert after(e.toolUseId).BrokenTool?;
      }
    } else if ToolStep(s, e).Success? {
      forall id: string
        ensures ToolViewOf(ToolStep(s, e).value, id) == after(id) && !after(id).BrokenTool?
      {
        assert ToolViewOf(s, id) == before(id);
      }
    }
  }

  lemma ToolsFrame(s: State, s': State, ends: nat, tools: string -> ToolView)
    requires ToolsAgree(s, ends, tools)
    requires s' == s.(eventIds := s'.eventIds, streamingAttempts := s'.streamingAttempts,
                      actionStates := s'.actionStates, requested := s'.requested, acted := s'.acted, ended := s'.ended)
    ensures ToolsAgree(s', ends, tools)
  {
    forall id: string ensures ToolViewOf(s', id) == tools(id) {
      assert ToolViewOf(s, id) == tools(id);
    }
  }

  lemma StreamsFrame(s: State, s': State, streams: nat -> StreamView)
    requires StreamsAgree(s, streams)
    requires s'.streamingAttempts == s.streamingAttempts && s'.actionStates == s.actionStates
    requires s'.requested == s.requested && s'.acted == s.acted && s'.ended == s.ended
    ensures StreamsAgree(s', streams)
  {
    forall a: nat ensures StreamViewOf(s', a) == streams(a) {
      assert StreamViewOf(s, a) == streams(a);
    }
  }

  // ----- from views back to histories

  function ToolViews(t: seq<Event>): string -> ToolView {
    id => ToolRun(ToolHistory(t, id))
  }

  function StreamViews(t: seq<Event>): nat -> StreamView {
    (a: nat) => StreamRun(StreamHistory(t, a))
  }

  lemma HistoriesExtend(t: seq<Event>, e: Event)
    ensures forall id: string :: ToolHistory(t + [e], id)
              == ToolHistory(t, id) + if IsToolOf(e, id) then [ToolFact(e.kind, e.toolName, e.toolStatus)] else []
    ensures forall a: nat :: StreamHistory(t + [e], a)
              == StreamHistory(t, a) + if IsStreamOf(e, a) then [StreamFact(e.kind, e.streaming.value)] else []
    ensures RunFinishedCount(t + [e]) == RunFinishedCount(t) + if e.kind.RunFinished? then 1 else 0
  {
    assert (t + [e])[..|t|] == t;
  }

  lemma ToolRunExtends(h: seq<ToolFact>, f: ToolFact)
    ensures ToolRun(h + [f]) == ToolNext(ToolRun(h), f)
  {
    hide ToolNext;
    assert (h + [f])[..|h|] == h;
  }

  lemma StreamRunExtends(h: seq<StreamFact>, f: StreamFact)
    ensures StreamRun(h + [f]) == StreamNext(StreamRun(h), f)
  {
    hide StreamNext;
    assert (h + [f])[..|h|] == h;
  }

  lemma ViewsExtend(t: seq<Event>, e: Event)
    ensures forall id: string :: ToolViews(t + [e])(id) == AdvanceTool(ToolViews(t)(id), e, id)
    ensures forall a: nat :: StreamViews(t + [e])(a) == AdvanceStream(StreamViews(t)(a), e, a)
  {
    hide ToolRun, StreamRun, ToolNext, StreamNext, ToolHistory, StreamHistory, IsTool;
    HistoriesExtend(t, e);
    forall id: string ensures ToolViews(t + [e])(id) == AdvanceTool(ToolViews(t)(id), e, id) {
      var h, f := ToolHistory(t, id), ToolFact(e.kind, e.toolName, e.toolStatus);
      ToolRunExtends(h, f);
      assert h + [] == h;
    }
    forall a: nat ensures StreamViews(t + [e])(a) == AdvanceStream(StreamViews(t)(a), e, a) {
      var h := StreamHistory(t, a);
      if IsStreamOf(e, a) {
        StreamRunExtends(h, StreamFact(e.kind, e.streaming.value));
      }
      assert h + [] == h;
    }
  }

  ghost predicate IdsAgree(s: State, t: seq<Event>) {
    forall id :: id in s.eventIds <==> exists i :: 0 <= i < |t| && t[i].id == id
  }

  ghost predicate Agrees(s: State, t: seq<Event>) {
    && IdsAgree(s, t)
    && ToolsAgree(s, RunFinishedCount(t), ToolViews(t))
    && StreamsAgree(s, StreamViews(t))
  }

  /** Nothing in the trace so far is already wrong. */
  ghost predicate Unbroken(t: seq<Event>, runId: string, taskId: string) {
    && WellFormedEvents(t, runId, taskId)
    && (forall id: string :: !ToolViews(t)(id).BrokenTool?)
    && (forall a: nat :: !StreamViews(t)(a).BrokenStream?)
  }

  lemma {:induction false} RunFinishedIn(t: seq<Event>)
    ensures RunFinishedCount(t) == 0 <==> forall i :: 0 <= i < |t| ==> !t[i].kind.RunFinished?
  {
    if t != [] {
      RunFinishedIn(t[..|t| - 1]);
      assert forall i :: 0 <= i < |t| - 1 ==> t[i] == t[..|t| - 1][i];
    }
  }

  lemma WellFormedExtends(t: seq<Event>, e: Event, runId: string, taskId: string)
    ensures WellFormedEvents(t + [e], runId, taskId) <==>
            && WellFormedEvents(t, runId, taskId)
            && WellFormedEvent(e, runId, taskId)
            && (forall i :: 0 <= i < |t| ==> t[i].id != e.id)
            && (IsTool(e.kind) ==> RunFinishedCount(t) == 0)
  {
    RunFinishedIn(t);
    var u := t + [e];
    assert forall i :: 0 <= i < |t| ==> u[i] == t[i];
    assert u[|t|] == e;
    if WellFormedEvents(u, runId, taskId) {
      assert WellFormedEvents(t, runId, taskId);
      assert forall i :: 0 <= i < |t| ==> t[i].id != e.id;
    }
  }

  /** Broken stays broken. */
  lemma BreakageStays(e: Event, tools: string -> ToolView, tools': string -> ToolView,
                      streams: nat -> StreamView, streams': nat -> StreamView)
    requires forall id: string :: tools'(id) == AdvanceTool(tools(id), e, id) && !tools'(id).BrokenTool?
    requires forall a: nat :: streams'(a) == AdvanceStream(streams(a), e, a) && !streams'(a).BrokenStream?
    ensures forall id: string :: !tools(id).BrokenTool?
    ensures forall a: nat :: !streams(a).BrokenStream?
  {
    forall id: string ensures !tools(id).BrokenTool? { assert !tools'(id).BrokenTool?; }
    forall a: nat ensures !streams(a).BrokenStream? { assert !streams'(a).BrokenStream?; }
  }

  lemma UnbrokenBefore(t: seq<Event>, e: Event, runId: string, taskId: string)
    requires Unbroken(t + [e], runId, taskId)
    ensures Unbroken(t, runId, taskId)
  {
    WellFormedExtends(t, e, runId, taskId);
    ViewsExtend(t, e);
    BreakageStays(e, ToolViews(t), ToolViews(t + [e]), StreamViews(t), StreamViews(t + [e]));
  }

  lemma IdsExtend(s: State, s': State, t: seq<Event>, e: Event)
    requires IdsAgree(s, t) && s'.eventIds == s.eventIds + {e.id}
    ensures IdsAgree(s', t + [e])
  {
    var u := t + [e];
    assert u[|t|] == e;
    forall id ensures id in s'.eventIds <==> exists i :: 0 <= i < |u| && u[i].id == id {
      if id in s.eventIds {
        var i :| 0 <= i < |t| && t[i].id == id;
        assert u[i].id == id;
      }
      if i :| 0 <= i < |u| && u[i].id == id {
        if i < |t| { assert t[i].id == id; }
      }
    }
  }

  /** Streaming and tool checks together, for an event whose header is fine. */
  lemma BodyExact(s: State, e: Event, ends: nat,
                  tools: string -> ToolView, tools': string -> ToolView,
                  streams: nat -> StreamView, streams': nat -> StreamView)
    requires ToolsAgree(s, ends, tools) && StreamsAgree(s, streams) && EnvelopeError(e).None?
    requires forall id: string :: tools'(id) == AdvanceTool(tools(id), e, id) && !tools(id).BrokenTool?
    requires forall a: nat :: streams'(a) == AdvanceStream(streams(a), e, a) && !streams(a).BrokenStream?
    ensures var streamed := StreamStep(s, e);
            var named := NamesStream(e) && NamesTool(e) && (IsTool(e.kind) ==> ends == 0);
            match (if streamed.Failure? then streamed else ToolStep(streamed.value, e))
            case Success(s') =>
              && named && s'.eventIds == s.eventIds
              && ToolsAgree(s', if e.kind.RunFinished? then ends + 1 else ends, tools') && StreamsAgree(s', streams')
              && (forall id: string :: !tools'(id).BrokenTool?) && (forall a: nat :: !streams'(a).BrokenStream?)
            case Failure(error) =>
              && error != NotMonotonic
              && (named ==> (exists id: string :: tools'(id).BrokenTool?) || (exists a: nat :: streams'(a).BrokenStream?))
  {
    StreamStepExact(s, e, streams, streams');
    if StreamStep(s, e).Success? {
      var streamed := StreamStep(s, e).value;
      ToolsFrame(s, streamed, ends, tools);
      ToolStepExact(streamed, e, ends, tools, tools');
      if ToolStep(streamed, e).Success? {
        StreamsFrame(streamed, ToolStep(streamed, e).value, streams');
      }
    }
  }

  /** The header checks say that the event's own fields are fine and its id is new. */
  lemma HeaderExact(s: State, t: seq<Event>, e: Event, runId: string, taskId: string)
    requires IdsAgree(s, t)
    ensures HeaderError(s.eventIds, e, runId, taskId) != Some(NotMonotonic)
    ensures HeaderError(s.eventIds, e, runId, taskId).None? ==> EnvelopeError(e).None?
    ensures HeaderError(s.eventIds, e, runId, taskId).None? && NamesStream(e) && NamesTool(e)
       <==> WellFormedEvent(e, runId, taskId) && forall i :: 0 <= i < |t| ==> t[i].id != e.id
  {
    EnvelopeExact(e);
    NamesExact(e);
    hide StreamingMetadata, CarriesStreaming, IsTool, EnvelopeError, StreamsSoundly, NamesStream, NamesTool, ConcernsTool;
  }

  lemma EnvelopeExact(e: Event)
    ensures EnvelopeError(e) != Some(NotMonotonic)
    ensures EnvelopeError(e).None? && NamesStream(e) <==> e.envelope == Current && (e.streaming.Some? ==> StreamsSoundly(e))
  {
  }

  lemma NamesExact(e: Event)
    ensures NamesTool(e) <==> (ConcernsTool(e.kind) ==> e.toolUseId != "" && e.toolName != "")
  {
  }

  /** One step of the scan succeeds exactly when the longer trace is still unbroken. */
  lemma StepExact(s: State, t: seq<Event>, e: Event, runId: string, taskId: string)
    requires Agrees(s, t) && Unbroken(t, runId, taskId)
    ensures match Step(s, e, runId, taskId)
            case Success(s') => Agrees(s', t + [e]) && Unbroken(t + [e], runId, taskId)
            case Failure(error) => error != NotMonotonic && !Unbroken(t + [e], runId, taskId)
  {
    hide HeaderError, EnvelopeError, WellFormedEvent, WellFormedEvents, NamesStream, NamesTool, IsTool;
    hide StreamStep, ToolStep, ToolsAgree, StreamsAgree, IdsAgree, ToolViews, StreamViews, RunFinishedCount;
    hide AdvanceTool, AdvanceStream;
    WellFormedExtends(t, e, runId, taskId);
    HeaderExact(s, t, e, runId, taskId);
    if HeaderError(s.eventIds, e, runId, taskId).None? {
      var identified := s.(eventIds := s.eventIds + {e.id});
      ToolsFrame(s, identified, RunFinishedCount(t), ToolViews(t));
      StreamsFrame(s, identified, StreamViews(t));
      ViewsExtend(t, e);
      HistoriesExtend(t, e);
      BodyExact(identified, e, RunFinishedCount(t), ToolViews(t), ToolViews(t + [e]), StreamViews(t), StreamViews(t + [e]));
      if Step(s, e, runId, taskId).Success? {
        IdsExtend(s, Step(s, e, runId, taskId).value, t, e);
      }
    }
  }

  /** The scan runs through exactly the unbroken traces, and then knows every history. */
  lemma {:induction false} ScanExact(t: seq<Event>, runId: string, taskId: string)
    ensures match Scan(t, runId, taskId)
            case Success(s) => Agrees(s, t) && Unbroken(t, runId, taskId)
            case Failure(error) => error != NotMonotonic && !Unbroken(t, runId, taskId)
  {
    if t != [] {
      var before, e := t[..|t| - 1], t[|t| - 1];
      assert before + [e] == t;
      ScanExact(before, runId, taskId);
      match Scan(before, runId, taskId)
      case Success(s) => StepExact(s, before, e, runId, taskId);
      case Failure(_) => if Unbroken(t, runId, taskId) { UnbrokenBefore(before, e, runId, taskId); }
    }
  }

  /** The final checks say that no history is left half-way. */
  lemma ClosedExactly(s: State, ends: nat, tools: string -> ToolView, streams: nat -> StreamView)
    requires ToolsAgree(s, ends, tools) && StreamsAgree(s, streams)
    ensures CloseError(s).None? <==>
            && ends == 1
            && (forall id: string :: !tools(id).Open?)
            && (forall a: nat :: !streams(a).Asked? && !streams(a).Acted?)
  {
    if s.pendingTools != map[] {
      var id :| id in s.pendingTools;
      assert ToolViewOf(s, id) == tools(id);
    } else {
      forall id: string ensures !tools(id).Open? { assert ToolViewOf(s, id) == tools(id); }
    }
    if s.requested != s.ended {
      var a :| a in s.requested && a !in s.ended;
      assert StreamViewOf(s, a) == streams(a);
    } else {
      forall a: nat ensures !streams(a).Asked? && !streams(a).Acted? { assert StreamViewOf(s, a) == streams(a); }
    }
  }

  lemma CompleteViews(t: seq<Event>)
    ensures forall id: string :: CompleteTool(ToolHistory(t, id)) <==> ToolViews(t)(id).Unseen? || ToolViews(t)(id).Closed?
    ensures forall a: nat :: CompleteStream(StreamHistory(t, a)) <==> StreamViews(t)(a).Quiet? || StreamViews(t)(a).Ended?
  {
    forall id: string
      ensures CompleteTool(ToolHistory(t, id)) <==> ToolViews(t)(id).Unseen? || ToolViews(t)(id).Closed?
    {
      HistoryFacts(t, id);
      ToolRunComplete(ToolHistory(t, id));
    }
    forall a: nat
      ensures CompleteStream(StreamHistory(t, a)) <==> StreamViews(t)(a).Quiet? || StreamViews(t)(a).Ended?
    {
      StreamRunComplete(StreamHistory(t, a));
    }
  }

  lemma {:induction false} HistoryFacts(t: seq<Event>, id: string)
    ensures ToolFactsOnly(ToolHistory(t, id))
  {
    if t != [] { HistoryFacts(t[..|t| - 1], id); }
  }

  /** A trace in the language is unbroken, and an unbroken one is in the language once nothing is left open. */
  lemma LanguageByViews(t: seq<Event>, runId: string, taskId: string)
    ensures InLanguage(t, runId, taskId) <==>
            && Unbroken(t, runId, taskId)
            && RunFinishedCount(t) == 1
            && (forall id: string :: !ToolViews(t)(id).Open?)
            && (forall a: nat :: !StreamViews(t)(a).Asked? && !StreamViews(t)(a).Acted?)
  {
    CompleteViews(t);
    if InLanguage(t, runId, taskId) {
      forall id: string ensures !ToolViews(t)(id).Open? && !ToolViews(t)(id).BrokenTool? {
        assert CompleteTool(ToolHistory(t, id));
      }
      forall a: nat ensures !StreamViews(t)(a).Asked? && !StreamViews(t)(a).Acted? && !StreamViews(t)(a).BrokenStream? {
        assert CompleteStream(StreamHistory(t, a));
      }
    } else if (forall id: string :: !ToolViews(t)(id).Open? && !ToolViews(t)(id).BrokenTool?)
              && (forall a: nat :: !StreamViews(t)(a).Asked? && !StreamViews(t)(a).Acted? && !StreamViews(t)(a).BrokenStream?) {
      forall id: string ensures CompleteTool(ToolHistory(t, id)) { assert !ToolViews(t)(id).Open?; }
      forall a: nat ensures CompleteStream(StreamHistory(t, a)) { assert !StreamViews(t)(a).Asked?; }
    }
  }

  /** MAIN RESULT: the one-pass acceptor accepts exactly the declarative language. */
  lemma AcceptsExactly(t: seq<Event>, runId: string, taskId: string)
    ensures Accepts(t, runId, taskId) <==> InLanguage(t, runId, taskId)
  {
    ScanExact(t, runId, taskId);
    LanguageByViews(t, runId, taskId);
    if Scan(t, runId, taskId).Success? {
      ClosedExactly(Scan(t, runId, taskId).value, RunFinishedCount(t), ToolViews(t), StreamViews(t));
    }
  }

  /** The monotonicity check never decides: no trace is rejected by it that the earlier checks let through. */
  lemma MonotonicityNeverRejects(t: seq<Event>, runId: string, taskId: string)
    ensures Verdict(t, runId, taskId) != Some(NotMonotonic)
  {
    ScanExact(t, runId, taskId);
  }

  // ----- what acceptance says about single events

  lemma {:induction false} FactIn(t: seq<Event>, i: nat)
    requires i < |t| && ConcernsTool(t[i].kind)
    ensures ToolFact(t[i].kind, t[i].toolName, t[i].toolStatus) in ToolHistory(t, t[i].toolUseId)
  {
    if i < |t| - 1 {
      FactIn(t[..|t| - 1], i);
    }
  }

  /** Every tool event of an accepted trace names its tool and has a status its kind allows. */
  lemma AcceptedStatuses(t: seq<Event>, runId: string, taskId: string, i: nat)
    requires Accepts(t, runId, taskId) && i < |t|
    ensures t[i].kind.ToolStarted? ==> t[i].toolStatus == None
    ensures t[i].kind.ToolExecuted? || t[i].kind.ToolFinished? ==>
              t[i].toolStatus in {Some(Ok), Some(Error), Some(PartialSuccess), Some(Rejected)}
    ensures t[i].kind.ToolInterrupted? ==> t[i].toolStatus == Some(Interrupted)
    ensures ConcernsTool(t[i].kind) ==> t[i].toolUseId != "" && t[i].toolName != ""
  {
    AcceptsExactly(t, runId, taskId);
    assert WellFormedEvent(t[i], runId, taskId);
    if ConcernsTool(t[i].kind) {
      FactIn(t, i);
      assert CompleteTool(ToolHistory(t, t[i].toolUseId));
    }
  }

  // ----- which error is reported

  /** The first event that cannot be let through decides the verdict. */
  lemma FirstFault(t: seq<Event>, e: Event, more: seq<Event>, runId: string, taskId: string) returns (s: State)
    requires Unbroken(t, runId, taskId)
    ensures Agrees(s, t)
    ensures Step(s, e, runId, taskId).Failure? ==>
              Verdict(t + [e] + more, runId, taskId) == Some(Step(s, e, runId, taskId).error)
  {
    hide Step, Unbroken, Agrees;
    var whole := t + [e] + more;
    ScanExact(t, runId, taskId);
    s := Scan(t, runId, taskId).value;
    assert (t + [e])[..|t|] == t;
    assert whole[..|t| + 1] == t + [e];
    if Step(s, e, runId, taskId).Failure? {
      ScanSticks(whole, |t| + 1, runId, taskId);
    }
  }

  /** A preview that was not committed, that has no first time or a negative one, or a first time without a preview. */
  predicate UnsoundMetadata(now: Streaming) {
    || (now.previewEmitted && (!now.committed || now.firstPreviewMs.None?))
    || (now.firstPreviewMs.Some? && (!now.previewEmitted || now.firstPreviewMs.value < 0))
  }

  /** An envelope of today with an id not seen before, of this run and this task. */
  ghost predicate HeaderFine(t: seq<Event>, e: Event, runId: string, taskId: string) {
    && e.envelope.Current? && (e.streaming.Some? ==> !UnsoundMetadata(e.streaming.value))
    && (forall i :: 0 <= i < |t| ==> t[i].id != e.id)
    && (runId == "" || runId == e.runId) && (taskId == "" || taskId == e.taskId)
  }

  /** Faults of the header: the envelope first, then the id, the run, the task. */
  lemma HeaderDecides(t: seq<Event>, e: Event, more: seq<Event>, runId: string, taskId: string)
    requires Unbroken(t, runId, taskId)
    ensures e.envelope.Legacy? ==> Verdict(t + [e] + more, runId, taskId) == Some(LegacyContract)
    ensures e.envelope.UnknownFields? ==> Verdict(t + [e] + more, runId, taskId) == Some(UnknownFieldNames)
    ensures e.envelope.OldSchema? ==> Verdict(t + [e] + more, runId, taskId) == Some(SchemaMigration)
    ensures e.envelope.Unsafe? ==> Verdict(t + [e] + more, runId, taskId) == Some(UnsafeMetadata)
    ensures e.envelope.Current? && e.streaming.Some? && UnsoundMetadata(e.streaming.value) ==>
              Verdict(t + [e] + more, runId, taskId) == Some(UnsafeMetadata)
    ensures e.envelope.Current? && (e.streaming.Some? ==> !UnsoundMetadata(e.streaming.value)) ==>
              && ((exists i :: 0 <= i < |t| && t[i].id == e.id) ==>
                    Verdict(t + [e] + more, runId, taskId) == Some(DuplicateEventId))
              && ((forall i :: 0 <= i < |t| ==> t[i].id != e.id) && runId != "" && e.runId != runId ==>
                    Verdict(t + [e] + more, runId, taskId) == Some(RunIdMismatch))
              && ((forall i :: 0 <= i < |t| ==> t[i].id != e.id) && (runId == "" || e.runId == runId)
                  && taskId != "" && e.taskId != taskId ==>
                    Verdict(t + [e] + more, runId, taskId) == Some(TaskIdMismatch))
  {
    hide StreamStep, ToolStep, Unbroken, ToolsAgree, StreamsAgree, Verdict;
    var s := FirstFault(t, e, more, runId, taskId);
  }

  /** What the scan's variables know about the history of one attempt. */
  lemma AttemptKnown(s: State, t: seq<Event>, a: nat)
    requires StreamsAgree(s, StreamViews(t)) && !StreamViews(t)(a).BrokenStream?
    ensures var h := StreamHistory(t, a);
            && (a in s.requested <==> h != [])
            && (a in s.ended <==> h != [] && (h[|h| - 1].kind.ModelTurn? || h[|h| - 1].kind.ModelFailed?))
            && (a !in s.ended ==> (a in s.acted <==> |h| == 2) && (a in s.actionStates <==> |h| == 2) && |h| <= 2)
            && (a !in s.ended && |h| == 2 ==> s.actionStates[a] == h[1].streaming)
            && (a in s.ended ==> |h| >= 2)
  {
    StreamRunShape(StreamHistory(t, a));
    assert StreamViewOf(s, a) == StreamViews(t)(a);
  }

  /** Faults of the streaming fields, behind a fine header, by the history of the attempt so far. */
  lemma StreamingDecides(t: seq<Event>, e: Event, more: seq<Event>, runId: string, taskId: string)
    requires Unbroken(t, runId, taskId) && HeaderFine(t, e, runId, taskId) && e.streaming.Some?
    ensures var v := Verdict(t + [e] + more, runId, taskId);
            var now := e.streaming.value;
            if e.kind !in {ModelRequested, ActionDecoded, ModelTurn, ModelFailed} then v == Some(StreamingOnInvalidEvent)
            else if e.attempt.None? || e.attempt.value == 0 then v == Some(StreamingWithoutAttempt)
            else
              var h := StreamHistory(t, e.attempt.value);
              var over := h != [] && h[|h| - 1].kind in {ModelTurn, ModelFailed};
              && (e.kind.ModelRequested? && (now.committed || now.previewEmitted || now.firstPreviewMs.Some?) ==>
                    v == Some(StreamingNotInitial))
              && (e.kind.ModelRequested? && now == Streaming(false, false, None) && h != [] ==>
                    v == Some(DuplicateInitialState))
              && (!e.kind.ModelRequested? && h == [] ==> v == Some(NoInitialState))
              && (e.kind.ActionDecoded? && |h| >= 2 ==> v == Some(ActionLifecycle))
              && (e.kind in {ModelTurn, ModelFailed} && over ==> v == Some(DuplicateTerminalState))
              && (e.kind.ModelTurn? && h != [] && !over && (|h| == 1 || !now.committed) ==> v == Some(SuccessLifecycle))
              && (e.kind.ModelTurn? && !over && |h| == 2 && now.committed && h[1].streaming != now ==>
                    v == Some(TerminalDiffersFromAction))
              && (e.kind.ModelFailed? && !over && |h| == 2 && h[1].streaming != now ==>
                    v == Some(TerminalDiffersFromAction))
  {
    hide ToolStep, Unbroken, ToolsAgree, StreamsAgree, Verdict, Regresses, StreamHistory, EnvelopeError, IdsAgree;
    var s := FirstFault(t, e, more, runId, taskId);
    HeaderPasses(s, t, e, runId, taskId);
    var identified := s.(eventIds := s.eventIds + {e.id});
    if e.attempt.Some? && e.attempt.value >= 1 {
      UnbrokenStream(t, runId, taskId, e.attempt.value);
      AttemptKnown(s, t, e.attempt.value);
    }
  }

  lemma UnbrokenStream(t: seq<Event>, runId: string, taskId: string, a: nat)
    requires Unbroken(t, runId, taskId)
    ensures !StreamViews(t)(a).BrokenStream?
  {
  }

  lemma UnbrokenTool(t: seq<Event>, runId: string, taskId: string, id: string)
    requires Unbroken(t, runId, taskId)
    ensures !ToolViews(t)(id).BrokenTool?
  {
  }

  lemma HeaderPasses(s: State, t: seq<Event>, e: Event, runId: string, taskId: string)
    requires IdsAgree(s, t) && HeaderFine(t, e, runId, taskId)
    ensures HeaderError(s.eventIds, e, runId, taskId).None?
  {
  }

  /** What the scan's variables know about the history of one tool id. */
  lemma ToolKnown(s: State, t: seq<Event>, id: string)
    requires ToolsAgree(s, RunFinishedCount(t), ToolViews(t)) && !ToolViews(t)(id).BrokenTool?
    ensures var h := ToolHistory(t, id);
            && (id in s.pendingTools || id in s.terminalTools <==> h != [])
            && (id in s.pendingTools <==> |h| == 1)
            && (|h| == 1 ==> s.pendingTools[id] == h[0].name)
            && (id in s.terminalTools <==> |h| >= 2)
            && (|h| >= 2 ==> h[1].status.Some?
                             && s.terminalTools[id] == ToolOutcome(h[1].name, h[1].status.value, h[1].kind))
            && (id in s.finishedTools <==> |h| == 3) && |h| <= 3
            && (s.runFinished <==> exists i :: 0 <= i < |t| && t[i].kind.RunFinished?)
  {
    HistoryFacts(t, id);
    ToolRunShape(ToolHistory(t, id));
    RunFinishedIn(t);
    assert ToolViewOf(s, id) == ToolViews(t)(id);
  }

  /** Faults of a tool event, behind a fine header, by the history of its id so far. */
  lemma ToolDecides(t: seq<Event>, e: Event, more: seq<Event>, runId: string, taskId: string)
    requires Unbroken(t, runId, taskId) && HeaderFine(t, e, runId, taskId) && e.streaming.None? && ConcernsTool(e.kind)
    ensures var v := Verdict(t + [e] + more, runId, taskId);
            var h := ToolHistory(t, e.toolUseId);
            if exists i :: 0 <= i < |t| && t[i].kind.RunFinished? then v == Some(ToolAfterTerminal)
            else if e.toolUseId == "" || e.toolName == "" then v == Some(ToolFieldsIncomplete)
            else if e.kind.ToolStarted? then e.toolStatus.Some? || h != [] ==> v == Some(ToolLifecycle)
            else if e.toolStatus !in {Some(Ok), Some(Error), Some(PartialSuccess), Some(Rejected), Some(Interrupted)} then
              v == Some(ToolStatusInvalid)
            else if e.kind.ToolFinished? then
              |h| != 2 || !h[1].kind.ToolExecuted? || h[1].name != e.toolName || h[1].status != e.toolStatus ==>
                v == Some(ToolLifecycle)
            else
              |h| != 1 || h[0].name != e.toolName || (e.kind.ToolInterrupted? != (e.toolStatus == Some(Interrupted))) ==>
                v == Some(ToolLifecycle)
  {
    hide Unbroken, ToolsAgree, StreamsAgree, Verdict, ToolHistory, EnvelopeError, IdsAgree, HeaderError;
    var s := FirstFault(t, e, more, runId, taskId);
    HeaderPasses(s, t, e, runId, taskId);
    UnbrokenTool(t, runId, taskId, e.toolUseId);
    ToolKnown(s, t, e.toolUseId);
    var h := ToolHistory(t, e.toolUseId);
    if |h| >= 2 && e.toolStatus.Some? && h[1].status.value == e.toolStatus.value {
      assert h[1].status == e.toolStatus;
    }
  }

  /** Faults of the end: the number of endings first, then an open tool, then an attempt half-way. */
  lemma EndDecides(t: seq<Event>, runId: string, taskId: string)
    requires t != [] && Unbroken(t, runId, taskId)
    ensures RunFinishedCount(t) != 1 ==> Verdict(t, runId, taskId) == Some(TerminalCount)
    ensures RunFinishedCount(t) == 1 && (exists id: string :: |ToolHistory(t, id)| == 1) ==>
              Verdict(t, runId, taskId) == Some(ToolsOpen)
    ensures RunFinishedCount(t) == 1 && (forall id: string :: |ToolHistory(t, id)| != 1)
            && (exists a: nat :: !CompleteStream(StreamHistory(t, a))) ==>
              Verdict(t, runId, taskId) == Some(StreamingOpen)
  {
    hide Unbroken, ToolsAgree, StreamsAgree, CompleteStream, ToolHistory, StreamHistory, Scan, RunFinishedCount, IdsAgree;
    ScanExact(t, runId, taskId);
    var s := Scan(t, runId, taskId).value;
    assert s.terminal == RunFinishedCount(t) by { TerminalKnown(s, t); }
    if id: string :| |ToolHistory(t, id)| == 1 {
      UnbrokenTool(t, runId, taskId, id);
      ToolKnown(s, t, id);
    } else if s.pendingTools != map[] {
      var id :| id in s.pendingTools;
      UnbrokenTool(t, runId, taskId, id);
      ToolKnown(s, t, id);
    } else if a: nat :| !CompleteStream(StreamHistory(t, a)) {
      AttemptOpen(s, t, a);
    }
  }

  lemma TerminalKnown(s: State, t: seq<Event>)
    requires Agrees(s, t)
    ensures s.terminal == RunFinishedCount(t)
  {
  }

  lemma AttemptOpen(s: State, t: seq<Event>, a: nat)
    requires StreamsAgree(s, StreamViews(t)) && !CompleteStream(StreamHistory(t, a))
    ensures s.requested != s.ended
  {
    hide CompleteStream, StreamHistory, StreamRun;
    CompleteViews(t);
    assert StreamViewOf(s, a) == StreamViews(t)(a);
  }
}
