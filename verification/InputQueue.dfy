/** The input queue of pony/cli/input_queue.py: several threads, one lock, one worker at a time, one confirmation.
    Every lock-protected region is one atomic action; a run is any sequence of enabled actions. */
module InputQueue {
  import opened Common

  const MAX_PENDING_INPUTS := 5

  type Input = string

  /** What became of an accepted input that is no longer pending. */
  datatype Fate = Claimed | Discarded | NotStarted

  datatype Settled = Settled(input: Input, fate: Fate)

  datatype Request = Request(answered: bool, accepted: bool)

  datatype State = State(
    pending: seq<Input>,
    busy: bool,
    closing: bool,
    terminal: bool,
    confirmation: Option<nat>,    // the open request
    requests: seq<Request>,       // every request registered so far
    spawning: seq<nat>,           // workers created but not yet started, by the index of their input in `settled`
    running: seq<Input>,          // live workers, by the input they hold
    accepted: seq<Input>,         // every input accepted, in order
    settled: seq<Settled>,        // those no longer pending, in order
    numbers: seq<nat>)            // the acceptance numbers of the settled inputs, then of the pending ones

  const START := State([], false, false, false, None, [], [], [], [], [], [])

  datatype Action =
    | Submit(input: Input)
    | WorkerStarts
    | StartFails
    | Clear
    | WorkerContinues(worker: nat)        // `process` returned None
    | WorkerFinishes(worker: nat)         // `process` returned a result or raised
    | Register                            // `confirm` up to the wait
    | Answer(yes: bool)
    | Close

  datatype Status = Started | Queued | Full | Closed

  function SubmitStatus(s: State): Status {
    if s.closing || s.terminal then Closed
    else if !s.busy then Started
    else if |s.pending| == MAX_PENDING_INPUTS then Full
    else Queued
  }

  function Dropped(pending: seq<Input>): seq<Settled> {
    if pending == [] then [] else [Settled(pending[0], Discarded)] + Dropped(pending[1..])
  }

  /** The numbers with one put in place i. */
  function PutAt(numbers: seq<nat>, i: nat, number: nat): seq<nat> {
    if i <= |numbers| then numbers[..i] + [number] + numbers[i..] else numbers + [number]
  }

  function AnswerRequest(s: State, yes: bool): State {
    if s.confirmation.None? || s.confirmation.value >= |s.requests| then s
    else s.(confirmation := None, requests := s.requests[s.confirmation.value := Request(true, yes)])
  }

  predicate Enabled(s: State, a: Action) {
    match a
    case WorkerStarts => s.spawning != [] && s.spawning[0] < |s.settled|
    case StartFails => s.spawning != [] && s.spawning[0] < |s.settled|
    case WorkerContinues(w) => w < |s.running|
    case WorkerFinishes(w) => w < |s.running|
    case _ => true
  }

  function Step(s: State, a: Action): State
    requires Enabled(s, a)
  {
    match a
    case Submit(input) =>
      (match SubmitStatus(s)
       case Started => s.(busy := true, spawning := s.spawning + [|s.settled|], accepted := s.accepted + [input],
                          settled := s.settled + [Settled(input, Claimed)],
                          numbers := PutAt(s.numbers, |s.settled|, |s.accepted|))
       case Queued => s.(pending := s.pending + [input], accepted := s.accepted + [input],
                         numbers := s.numbers + [|s.accepted|])
       case _ => s)
    case WorkerStarts =>
      s.(spawning := s.spawning[1..], running := s.running + [s.settled[s.spawning[0]].input])
    case StartFails =>
      var i := s.spawning[0];
      s.(busy := false, spawning := s.spawning[1..], settled := s.settled[i := s.settled[i].(fate := NotStarted)])
    case Clear =>
      s.(pending := [], settled := s.settled + Dropped(s.pending))
    case WorkerContinues(w) =>
      if s.pending != [] && !s.closing then
        s.(pending := s.pending[1..], running := s.running[w := s.pending[0]],
           settled := s.settled + [Settled(s.pending[0], Claimed)])
      else s.(busy := false, running := s.running[..w] + s.running[w + 1..])
    case WorkerFinishes(w) =>
      s.(terminal := true, busy := false, pending := [], settled := s.settled + Dropped(s.pending),
         running := s.running[..w] + s.running[w + 1..])
    case Register =>
      if s.closing || s.confirmation.Some? then s
      else s.(confirmation := Some(|s.requests|), requests := s.requests + [Request(false, false)])
    case Answer(yes) => AnswerRequest(s, yes)
    case Close =>
      AnswerRequest(s, false).(closing := true, pending := [], settled := s.settled + Dropped(s.pending), confirmation := None)
  }

  // ----- runs

  /** The states of a run, START first. */
  ghost predicate IsRun(states: seq<State>, actions: seq<Action>) {
    && |states| == |actions| + 1 && states[0] == START
    && forall i :: 0 <= i < |actions| ==> Enabled(states[i], actions[i]) && states[i + 1] == Step(states[i], actions[i])
  }

  /** A thread failed to start while other inputs had queued up behind it. */
  predicate Orphans(s: State, a: Action) {
    a.StartFails? && s.pending != []
  }

  /** A worker is started for a new input while earlier ones are still pending. */
  predicate Overtakes(s: State, a: Action) {
    a.Submit? && SubmitStatus(s).Started? && s.pending != []
  }

  function Inputs(settled: seq<Settled>): seq<Input> {
    if settled == [] then [] else Inputs(settled[..|settled| - 1]) + [settled[|settled| - 1].input]
  }

  ghost predicate PendingIsServed(s: State) {
    s.pending != [] ==> s.busy
  }

  ghost predicate Confirmations(s: State) {
    && (s.confirmation.Some? ==> !s.closing && s.confirmation.value < |s.requests|)
    && (forall id :: 0 <= id < |s.requests| ==> (!s.requests[id].answered <==> s.confirmation == Some(id)))
    && (forall id :: 0 <= id < |s.requests| && s.requests[id].accepted ==> s.requests[id].answered)
  }

  /** The queue is bounded, at most one worker exists, and nothing waits after the end. */
  ghost predicate Workers(s: State) {
    && |s.pending| <= MAX_PENDING_INPUTS
    && |s.spawning| + |s.running| == (if s.busy then 1 else 0)
    && (s.closing || s.terminal ==> s.pending == [])
    && (s.terminal ==> !s.busy)
    && (s.spawning != [] ==> s.spawning[0] < |s.settled| && s.settled[s.spawning[0]].fate.Claimed?)
  }

  /** What holds of every state, thread starts failing or not. */
  ghost predicate Sound(s: State) {
    Workers(s) && Confirmations(s)
  }

  /** Everything accepted, in the order in which it is or will be settled. */
  function Line(s: State): seq<Input> {
    Inputs(s.settled) + s.pending
  }

  /** Every accepted input is settled or pending, once, and `numbers` says which is which. */
  ghost predicate Tracks(s: State) {
    && |s.numbers| == |s.accepted| == |Line(s)| == |s.settled| + |s.pending|
    && (forall k :: 0 <= k < |s.numbers| ==> s.numbers[k] < |s.accepted| && s.accepted[s.numbers[k]] == Line(s)[k])
    && Distinct(s.numbers)
  }

  /** First come, first served. */
  ghost predicate InOrder(s: State) {
    forall k :: 0 <= k < |s.numbers| ==> s.numbers[k] == k
  }

  lemma {:induction false} InputsAppend(a: seq<Settled>, b: seq<Settled>)
    ensures Inputs(a + b) == Inputs(a) + Inputs(b)
  {
    if b == [] {
      assert a + b == a;
    } else {
      assert (a + b)[..|a + b| - 1] == a + b[..|b| - 1];
      InputsAppend(a, b[..|b| - 1]);
    }
  }

  lemma {:induction false} InputsDropped(pending: seq<Input>)
    ensures Inputs(Dropped(pending)) == pending
  {
    if pending != [] {
      InputsDropped(pending[1..]);
      InputsAppend([Settled(pending[0], Discarded)], Dropped(pending[1..]));
      assert Inputs([Settled(pending[0], Discarded)]) == [pending[0]];
    }
  }

  lemma {:induction false} InputsUpdate(a: seq<Settled>, i: nat, fate: Fate)
    requires i < |a|
    ensures Inputs(a[i := a[i].(fate := fate)]) == Inputs(a)
  {
    var n := |a| - 1;
    if i < n {
      assert a[i := a[i].(fate := fate)][..n] == a[..n][i := a[..n][i].(fate := fate)];
      InputsUpdate(a[..n], i, fate);
    } else {
      assert a[i := a[i].(fate := fate)][..n] == a[..n];
    }
  }

  lemma StepWorkers(s: State, a: Action)
    requires Workers(s) && Enabled(s, a)
    ensures Workers(Step(s, a))
  {
    match a
    case Submit(_) =>
    case WorkerStarts =>
    case StartFails =>
    case Clear =>
    case WorkerContinues(_) =>
    case WorkerFinishes(_) =>
    case Register =>
    case Answer(_) =>
    case Close =>
  }

  lemma StepConfirmations(s: State, a: Action)
    requires Confirmations(s) && Enabled(s, a)
    ensures Confirmations(Step(s, a))
  {
  }

  lemma ClaimKeeps(settled: seq<Settled>, input: Input)
    ensures Inputs(settled + [Settled(input, Claimed)]) == Inputs(settled) + [input]
  {
    assert (settled + [Settled(input, Claimed)])[..|settled|] == settled;
  }

  lemma DropKeeps(settled: seq<Settled>, pending: seq<Input>)
    ensures Inputs(settled + Dropped(pending)) == Inputs(settled) + pending
  {
    InputsDropped(pending);
    InputsAppend(settled, Dropped(pending));
  }

  /** Only a submission changes the line. */
  lemma LineStays(s: State, a: Action)
    requires Enabled(s, a) && !a.Submit?
    ensures Line(Step(s, a)) == Line(s) && |Step(s, a).settled| + |Step(s, a).pending| == |s.settled| + |s.pending|
    ensures Step(s, a).numbers == s.numbers && Step(s, a).accepted == s.accepted
  {
    hide Inputs, Dropped;
    DropKeeps(s.settled, s.pending);
    DroppedAre(s.pending);
    match a {
      case WorkerStarts =>
      case StartFails =>
        InputsUpdate(s.settled, s.spawning[0], NotStarted);
      case Clear =>
      case WorkerContinues(_) =>
        if s.pending != [] {
          ClaimKeeps(s.settled, s.pending[0]);
          assert s.pending == [s.pending[0]] + s.pending[1..];
        }
      case WorkerFinishes(_) =>
      case Register =>
      case Answer(_) =>
      case Close =>
    }
  }

  lemma {:induction false} DroppedAre(pending: seq<Input>)
    ensures |Dropped(pending)| == |pending|
    ensures forall k :: 0 <= k < |pending| ==> Dropped(pending)[k] == Settled(pending[k], Discarded)
  {
    if pending != [] { DroppedAre(pending[1..]); }
  }

  lemma {:induction false} InputsLength(settled: seq<Settled>)
    ensures |Inputs(settled)| == |settled|
  {
    if settled != [] { InputsLength(settled[..|settled| - 1]); }
  }

  lemma PutTracks(numbers: seq<nat>, i: nat)
    requires i <= |numbers| && Distinct(numbers) && forall k :: 0 <= k < |numbers| ==> numbers[k] < |numbers|
    ensures Distinct(PutAt(numbers, i, |numbers|))
  {
  }

  /** A submission that starts a worker puts its input behind the settled ones, one that queues behind all. */
  lemma SubmitTracks(s: State, input: Input)
    requires Tracks(s)
    ensures Tracks(Step(s, Submit(input)))
    ensures SubmitStatus(s).Started? ==>
              Line(Step(s, Submit(input))) == Inputs(s.settled) + [input] + s.pending
  {
    hide Inputs;
    InputsLength(s.settled);
    match SubmitStatus(s) {
      case Started =>
        ClaimKeeps(s.settled, input);
        PutTracks(s.numbers, |s.settled|);
      case Queued =>
        assert Line(Step(s, Submit(input))) == Line(s) + [input];
      case _ =>
    }
  }

  lemma StepTracks(s: State, a: Action)
    requires Enabled(s, a) && Tracks(s)
    ensures Tracks(Step(s, a))
  {
    hide Line, Step;
    if a.Submit? { SubmitTracks(s, a.input); } else { LineStays(s, a); }
  }

  /** The order is kept by every locked region but one: a submission that starts a worker past pending inputs. */
  lemma StepInOrder(s: State, a: Action)
    requires Enabled(s, a) && Tracks(s)
    ensures InOrder(Step(s, a)) <==> InOrder(s) && !Overtakes(s, a)
  {
    hide Line;
    if a.Submit? {
      var s' := Step(s, a);
      if SubmitStatus(s).Started? {
        assert s'.numbers[|s.settled|] == |s.accepted|;
        assert s.numbers == s'.numbers[..|s.settled|] + s'.numbers[|s.settled| + 1..];
      } else if SubmitStatus(s).Queued? {
        assert s.numbers == s'.numbers[..|s.numbers|];
      }
    } else {
      LineStays(s, a);
    }
  }

  lemma {:induction false} AlwaysSound(states: seq<State>, actions: seq<Action>, i: nat)
    requires IsRun(states, actions) && i < |states|
    ensures Sound(states[i])
    ensures |states[i].pending| <= 5 && |states[i].spawning| + |states[i].running| <= 1
  {
    if i > 0 {
      AlwaysSound(states, actions, i - 1);
      StepWorkers(states[i - 1], actions[i - 1]);
      StepConfirmations(states[i - 1], actions[i - 1]);
    }
  }

  lemma {:induction false} ServedUntil(states: seq<State>, actions: seq<Action>, i: nat)
    requires IsRun(states, actions) && i < |states|
    requires forall k :: 0 <= k < i ==> !Orphans(states[k], actions[k])
    ensures PendingIsServed(states[i])
  {
    if i > 0 {
      ServedUntil(states, actions, i - 1);
      AlwaysSound(states, actions, i - 1);
      StepServes(states[i - 1], actions[i - 1]);
    }
  }

  lemma StepServes(s: State, a: Action)
    requires Workers(s) && Enabled(s, a) && PendingIsServed(s) && !Orphans(s, a)
    ensures PendingIsServed(Step(s, a))
  {
  }

  /** MAIN RESULT: pending inputs always have a worker to come, through every interleaving, exactly if no thread start
      failed with inputs queued behind it. */
  lemma ServedExactly(states: seq<State>, actions: seq<Action>)
    requires IsRun(states, actions)
    ensures (forall i :: 0 <= i < |states| ==> PendingIsServed(states[i]))
       <==> (forall k :: 0 <= k < |actions| ==> !Orphans(states[k], actions[k]))
  {
    if forall k :: 0 <= k < |actions| ==> !Orphans(states[k], actions[k]) {
      forall i | 0 <= i < |states| ensures PendingIsServed(states[i]) { ServedUntil(states, actions, i); }
    } else {
      var k :| 0 <= k < |actions| && Orphans(states[k], actions[k]);
      assert states[k + 1] == Step(states[k], actions[k]);
      assert !PendingIsServed(states[k + 1]);
    }
  }

  lemma {:induction false} AlwaysTracks(states: seq<State>, actions: seq<Action>, i: nat)
    requires IsRun(states, actions) && i < |states|
    ensures Tracks(states[i])
  {
    if i > 0 {
      AlwaysTracks(states, actions, i - 1);
      StepTracks(states[i - 1], actions[i - 1]);
    }
  }

  /** MAIN RESULT: at any point of any run, inputs have been and will be settled in the order of their acceptance exactly if
      no submission so far started a worker past pending inputs. */
  lemma {:induction false} TakenInOrder(states: seq<State>, actions: seq<Action>, i: nat)
    requires IsRun(states, actions) && i < |states|
    ensures InOrder(states[i]) <==> (forall k :: 0 <= k < i ==> !Overtakes(states[k], actions[k]))
  {
    if i > 0 {
      TakenInOrder(states, actions, i - 1);
      AlwaysTracks(states, actions, i - 1);
      StepInOrder(states[i - 1], actions[i - 1]);
    }
  }

  /** In order, the line is what was accepted. */
  lemma InOrderLine(s: State)
    requires Tracks(s) && InOrder(s)
    ensures s.accepted == Inputs(s.settled) + s.pending
  {
    hide Inputs;
    assert s.accepted == Line(s);
  }

  /** Nothing is overtaken unless something was orphaned before. */
  lemma OvertakenWasOrphaned(states: seq<State>, actions: seq<Action>, i: nat)
    requires IsRun(states, actions) && i < |actions| && Overtakes(states[i], actions[i])
    ensures exists k :: 0 <= k < i && Orphans(states[k], actions[k])
  {
    if forall k :: 0 <= k < i ==> !Orphans(states[k], actions[k]) {
      ServedUntil(states, actions, i);
    }
  }

  /** At any point of any run each accepted input is pending or has exactly one fate. */
  lemma OneFateEach(states: seq<State>, actions: seq<Action>, i: nat)
    requires IsRun(states, actions) && i < |states|
    ensures |states[i].accepted| == WithFate(states[i].settled, Claimed) + WithFate(states[i].settled, Discarded)
                                  + WithFate(states[i].settled, NotStarted) + |states[i].pending|
    ensures Tracks(states[i])
  {
    AlwaysTracks(states, actions, i);
    FatesPartition(states[i].settled);
  }

  function WithFate(settled: seq<Settled>, fate: Fate): nat {
    if settled == [] then 0 else WithFate(settled[..|settled| - 1], fate) + if settled[|settled| - 1].fate == fate then 1 else 0
  }

  lemma {:induction false} FatesPartition(settled: seq<Settled>)
    ensures WithFate(settled, Claimed) + WithFate(settled, Discarded) + WithFate(settled, NotStarted) == |Inputs(settled)|
  {
    if settled != [] { FatesPartition(settled[..|settled| - 1]); }
  }

  /** A failing start with an input queued: the input is left without a worker, and the next one submitted overtakes it. */
  lemma OrphanedInputIsOvertaken()
    ensures exists states: seq<State>, actions: seq<Action> ::
              && IsRun(states, actions) && |actions| == 5
              && states[5].accepted == ["a", "b", "c"] && states[5].pending == ["b"] && states[5].running == ["c"]
              && !PendingIsServed(states[3]) && Overtakes(states[3], actions[3])
              && states[5].numbers == [0, 2, 1]
  {
    var actions := [Submit("a"), Submit("b"), StartFails, Submit("c"), WorkerStarts];
    var s1 := Step(START, actions[0]);
    var s2 := Step(s1, actions[1]);
    var s3 := Step(s2, actions[2]);
    var s4 := Step(s3, actions[3]);
    var s5 := Step(s4, actions[4]);
    var states := [START, s1, s2, s3, s4, s5];
    assert s5.accepted == ["a", "b", "c"] && s5.pending == ["b"] && s5.running == ["c"];
    assert IsRun(states, actions);
  }

  /** One step after the end: nothing is accepted, and an idle queue stays idle. */
  lemma StepAfterEnd(s: State, a: Action)
    requires Workers(s) && Enabled(s, a) && (s.closing || s.terminal)
    ensures var s' := Step(s, a);
            && (s'.closing || s'.terminal)
            && s'.accepted == s.accepted && Inputs(s'.settled) == Inputs(s.settled)
            && (!s.busy ==> !s'.busy && s'.running == s.running == [])
  {
    hide Inputs;
    assert s.settled + [] == s.settled && Dropped(s.pending) == [];
    match a
    case Submit(_) =>
    case WorkerStarts =>
    case StartFails => InputsUpdate(s.settled, s.spawning[0], NotStarted);
    case Clear =>
    case WorkerContinues(_) =>
    case WorkerFinishes(_) =>
    case Register =>
    case Answer(_) =>
    case Close =>
  }

  /** Once closing or terminal, nothing more is accepted or claimed, and once idle nothing runs again. */
  lemma {:induction false} NothingClaimedAfter(states: seq<State>, actions: seq<Action>, i: nat, j: nat)
    requires IsRun(states, actions) && i <= j < |states|
    requires states[i].closing || states[i].terminal
    ensures states[j].closing || states[j].terminal
    ensures states[j].accepted == states[i].accepted && Inputs(states[j].settled) == Inputs(states[i].settled)
    ensures !states[i].busy ==> !states[j].busy && states[j].running == []
  {
    hide Step, Confirmations, Inputs;
    AlwaysSound(states, actions, i);
    if i < j {
      NothingClaimedAfter(states, actions, i, j - 1);
      AlwaysSound(states, actions, j - 1);
      StepAfterEnd(states[j - 1], actions[j - 1]);
    }
  }

  /** A confirmation granted was answered yes while it was the open request. */
  lemma {:induction false} GrantedWasAnswered(states: seq<State>, actions: seq<Action>, j: nat, id: nat)
    requires IsRun(states, actions) && j < |states|
    requires id < |states[j].requests| && states[j].requests[id].accepted
    ensures exists i :: 0 <= i < j && actions[i] == Answer(true) && states[i].confirmation == Some(id)
  {
    if j > 0 {
      var s, a := states[j - 1], actions[j - 1];
      assert states[j] == Step(s, a);
      if id < |s.requests| && s.requests[id].accepted {
        GrantedWasAnswered(states, actions, j - 1, id);
      } else {
        assert a == Answer(true) && s.confirmation == Some(id);
      }
    }
  }

  /** An answer, once given, stays; and after closing every request has one, so no waiter waits for ever. */
  lemma ClosedReleasesWaiters(states: seq<State>, actions: seq<Action>, j: nat)
    requires IsRun(states, actions) && j < |states| && states[j].closing
    ensures forall id :: 0 <= id < |states[j].requests| ==> states[j].requests[id].answered
  {
    AlwaysSound(states, actions, j);
  }

  lemma AnswerStays(s: State, a: Action, id: nat)
    requires Confirmations(s) && Enabled(s, a) && id < |s.requests| && s.requests[id].answered
    ensures id < |Step(s, a).requests| && Step(s, a).requests[id] == s.requests[id]
  {
  }

  lemma {:induction false} AnswersStay(states: seq<State>, actions: seq<Action>, i: nat, j: nat, id: nat)
    requires IsRun(states, actions) && i <= j < |states|
    requires id < |states[i].requests| && states[i].requests[id].answered
    ensures id < |states[j].requests| && states[j].requests[id] == states[i].requests[id]
  {
    hide Workers, Step;
    if i < j {
      AnswersStay(states, actions, i, j - 1, id);
      AlwaysSound(states, actions, j - 1);
      AnswerStays(states[j - 1], actions[j - 1], id);
    }
  }

  // ----- the object

  /** The queue object. Its methods are the lock-protected regions; the ghost part records threads and history. */
  class Queue {
    var pending: seq<Input>
    var busy: bool
    var closing: bool
    var terminal: bool
    var confirmation: Option<nat>
    var requests: seq<Request>
    ghost var spawning: seq<nat>
    ghost var running: seq<Input>
    ghost var accepted: seq<Input>
    ghost var settled: seq<Settled>
    ghost var numbers: seq<nat>

    ghost function View(): State
      reads this
    {
      State(pending, busy, closing, terminal, confirmation, requests, spawning, running, accepted, settled, numbers)
    }

    constructor ()
      ensures View() == START
    {
      pending, busy, closing, terminal, confirmation, requests := [], false, false, false, None, [];
      spawning, running, accepted, settled, numbers := [], [], [], [], [];
    }

    method Submit(text: Input) returns (status: Status, waiting: nat)
      requires Sound(View())
      modifies this
      ensures View() == Step(old(View()), Action.Submit(text))
      ensures status == Closed <==> old(closing) || old(terminal)
      ensures status == Started <==> !old(closing) && !old(terminal) && !old(busy)
      ensures status == Full <==> !old(closing) && !old(terminal) && old(busy) && |old(pending)| == 5
      ensures pending == if status == Queued then old(pending) + [text] else old(pending)
      ensures busy == (old(busy) || status == Started)
      ensures waiting == if status.Started? then 0 else |pending|
    {
      if closing || terminal {
        return Closed, |pending|;
      }
      if busy {
        if |pending| == MAX_PENDING_INPUTS {
          return Full, |pending|;
        }
        pending := pending + [text];
        numbers, accepted := numbers + [|accepted|], accepted + [text];
        return Queued, |pending|;
      }
      busy := true;
      numbers := PutAt(numbers, |settled|, |accepted|);
      spawning, accepted, settled := spawning + [|settled|], accepted + [text], settled + [Settled(text, Claimed)];
      return Started, 0;
    }

    /** `worker.start()` after the lock was released, and the recovery when it fails. */
    method StartWorker() returns (ok: bool)
      requires Sound(View()) && spawning != []
      modifies this
      ensures View() == Step(old(View()), if ok then WorkerStarts else StartFails)
      ensures pending == old(pending) && |settled| == |old(settled)|
      ensures ok ==> busy && settled == old(settled) && running == old(running) + [settled[old(spawning)[0]].input]
      ensures !ok ==>
                && !busy && running == old(running)
                && settled[old(spawning)[0]] == Settled(old(settled)[old(spawning)[0]].input, NotStarted)
                && forall k :: 0 <= k < |settled| && k != old(spawning)[0] ==> settled[k] == old(settled)[k]
    {
      ok := *;
      if ok {
        running := running + [settled[spawning[0]].input];
      } else {
        busy := false;
        settled := settled[spawning[0] := settled[spawning[0]].(fate := NotStarted)];
      }
      spawning := spawning[1..];
    }

    method Clear() returns (removed: nat)
      requires Sound(View())
      modifies this
      ensures View() == Step(old(View()), Action.Clear)
      ensures removed == |old(pending)| && pending == [] && busy == old(busy)
      ensures |settled| == |old(settled)| + |old(pending)| && settled[..|old(settled)|] == old(settled)
      ensures forall k :: 0 <= k < |old(pending)| ==> settled[|old(settled)| + k] == Settled(old(pending)[k], Discarded)
    {
      DroppedAre(pending);
      removed := |pending|;
      settled := settled + Dropped(pending);
      pending := [];
    }

    method AnswerConfirmation(yes: bool) returns (taken: bool)
      requires Sound(View())
      modifies this
      ensures View() == Step(old(View()), Answer(yes))
      ensures taken <==> old(confirmation).Some?
      ensures confirmation.None?
      ensures requests == if taken then old(requests)[old(confirmation).value := Request(true, yes)] else old(requests)
    {
      if confirmation.None? {
        return false;
      }
      requests := requests[confirmation.value := Request(true, yes)];
      confirmation := None;
      return true;
    }

    /** `confirm` up to the wait: the new request's number, or None for an immediate denial. */
    method RegisterConfirmation() returns (id: Option<nat>)
      requires Sound(View())
      modifies this
      ensures View() == Step(old(View()), Register)
      ensures id.Some? <==> !old(closing) && old(confirmation).None?
      ensures id.Some? ==> confirmation == id && id.value == |old(requests)| && !requests[id.value].answered
    {
      if closing || confirmation.Some? {
        return None;
      }
      id := Some(|requests|);
      requests := requests + [Request(false, false)];
      confirmation := id;
    }

    method Close()
      requires Sound(View())
      modifies this
      ensures View() == Step(old(View()), Action.Close)
      ensures closing && pending == [] && confirmation.None?
      ensures requests == if old(confirmation).Some? then old(requests)[old(confirmation).value := Request(true, false)]
                          else old(requests)
      ensures |settled| == |old(settled)| + |old(pending)| && settled[..|old(settled)|] == old(settled)
      ensures forall k :: 0 <= k < |old(pending)| ==> settled[|old(settled)| + k] == Settled(old(pending)[k], Discarded)
    {
      DroppedAre(pending);
      closing := true;
      settled := settled + Dropped(pending);
      pending := [];
      if confirmation.Some? {
        requests := requests[confirmation.value := Request(true, false)];
      }
      confirmation := None;
    }

    /** The end of one round of `_run`: take the next input, or stop working. */
    method NextInput(ghost w: nat) returns (next: Option<Input>)
      requires Sound(View()) && w < |running|
      modifies this
      ensures View() == Step(old(View()), WorkerContinues(w))
      ensures next.Some? <==> old(pending) != [] && !closing
      ensures next.Some? ==> next.value == old(pending)[0] && running[w] == next.value
      ensures next.Some? ==> busy && pending == old(pending)[1..] && settled == old(settled) + [Settled(next.value, Claimed)]
      ensures next.None? ==> !busy && pending == old(pending) && settled == old(settled)
    {
      if pending != [] && !closing {
        next := Some(pending[0]);
        settled := settled + [Settled(pending[0], Claimed)];
        running := running[w := pending[0]];
        pending := pending[1..];
      } else {
        busy := false;
        running := running[..w] + running[w + 1..];
        next := None;
      }
    }

    /** `_finish`. */
    method Finish(ghost w: nat)
      requires Sound(View()) && w < |running|
      modifies this
      ensures View() == Step(old(View()), WorkerFinishes(w))
      ensures terminal && pending == [] && !busy
      ensures |settled| == |old(settled)| + |old(pending)| && settled[..|old(settled)|] == old(settled)
      ensures forall k :: 0 <= k < |old(pending)| ==> settled[|old(settled)| + k] == Settled(old(pending)[k], Discarded)
    {
      DroppedAre(pending);
      terminal, busy := true, false;
      settled := settled + Dropped(pending);
      pending := [];
      running := running[..w] + running[w + 1..];
    }
  }
}
