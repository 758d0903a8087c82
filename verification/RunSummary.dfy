/** The tool totals a report carries and the ones `load_run_artifacts` counts out of the trace. */
module RunSummary {
  import opened Common
  import opened Trace

  /** The counters of `tool_report`, as `_record_tool_report` updates them. */
  datatype ToolReport = ToolReport(
    calls: nat, allowed: nat, denied: nat,
    nameCounts: map<string, nat>, statusCounts: map<Status, nat>)

  const EMPTY_REPORT := ToolReport(0, 0, 0, map[], map[])

  function Bump<K>(counts: map<K, nat>, key: K): map<K, nat> {
    counts[key := (if key in counts then counts[key] else 0) + 1]
  }

  function Recorded(r: ToolReport, name: string, status: Status): ToolReport {
    ToolReport(
      r.calls + 1,
      if status != Rejected then r.allowed + 1 else r.allowed,
      if status != Rejected then r.denied else r.denied + 1,
      Bump(r.nameCounts, name),
      Bump(r.statusCounts, status))
  }

  function Times<K>(counts: map<K, nat>, key: K): nat {
    if key in counts then counts[key] else 0
  }

  /** Every call is allowed or denied, and the denied ones are those of status rejected. */
  predicate TotalsAgree(r: ToolReport) {
    && r.calls == r.allowed + r.denied
    && r.denied == Times(r.statusCounts, Rejected)
  }

  lemma TotalsGrow(r: ToolReport, name: string, status: Status)
    requires TotalsAgree(r)
    ensures TotalsAgree(Recorded(r, name, status))
  {
  }

  predicate EndsTool(e: Event) {
    e.kind.ToolExecuted? || e.kind.ToolInterrupted?
  }

  /** The tool-ending events of a trace, in order. */
  function ToolEnds(t: seq<Event>): seq<Event> {
    if t == [] then []
    else ToolEnds(t[..|t| - 1]) + if EndsTool(t[|t| - 1]) then [t[|t| - 1]] else []
  }

  function NameCounts(ends: seq<Event>): map<string, nat> {
    if ends == [] then map[]
    else
      var before := NameCounts(ends[..|ends| - 1]);
      var name := ends[|ends| - 1].toolName;
      if name == "" then before else Bump(before, name)
  }

  function StatusCounts(ends: seq<Event>): map<Status, nat> {
    if ends == [] then map[]
    else
      var before := StatusCounts(ends[..|ends| - 1]);
      var status := ends[|ends| - 1].toolStatus;
      if status.None? then before else Bump(before, status.value)
  }

  /** The report repeats what the trace says about tools. */
  predicate SummaryMatches(t: seq<Event>, r: ToolReport) {
    var ends := ToolEnds(t);
    |ends| == r.calls && NameCounts(ends) == r.nameCounts && StatusCounts(ends) == r.statusCounts
  }

  // ----- what the counts mean

  /** The places of the trace where a tool ended. */
  function EndPlaces(t: seq<Event>): set<nat> {
    set i: nat | i < |t| && t[i].kind in {ToolExecuted, ToolInterrupted}
  }

  function NamePlaces(t: seq<Event>, name: string): set<nat> {
    set i: nat | i < |t| && t[i].kind in {ToolExecuted, ToolInterrupted} && t[i].toolName == name
  }

  function StatusPlaces(t: seq<Event>, status: Status): set<nat> {
    set i: nat | i < |t| && t[i].kind in {ToolExecuted, ToolInterrupted} && t[i].toolStatus == Some(status)
  }

  lemma {:induction false} EndsMean(t: seq<Event>)
    ensures |ToolEnds(t)| == |EndPlaces(t)|
  {
    if t != [] {
      var front := t[..|t| - 1];
      EndsMean(front);
      PlacesGrow(EndPlaces(front), EndPlaces(t), |front|);
    }
  }

  lemma {:induction false} NamesMean(t: seq<Event>, name: string)
    ensures var counts := NameCounts(ToolEnds(t));
            if name != "" && NamePlaces(t, name) != {} then name in counts && counts[name] == |NamePlaces(t, name)|
            else name !in counts
  {
    if t != [] {
      var front, e := t[..|t| - 1], t[|t| - 1];
      NamesMean(front, name);
      PlacesGrow(NamePlaces(front, name), NamePlaces(t, name), |front|);
      assert |front| in NamePlaces(t, name) <==> EndsTool(e) && e.toolName == name;
      hide NamePlaces;
      var ends := ToolEnds(front);
      assert ends + [] == ends && (ends + [e])[..|ends|] == ends;
    }
  }

  lemma {:induction false} StatusesMean(t: seq<Event>, status: Status)
    ensures var counts := StatusCounts(ToolEnds(t));
            if StatusPlaces(t, status) != {} then status in counts && counts[status] == |StatusPlaces(t, status)|
            else status !in counts
  {
    if t != [] {
      var front, e := t[..|t| - 1], t[|t| - 1];
      StatusesMean(front, status);
      PlacesGrow(StatusPlaces(front, status), StatusPlaces(t, status), |front|);
      assert |front| in StatusPlaces(t, status) <==> EndsTool(e) && e.toolStatus == Some(status);
      hide StatusPlaces;
      var ends := ToolEnds(front);
      assert ends + [] == ends && (ends + [e])[..|ends|] == ends;
    }
  }

  ghost predicate NamesCounted(t: seq<Event>, counts: map<string, nat>) {
    forall name: string ::
      && (name in counts <==> name != "" && NamePlaces(t, name) != {})
      && (name in counts ==> counts[name] == |NamePlaces(t, name)|)
  }

  ghost predicate StatusesCounted(t: seq<Event>, counts: map<Status, nat>) {
    forall status: Status ::
      && (status in counts <==> StatusPlaces(t, status) != {})
      && (status in counts ==> counts[status] == |StatusPlaces(t, status)|)
  }

  lemma NamesExact(t: seq<Event>, counts: map<string, nat>)
    ensures NamesCounted(t, counts) <==> counts == NameCounts(ToolEnds(t))
  {
    hide NamePlaces, NameCounts, ToolEnds;
    var names := NameCounts(ToolEnds(t));
    forall name: string
      ensures name in names <==> name != "" && NamePlaces(t, name) != {}
      ensures name in names ==> names[name] == |NamePlaces(t, name)|
    {
      NamesMean(t, name);
    }
    if NamesCounted(t, counts) {
      assert counts.Keys == names.Keys;
      assert counts == names;
    }
  }

  lemma StatusesExact(t: seq<Event>, counts: map<Status, nat>)
    ensures StatusesCounted(t, counts) <==> counts == StatusCounts(ToolEnds(t))
  {
    hide StatusPlaces, StatusCounts, ToolEnds;
    var statuses := StatusCounts(ToolEnds(t));
    forall status: Status
      ensures status in statuses <==> StatusPlaces(t, status) != {}
      ensures status in statuses ==> statuses[status] == |StatusPlaces(t, status)|
    {
      StatusesMean(t, status);
    }
    if StatusesCounted(t, counts) {
      assert counts.Keys == statuses.Keys;
      assert counts == statuses;
    }
  }

  /** The report repeats the trace exactly if its calls, names and statuses count the events that end a tool. */
  lemma SummaryMeans(t: seq<Event>, r: ToolReport)
    ensures SummaryMatches(t, r) <==>
            r.calls == |EndPlaces(t)| && NamesCounted(t, r.nameCounts) && StatusesCounted(t, r.statusCounts)
  {
    hide NamesCounted, StatusesCounted, EndPlaces, NameCounts, StatusCounts, ToolEnds;
    EndsMean(t);
    NamesExact(t, r.nameCounts);
    StatusesExact(t, r.statusCounts);
  }

  lemma EmptyAgrees()
    ensures SummaryMatches([], EMPTY_REPORT) && TotalsAgree(EMPTY_REPORT)
  {
  }

  lemma SummaryExtends(t: seq<Event>, e: Event, r: ToolReport)
    requires SummaryMatches(t, r)
    ensures !EndsTool(e) ==> SummaryMatches(t + [e], r)
    ensures EndsTool(e) && e.toolName != "" && e.toolStatus.Some? ==>
              SummaryMatches(t + [e], Recorded(r, e.toolName, e.toolStatus.value))
  {
    assert (t + [e])[..|t|] == t;
    var ends := ToolEnds(t);
    assert ends + [] == ends;
    assert (ends + [e])[..|ends|] == ends;
  }

  lemma EndsStep(events: seq<Event>, i: nat)
    requires i < |events|
    ensures ToolEnds(events[..i + 1]) == ToolEnds(events[..i]) + if EndsTool(events[i]) then [events[i]] else []
  {
    assert events[..i + 1][..i] == events[..i];
  }

  lemma CountsStep(ends: seq<Event>, i: nat)
    requires i < |ends|
    ensures NameCounts(ends[..i + 1]) ==
              if ends[i].toolName == "" then NameCounts(ends[..i]) else Bump(NameCounts(ends[..i]), ends[i].toolName)
    ensures StatusCounts(ends[..i + 1]) ==
              if ends[i].toolStatus.None? then StatusCounts(ends[..i]) else Bump(StatusCounts(ends[..i]), ends[i].toolStatus.value)
  {
    assert ends[..i + 1][..i] == ends[..i];
  }

  lemma NothingCounted()
    ensures ToolEnds([]) == [] && NameCounts([]) == map[] && StatusCounts([]) == map[]
  {
  }

  /** The counting loop of `load_run_artifacts` and its comparison with the report. */
  method CrossCheck(events: seq<Event>, report: ToolReport) returns (ok: bool)
    ensures ok == SummaryMatches(events, report)
  {
    hide ToolEnds, NameCounts, StatusCounts, EndsTool;
    NothingCounted();
    assert events[..0] == [];
    var toolEvents: seq<Event> := [];
    var i := 0;
    while i < |events|
      invariant 0 <= i <= |events|
      invariant toolEvents == ToolEnds(events[..i])
    {
      EndsStep(events, i);
      if EndsTool(events[i]) {
        toolEvents := toolEvents + [events[i]];
      }
      i := i + 1;
    }
    assert events[..i] == events;
    assert toolEvents[..0] == [];
    var nameCounts: map<string, nat> := map[];
    var statusCounts: map<Status, nat> := map[];
    i := 0;
    while i < |toolEvents|
      invariant 0 <= i <= |toolEvents|
      invariant nameCounts == NameCounts(toolEvents[..i])
      invariant statusCounts == StatusCounts(toolEvents[..i])
    {
      CountsStep(toolEvents, i);
      var name, status := toolEvents[i].toolName, toolEvents[i].toolStatus;
      if name != "" {
        nameCounts := nameCounts[name := (if name in nameCounts then nameCounts[name] else 0) + 1];
      }
      if status.Some? {
        statusCounts := statusCounts[status.value :=
          (if status.value in statusCounts then statusCounts[status.value] else 0) + 1];
      }
      i := i + 1;
    }
    assert toolEvents[..i] == toolEvents;
    ok := |toolEvents| == report.calls && nameCounts == report.nameCounts && statusCounts == report.statusCounts;
  }
}
