/** The Session read as messages: when what a run commits keeps it a valid transcript. */
module SessionTranscript {
  import opened Common
  import S = Session
  import T = Transcript

  /** The messages of an entry, as the run writes them: plain ones, tool pairs that are well-shaped, or none. */
  function EntryMessages(b: S.Body): seq<T.Message> {
    match b
    case UserMessage => [PlainMessage(T.User)]
    case AssistantMessage => [PlainMessage(T.Assistant)]
    case TerminalMessage => [PlainMessage(T.Assistant)]
    case ToolExchange(id) => var (call, result) := T.MakeToolPair(id, true, T.Absent); [call, result]
    case _ => []
  }

  function PlainMessage(role: T.Role): T.Message {
    T.Message(role, T.Plain(""), T.MetaObject, T.Absent)
  }

  function LogMessages(log: seq<S.Entry>): seq<T.Message> {
    if log == [] then [] else LogMessages(log[..|log| - 1]) + EntryMessages(log[|log| - 1].body)
  }

  /** The tool id of this entry is not empty and no earlier entry has it. */
  predicate FreshAt(log: seq<S.Entry>, i: nat)
    requires i < |log|
  {
    log[i].body.ToolExchange? ==> log[i].body.toolUseId != "" && log[i].body.toolUseId !in ExchangeIds(log[..i])
  }

  function ExchangeIds(log: seq<S.Entry>): set<string> {
    set e | e in log && e.body.ToolExchange? :: e.body.toolUseId
  }

  lemma {:induction false} LogIds(log: seq<S.Entry>)
    ensures T.CallIds(LogMessages(log)) == ExchangeIds(log)
  {
    hide T.CallIds, ExchangeIds, EntryMessages;
    if log == [] {
      NoIds();
    } else {
      var front, last := log[..|log| - 1], log[|log| - 1];
      assert log == front + [last];
      LogIds(front);
      EntryIds(last.body);
      CallsApart(LogMessages(front), EntryMessages(last.body));
      ExchangesApart(front, last);
    }
  }

  lemma NoIds()
    ensures T.CallIds([]) == {} && ExchangeIds([]) == {}
  {
  }

  lemma CallsApart(a: seq<T.Message>, b: seq<T.Message>)
    ensures T.CallIds(a + b) == T.CallIds(a) + T.CallIds(b)
  {
    hide T.IsCall;
    assert forall m :: m in a + b <==> m in a || m in b;
  }

  lemma ExchangesApart(log: seq<S.Entry>, e: S.Entry)
    ensures ExchangeIds(log + [e]) == ExchangeIds(log) + if e.body.ToolExchange? then {e.body.toolUseId} else {}
  {
    assert forall x :: x in log + [e] <==> x in log || x == e;
  }

  lemma EntryIds(b: S.Body)
    ensures T.CallIds(EntryMessages(b)) == if b.ToolExchange? then {b.toolUseId} else {}
  {
    if b.ToolExchange? {
      var (call, _) := T.MakeToolPair(b.toolUseId, true, T.Absent);
      assert call in EntryMessages(b) && T.IsCall(call);
    }
  }

  /** The messages a Session gains with each kind of entry. */
  lemma EntryAdds(log: seq<S.Entry>, e: S.Entry)
    ensures LogMessages(log + [e]) == LogMessages(log) +
              if e.body == S.UserMessage then [T.Message(T.User, T.Plain(""), T.MetaObject, T.Absent)]
              else if e.body == S.AssistantMessage || e.body == S.TerminalMessage then
                [T.Message(T.Assistant, T.Plain(""), T.MetaObject, T.Absent)]
              else if e.body.ToolExchange? then
                [T.Message(T.Assistant, T.Blocks([T.ToolUse(e.body.toolUseId, true)]), T.MetaObject, T.Absent),
                 T.Message(T.User, T.Blocks([T.ToolResult(e.body.toolUseId)]), T.MetaObject, T.Absent)]
              else []
  {
    assert (log + [e])[..|log|] == log;
  }

  /** One more entry keeps the transcript valid exactly if it was valid and its tool id, if it has one, is new. */
  lemma EntryKeeps(log: seq<S.Entry>, e: S.Entry)
    ensures T.InGrammar(LogMessages(log + [e]), true) <==> T.InGrammar(LogMessages(log), true) && FreshAt(log + [e], |log|)
  {
    hide T.InGrammar, T.CallIds;
    var ms := LogMessages(log);
    assert (log + [e])[..|log|] == log;
    LogIds(log);
    match e.body
    case ToolExchange(id) => T.AppendPair(ms, id, true, T.Absent, true);
    case UserMessage => T.AppendPlain(ms, PlainMessage(T.User), true);
    case AssistantMessage => T.AppendPlain(ms, PlainMessage(T.Assistant), true);
    case TerminalMessage => T.AppendPlain(ms, PlainMessage(T.Assistant), true);
    case _ => assert ms + [] == ms;
  }

  /** MAIN RESULT: over any stretch of appends, by a run and by whoever else, a valid Session stays a valid transcript exactly
      if every tool id committed is new to the Session at that moment. */
  lemma {:induction false} AppendsKeepGrammar(before: seq<S.Entry>, after: seq<S.Entry>)
    requires before <= after && T.InGrammar(LogMessages(before), true)
    ensures T.InGrammar(LogMessages(after), true) <==> forall i :: |before| <= i < |after| ==> FreshAt(after, i)
    decreases |after|
  {
    hide T.InGrammar, FreshAt;
    if |after| == |before| {
      assert after == before;
    } else {
      var n := |after| - 1;
      var front := after[..n];
      assert after == front + [after[n]];
      AppendsKeepGrammar(before, front);
      EntryKeeps(front, after[n]);
      forall i | |before| <= i < n ensures FreshAt(front, i) == FreshAt(after, i) {
        SameFresh(front, after, i);
      }
    }
  }

  lemma SameFresh(front: seq<S.Entry>, log: seq<S.Entry>, i: nat)
    requires front <= log && i < |front|
    ensures FreshAt(front, i) == FreshAt(log, i)
  {
    assert front[..i] == log[..i];
  }
}
