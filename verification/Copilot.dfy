/**
 One turn of the copilot: a bounded loop of provider calls and tool calls,
 the grounding check, at most one regeneration, and degradation to the
 collected data. The provider and the tools are arbitrary: each reply is
 whatever the oracle gives for that call number and what the call is shown.
 */
module Copilot {
  import opened Figures
  import opened Grounding

  datatype Call = Call(id: string, name: string, arguments: Payload)

  datatype Reply = Unavailable | Response(text: string, calls: seq<Call>)

  datatype Message =
    | User(question: string)
    | Assistant(text: string)
    | ToolData(name: string, id: string, data: Payload)
    | Stricter

  /** What running a named tool comes to. */
  datatype ToolRun = NoSuchTool | Refused(code: string, detail: string) | Returned(data: Payload)

  datatype Invocation = Invocation(tool: string, arguments: Payload, error: bool, rows: nat)

  datatype Outcome =
    | Answered(text: string, regenerated: bool, invocations: seq<Invocation>, data: seq<Payload>)
    | Degraded(groundingFailed: bool, invocations: seq<Invocation>, data: seq<Payload>)

  /** Replies by call number; tool runs by their position in the turn. */
  datatype World = World(
    reply: (nat, seq<Message>, bool) -> Reply,
    run: (nat, Call) -> ToolRun)

  // ---------------------------------------------------------------- tools

  function PayloadOf(call: Call, run: ToolRun): (r: Payload) {
    match run
    case NoSuchTool => Dict([Field("error", Str("No such tool: " + call.name))])
    case Refused(code, detail) => Dict([Field("error", Str(code)), Field("detail", Str(detail))])
    case Returned(data) => data
  }

  /** The number of entries under "items". */
  function RowsOf(p: Payload): (r: nat) {
    match p
    case Dict(fields) => ItemCount(fields)
    case _ => 0
  }

  function ItemCount(fields: seq<Field>): (r: nat) {
    if fields == [] then 0
    else if fields[0].key == "items" then
      if fields[0].value.List? then |fields[0].value.items|
      else if fields[0].value.Dict? then |fields[0].value.fields|
      else if fields[0].value.Str? then |fields[0].value.text|
      else 0
    else ItemCount(fields[1..])
  }

  // ---------------------------------------------------------------- the turn as a function

  datatype State = State(messages: seq<Message>, collected: seq<Payload>, invocations: seq<Invocation>)

  function AfterTool(w: World, s: State, call: Call): (r: State) {
    var r := w.run(|s.collected|, call);
    var p := PayloadOf(call, r);
    State(
      s.messages + [ToolData(call.name, call.id, p)],
      s.collected + [p],
      s.invocations + [Invocation(call.name, call.arguments, !r.Returned?, RowsOf(p))])
  }

  function AfterTools(w: World, s: State, calls: seq<Call>): (r: State)
    decreases |calls|
  {
    if calls == [] then s else AfterTools(w, AfterTool(w, s, calls[0]), calls[1..])
  }

  /** How the loop of tool rounds ends. */
  datatype Stop =
    | Down(state: State, calls: nat)
    | Exhausted(state: State, calls: nat)
    | Text(state: State, calls: nat, text: string)

  function Rounds(w: World, s: State, left: nat, made: nat): (r: Stop)
    decreases left
  {
    if left == 0 then Exhausted(s, made)
    else match w.reply(made, s.messages, true)
      case Unavailable => Down(s, made + 1)
      case Response(text, calls) =>
        if calls == [] then Text(s, made + 1, text)
        else
          var asked := s.(messages := s.messages + [Assistant(text)]);
          Rounds(w, AfterTools(w, asked, calls), left - 1, made + 1)
  }

  ghost predicate Grounded(text: string, data: seq<Payload>) {
    forall x :: x in Numbers(text) ==> Derivable(AllFigures(data), x)
  }

  ghost function Degrade(s: State, groundingFailed: bool): (r: Outcome) {
    Degraded(groundingFailed, s.invocations, s.collected)
  }

  /** The end of the turn, and how many provider calls it took in all. */
  ghost function Finish(w: World, stop: Stop): (r: (Outcome, nat)) {
    var s := stop.state;
    match stop
    case Down(_, n) => (Degrade(s, false), n)
    case Exhausted(_, n) => (Degrade(s, false), n)
    case Text(_, n, text) =>
      if Grounded(text, s.collected) then (Answered(text, false, s.invocations, s.collected), n)
      else if s.collected == [] then (Degrade(s, true), n)
      else match w.reply(n, s.messages + [Stricter], false)
        case Unavailable => (Degrade(s, false), n + 1)
        case Response(again, _) =>
          if Grounded(again, s.collected) then (Answered(again, true, s.invocations, s.collected), n + 1)
          else (Degrade(s, true), n + 1)
  }

  ghost function Turn(w: World, question: string, maxIterations: nat): (r: (Outcome, nat)) {
    Finish(w, Rounds(w, State([User(question)], [], []), maxIterations, 0))
  }

  // ---------------------------------------------------------------- the service

  /**
   A whole turn, as specified: within its calls, and with no number in an answer that the data it comes
   with do not back.
   */
  method Ask(w: World, question: string, maxIterations: nat) returns (outcome: Outcome, calls: nat)
    ensures (outcome, calls) == Turn(w, question, maxIterations)
    ensures calls <= maxIterations + 1
    ensures outcome.Answered? ==> forall x :: x in Numbers(outcome.text) ==> Backed(outcome.data, x)
  {
    outcome, calls := Conclude(w, question, maxIterations);
    CallsBounded(w, question, maxIterations);
    AnswersAreBacked(w, question, maxIterations);
  }

  /** From the conversation to the outcome: the check, the regeneration, the degradation. */
  method Conclude(w: World, question: string, maxIterations: nat) returns (outcome: Outcome, calls: nat)
    ensures (outcome, calls) == Turn(w, question, maxIterations)
  {
    var stop := Converse(w, question, maxIterations);
    var s := stop.state;
    calls := stop.calls;
    if !stop.Text? {
      return Degraded(false, s.invocations, s.collected), calls;
    }
    var answer := stop.text;
    var supported := Supported(answer, s.collected);
    var regenerated := false;
    if !supported && s.collected != [] {
      regenerated := true;
      var retry := w.reply(calls, s.messages + [Stricter], false);
      calls := calls + 1;
      if retry.Unavailable? {
        return Degraded(false, s.invocations, s.collected), calls;
      }
      answer := retry.text;
      supported := Supported(answer, s.collected);
    }
    if !supported {
      return Degraded(true, s.invocations, s.collected), calls;
    }
    outcome := Answered(answer, regenerated, s.invocations, s.collected);
  }

  method Supported(answer: string, data: seq<Payload>) returns (ok: bool)
    ensures ok <==> Grounded(answer, data)
  {
    var offenders := Ungrounded(answer, data);
    OffendersDecide(answer, data, offenders);
    ok := offenders == [];
  }

  /** The loop of provider calls and tool rounds. */
  method Converse(w: World, question: string, maxIterations: nat) returns (stop: Stop)
    ensures stop == Rounds(w, State([User(question)], [], []), maxIterations, 0)
  {
    var messages := [User(question)];
    var collected: seq<Payload> := [];
    var invocations: seq<Invocation> := [];
    var calls := 0;
    while calls < maxIterations
      invariant calls <= maxIterations
      invariant Rounds(w, State([User(question)], [], []), maxIterations, 0)
             == Rounds(w, State(messages, collected, invocations), maxIterations - calls, calls)
    {
      var response := w.reply(calls, messages, true);
      calls := calls + 1;
      if response.Unavailable? {
        return Down(State(messages, collected, invocations), calls);
      }
      if response.calls == [] {
        return Text(State(messages, collected, invocations), calls, response.text);
      }
      messages := messages + [Assistant(response.text)];
      messages, collected, invocations := RunTools(w, response.calls, messages, collected, invocations);
    }
    stop := Exhausted(State(messages, collected, invocations), calls);
  }

  /** The inner loop: each requested call is run once, in order. */
  method RunTools(w: World, calls: seq<Call>, m: seq<Message>, c: seq<Payload>, v: seq<Invocation>)
    returns (messages: seq<Message>, collected: seq<Payload>, invocations: seq<Invocation>)
    ensures State(messages, collected, invocations) == AfterTools(w, State(m, c, v), calls)
  {
    messages, collected, invocations := m, c, v;
    var i := 0;
    while i < |calls|
      invariant i <= |calls|
      invariant AfterTools(w, State(messages, collected, invocations), calls[i..]) == AfterTools(w, State(m, c, v), calls)
    {
      var call := calls[i];
      assert calls[i..][0] == call && calls[i..][1..] == calls[i + 1..];
      var r := w.run(|collected|, call);
      var p := PayloadOf(call, r);
      collected := collected + [p];
      invocations := invocations + [Invocation(call.name, call.arguments, !r.Returned?, RowsOf(p))];
      messages := messages + [ToolData(call.name, call.id, p)];
      i := i + 1;
    }
  }

  lemma OffendersDecide(text: string, data: seq<Payload>, offenders: seq<real>)
    requires forall x :: x in offenders <==> x in Numbers(text) && !Derivable(AllFigures(data), x)
    ensures offenders == [] <==> Grounded(text, data)
  {
    if offenders != [] {
      var x := offenders[0];
      assert x in offenders;
      assert x in Numbers(text) && !Derivable(AllFigures(data), x);
    }
  }

  // ---------------------------------------------------------------- what holds for every provider

  /** The loop makes at most the configured number of calls; it runs out exactly at that number. */
  lemma {:induction false} RoundsBounded(w: World, s: State, left: nat, made: nat)
    ensures var stop := Rounds(w, s, left, made);
            && made <= stop.calls <= made + left
            && (stop.Exhausted? ==> stop.calls == made + left)
            && (!stop.Exhausted? ==> stop.calls > made)
    decreases left
  {
    if left > 0 {
      var r := w.reply(made, s.messages, true);
      if r.Response? && r.calls != [] {
        RoundsBounded(w, AfterTools(w, s.(messages := s.messages + [Assistant(r.text)]), r.calls), left - 1, made + 1);
      }
    }
  }

  /** At most one provider call more than the configured iterations, and that one only after tool results. */
  lemma CallsBounded(w: World, question: string, maxIterations: nat)
    ensures var (outcome, calls) := Turn(w, question, maxIterations);
            && calls <= maxIterations + 1
            && (calls == maxIterations + 1 ==> outcome.data != [])
            && (maxIterations == 0 ==> calls == 0 && outcome == Degraded(false, [], []))
  {
    RoundsBounded(w, State([User(question)], [], []), maxIterations, 0);
  }

  /** Somewhere in the data: a number, the length of a list, or a number inside a text. */
  ghost predicate Stated(data: seq<Payload>, x: real) {
    exists part :: part in AllParts(data) && Shows(part, x)
  }

  /** Stated, or a sum, difference or one-decimal percentage of two stated figures. */
  ghost predicate Backed(data: seq<Payload>, x: real) {
    || Stated(data, x)
    || (exists a, b | Stated(data, a) && Stated(data, b) ::
          a <= b && (x == a + b || x == a - b || x == b - a || (b != 0.0 && x == Percent(a, b))))
  }

  lemma DerivableIsBacked(data: seq<Payload>, x: real)
    ensures Derivable(AllFigures(data), x) <==> Backed(data, x)
  {
    forall y ensures y in AllFigures(data) <==> Stated(data, y) {
      ItemsAreShown(data, y);
    }
    if Derivable(AllFigures(data), x) && x !in AllFigures(data) {
      var a, b :| a in AllFigures(data) && b in AllFigures(data) && a <= b && FromPair(a, b, x);
      assert Stated(data, a) && Stated(data, b);
    }
    if a, b :| Stated(data, a) && Stated(data, b) && a <= b && FromPair(a, b, x) {
      assert a in AllFigures(data) && b in AllFigures(data);
    }
  }

  /**
   An answer is returned only if every number in it is stated in the returned data or comes of two that
   are by sum, difference or percentage; a regenerated one only if there are data.
   */
  lemma AnswersAreBacked(w: World, question: string, maxIterations: nat)
    ensures var outcome := Turn(w, question, maxIterations).0;
            outcome.Answered? ==>
              && (forall x :: x in Numbers(outcome.text) ==> Backed(outcome.data, x))
              && (outcome.regenerated ==> outcome.data != [])
  {
    var outcome := Turn(w, question, maxIterations).0;
    if outcome.Answered? {
      AnsweredIsGrounded(w, question, maxIterations);
      forall x | x in Numbers(outcome.text) ensures Backed(outcome.data, x) {
        DerivableIsBacked(outcome.data, x);
      }
    }
  }

  lemma AnsweredIsGrounded(w: World, question: string, maxIterations: nat)
    ensures var outcome := Turn(w, question, maxIterations).0;
            outcome.Answered? ==> Grounded(outcome.text, outcome.data) && (outcome.regenerated ==> outcome.data != [])
  {
  }

  /** With no tool result behind it, an answer holds no digit at all. */
  lemma NoDataNoDigits(w: World, question: string, maxIterations: nat)
    ensures var outcome := Turn(w, question, maxIterations).0;
            outcome.Answered? && AllFigures(outcome.data) == {} ==>
              forall k :: 0 <= k < |outcome.text| ==> !Digit(outcome.text[k])
  {
    var outcome := Turn(w, question, maxIterations).0;
    if outcome.Answered? && AllFigures(outcome.data) == {} {
      AnsweredIsGrounded(w, question, maxIterations);
      forall x ensures x !in Numbers(outcome.text) {
        NothingFromNothing(x);
      }
      NoFiguresIffNoDigits(outcome.text);
    }
  }

  // ---------------------------------------------------------------- the data is what the tools gave

  /** The tool data the provider was shown, in order. */
  function Shown(messages: seq<Message>): (r: seq<Payload>) {
    if messages == [] then []
    else
      var last := messages[|messages| - 1];
      Shown(messages[..|messages| - 1]) + if last.ToolData? then [last.data] else []
  }

  lemma ShownAppend(messages: seq<Message>, m: Message)
    ensures Shown(messages + [m]) == Shown(messages) + if m.ToolData? then [m.data] else []
  {
    assert (messages + [m])[..|messages|] == messages;
  }

  /** The messages, the collected data and the invocations tell one story. */
  ghost predicate Consistent(w: World, s: State) {
    && Shown(s.messages) == s.collected
    && |s.invocations| == |s.collected|
    && forall i :: 0 <= i < |s.collected| ==> Faithful(w, s.invocations[i], i, s.collected[i])
  }

  /** Entry `i` is what the tool named in the invocation gave as the turn's i-th run. */
  ghost predicate Faithful(w: World, v: Invocation, i: nat, p: Payload) {
    exists id ::
      var call := Call(id, v.tool, v.arguments);
      && p == PayloadOf(call, w.run(i, call))
      && v.error == !w.run(i, call).Returned?
      && v.rows == RowsOf(p)
  }

  lemma AfterToolConsistent(w: World, s: State, call: Call)
    requires Consistent(w, s)
    ensures Consistent(w, AfterTool(w, s, call))
  {
    var r := w.run(|s.collected|, call);
    var p := PayloadOf(call, r);
    ShownAppend(s.messages, ToolData(call.name, call.id, p));
    var v := Invocation(call.name, call.arguments, !r.Returned?, RowsOf(p));
    assert call == Call(call.id, v.tool, v.arguments);
    assert Faithful(w, v, |s.collected|, p);
  }

  lemma {:induction false} AfterToolsConsistent(w: World, s: State, calls: seq<Call>)
    requires Consistent(w, s)
    ensures Consistent(w, AfterTools(w, s, calls))
    ensures |AfterTools(w, s, calls).collected| == |s.collected| + |calls|
    decreases |calls|
  {
    if calls != [] {
      AfterToolConsistent(w, s, calls[0]);
      AfterToolsConsistent(w, AfterTool(w, s, calls[0]), calls[1..]);
    }
  }

  lemma {:induction false} RoundsConsistent(w: World, s: State, left: nat, made: nat)
    requires Consistent(w, s)
    ensures Consistent(w, Rounds(w, s, left, made).state)
    decreases left
  {
    if left > 0 {
      var r := w.reply(made, s.messages, true);
      if r.Response? && r.calls != [] {
        var asked := s.(messages := s.messages + [Assistant(r.text)]);
        ShownAppend(s.messages, Assistant(r.text));
        AfterToolsConsistent(w, asked, r.calls);
        RoundsConsistent(w, AfterTools(w, asked, r.calls), left - 1, made + 1);
      }
    }
  }

  /**
   Whatever the outcome, its data are exactly the tool results of the turn in
   order, one per reported invocation.
   */
  lemma DataIsToolResults(w: World, question: string, maxIterations: nat)
    ensures var outcome := Turn(w, question, maxIterations).0;
            && |outcome.invocations| == |outcome.data|
            && forall i :: 0 <= i < |outcome.data| ==> Faithful(w, outcome.invocations[i], i, outcome.data[i])
  {
    var s := State([User(question)], [], []);
    ShownAppend([], User(question));
    assert [] + [User(question)] == s.messages;
    RoundsConsistent(w, s, maxIterations, 0);
  }

  // ---------------------------------------------------------------- an honest provider is heard

  /** The text the loop ends with is the last reply, to the messages as they then stood. */
  lemma {:induction false} RoundsText(w: World, s: State, left: nat, made: nat)
    requires Rounds(w, s, left, made).Text?
    ensures var stop := Rounds(w, s, left, made);
            stop.calls > 0 && w.reply(stop.calls - 1, stop.state.messages, true) == Response(stop.text, [])
    decreases left
  {
    var r := w.reply(made, s.messages, true);
    if r.calls != [] {
      RoundsText(w, AfterTools(w, s.(messages := s.messages + [Assistant(r.text)]), r.calls), left - 1, made + 1);
    }
  }

  /** Always available, and never stating a figure that the tool data it was shown do not support. */
  ghost predicate Honest(w: World) {
    forall n, m, b :: w.reply(n, m, b).Response? && Grounded(w.reply(n, m, b).text, Shown(m))
  }

  /**
   The check costs an honest provider nothing: its first text is the answer, unless it is still calling
   tools when the iterations run out. So a degraded turn always has an outage, an unsupported figure or
   an exhausted limit behind it.
   */
  lemma HonestProviderAnswers(w: World, question: string, maxIterations: nat)
    requires Honest(w)
    ensures var stop := Rounds(w, State([User(question)], [], []), maxIterations, 0);
            var (outcome, calls) := Turn(w, question, maxIterations);
            && calls == stop.calls <= maxIterations
            && if stop.Exhausted? then outcome.Degraded? && !outcome.groundingFailed && calls == maxIterations
               else outcome.Answered? && !outcome.regenerated && calls > 0
                    && outcome.text == w.reply(calls - 1, stop.state.messages, true).text
  {
    var s := State([User(question)], [], []);
    var stop := Rounds(w, s, maxIterations, 0);
    RoundsBounded(w, s, maxIterations, 0);
    ShownAppend([], User(question));
    assert [] + [User(question)] == s.messages;
    RoundsConsistent(w, s, maxIterations, 0);
    NeverDown(w, s, maxIterations, 0);
    if stop.Text? {
      RoundsText(w, s, maxIterations, 0);
    }
  }

  lemma {:induction false} NeverDown(w: World, s: State, left: nat, made: nat)
    requires Honest(w)
    ensures !Rounds(w, s, left, made).Down?
    decreases left
  {
    if left > 0 {
      var r := w.reply(made, s.messages, true);
      if r.Response? && r.calls != [] {
        NeverDown(w, AfterTools(w, s.(messages := s.messages + [Assistant(r.text)]), r.calls), left - 1, made + 1);
      }
    }
  }

  // ---------------------------------------------------------------- what the data and the refusals say

  /**
   What a tool returned is handed on untouched; a tool that is missing or refuses shows as an error, with
   its reason and nothing that could pass for data.
   */
  lemma DataUntouched(w: World, question: string, maxIterations: nat, i: nat)
    requires i < |Turn(w, question, maxIterations).0.data|
    ensures var outcome := Turn(w, question, maxIterations).0;
            i < |outcome.invocations| &&
            exists id ::
              var v := outcome.invocations[i];
              var run := w.run(i, Call(id, v.tool, v.arguments));
              && v.error == !run.Returned?
              && (run.Returned? ==> outcome.data[i] == run.data)
              && (run.Refused? ==> outcome.data[i] == Dict([Field("error", Str(run.code)), Field("detail", Str(run.detail))]))
              && (run.NoSuchTool? ==> outcome.data[i] == Dict([Field("error", Str("No such tool: " + v.tool))]))
  {
    DataIsToolResults(w, question, maxIterations);
    var outcome := Turn(w, question, maxIterations).0;
    var v := outcome.invocations[i];
    assert Faithful(w, v, i, outcome.data[i]);
    var id :| var call := Call(id, v.tool, v.arguments);
              && outcome.data[i] == PayloadOf(call, w.run(i, call))
              && v.error == !w.run(i, call).Returned?
              && v.rows == RowsOf(outcome.data[i]);
  }

  /** Reply `n` of the provider, to whatever it was shown. */
  ghost predicate Replied(w: World, n: nat, r: Reply) {
    exists messages, tools :: w.reply(n, messages, tools) == r
  }

  /** Reply `n` was a text with a figure the data do not support. */
  ghost predicate Unsupported(w: World, n: nat, data: seq<Payload>) {
    exists r | Replied(w, n, r) :: r.Response? && !Grounded(r.text, data)
  }

  /** Reply `n` asked for tools. */
  ghost predicate AskedForTools(w: World, n: nat) {
    exists r | Replied(w, n, r) :: r.Response? && r.calls != []
  }

  /** The last reply of a loop that made any call: an outage, a text, or still more calls when the iterations ran out. */
  lemma {:induction false} LastRound(w: World, s: State, left: nat, made: nat)
    ensures var stop := Rounds(w, s, left, made);
            stop.calls > made ==>
              var n: nat := stop.calls - 1;
              && (stop.Down? ==> Replied(w, n, Unavailable))
              && (stop.Text? ==> Replied(w, n, Response(stop.text, [])))
              && (stop.Exhausted? ==> AskedForTools(w, n))
    decreases left
  {
    if left > 0 {
      var r := w.reply(made, s.messages, true);
      assert Replied(w, made, r);
      if r.Response? && r.calls != [] {
        var next := AfterTools(w, s.(messages := s.messages + [Assistant(r.text)]), r.calls);
        LastRound(w, next, left - 1, made + 1);
        RoundsBounded(w, next, left - 1, made + 1);
        if left - 1 == 0 {
          assert Rounds(w, s, left, made) == Exhausted(next, made + 1);
        }
      }
    }
  }

  /** A text that is not answered with: it, or the one regenerated from it, was unsupported, or the provider failed then. */
  lemma TextDegradedWhy(w: World, stop: Stop)
    requires stop.Text? && stop.calls > 0 && Replied(w, stop.calls - 1, Response(stop.text, []))
    ensures var (outcome, calls) := Finish(w, stop);
            outcome.Degraded? ==>
              var n: nat := calls - 1;
              if outcome.groundingFailed then Unsupported(w, n, outcome.data) else Replied(w, n, Unavailable)
  {
    var again := w.reply(stop.calls, stop.state.messages + [Stricter], false);
    assert Replied(w, stop.calls, again);
  }

  /** Given how the loop stopped, why its turn degrades. */
  ghost predicate Explained(w: World, outcome: Outcome, calls: nat, maxIterations: nat) {
    if calls == 0 then outcome.Degraded? ==> !outcome.groundingFailed
    else
      var n: nat := calls - 1;
      outcome.Degraded? ==>
        if outcome.groundingFailed then Unsupported(w, n, outcome.data)
        else Replied(w, n, Unavailable) || (calls == maxIterations && AskedForTools(w, n))
  }

  lemma StopExplained(w: World, stop: Stop, maxIterations: nat)
    requires stop.calls == 0 ==> stop.Exhausted?
    requires stop.Exhausted? ==> stop.calls == maxIterations && (stop.calls > 0 ==> AskedForTools(w, stop.calls - 1))
    requires stop.Down? ==> Replied(w, stop.calls - 1, Unavailable)
    requires stop.Text? ==> Replied(w, stop.calls - 1, Response(stop.text, []))
    ensures Explained(w, Finish(w, stop).0, Finish(w, stop).1, maxIterations)
    ensures Finish(w, stop).1 == 0 ==> stop.calls == 0
  {
    if stop.Text? {
      TextDegradedWhy(w, stop);
    }
  }

  /**
   Why a turn degrades. For its grounding, exactly when the last reply was a text with an unsupported
   figure; otherwise the last reply was an outage, or asked for more tools when the iterations had run out,
   or there were no iterations.
   */
  lemma DegradedWhy(w: World, question: string, maxIterations: nat)
    ensures var (outcome, calls) := Turn(w, question, maxIterations);
            (calls == 0 <==> maxIterations == 0) && Explained(w, outcome, calls, maxIterations)
  {
    var s := State([User(question)], [], []);
    RoundsBounded(w, s, maxIterations, 0);
    LastRound(w, s, maxIterations, 0);
    StopExplained(w, Rounds(w, s, maxIterations, 0), maxIterations);
  }

  // ---------------------------------------------------------------- what the provider is shown

  /** A round shows the provider its own text and then each tool's result in the order it asked, under the call's own id. */
  lemma {:induction false} ToolsShown(w: World, s: State, calls: seq<Call>, j: nat)
    requires j < |calls|
    ensures var r := AfterTools(w, s, calls);
            && |r.messages| == |s.messages| + |calls| && |r.collected| == |s.collected| + |calls|
            && |r.invocations| == |s.invocations| + |calls|
            && r.messages[|s.messages| + j] == ToolData(calls[j].name, calls[j].id, r.collected[|s.collected| + j])
            && r.invocations[|s.invocations| + j].tool == calls[j].name
            && r.invocations[|s.invocations| + j].arguments == calls[j].arguments
            && s.messages <= r.messages && s.collected <= r.collected && s.invocations <= r.invocations
    decreases |calls|
  {
    var next := AfterTool(w, s, calls[0]);
    if |calls| > 1 {
      ToolsShown(w, next, calls[1..], if j == 0 then 0 else j - 1);
    } else {
      assert calls[1..] == [];
    }
  }

  /** The first reply is to the question alone. If it asks for no tools and states no figure, it is the answer. */
  lemma FirstReply(w: World, question: string, maxIterations: nat)
    requires maxIterations > 0
    ensures var first := w.reply(0, [User(question)], true);
            && (first.Unavailable? ==> Turn(w, question, maxIterations) == (Degraded(false, [], []), 1))
            && (first.Response? && first.calls == [] && Numbers(first.text) == {} ==>
                  Turn(w, question, maxIterations) == (Answered(first.text, false, [], []), 1))
            && (first.Response? && first.calls == [] && Numbers(first.text) != {} ==>
                  Turn(w, question, maxIterations) == (Degraded(true, [], []), 1))
  {
    var first := w.reply(0, [User(question)], true);
    if first.Response? && first.calls == [] {
      if x :| x in Numbers(first.text) {
        NothingFromNothing(x);
      }
    }
  }

  /**
   A text with an unsupported figure is regenerated exactly when there are tool results, once, from the same
   conversation with the stricter instruction at its end and without tools.
   */
  lemma RegeneratedOnce(w: World, question: string, maxIterations: nat)
    ensures var stop := Rounds(w, State([User(question)], [], []), maxIterations, 0);
            var (outcome, calls) := Turn(w, question, maxIterations);
            var unsupported := stop.Text? && !Grounded(stop.text, stop.state.collected);
            && calls == stop.calls + (if unsupported && stop.state.collected != [] then 1 else 0)
            && (outcome.Answered? ==> (outcome.regenerated <==> unsupported))
            && (outcome.Answered? && outcome.regenerated ==>
                  var again := w.reply(stop.calls, stop.state.messages + [Stricter], false);
                  again.Response? && outcome.text == again.text)
            && outcome.data == stop.state.collected && outcome.invocations == stop.state.invocations
  {
  }

  /** The number of rows reported for a tool is the length of its list of items. */
  lemma {:induction false} RowsCounted(before: seq<Field>, items: seq<Payload>, after: seq<Field>)
    requires forall i | 0 <= i < |before| :: before[i].key != "items"
    ensures RowsOf(Dict(before + [Field("items", List(items))] + after)) == |items|
  {
    var fields := before + [Field("items", List(items))] + after;
    if before != [] {
      RowsCounted(before[1..], items, after);
      assert fields[1..] == before[1..] + [Field("items", List(items))] + after;
    }
  }

}
