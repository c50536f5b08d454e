/** The tool loop of pkg/agent/loop.go as a round-by-round machine over history and message store, with no
    history capper. Model, tool parser, tools and store failures are oracles. */
module AgentLoop {
  import opened Runes
  import opened Chat
  import opened ToolNames
  import opened ToolCalls

  datatype Reply = ReplyError | Raw(text: string)

  /** A call as the model asks for it. */
  datatype Row = Row(name: string, params: string)

  datatype Parsed = ParseError | Rows(rows: seq<Row>)

  /** `llm(round, history)`, `run(round, index, call)` and `storeOk(k)` answer for the model, for a tool
      (result or error text), and for the k-th write to the store. */
  datatype Oracles = Oracles(
    llm: (nat, seq<Message>) -> Reply,
    blob: string -> string,
    parse: string -> Parsed,
    directText: string -> string,
    run: (nat, nat, Call) -> string,
    storeOk: nat -> bool,
    charset: Charset,
    tools: seq<string>)

  /** What the store holds and how many writes were tried. */
  datatype Log = Log(messages: seq<Message>, writes: nat)

  function Write(o: Oracles, log: Log, m: Message): Log {
    Log(if o.storeOk(log.writes) then log.messages + [m] else log.messages, log.writes + 1)
  }

  class MessageStore {
    var messages: seq<Message>
    var writes: nat

    function Value(): Log
      reads this
    {
      Log(messages, writes)
    }

    method Create(o: Oracles, m: Message) returns (ok: bool)
      modifies this
      ensures ok == o.storeOk(old(writes)) && Value() == Write(o, old(Value()), m)
    {
      ok := o.storeOk(writes);
      if ok {
        messages := messages + [m];
      }
      writes := writes + 1;
    }
  }

  // ----- The messages of a round

  function ExecutableRows(o: Oracles, rows: seq<Row>): seq<Row> {
    if rows == [] then []
    else ExecutableRows(o, rows[..|rows| - 1]) +
         if IsDirectAnswer(o.charset, rows[|rows| - 1].name) then [] else [rows[|rows| - 1]]
  }

  datatype Calls = UnknownTool | Calls(calls: seq<Call>)

  function ResolveRows(o: Oracles, rows: seq<Row>): Calls {
    if rows == [] then Calls([])
    else
      var front, last := ResolveRows(o, rows[..|rows| - 1]), rows[|rows| - 1];
      var r := Resolve(o.charset, o.tools, last.name);
      if front.UnknownTool? || r.Unresolved? then UnknownTool
      else Calls(front.calls + [Call(r.name, last.params)])
  }

  function ToolMessage(result: string, name: string, i: nat): Message {
    NewMessage(result, Tool).(toolName := name, toolCallID := CallId(i))
  }

  /** One assistant message with the calls, and one tool message per call, in order. */
  function RoundMessages(o: Oracles, round: nat, full: string, calls: seq<Call>): seq<Message> {
    [NewMessage(full, Assistant).(toolCallsJSON := CallsJSON(calls))] +
    seq(|calls|, i requires 0 <= i < |calls| => ToolMessage(o.run(round, i, calls[i]), calls[i].name, i))
  }

  /** Writes messages until one fails. */
  function WriteAll(o: Oracles, log: Log, msgs: seq<Message>): (r: (Log, bool))
    decreases |msgs|
  {
    if msgs == [] then (log, true)
    else if o.storeOk(log.writes) then WriteAll(o, Write(o, log, msgs[0]), msgs[1..])
    else (Write(o, log, msgs[0]), false)
  }

  // ----- The machine

  datatype Outcome = Answered | Failed | OutOfRounds

  datatype Turn = Stop(outcome: Outcome, log: Log) | Again(log: Log, history: seq<Message>)

  function Persist(o: Oracles, log: Log, content: string): Turn {
    Stop(if o.storeOk(log.writes) then Answered else Failed, Write(o, log, NewMessage(content, Assistant)))
  }

  function ToolRound(o: Oracles, round: nat, history: seq<Message>, log: Log, full: string, blob: string): Turn {
    match o.parse(blob)
    case ParseError => Persist(o, log, full)
    case Rows(rows) =>
      if rows == [] then Persist(o, log, full)
      else if |rows| == 1 && IsDirectAnswer(o.charset, rows[0].name) then
        var ans := o.directText(rows[0].params);
        Persist(o, log, if ans == "" then full else ans)
      else
        var exec := ExecutableRows(o, rows);
        if exec == [] then Persist(o, log, full)
        else
          match ResolveRows(o, exec)
          case UnknownTool => Stop(Failed, log)
          case Calls(calls) =>
            var msgs := RoundMessages(o, round, full, calls);
            var (log', ok) := WriteAll(o, log, msgs);
            if ok then Again(log', history + msgs) else Stop(Failed, log')
  }

  function TakeTurn(o: Oracles, round: nat, history: seq<Message>, log: Log): Turn {
    match o.llm(round, history)
    case ReplyError => Stop(Failed, log)
    case Raw(text) =>
      var full := TrimSpace(text);
      if full == "" then Stop(Failed, log)
      else
        var blob := o.blob(full);
        if blob == "" then Persist(o, log, full) else ToolRound(o, round, history, log, full, blob)
  }

  function RunFrom(o: Oracles, maxRounds: nat, round: nat, history: seq<Message>, log: Log): (Outcome, Log)
    decreases maxRounds - round
  {
    if round >= maxRounds then (OutOfRounds, log)
    else
      match TakeTurn(o, round, history, log)
      case Stop(outcome, log') => (outcome, log')
      case Again(log', history') => RunFrom(o, maxRounds, round + 1, history', log')
  }

  // ----- The same as imperative code

  method PersistAndComplete(o: Oracles, store: MessageStore, content: string) returns (outcome: Outcome)
    modifies store
    ensures Stop(outcome, store.Value()) == Persist(o, old(store.Value()), content)
  {
    var ok := store.Create(o, NewMessage(content, Assistant));
    return if ok then Answered else Failed;
  }

  /** An order in which the tools of a round finish: all of them, at least once. */
  ghost predicate Covers(order: seq<nat>, n: nat) {
    (forall k :: 0 <= k < |order| ==> order[k] < n) && forall i :: 0 <= i < n ==> i in order
  }

  /** The calls a round would run. */
  function PlannedCalls(o: Oracles, blob: string): seq<Call> {
    var parsed := o.parse(blob);
    if parsed.ParseError? then []
    else
      var resolved := ResolveRows(o, ExecutableRows(o, parsed.rows));
      if resolved.UnknownTool? then [] else resolved.calls
  }

  /** The tools of a round finish in any order; each writes only its own outcome. */
  method RunTools(o: Oracles, round: nat, calls: seq<Call>, order: seq<nat>) returns (results: seq<string>)
    requires Covers(order, |calls|)
    ensures |results| == |calls| && forall i :: 0 <= i < |calls| ==> results[i] == o.run(round, i, calls[i])
  {
    var outcomes := new string[|calls|](_ => "");
    for k := 0 to |order|
      invariant forall i :: 0 <= i < |calls| && i in order[..k] ==> outcomes[i] == o.run(round, i, calls[i])
    {
      var i := order[k];
      outcomes[i] := o.run(round, i, calls[i]);
      assert order[..k + 1] == order[..k] + [i];
    }
    assert order[..|order|] == order;
    results := outcomes[..];
  }

  method StoreRound(o: Oracles, store: MessageStore, msgs: seq<Message>) returns (ok: bool)
    modifies store
    ensures (store.Value(), ok) == WriteAll(o, old(store.Value()), msgs)
  {
    hide Write;
    for i := 0 to |msgs|
      invariant WriteAll(o, store.Value(), msgs[i..]) == WriteAll(o, old(store.Value()), msgs)
    {
      assert msgs[i..][0] == msgs[i] && msgs[i..][1..] == msgs[i + 1..];
      ok := store.Create(o, msgs[i]);
      if !ok {
        return;
      }
    }
    ok := true;
  }

  method RunToolRound(o: Oracles, store: MessageStore, round: nat, history: seq<Message>, full: string, blob: string,
                      order: seq<nat>)
    returns (turn: Turn)
    requires Covers(order, |PlannedCalls(o, blob)|)
    modifies store
    ensures turn == ToolRound(o, round, history, old(store.Value()), full, blob)
    ensures store.Value() == turn.log
  {
    hide Write, IsDirectAnswer, ExecutableRows, ResolveRows, CallsJSON;
    var parsed := o.parse(blob);
    if parsed.ParseError? || |parsed.rows| == 0 {
      var outcome := PersistAndComplete(o, store, full);
      return Stop(outcome, store.Value());
    }
    var rows := parsed.rows;
    if |rows| == 1 && IsDirectAnswer(o.charset, rows[0].name) {
      var ans := o.directText(rows[0].params);
      if ans == "" {
        ans := full;
      }
      var outcome := PersistAndComplete(o, store, ans);
      return Stop(outcome, store.Value());
    }
    var exec := ExecutableRows(o, rows);
    if |exec| == 0 {
      var outcome := PersistAndComplete(o, store, full);
      return Stop(outcome, store.Value());
    }
    var resolved := ResolveRows(o, exec);
    if resolved.UnknownTool? {
      return Stop(Failed, store.Value());
    }
    var calls := resolved.calls;
    var results := RunTools(o, round, calls, order);
    var assist := NewMessage(full, Assistant).(toolCallsJSON := CallsJSON(calls));
    var msgs := [assist] + seq(|calls|, i requires 0 <= i < |calls| => ToolMessage(results[i], calls[i].name, i));
    assert msgs == RoundMessages(o, round, full, calls);
    var ok := StoreRound(o, store, msgs);
    return if ok then Again(store.Value(), history + msgs) else Stop(Failed, store.Value());
  }

  /** `finish(round, n)` is the order in which the `n` tools of a round happen to finish; the result does not
      depend on it. */
  method RunLoop(o: Oracles, store: MessageStore, maxRounds: nat, initial: seq<Message>, finish: (nat, nat) -> seq<nat>)
    returns (outcome: Outcome)
    requires forall round: nat, n: nat :: Covers(finish(round, n), n)
    modifies store
    ensures (outcome, store.Value()) == RunFrom(o, maxRounds, 0, initial, old(store.Value()))
  {
    hide ToolRound, Persist, TrimSpace;
    var history := initial;
    for round := 0 to maxRounds
      invariant RunFrom(o, maxRounds, round, history, store.Value())
             == RunFrom(o, maxRounds, 0, initial, old(store.Value()))
    {
      var reply := o.llm(round, history);
      if reply.ReplyError? {
        return Failed;
      }
      var full := TrimSpace(reply.text);
      if full == "" {
        return Failed;
      }
      var blob := o.blob(full);
      if blob == "" {
        outcome := PersistAndComplete(o, store, full);
        return;
      }
      var turn := RunToolRound(o, store, round, history, full, blob, finish(round, |PlannedCalls(o, blob)|));
      if turn.Stop? {
        return turn.outcome;
      }
      history := turn.history;
    }
    return OutOfRounds;
  }

  // ----- What history and store look like

  function Flatten(rounds: seq<seq<Message>>): seq<Message> {
    if rounds == [] then [] else Flatten(rounds[..|rounds| - 1]) + rounds[|rounds| - 1]
  }

  lemma FlattenSnoc(rounds: seq<seq<Message>>, r: seq<Message>)
    ensures Flatten(rounds + [r]) == Flatten(rounds) + r
  {
    assert (rounds + [r])[..|rounds|] == rounds;
  }

  /** One assistant with calls 1 .. k, k > 0, and k tool messages with ids call_1 .. call_k and the names of
      the calls. */
  ghost predicate RoundOk(r: seq<Message>, calls: seq<Call>) {
    && |r| == |calls| + 1 >= 2 && r[0].role.Assistant? && r[0].toolCallsJSON == CallsJSON(calls)
    && forall i :: 0 <= i < |calls| ==>
         r[i + 1].role.Tool? && r[i + 1].toolCallID == CallId(i) && r[i + 1].toolName == calls[i].name
  }

  ghost predicate IsRound(r: seq<Message>) {
    exists calls :: RoundOk(r, calls)
  }

  ghost predicate AreRounds(rounds: seq<seq<Message>>) {
    forall r :: r in rounds ==> IsRound(r)
  }

  lemma {:induction false} ResolveRowsCount(o: Oracles, rows: seq<Row>)
    ensures ResolveRows(o, rows).Calls? ==> |ResolveRows(o, rows).calls| == |rows|
  {
    hide Resolve;
    if rows != [] {
      ResolveRowsCount(o, rows[..|rows| - 1]);
    }
  }

  // ----- What the model asked for

  /** The model's reply in a round, trimmed; a blank one is none. */
  ghost predicate Replied(o: Oracles, round: nat, history: seq<Message>, full: string) {
    o.llm(round, history).Raw? && full == TrimSpace(o.llm(round, history).text) != ""
  }

  /** The call that a row asks for: its parameters under the name that its name resolves to. */
  ghost predicate Made(o: Oracles, row: Row, call: Call) {
    && !IsDirectAnswer(o.charset, row.name)
    && var r := Resolve(o.charset, o.tools, row.name);
       !r.Unresolved? && call == Call(r.name, row.params)
  }

  /** The calls are those of the rows that are no direct answers, in order; `at` says where they stand. */
  ghost predicate AskedAt(o: Oracles, rows: seq<Row>, calls: seq<Call>, at: seq<nat>) {
    && |at| == |calls| && (forall i, j :: 0 <= i < j < |at| ==> at[i] < at[j])
    && (forall i :: 0 <= i < |at| ==> at[i] < |rows| && Made(o, rows[at[i]], calls[i]))
    && (forall j: nat :: j < |rows| && !IsDirectAnswer(o.charset, rows[j].name) ==> j in at)
  }

  ghost predicate Asked(o: Oracles, full: string, calls: seq<Call>) {
    && o.blob(full) != "" && o.parse(o.blob(full)).Rows? && calls != []
    && exists at :: AskedAt(o, o.parse(o.blob(full)).rows, calls, at)
  }

  /** Some row of the reply is not a direct answer. */
  ghost predicate AsksForTools(o: Oracles, full: string) {
    && o.blob(full) != "" && o.parse(o.blob(full)).Rows?
    && exists row :: row in o.parse(o.blob(full)).rows && !IsDirectAnswer(o.charset, row.name)
  }

  /** The text of a reply that is one direct answer and nothing else. */
  ghost function LoneAnswer(o: Oracles, full: string): string {
    if o.blob(full) == "" || o.parse(o.blob(full)).ParseError? then ""
    else
      var rows := o.parse(o.blob(full)).rows;
      if |rows| == 1 && IsDirectAnswer(o.charset, rows[0].name) then o.directText(rows[0].params) else ""
  }

  /** The round that a reply leads to: the reply with its calls, and what each call returned. */
  ghost predicate RoundOf(o: Oracles, round: nat, history: seq<Message>, r: seq<Message>, full: string, calls: seq<Call>) {
    && Replied(o, round, history, full) && Asked(o, full, calls)
    && RoundOk(r, calls) && r[0].content == full
    && forall i :: 0 <= i < |calls| ==> r[i + 1].content == o.run(round, i, calls[i])
  }

  ghost predicate ModelRound(o: Oracles, round: nat, history: seq<Message>, r: seq<Message>) {
    exists full, calls :: RoundOf(o, round, history, r, full, calls)
  }

  /** What a reply that asks for no tools is stored as: itself, or the text of its lone direct answer. */
  ghost predicate AnswerOf(o: Oracles, round: nat, history: seq<Message>, content: string) {
    exists full ::
      && Replied(o, round, history, full) && !AsksForTools(o, full)
      && content == if LoneAnswer(o, full) != "" then LoneAnswer(o, full) else full
  }

  lemma AskedSkip(o: Oracles, front: seq<Row>, last: Row, calls: seq<Call>, at: seq<nat>)
    requires IsDirectAnswer(o.charset, last.name)
    ensures AskedAt(o, front + [last], calls, at) <==> AskedAt(o, front, calls, at)
  {
    hide Resolve, IsDirectAnswer;
    var rows := front + [last];
    assert forall j: nat :: j < |front| ==> rows[j] == front[j];
    assert rows[|front|] == last;
  }

  lemma AskedSnoc(o: Oracles, front: seq<Row>, last: Row, calls: seq<Call>, at: seq<nat>, call: Call)
    requires AskedAt(o, front, calls, at) && Made(o, last, call)
    ensures AskedAt(o, front + [last], calls + [call], at + [|front|])
  {
    hide Made, IsDirectAnswer;
    var rows, more := front + [last], at + [|front|];
    assert forall j: nat :: j < |front| ==> rows[j] == front[j];
    assert more[|at|] == |front| && rows[|front|] == last;
    forall j: nat | j < |rows| && !IsDirectAnswer(o.charset, rows[j].name)
      ensures j in more
    {
      assert j < |front| ==> j in at;
    }
  }

  lemma AskedLast(o: Oracles, front: seq<Row>, last: Row, calls: seq<Call>, at: seq<nat>)
    requires AskedAt(o, front + [last], calls, at) && !IsDirectAnswer(o.charset, last.name)
    ensures at != [] && Made(o, last, calls[|at| - 1]) && AskedAt(o, front, calls[..|at| - 1], at[..|at| - 1])
  {
    hide Made, IsDirectAnswer;
    var rows, n := front + [last], |front|;
    assert forall j: nat :: j < n ==> rows[j] == front[j];
    assert rows[n] == last && n in at;
    var m := |at| - 1;
    assert at[m] == n;
    forall j: nat | j < n && !IsDirectAnswer(o.charset, front[j].name)
      ensures j in at[..m]
    {
      assert rows[j] == front[j] && j in at;
    }
  }

  lemma ExecSnoc(o: Oracles, front: seq<Row>, last: Row)
    ensures ExecutableRows(o, front + [last]) == ExecutableRows(o, front) + if IsDirectAnswer(o.charset, last.name) then [] else [last]
    ensures ResolveRows(o, front + [last]) ==
              var before, r := ResolveRows(o, front), Resolve(o.charset, o.tools, last.name);
              if before.UnknownTool? || r.Unresolved? then UnknownTool else Calls(before.calls + [Call(r.name, last.params)])
  {
    hide Resolve, IsDirectAnswer;
    assert (front + [last])[..|front|] == front;
  }

  /** The executable rows resolve to some calls exactly when the rows ask for those. */
  lemma {:induction false} AskedIff(o: Oracles, rows: seq<Row>, calls: seq<Call>)
    ensures ResolveRows(o, ExecutableRows(o, rows)) == Calls(calls) <==> exists at :: AskedAt(o, rows, calls, at)
    decreases |rows|, 0
  {
    hide Resolve, IsDirectAnswer, AskedAt, Made, ExecutableRows, ResolveRows;
    if rows == [] {
      NothingAsked(o, calls);
    } else {
      var front, last := rows[..|rows| - 1], rows[|rows| - 1];
      assert rows == front + [last];
      ExecSnoc(o, front, last);
      var exec := ExecutableRows(o, front);
      if IsDirectAnswer(o.charset, last.name) {
        assert exec + [] == exec;
        AskedIff(o, front, calls);
        forall at
          ensures AskedAt(o, rows, calls, at) <==> AskedAt(o, front, calls, at)
        {
          AskedSkip(o, front, last, calls, at);
        }
      } else {
        AskedLastIff(o, front, last, calls);
      }
    }
  }

  lemma AtSome(o: Oracles, rows: seq<Row>, calls: seq<Call>, at: seq<nat>)
    requires AskedAt(o, rows, calls, at)
    ensures |calls| > 0 ==> |rows| > 0
  {
    assert |at| > 0 ==> at[0] < |rows|;
  }

  lemma NothingAsked(o: Oracles, calls: seq<Call>)
    ensures ResolveRows(o, ExecutableRows(o, [])) == Calls(calls) <==> exists at :: AskedAt(o, [], calls, at)
  {
    if calls == [] {
      assert AskedAt(o, [], calls, []);
    }
    forall at | AskedAt(o, [], calls, at)
      ensures calls == []
    {
      AtSome(o, [], calls, at);
    }
  }

  lemma {:induction false} AskedLastIff(o: Oracles, front: seq<Row>, last: Row, calls: seq<Call>)
    requires !IsDirectAnswer(o.charset, last.name)
    ensures ResolveRows(o, ExecutableRows(o, front + [last])) == Calls(calls) <==> exists at :: AskedAt(o, front + [last], calls, at)
    decreases |front|, 1
  {
    hide Resolve, IsDirectAnswer, AskedAt, ExecutableRows, ResolveRows;
    var rows, exec := front + [last], ExecutableRows(o, front);
    ExecSnoc(o, front, last);
    ExecSnoc(o, exec, last);
    if calls != [] {
      var m := |calls| - 1;
      assert calls == calls[..m] + [calls[m]];
      AskedIff(o, front, calls[..m]);
      if ResolveRows(o, ExecutableRows(o, rows)) == Calls(calls) {
        var before := ResolveRows(o, exec).calls;
        assert before == calls[..m] && Made(o, last, calls[m]);
        var at :| AskedAt(o, front, calls[..m], at);
        AskedSnoc(o, front, last, calls[..m], at, calls[m]);
      }
      if at :| AskedAt(o, rows, calls, at) {
        AskedLast(o, front, last, calls, at);
        assert |at| == |calls| by { AskedCount(o, rows, calls, at); }
        assert AskedAt(o, front, calls[..m], at[..m]);
      }
    } else {
      forall at
        ensures !AskedAt(o, rows, calls, at)
      {
        if AskedAt(o, rows, calls, at) {
          AskedCount(o, rows, calls, at);
          AskedLast(o, front, last, calls, at);
        }
      }
    }
  }

  lemma AskedCount(o: Oracles, rows: seq<Row>, calls: seq<Call>, at: seq<nat>)
    requires AskedAt(o, rows, calls, at)
    ensures |at| == |calls|
  {
  }

  lemma {:induction false} NothingExecutable(o: Oracles, rows: seq<Row>)
    ensures ExecutableRows(o, rows) == [] <==> forall row :: row in rows ==> IsDirectAnswer(o.charset, row.name)
    decreases |rows|
  {
    hide IsDirectAnswer;
    if rows != [] {
      NothingExecutable(o, rows[..|rows| - 1]);
      assert rows == rows[..|rows| - 1] + [rows[|rows| - 1]];
    }
  }

  lemma AskedSome(o: Oracles, full: string, calls: seq<Call>)
    requires Asked(o, full, calls)
    ensures calls != []
  {
  }

  lemma RoundMessagesOk(o: Oracles, round: nat, history: seq<Message>, full: string, calls: seq<Call>)
    requires Replied(o, round, history, full) && Asked(o, full, calls)
    ensures RoundOf(o, round, history, RoundMessages(o, round, full, calls), full, calls)
  {
    hide CallsJSON, CallId, Replied, Asked;
    var r := RoundMessages(o, round, full, calls);
    assert calls != [] by { AskedSome(o, full, calls); }
    forall i | 0 <= i < |calls|
      ensures && r[i + 1].role.Tool? && r[i + 1].toolCallID == CallId(i) && r[i + 1].toolName == calls[i].name
              && r[i + 1].content == o.run(round, i, calls[i])
    {
      assert r[i + 1] == ToolMessage(o.run(round, i, calls[i]), calls[i].name, i);
    }
  }

  lemma OneMore(base: seq<Message>, msgs: seq<Message>, k: nat)
    requires k < |msgs|
    ensures base + [msgs[0]] + msgs[1..][..k] == base + msgs[..k + 1]
  {
  }

  lemma {:induction false} WriteAllAppends(o: Oracles, log: Log, msgs: seq<Message>)
    ensures var (log', ok) := WriteAll(o, log, msgs);
            exists k :: 0 <= k <= |msgs| && log'.messages == log.messages + msgs[..k] && (ok ==> k == |msgs|)
    decreases |msgs|
  {
    if msgs == [] {
      assert log.messages + msgs[..0] == log.messages;
    } else if o.storeOk(log.writes) {
      var log1 := Write(o, log, msgs[0]);
      WriteAllAppends(o, log1, msgs[1..]);
      var (log', ok) := WriteAll(o, log1, msgs[1..]);
      var k :| 0 <= k <= |msgs[1..]| && log'.messages == log1.messages + msgs[1..][..k] && (ok ==> k == |msgs[1..]|);
      OneMore(log.messages, msgs, k);
    } else {
      assert log.messages + msgs[..0] == log.messages;
    }
  }

  /** The final answer: an assistant message without calls. */
  predicate IsAnswer(m: Message) {
    m.role.Assistant? && m.toolCallsJSON == ""
  }

  /** What one turn adds: the round of the model's reply to both, or, at the end, its answer to the store, or, on
      failure, the beginning of that round. */
  ghost predicate TurnOk(o: Oracles, round: nat, history: seq<Message>, log: Log, turn: Turn) {
    match turn
    case Again(log', history') =>
      exists r :: ModelRound(o, round, history, r) && history' == history + r && log'.messages == log.messages + r
    case Stop(outcome, log') =>
      && outcome != OutOfRounds
      && (outcome.Answered? ==>
            exists m :: IsAnswer(m) && AnswerOf(o, round, history, m.content) && log'.messages == log.messages + [m])
      && (outcome.Failed? ==>
            (log'.messages == log.messages ||
             exists r, k :: ModelRound(o, round, history, r) && 0 <= k < |r| && log'.messages == log.messages + r[..k]))
  }

  lemma PersistOk(o: Oracles, round: nat, history: seq<Message>, log: Log, content: string)
    requires AnswerOf(o, round, history, content)
    ensures TurnOk(o, round, history, log, Persist(o, log, content))
    ensures Persist(o, log, content).Stop? && (Persist(o, log, content).outcome.Answered? <==> o.storeOk(log.writes))
  {
    hide AnswerOf;
    assert IsAnswer(NewMessage(content, Assistant));
  }

  lemma RoundOrPartOk(o: Oracles, round: nat, history: seq<Message>, log: Log, msgs: seq<Message>)
    requires ModelRound(o, round, history, msgs)
    ensures var (log', ok) := WriteAll(o, log, msgs);
            TurnOk(o, round, history, log, if ok then Again(log', history + msgs) else Stop(Failed, log'))
  {
    hide ModelRound, WriteAll;
    WriteAllAppends(o, log, msgs);
    var (log', ok) := WriteAll(o, log, msgs);
    var k :| 0 <= k <= |msgs| && log'.messages == log.messages + msgs[..k] && (ok ==> k == |msgs|);
    if ok {
      assert msgs[..k] == msgs;
    } else {
      FailedPart(o, log, msgs);
    }
  }

  lemma {:induction false} WriteAllIff(o: Oracles, log: Log, msgs: seq<Message>)
    ensures WriteAll(o, log, msgs).1 <==> StoresAll(o, log, |msgs|)
    decreases |msgs|
  {
    if msgs != [] && o.storeOk(log.writes) {
      WriteAllIff(o, Write(o, log, msgs[0]), msgs[1..]);
    }
  }

  /** The next `n` writes succeed. */
  ghost predicate StoresAll(o: Oracles, log: Log, n: nat) {
    forall k :: log.writes <= k < log.writes + n ==> o.storeOk(k)
  }

  /** A failed write means the round was not stored whole. */
  lemma {:induction false} FailedPart(o: Oracles, log: Log, msgs: seq<Message>)
    requires !WriteAll(o, log, msgs).1
    ensures exists k :: 0 <= k < |msgs| && WriteAll(o, log, msgs).0.messages == log.messages + msgs[..k]
    decreases |msgs|
  {
    if o.storeOk(log.writes) {
      var log1 := Write(o, log, msgs[0]);
      FailedPart(o, log1, msgs[1..]);
      var k :| 0 <= k < |msgs[1..]| && WriteAll(o, log1, msgs[1..]).0.messages == log1.messages + msgs[1..][..k];
      OneMore(log.messages, msgs, k);
    } else {
      assert log.messages + msgs[..0] == log.messages;
    }
  }

  lemma FailedOk(o: Oracles, round: nat, history: seq<Message>, log: Log)
    ensures TurnOk(o, round, history, log, Stop(Failed, log))
  {
  }

  lemma ToolRoundOk(o: Oracles, round: nat, history: seq<Message>, log: Log, full: string)
    requires Replied(o, round, history, full) && o.blob(full) != "" && AsksForTools(o, full)
    ensures var turn := ToolRound(o, round, history, log, full, o.blob(full));
            && TurnOk(o, round, history, log, turn)
            && (turn.Again? <==> exists calls :: Asked(o, full, calls) && StoresAll(o, log, |calls| + 1))
            && (turn.Stop? ==> turn.outcome.Failed?)
  {
    hide TurnOk, Replied, IsDirectAnswer, RoundMessages, ResolveRows, ExecutableRows, WriteAll, AskedAt, ModelRound, StoresAll;
    var rows := o.parse(o.blob(full)).rows;
    var turn := ToolRound(o, round, history, log, full, o.blob(full));
    FailedOk(o, round, history, log);
    NothingExecutable(o, rows);
    forall calls
      ensures ResolveRows(o, ExecutableRows(o, rows)) == Calls(calls) <==> exists at :: AskedAt(o, rows, calls, at)
    {
      AskedIff(o, rows, calls);
    }
    var resolved := ResolveRows(o, ExecutableRows(o, rows));
    forall calls
      ensures Asked(o, full, calls) ==> resolved == Calls(calls)
    {
    }
    hide Asked;
    if resolved.Calls? {
      ResolveRowsCount(o, ExecutableRows(o, rows));
      assert Asked(o, full, resolved.calls) by { AskedIs(o, full, resolved.calls); }
      AskedRoundOk(o, round, history, log, full, resolved.calls);
    }
  }

  lemma AskedIs(o: Oracles, full: string, calls: seq<Call>)
    requires o.blob(full) != "" && o.parse(o.blob(full)).Rows? && calls != []
    requires exists at :: AskedAt(o, o.parse(o.blob(full)).rows, calls, at)
    ensures Asked(o, full, calls)
  {
  }

  lemma AskedRoundOk(o: Oracles, round: nat, history: seq<Message>, log: Log, full: string, calls: seq<Call>)
    requires Replied(o, round, history, full) && Asked(o, full, calls)
    ensures var msgs := RoundMessages(o, round, full, calls);
            var (log', ok) := WriteAll(o, log, msgs);
            && TurnOk(o, round, history, log, if ok then Again(log', history + msgs) else Stop(Failed, log'))
            && (ok <==> StoresAll(o, log, |calls| + 1))
  {
    hide TurnOk, Replied, Asked, RoundMessages, WriteAll, StoresAll, RoundOf;
    var msgs := RoundMessages(o, round, full, calls);
    RoundMessagesOk(o, round, history, full, calls);
    RoundOrPartOk(o, round, history, log, msgs);
    WriteAllIff(o, log, msgs);
    RoundMessagesCount(o, round, full, calls);
  }

  lemma RoundMessagesCount(o: Oracles, round: nat, full: string, calls: seq<Call>)
    ensures |RoundMessages(o, round, full, calls)| == |calls| + 1
  {
  }

  lemma AnswerTurnOk(o: Oracles, round: nat, history: seq<Message>, log: Log, full: string)
    requires Replied(o, round, history, full) && !AsksForTools(o, full)
    ensures var turn := if o.blob(full) == "" then Persist(o, log, full) else ToolRound(o, round, history, log, full, o.blob(full));
            && TurnOk(o, round, history, log, turn)
            && turn.Stop? && (turn.outcome.Answered? <==> o.storeOk(log.writes))
  {
    hide TurnOk, Replied, IsDirectAnswer, ExecutableRows, ResolveRows, Persist;
    var content := if LoneAnswer(o, full) != "" then LoneAnswer(o, full) else full;
    assert AnswerOf(o, round, history, content);
    PersistOk(o, round, history, log, content);
    if o.blob(full) != "" && o.parse(o.blob(full)).Rows? {
      NothingExecutable(o, o.parse(o.blob(full)).rows);
    }
    hide AnswerOf;
  }

  /**
   * One turn does what the model's reply asks for. It goes on exactly when the reply asks for tools that all resolve
   * and the whole round could be stored, and it answers exactly when the reply asks for none and could be stored.
   */
  lemma TakeTurnOk(o: Oracles, round: nat, history: seq<Message>, log: Log)
    ensures var turn := TakeTurn(o, round, history, log);
            && TurnOk(o, round, history, log, turn)
            && (turn.Again? <==> exists full, calls :: Replied(o, round, history, full) && Asked(o, full, calls)
                                                       && StoresAll(o, log, |calls| + 1))
            && (turn.Stop? && turn.outcome.Answered? <==>
                  exists full :: Replied(o, round, history, full) && !AsksForTools(o, full) && o.storeOk(log.writes))
  {
    hide Persist, TurnOk, TrimSpace, ToolRound, AskedAt, StoresAll;
    FailedOk(o, round, history, log);
    if o.llm(round, history).Raw? {
      var full := TrimSpace(o.llm(round, history).text);
      if full != "" {
        assert Replied(o, round, history, full);
        if AsksForTools(o, full) {
          ToolRoundOk(o, round, history, log, full);
        } else {
          AnswerTurnOk(o, round, history, log, full);
          forall calls
            ensures !Asked(o, full, calls)
          {
            NotAsked(o, full, calls);
          }
        }
      }
    }
  }

  lemma NotAsked(o: Oracles, full: string, calls: seq<Call>)
    ensures Asked(o, full, calls) ==> AsksForTools(o, full)
  {
    hide Resolve, IsDirectAnswer;
    if Asked(o, full, calls) {
      var at :| AskedAt(o, o.parse(o.blob(full)).rows, calls, at);
      assert Made(o, o.parse(o.blob(full)).rows[at[0]], calls[0]);
    }
  }

  /** Each round is the one that the model's reply to the history before it leads to. */
  ghost predicate Follows(o: Oracles, initial: seq<Message>, rounds: seq<seq<Message>>) {
    forall k :: 0 <= k < |rounds| ==> ModelRound(o, k, initial + Flatten(rounds[..k]), rounds[k])
  }

  lemma RoundsOf(o: Oracles, initial: seq<Message>, rounds: seq<seq<Message>>)
    requires Follows(o, initial, rounds)
    ensures AreRounds(rounds)
  {
    hide Flatten, RoundOk, Replied, Asked;
    forall r | r in rounds
      ensures IsRound(r)
    {
      var k :| 0 <= k < |rounds| && rounds[k] == r;
      var full, calls :| RoundOf(o, k, initial + Flatten(rounds[..k]), r, full, calls);
    }
  }

  lemma FollowsSnoc(o: Oracles, initial: seq<Message>, rounds: seq<seq<Message>>, r: seq<Message>)
    requires Follows(o, initial, rounds) && ModelRound(o, |rounds|, initial + Flatten(rounds), r)
    ensures Follows(o, initial, rounds + [r])
  {
    hide ModelRound, Flatten;
    forall k | 0 <= k < |rounds + [r]|
      ensures ModelRound(o, k, initial + Flatten((rounds + [r])[..k]), (rounds + [r])[k])
    {
      assert (rounds + [r])[..k] == rounds[..k] && rounds[..|rounds|] == rounds;
    }
  }

  /** How a run ends: whole rounds, then the model's answer to them; or whole rounds, then at most the beginning of one. */
  ghost predicate RunOk(o: Oracles, initial: seq<Message>, outcome: Outcome, stored: seq<Message>, before: seq<Message>,
                        rounds: seq<seq<Message>>, maxRounds: nat)
  {
    var n, history := |rounds|, initial + Flatten(rounds);
    && Follows(o, initial, rounds) && n <= maxRounds
    && match outcome
       case Answered =>
         n < maxRounds
         && exists m :: IsAnswer(m) && AnswerOf(o, n, history, m.content) && stored == before + Flatten(rounds) + [m]
       case OutOfRounds => n == maxRounds && stored == before + Flatten(rounds)
       case Failed =>
         stored == before + Flatten(rounds) ||
         exists r, k :: ModelRound(o, n, history, r) && 0 <= k < |r| && stored == before + Flatten(rounds) + r[..k]
  }

  /** History and store have the same rounds since the start. */
  ghost predicate Keeps(initial: seq<Message>, before: seq<Message>, history: seq<Message>, log: Log, rounds: seq<seq<Message>>) {
    history == initial + Flatten(rounds) && log.messages == before + Flatten(rounds)
  }

  lemma OneMoreRound(o: Oracles, initial: seq<Message>, before: seq<Message>, history: seq<Message>, log: Log,
                     rounds: seq<seq<Message>>, turn: Turn)
    returns (r: seq<Message>)
    requires Follows(o, initial, rounds) && Keeps(initial, before, history, log, rounds)
    requires TurnOk(o, |rounds|, history, log, turn) && turn.Again?
    ensures Follows(o, initial, rounds + [r]) && Keeps(initial, before, turn.history, turn.log, rounds + [r])
  {
    hide ModelRound, Follows, Flatten;
    r :| ModelRound(o, |rounds|, history, r) && turn.history == history + r && turn.log.messages == log.messages + r;
    FollowsSnoc(o, initial, rounds, r);
    FlattenSnoc(rounds, r);
    Assoc(initial, Flatten(rounds), r);
    Assoc(before, Flatten(rounds), r);
  }

  lemma RunStops(o: Oracles, maxRounds: nat, initial: seq<Message>, before: seq<Message>, history: seq<Message>, log: Log,
                 rounds: seq<seq<Message>>, turn: Turn)
    requires Follows(o, initial, rounds) && Keeps(initial, before, history, log, rounds) && |rounds| < maxRounds
    requires TurnOk(o, |rounds|, history, log, turn) && turn.Stop?
    ensures RunOk(o, initial, turn.outcome, turn.log.messages, before, rounds, maxRounds)
  {
    hide ModelRound, AnswerOf, Follows, Flatten, IsAnswer;
  }

  /** From whole rounds in history and store alike, a run ends as `RunOk` says. */
  lemma {:induction false} RunFromOk(o: Oracles, maxRounds: nat, initial: seq<Message>, before: seq<Message>,
                                     history: seq<Message>, log: Log, rounds: seq<seq<Message>>)
    returns (all: seq<seq<Message>>)
    requires Follows(o, initial, rounds) && |rounds| <= maxRounds && Keeps(initial, before, history, log, rounds)
    ensures var (outcome, log') := RunFrom(o, maxRounds, |rounds|, history, log);
            RunOk(o, initial, outcome, log'.messages, before, all, maxRounds)
    ensures rounds <= all
    decreases maxRounds - |rounds|
  {
    all := rounds;
    if |rounds| < maxRounds {
      hide TurnOk, Follows, Keeps, RunOk, TakeTurn, Replied, Asked, AsksForTools, StoresAll;
      TakeTurnOk(o, |rounds|, history, log);
      var turn := TakeTurn(o, |rounds|, history, log);
      if turn.Again? {
        var r := OneMoreRound(o, initial, before, history, log, rounds, turn);
        all := RunFromOk(o, maxRounds, initial, before, turn.history, turn.log, rounds + [r]);
      } else {
        RunStops(o, maxRounds, initial, before, history, log, rounds, turn);
      }
    }
  }

  // ----- The heads of the loop

  datatype Head = Head(history: seq<Message>, log: Log) | Ended

  /** History and store when the loop comes to round `k`, or Ended when the run was over before. */
  function HeadAt(o: Oracles, initial: seq<Message>, before: Log, k: nat): Head {
    if k == 0 then Head(initial, before)
    else
      match HeadAt(o, initial, before, k - 1)
      case Ended => Ended
      case Head(history, log) =>
        match TakeTurn(o, k - 1, history, log)
        case Again(log', history') => Head(history', log')
        case Stop(_, _) => Ended
  }

  /** The heads are those of the run: it goes on from each as it went on from the first. */
  lemma {:induction false} RunPassesHead(o: Oracles, maxRounds: nat, initial: seq<Message>, before: Log, k: nat)
    requires k <= maxRounds
    ensures var head := HeadAt(o, initial, before, k);
            head.Head? ==>
              RunFrom(o, maxRounds, 0, initial, before) == RunFrom(o, maxRounds, k, head.history, head.log)
  {
    hide TakeTurn;
    if k > 0 {
      RunPassesHead(o, maxRounds, initial, before, k - 1);
    }
  }

  /**
   * At every loop head the history is the initial one plus whole rounds, one for each turn taken, and the
   * store has gained exactly the same rounds.
   */
  lemma {:induction false} HeadOk(o: Oracles, initial: seq<Message>, before: Log, k: nat)
    returns (rounds: seq<seq<Message>>)
    ensures var head := HeadAt(o, initial, before, k);
            head.Head? ==>
              Follows(o, initial, rounds) && |rounds| == k && Keeps(initial, before.messages, head.history, head.log, rounds)
  {
    hide Follows, Keeps, TakeTurn, TurnOk, Replied, Asked, AsksForTools, StoresAll;
    rounds := [];
    if k == 0 {
      NoRounds(o, initial, before);
    } else {
      var prev := HeadAt(o, initial, before, k - 1);
      var so := HeadOk(o, initial, before, k - 1);
      if prev.Head? {
        TakeTurnOk(o, k - 1, prev.history, prev.log);
        var turn := TakeTurn(o, k - 1, prev.history, prev.log);
        if turn.Again? {
          var r := OneMoreRound(o, initial, before.messages, prev.history, prev.log, so, turn);
          rounds := so + [r];
        }
      }
    }
  }

  lemma NoRounds(o: Oracles, initial: seq<Message>, before: Log)
    ensures Follows(o, initial, []) && Keeps(initial, before.messages, initial, before, [])
  {
  }
}
