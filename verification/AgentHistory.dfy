/** The agent loop and the UI partition agree: the rounds the loop stores are the segments the partition
    finds, and the stored calls survive flattening for the runner. */
module AgentHistory {
  import opened Runes
  import opened Chat
  import opened ToolCalls
  import opened ToolPartition
  import opened PartitionJoin
  import opened AgentLoop
  import RunnerMessages

  function Entries(msgs: seq<Message>): seq<Entry> {
    seq(|msgs|, i requires 0 <= i < |msgs| => Msg(msgs[i]))
  }

  /** One segment per round, from offset `off` on. */
  function SegmentsOf(rounds: seq<seq<Message>>, off: nat): (segs: seq<Segment>)
    requires forall r :: r in rounds ==> |r| >= 2
    decreases |rounds|
  {
    if rounds == [] then []
    else [Segment(off, off + 1, off + |rounds[0]| - 1)] + SegmentsOf(rounds[1..], off + |rounds[0]|)
  }

  /** The partition of `rounds` followed by an answer. */
  function Expected(rounds: seq<seq<Message>>): seq<Element>
    requires forall r :: r in rounds ==> |r| >= 2
  {
    if rounds == [] then [Single(0)] else [Chain(SegmentsOf(rounds, 0), FinalAt(|Flatten(rounds)|))]
  }

  lemma RoundShape(r: seq<Message>)
    requires IsRound(r)
    ensures |r| >= 2 && HasCalls(Msg(r[0])) && forall i :: 1 <= i < |r| ==> r[i].role.Tool?
  {
    hide CallsJSON, TrimSpace, Trimmed, HasCalls, CallId;
    var calls: seq<Call> :| RoundOk(r, calls);
    LeadHasCalls(r[0], calls);
    forall i | 1 <= i < |r| ensures r[i].role.Tool? {
      var j := i - 1;
      assert r[j + 1].toolName == calls[j].name;
    }
  }

  lemma LeadHasCalls(lead: Message, calls: seq<Call>)
    requires lead.role.Assistant? && lead.toolCallsJSON == CallsJSON(calls)
    ensures HasCalls(Msg(lead))
  {
    hide CallsJSON, TrimSpace, Trimmed;
    CallsOnOneLine(calls);
    TrimOfTrimmed(CallsJSON(calls));
  }

  lemma AnswerShape(m: Message)
    requires IsAnswer(m)
    ensures !HasCalls(Msg(m))
  {
    TrimOfTrimmed("");
  }

  lemma {:induction false} FlattenCons(rounds: seq<seq<Message>>)
    requires rounds != []
    ensures Flatten(rounds) == rounds[0] + Flatten(rounds[1..])
  {
    if |rounds| == 1 {
      assert rounds[..0] == [] && rounds[1..] == [];
    } else {
      FlattenCons(rounds[..|rounds| - 1]);
      assert rounds[..|rounds| - 1][1..] == rounds[1..][..|rounds| - 2];
      Assoc(rounds[0], Flatten(rounds[1..][..|rounds| - 2]), rounds[|rounds| - 1]);
    }
  }

  /** `msgs` reads as a round at `off` and something that is not a tool message after it. */
  lemma StepAtRound(msgs: seq<Entry>, off: nat, r: seq<Message>, segs: seq<Segment>)
    requires IsRound(r) && off + |r| < |msgs| && msgs[off..off + |r|] == Entries(r)
    requires msgs[off + |r|].Msg? && msgs[off + |r|].m.role.Assistant?
    ensures var te := off + |r|;
            var segs' := segs + [Segment(off, off + 1, te - 1)];
            ChainStep(msgs, off, segs) ==
              if HasCalls(msgs[te]) then ToolPartition.Continue(te, segs')
              else ToolPartition.Stop(Consumed(Chain(segs', FinalAt(te)), te + 1))
  {
    hide *;
    RoundShape(r);
    RoundAt(msgs, off, r);
    assert ToolsEnd(msgs, off + 1) == (off + |r|);
    ChainStepIs(msgs, off, off + |r|, segs);
  }

  lemma RoundAt(msgs: seq<Entry>, off: nat, r: seq<Message>)
    requires |r| >= 2 && off + |r| < |msgs| && msgs[off..off + |r|] == Entries(r)
    requires forall i :: 1 <= i < |r| ==> r[i].role.Tool?
    requires msgs[off + |r|].Msg? && msgs[off + |r|].m.role.Assistant?
    ensures msgs[off] == Msg(r[0]) && !IsTool(msgs[off + |r|])
    ensures forall j :: off + 1 <= j < off + |r| ==> IsTool(msgs[j])
  {
    assert msgs[off..off + |r|][0] == msgs[off];
    forall j | off + 1 <= j < off + |r| ensures IsTool(msgs[j]) {
      assert msgs[off..off + |r|][j - off] == msgs[j];
    }
  }

  lemma ChainStepIs(msgs: seq<Entry>, off: nat, te: nat, segs: seq<Segment>)
    requires off + 1 < te < |msgs| && HasCalls(msgs[off]) && ToolsEnd(msgs, off + 1) == te
    requires msgs[te].Msg? && msgs[te].m.role.Assistant?
    ensures var segs' := segs + [Segment(off, off + 1, te - 1)];
            ChainStep(msgs, off, segs) ==
              if HasCalls(msgs[te]) then ToolPartition.Continue(te, segs')
              else ToolPartition.Stop(Consumed(Chain(segs', FinalAt(te)), te + 1))
  {
    hide HasCalls, ToolsEnd, IsTool;
  }

  lemma {:induction false} ConsumesRounds(msgs: seq<Entry>, off: nat, rounds: seq<seq<Message>>, m: Message,
                                          segs: seq<Segment>)
    requires AreRounds(rounds) && IsAnswer(m) && rounds != [] && off <= |msgs|
    requires msgs[off..] == Entries(Flatten(rounds) + [m])
    requires forall r :: r in rounds ==> |r| >= 2
    ensures Consume(msgs, off, segs) == Consumed(Chain(segs + SegmentsOf(rounds, off), FinalAt(|msgs| - 1)), |msgs|)
    decreases |rounds|
  {
    hide *;
    var r, rest := rounds[0], rounds[1..];
    var te := off + |r|;
    FlattenCons(rounds);
    AnswerShape(m);
    FirstAndRest(rounds);
    SegmentsCons(rounds, off);
    Assoc(segs, [Segment(off, off + 1, te - 1)], SegmentsOf(rest, te));
    TailOf(msgs, off, r, Flatten(rest), m);
    ConsumeStep(msgs, off, segs);
    if rest == [] {
      FlattenNone();
      AnswerIsAssistant(m);
      StepAtRound(msgs, off, r, segs);
      SegmentsNone(te);
      assert segs + [Segment(off, off + 1, te - 1)] + [] == segs + [Segment(off, off + 1, te - 1)];
    } else {
      NextRound(rest, m);
      assert msgs[te] == msgs[te..][0];
      StepAtRound(msgs, off, r, segs);
      ConsumesRounds(msgs, te, rest, m, segs + [Segment(off, off + 1, te - 1)]);
    }
  }

  lemma FirstAndRest(rounds: seq<seq<Message>>)
    requires AreRounds(rounds) && rounds != []
    ensures IsRound(rounds[0]) && AreRounds(rounds[1..])
  {
    hide IsRound;
  }

  lemma AnswerIsAssistant(m: Message)
    requires IsAnswer(m)
    ensures m.role.Assistant?
  {
  }

  lemma SegmentsNone(off: nat)
    ensures SegmentsOf([], off) == []
  {
  }

  lemma SegmentsCons(rounds: seq<seq<Message>>, off: nat)
    requires rounds != [] && forall r :: r in rounds ==> |r| >= 2
    ensures SegmentsOf(rounds, off)
         == [Segment(off, off + 1, off + |rounds[0]| - 1)] + SegmentsOf(rounds[1..], off + |rounds[0]|)
  {
  }

  lemma ConsumeStep(msgs: seq<Entry>, off: nat, segs: seq<Segment>)
    requires off <= |msgs|
    ensures Consume(msgs, off, segs) ==
              match ChainStep(msgs, off, segs)
              case Stop(r) => r
              case Continue(cur', segs') => Consume(msgs, cur', segs')
  {
    hide ChainStep;
  }

  lemma FlattenNone()
    ensures Flatten([]) == []
  {
  }

  lemma NextRound(rest: seq<seq<Message>>, m: Message)
    requires AreRounds(rest) && rest != []
    ensures var e := Entries(Flatten(rest) + [m]); e != [] && e[0].Msg? && HasCalls(e[0]) && e[0].m.role.Assistant?
  {
    FlattenCons(rest);
    assert IsRound(rest[0]);
    RoundShape(rest[0]);
    hide Flatten, IsRound, HasCalls;
    assert (Flatten(rest) + [m])[0] == rest[0][0];
    assert |rest[0]| > 0 && rest[0][0].role.Assistant?;
  }

  lemma TailOf(msgs: seq<Entry>, off: nat, r: seq<Message>, tail: seq<Message>, m: Message)
    requires off <= |msgs| && msgs[off..] == Entries(r + tail + [m])
    ensures off + |r| < |msgs| && msgs[off..off + |r|] == Entries(r) && msgs[off + |r|..] == Entries(tail + [m])
    ensures tail == [] ==> msgs[off + |r|] == Msg(m) && off + |r| == |msgs| - 1
  {
    var all := r + tail + [m];
    assert |msgs| == off + |all|;
    assert forall i :: 0 <= i < |all| ==> msgs[off + i] == msgs[off..][i] == Msg(all[i]);
    assert forall i :: 0 <= i < |r| ==> all[i] == r[i];
    assert forall i :: 0 <= i < |tail + [m]| ==> all[|r| + i] == (tail + [m])[i];
  }

  /** Whole rounds and an answer partition into one chain with one segment per round and the answer as its
      final message, or into a single message when there is no round. */
  lemma PartitionOfRounds(rounds: seq<seq<Message>>, m: Message)
    requires AreRounds(rounds) && IsAnswer(m)
    ensures forall r :: r in rounds ==> |r| >= 2
    ensures PartitionFrom(Entries(Flatten(rounds) + [m]), 0) == Expected(rounds)
  {
    hide HasCalls, IsRound, Consume, PartitionFrom;
    forall r | r in rounds ensures |r| >= 2 { RoundShape(r); }
    var msgs := Entries(Flatten(rounds) + [m]);
    AnswerShape(m);
    if rounds == [] {
      assert msgs == [Msg(m)];
    } else {
      assert msgs[0..] == msgs;
      ConsumesRounds(msgs, 0, rounds, m, []);
      NextRound(rounds, m);
      assert [] + SegmentsOf(rounds, 0) == SegmentsOf(rounds, 0);
    }
    PartitionOfOne(msgs);
  }

  lemma PartitionOfOne(msgs: seq<Entry>)
    requires msgs != [] && ElementAt(msgs, 0).1 == |msgs|
    ensures PartitionFrom(msgs, 0) == [ElementAt(msgs, 0).0]
  {
    hide ElementAt;
    assert PartitionFrom(msgs, |msgs|) == [];
  }

  /** What a run adds begins with a lead and its tools, or is the answer alone. */
  lemma RoundsGoOn(rounds: seq<seq<Message>>, m: Message)
    requires AreRounds(rounds) && IsAnswer(m)
    ensures var more := Entries(Flatten(rounds) + [m]); more != [] && GoesOn(more, 0) && !IsTool(more[0])
  {
    hide IsRound, HasCalls;
    if rounds == [] {
      FlattenNone();
      assert Flatten(rounds) + [m] == [m];
      AnswerShape(m);
    } else {
      NextRound(rounds, m);
      FlattenCons(rounds);
      RoundShape(rounds[0]);
      hide Flatten;
      assert (Flatten(rounds) + [m])[1] == rounds[0][1];
    }
  }

  lemma EntriesAppend(a: seq<Message>, b: seq<Message>)
    ensures Entries(a + b) == Entries(a) + Entries(b) && |Entries(a)| == |a|
  {
  }

  /**
   * A finished run, whatever the store held before: the UI sees what it saw, and one chain with the run's rounds and
   * its answer, exactly when the store did not end in the tool messages of a round that was left open.
   */
  lemma FinishedRunPartitionIff(o: Oracles, maxRounds: nat, initial: seq<Message>, log: Log) returns (rounds: seq<seq<Message>>)
    requires RunFrom(o, maxRounds, 0, initial, log).0.Answered?
    ensures AreRounds(rounds) && |rounds| < maxRounds && forall r :: r in rounds ==> |r| >= 2
    ensures var before := Entries(log.messages);
            PartitionFrom(Entries(RunFrom(o, maxRounds, 0, initial, log).1.messages), 0) ==
              PartitionFrom(before, 0) + Shifted(Expected(rounds), |before|)
            <==> !EndsInTools(before)
  {
    hide RunFrom, IsRound, PartitionFrom, Expected, Resumes, Shifted, EndsInTools, Follows, Keeps, AnswerOf;
    NoRounds(o, initial, log);
    rounds := RunFromOk(o, maxRounds, initial, log.messages, initial, log, []);
    RoundsOf(o, initial, rounds);
    var stored := RunFrom(o, maxRounds, 0, initial, log).1.messages;
    var m :| IsAnswer(m) && AnswerOf(o, |rounds|, initial + Flatten(rounds), m.content)
             && stored == log.messages + Flatten(rounds) + [m];
    Assoc(log.messages, Flatten(rounds), [m]);
    JoinsRounds(log.messages, rounds, m);
  }

  lemma JoinsRounds(before: seq<Message>, rounds: seq<seq<Message>>, m: Message)
    requires AreRounds(rounds) && IsAnswer(m)
    ensures forall r :: r in rounds ==> |r| >= 2
    ensures PartitionFrom(Entries(before + (Flatten(rounds) + [m])), 0) ==
              PartitionFrom(Entries(before), 0) + Shifted(Expected(rounds), |Entries(before)|)
            <==> !EndsInTools(Entries(before))
  {
    hide IsRound, PartitionFrom, Expected, Shifted, EndsInTools, Flatten, Entries, IsAnswer;
    var more := Flatten(rounds) + [m];
    PartitionOfRounds(rounds, m);
    EntriesAppend(before, more);
    RoundsGoOn(rounds, m);
    PartitionJoinIff(Entries(before), Entries(more));
  }

  /** Flattening a stored round for the runner and parsing it again never loses the calls, and gives back id, name and
      body of a result exactly when there is no ']' in its name, and its body is not bracketed if it has no name. */
  lemma RoundSurvivesRunner(r: seq<Message>, calls: seq<Call>, i: nat)
    requires RoundOk(r, calls) && i < |calls|
    ensures RunnerMessages.ToTemplate(RunnerMessages.Prepared(r[0])) ==
              RunnerMessages.Template(TrimSpace(r[0].content), CallsJSON(calls), "", "")
    ensures RunnerMessages.ToTemplate(RunnerMessages.Prepared(r[i + 1])) ==
              RunnerMessages.Template(TrimSpace(r[i + 1].content), "", CallId(i), TrimSpace(calls[i].name)) <==>
              && ']' !in TrimSpace(calls[i].name)
              && (TrimSpace(calls[i].name) == "" ==> !RunnerMessages.Bracketed(TrimSpace(r[i + 1].content)))
  {
    CallsOnOneLine(calls);
    TrimOfTrimmed(CallsJSON(calls));
    CallIdPlain(i);
    TrimOfTrimmed(CallId(i));
    hide TrimSpace, Trimmed, CallsJSON, CallId, RunnerMessages.ToTemplate, RunnerMessages.Prepared, RunnerMessages.Bracketed;
    RunnerMessages.OneLineCallsSurvive(r[0]);
    assert r[i + 1].role.Tool?;
    RunnerMessages.ToolRoundTripIff(r[i + 1]);
  }

  lemma CallIdPlain(i: nat)
    ensures CallId(i) != "" && Trimmed(CallId(i)) && ']' !in CallId(i)
  {
  }
}
