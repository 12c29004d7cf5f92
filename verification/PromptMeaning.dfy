/** What a round puts into the transcript, tells and decides, told of what the model, the
    tools and the callers did. */
module PromptMeaning {
  import opened PromptScript
  import opened Text
  import opened ToolBatch
  import opened Wrappers

  // ----- messages by kind ---------------------------------------------------

  const TEXT := 0
  const CALL := 1
  const RESULT := 2
  const CHANGE := 3
  const INJECTED := 4

  function Rank(m: Message): nat {
    match m
    case Earlier(_) => 5
    case AssistantText(_) => TEXT
    case ToolCall(_) => CALL
    case ToolResultMsg(_) => RESULT
    case ActiveToolsChange(_) => CHANGE
    case Injected(_) => INJECTED
  }

  /** First the text, then the calls, their results, changes of the active tools, and
      what is injected. */
  ghost predicate InOrder(ms: seq<Message>) {
    forall i, j :: 0 <= i < j < |ms| ==> Rank(ms[i]) <= Rank(ms[j])
  }

  function Only(ms: seq<Message>, rank: nat): seq<Message> {
    if ms == [] then [] else Only(Init(ms), rank) + if Rank(Last(ms)) == rank then [Last(ms)] else []
  }

  ghost predicate AllRank(ms: seq<Message>, rank: nat) {
    forall i :: 0 <= i < |ms| ==> Rank(ms[i]) == rank
  }

  ghost predicate Below(ms: seq<Message>, rank: nat) {
    forall i :: 0 <= i < |ms| ==> Rank(ms[i]) < rank
  }

  lemma {:induction false} OnlyAppend(a: seq<Message>, b: seq<Message>, rank: nat)
    ensures Only(a + b, rank) == Only(a, rank) + Only(b, rank)
  {
    if b == [] {
      Nil(a);
      Nil(Only(a, rank));
    } else {
      InitAppend(a, b);
      OnlyAppend(a, Init(b), rank);
      Assoc(Only(a, rank), Only(Init(b), rank), if Rank(Last(b)) == rank then [Last(b)] else []);
    }
  }

  lemma {:induction false} OnlyAll(ms: seq<Message>, of: nat, rank: nat)
    requires AllRank(ms, of)
    ensures Only(ms, rank) == if of == rank then ms else []
  {
    if ms != [] {
      OnlyAll(Init(ms), of, rank);
      InitLast(ms);
    }
  }

  lemma OrderAppend(a: seq<Message>, b: seq<Message>, rank: nat)
    requires InOrder(a) && Below(a, rank) && AllRank(b, rank)
    ensures InOrder(a + b) && Below(a + b, rank + 1)
  {
  }

  /** The parts of a turn, element by element. */
  lemma {:induction false} CallsAt(calls: seq<string>)
    ensures |CallPart(calls)| == |calls| && forall i :: 0 <= i < |calls| ==> CallPart(calls)[i] == ToolCall(calls[i])
  {
    if calls != [] {
      CallsAt(Init(calls));
    }
  }

  lemma {:induction false} RepliesAt(replies: seq<Reply>)
    ensures |ReplyPart(replies)| == |replies|
    ensures forall i :: 0 <= i < |replies| ==> ReplyPart(replies)[i] == ToolResultMsg(replies[i])
  {
    if replies != [] {
      RepliesAt(Init(replies));
    }
  }

  lemma {:induction false} ChangesAt(changes: seq<seq<string>>)
    ensures |ChangePart(changes)| == |changes|
    ensures forall i :: 0 <= i < |changes| ==> ChangePart(changes)[i] == ActiveToolsChange(changes[i])
  {
    if changes != [] {
      ChangesAt(Init(changes));
    }
  }

  lemma PartRanks(t: Turn)
    ensures AllRank(TextPart(t.text), TEXT) && AllRank(CallPart(t.calls), CALL) && AllRank(ReplyPart(t.replies), RESULT)
    ensures AllRank(ChangePart(t.changes), CHANGE) && AllRank(InjectedPart(t.injected), INJECTED)
  {
    CallsAt(t.calls);
    RepliesAt(t.replies);
    ChangesAt(t.changes);
  }

  lemma SpelledInOrder(t: Turn)
    ensures InOrder(Spelled(t))
  {
    PartRanks(t);
    OrderAppend([], TextPart(t.text), TEXT);
    assert [] + TextPart(t.text) == TextPart(t.text);
    OrderAppend(TextPart(t.text), CallPart(t.calls), CALL);
    var s := TextPart(t.text) + CallPart(t.calls);
    OrderAppend(s, ReplyPart(t.replies), RESULT);
    OrderAppend(s + ReplyPart(t.replies), ChangePart(t.changes), CHANGE);
    OrderAppend(s + ReplyPart(t.replies) + ChangePart(t.changes), InjectedPart(t.injected), INJECTED);
  }

  /** All messages of one kind are those of one part. */
  ghost function PartOf(t: Turn, rank: nat): seq<Message> {
    if rank == TEXT then TextPart(t.text)
    else if rank == CALL then CallPart(t.calls)
    else if rank == RESULT then ReplyPart(t.replies)
    else if rank == CHANGE then ChangePart(t.changes)
    else if rank == INJECTED then InjectedPart(t.injected)
    else []
  }

  lemma {:induction false} OnlyPush(ms: seq<Message>, part: seq<Message>, of: nat, rank: nat)
    requires AllRank(part, of)
    ensures of != rank ==> Only(ms + part, rank) == Only(ms, rank)
    ensures of == rank && Only(ms, rank) == [] ==> Only(ms + part, rank) == part
  {
    OnlyAppend(ms, part, rank);
    OnlyAll(part, of, rank);
    Nil(Only(ms, rank));
    assert [] + part == part;
  }

  lemma {:induction false} SpelledOnly(t: Turn, rank: nat)
    ensures Only(Spelled(t), rank) == PartOf(t, rank)
  {
    var p, q, r, s, u := TextPart(t.text), CallPart(t.calls), ReplyPart(t.replies), ChangePart(t.changes),
      InjectedPart(t.injected);
    PartRanks(t);
    OnlyAll(p, TEXT, rank);
    OnlyPush(p, q, CALL, rank);
    OnlyPush(p + q, r, RESULT, rank);
    OnlyPush(p + q + r, s, CHANGE, rank);
    OnlyPush(p + q + r + s, u, INJECTED, rank);
  }

  // ----- what tools came to -------------------------------------------------

  ghost predicate AsksToTerminate(p: Prep) {
    p.Runnable? && p.hookError == None && p.exec.Returned? && p.exec.result.terminate
  }

  ghost predicate AsksToSuspend(p: Prep) {
    p.Runnable? && p.hookError == None && p.exec.Returned? && p.exec.result.suspend
  }

  /** The reply has the result the tool returned, or the text of what went wrong: the
      call was refused, the tool raised an error, or a hook did. */
  ghost predicate Answers(p: Prep, content: string, isError: bool) {
    match p
    case Immediate(text) => content == text && isError
    case Runnable(_, Some(text)) => content == text && isError
    case Runnable(Raised(text), None) => content == text && isError
    case Runnable(Returned(res), None) => content == res.content && isError == res.isError
  }

  lemma OutcomeMeans(p: Prep, callID: string)
    ensures Terminates(OutcomeOf(p)) <==> AsksToTerminate(p)
    ensures Suspends(OutcomeOf(p)) <==> AsksToSuspend(p)
    ensures var r := ReplyOf(callID, OutcomeOf(p)); r.callID == callID && Answers(p, r.content, r.isError)
  {
  }

  /** The model's calls were executed, and the wait for them did not give up. */
  ghost predicate CallsRan(rd: Round) {
    && rd.stream.Streamed? && rd.stream.calls != [] && !rd.stream.cutOff
    && rd.tools.Executed? && !rd.tools.gaveUp && |rd.tools.preps| == |rd.stream.calls|
  }

  ghost predicate AllAskToTerminate(rd: Round) {
    CallsRan(rd) && forall i :: 0 <= i < |rd.tools.preps| ==> AsksToTerminate(rd.tools.preps[i])
  }

  ghost predicate SomeAskToSuspend(rd: Round) {
    CallsRan(rd) && !AllAskToTerminate(rd) && exists i :: 0 <= i < |rd.tools.preps| && AsksToSuspend(rd.tools.preps[i])
  }

  lemma StopsMean(rd: Round)
    requires Plays(rd)
    ensures Terminating(rd) <==> AllAskToTerminate(rd)
    ensures Suspending(rd) <==> SomeAskToSuspend(rd)
  {
    if rd.stream.calls != [] && rd.stream.cutOff {
      CutOffNeither(rd.stream.calls);
    } else if rd.stream.calls != [] {
      forall i | 0 <= i < |rd.tools.preps|
        ensures Terminates(ResultsOf(rd)[i]) <==> AsksToTerminate(rd.tools.preps[i])
        ensures Suspends(ResultsOf(rd)[i]) <==> AsksToSuspend(rd.tools.preps[i])
      {
        OutcomeMeans(rd.tools.preps[i], "");
      }
    }
  }

  /** How many of the first n calls do not suspend. */
  ghost function Answered(preps: seq<Prep>, n: nat): nat
    requires n <= |preps|
  {
    if n == 0 then 0 else Answered(preps, n - 1) + if AsksToSuspend(preps[n - 1]) then 0 else 1
  }

  lemma {:induction false} NoneSuspended(preps: seq<Prep>, n: nat)
    requires n <= |preps| && forall i :: 0 <= i < n ==> !AsksToSuspend(preps[i])
    ensures Answered(preps, n) == n
  {
    if n > 0 {
      NoneSuspended(preps, n - 1);
    }
  }

  lemma {:induction false} AnsweredInit(preps: seq<Prep>, n: nat)
    requires n < |preps|
    ensures Answered(Init(preps), n) == Answered(preps, n)
  {
    if n > 0 {
      AnsweredInit(preps, n - 1);
    }
  }

  lemma {:induction false} RepliesMean(calls: seq<string>, preps: seq<Prep>, i: nat)
    requires |calls| == |preps|
    ensures |Replies(calls, OutcomesOf(preps))| == Answered(preps, |preps|)
    ensures i < |preps| && !AsksToSuspend(preps[i]) ==>
              var k := Answered(preps, i);
              && k < |Replies(calls, OutcomesOf(preps))|
              && Replies(calls, OutcomesOf(preps))[k] == ReplyOf(calls[i], OutcomeOf(preps[i]))
  {
    if calls != [] {
      var n := |preps| - 1;
      assert Init(OutcomesOf(preps)) == OutcomesOf(Init(preps));
      RepliesMean(Init(calls), Init(preps), i);
      OutcomeMeans(Last(preps), Last(calls));
      AnsweredInit(preps, n);
      if i < n {
        AnsweredInit(preps, i);
      }
    }
  }

  /** Of calls that ran, unless all of them terminate the prompt, each has its own reply
      at its place among those that do not suspend. */
  lemma {:induction false} ReplyMeans(rd: Round, i: nat)
    requires Plays(rd) && CallsRan(rd) && !AllAskToTerminate(rd) && i < |rd.stream.calls|
    requires !AsksToSuspend(rd.tools.preps[i])
    ensures var rs, k := Only(TurnPart(rd), RESULT), Answered(rd.tools.preps, i);
            && k < |rs| == Answered(rd.tools.preps, |rd.tools.preps|) && rs[k].ToolResultMsg?
            && rs[k].reply.callID == rd.stream.calls[i]
            && Answers(rd.tools.preps[i], rs[k].reply.content, rs[k].reply.isError)
  {
    StopsMean(rd);
    TurnResults(rd);
    RepliesAt(TurnOf(rd).replies);
    RepliesMean(rd.stream.calls, rd.tools.preps, i);
    OutcomeMeans(rd.tools.preps[i], rd.stream.calls[i]);
  }

  /** If none suspends, the i-th result answers the i-th call. */
  lemma ReplyInPlace(rd: Round, i: nat)
    requires Plays(rd) && CallsRan(rd) && !AllAskToTerminate(rd) && !SomeAskToSuspend(rd) && i < |rd.stream.calls|
    ensures var rs := Only(TurnPart(rd), RESULT);
            && |rs| == |rd.stream.calls| && rs[i].ToolResultMsg? && rs[i].reply.callID == rd.stream.calls[i]
            && Answers(rd.tools.preps[i], rs[i].reply.content, rs[i].reply.isError)
  {
    NoneSuspended(rd.tools.preps, i);
    NoneSuspended(rd.tools.preps, |rd.tools.preps|);
    ReplyMeans(rd, i);
  }

  lemma TurnResults(rd: Round)
    requires Plays(rd)
    ensures Only(TurnPart(rd), RESULT) == ReplyPart(TurnOf(rd).replies)
  {
    var t := Turn(rd.stream.text, rd.stream.calls, TurnOf(rd).replies, [], None);
    SpelledOnly(t, RESULT);
    Nil(Said(t) + ReplyPart(t.replies));
  }

  /** No result at all if all terminate; an error for each call of a reply cut off. */
  lemma OtherReplies(rd: Round, i: nat)
    requires Plays(rd)
    ensures rd.stream.calls == [] || AllAskToTerminate(rd) ==> Only(TurnPart(rd), RESULT) == []
    ensures rd.stream.cutOff ==> |Only(TurnPart(rd), RESULT)| == |rd.stream.calls|
    ensures rd.stream.cutOff && i < |rd.stream.calls| ==>
              Only(TurnPart(rd), RESULT)[i] == ToolResultMsg(Reply(rd.stream.calls[i], CUT_OFF, true))
  {
    StopsMean(rd);
    TurnResults(rd);
    if rd.stream.cutOff {
      if rd.stream.calls != [] {
        CutOffNeither(rd.stream.calls);
      }
      CutOffIs(rd.stream.calls);
      CutOffAt(rd.stream.calls);
    }
  }

  lemma {:induction false} CutOffAt(calls: seq<string>)
    ensures |CutOffPart(calls)| == |calls|
    ensures forall i :: 0 <= i < |calls| ==> CutOffPart(calls)[i] == ToolResultMsg(Reply(calls[i], CUT_OFF, true))
  {
    if calls != [] {
      CutOffAt(Init(calls));
    }
  }

  /** The event that tells the result of a call has what the reply has. */
  lemma {:induction false} ToldMeans(rd: Round, i: nat)
    requires Plays(rd) && CallsRan(rd) && |SaidIn(rd)| <= rd.room && i < |rd.stream.calls|
    ensures var told := Told(ToolEvents(rd), i);
            if rd.tools.preps[i].Immediate? then told == []
            else |told| == 1 && Answers(rd.tools.preps[i], told[0].content, told[0].isError)
  {
    ToolsTell(rd, i);
  }

  // ----- what a turn holds --------------------------------------------------

  ghost predicate HoldsText(ms: seq<Message>, text: Option<string>) {
    Only(ms, TEXT) == match text case None => [] case Some(t) => [AssistantText(t)]
  }

  ghost predicate HoldsCalls(ms: seq<Message>, calls: seq<string>) {
    |Only(ms, CALL)| == |calls| && forall i :: 0 <= i < |calls| ==> Only(ms, CALL)[i] == ToolCall(calls[i])
  }

  ghost predicate HoldsChanges(ms: seq<Message>, changes: seq<seq<string>>) {
    && |Only(ms, CHANGE)| == |changes|
    && forall i :: 0 <= i < |changes| ==> Only(ms, CHANGE)[i] == ActiveToolsChange(changes[i])
  }

  /** All of the messages, or as many as there is room for. */
  ghost predicate AsFarAs(added: seq<Message>, ms: seq<Message>, room: nat) {
    if |ms| <= room then added == ms else added == ms[..room]
  }

  lemma SpelledHolds(t: Turn)
    ensures HoldsText(Spelled(t), t.text)
    ensures HoldsCalls(Spelled(t), t.calls)
    ensures HoldsChanges(Spelled(t), t.changes)
  {
    SpelledOnly(t, TEXT);
    SpelledOnly(t, CALL);
    SpelledOnly(t, CHANGE);
    CallsAt(t.calls);
    ChangesAt(t.changes);
  }

  lemma CutAsFar(added: seq<Message>, ms: seq<Message>, room: nat)
    requires added == Cut(ms, room)
    ensures AsFarAs(added, ms, room)
  {
  }

  /** A round that plays appends, as far as there is room, the text the model streamed,
      its calls, their results, the changes that were queued, and what is injected. */
  lemma {:induction false} TurnHolds(rd: Round, ms: seq<Message>)
    requires Plays(rd) && ms == Spelled(TurnOf(rd))
    ensures InOrder(ms) && AsFarAs(Added(rd), ms, rd.room)
    ensures HoldsText(ms, rd.stream.text) && HoldsCalls(ms, rd.stream.calls) && HoldsChanges(ms, rd.pending)
    ensures Only(ms, RESULT) == Only(TurnPart(rd), RESULT)
  {
    var t := TurnOf(rd);
    SpelledInOrder(t);
    SpelledHolds(t);
    SpelledOnly(t, RESULT);
    TurnResults(rd);
    AddsTurn(rd);
    CutAsFar(Added(rd), ms, rd.room);
  }

  lemma {:induction false} SaidBelow(text: Option<string>, calls: seq<string>)
    ensures Below(TextPart(text) + CallPart(calls), RESULT)
  {
    CallsAt(calls);
  }

  lemma SaidHolds(t: Turn)
    requires t.replies == [] && t.changes == [] && t.injected == None
    ensures InOrder(Said(t)) && Below(Said(t), RESULT) && HoldsText(Said(t), t.text) && HoldsCalls(Said(t), t.calls)
  {
    SpelledInOrder(t);
    SpelledHolds(t);
    SaidBelow(t.text, t.calls);
    assert Spelled(t) == Said(t) by {
      Nil(Said(t));
    }
  }

  /** Of calls that are abandoned, only what the model said is appended. */
  lemma AbandonedHolds(rd: Round, ms: seq<Message>)
    requires Possible(rd) && Streams(rd) && Abandons(rd) && ms == SaidIn(rd)
    ensures InOrder(ms) && Below(ms, RESULT) && HoldsText(ms, rd.stream.text) && HoldsCalls(ms, rd.stream.calls)
    ensures AsFarAs(Added(rd), ms, rd.room)
  {
    SaidHolds(Turn(rd.stream.text, rd.stream.calls, [], [], None));
    AbandonedAddsNothing(rd);
    CutAsFar(Added(rd), ms, rd.room);
  }

  // ----- what is injected ---------------------------------------------------

  lemma {:induction false} NoneInjected(ms: seq<Message>)
    requires Below(ms, INJECTED)
    ensures Only(ms, INJECTED) == []
  {
    if ms != [] {
      NoneInjected(Init(ms));
    }
  }

  lemma CutBelow(ms: seq<Message>, room: nat, rank: nat)
    requires Below(ms, rank)
    ensures Below(Cut(ms, room), rank)
  {
  }

  lemma CutLast(ms: seq<Message>, more: seq<Message>, room: nat)
    requires Below(ms, INJECTED) && |more| <= 1 && (more == [] || room < |ms| + |more|)
    ensures Below(Cut(ms + more, room), INJECTED)
  {
  }

  lemma TurnBelow(rd: Round)
    requires Possible(rd)
    ensures Below(TurnPart(rd), INJECTED)
  {
    if Streams(rd) && !Abandons(rd) {
      PartRanks(TurnOf(rd));
    } else if Streams(rd) {
      PartRanks(Turn(rd.stream.text, rd.stream.calls, [], [], None));
    }
  }

  lemma AfterBelow(rd: Round)
    requires Possible(rd) && TurnEnding(rd).None? && AfterEnding(rd).Some?
    ensures Below(Cut(AfterPart(rd), RoomAfter(rd)), INJECTED)
  {
    PartRanks(TurnOf(rd));
    CutLast(ChangePart(rd.pending), InjectedPart(InjectedOf(rd)), RoomAfter(rd));
  }

  lemma CutShort(rd: Round)
    requires Possible(rd) && EndingOf(rd).Some?
    ensures Below(Added(rd), INJECTED)
  {
    TurnBelow(rd);
    if TurnEnding(rd).Some? {
      CutBelow(TurnPart(rd), rd.room, INJECTED);
    } else {
      AfterBelow(rd);
    }
  }

  lemma LastInjected(rd: Round)
    requires Plays(rd)
    ensures var ms := Spelled(TurnOf(rd));
            match InjectedOf(rd)
            case None => Only(ms, INJECTED) == []
            case Some(text) => Only(ms, INJECTED) == [Injected(text)] && ms != [] && Last(ms) == Injected(text)
  {
    SpelledOnly(TurnOf(rd), INJECTED);
  }

  /** A round after which the prompt goes on injects at most one message, as its last: the
      steer if there is one, and else, if the model made no calls, the follow-up. Any
      other round injects nothing. */
  lemma WhatIsInjected(rd: Round)
    requires Possible(rd)
    ensures EndingOf(rd).Some? ==> Only(Added(rd), INJECTED) == []
    ensures EndingOf(rd).None? && rd.steer.Some? ==>
              Only(Added(rd), INJECTED) == [Injected(rd.steer.value)]
              && Added(rd) != [] && Last(Added(rd)) == Injected(rd.steer.value)
    ensures EndingOf(rd).None? && rd.steer.None? && rd.stream.calls == [] ==>
              rd.followUp.Some? && Only(Added(rd), INJECTED) == [Injected(rd.followUp.value)]
              && Added(rd) != [] && Last(Added(rd)) == Injected(rd.followUp.value)
    ensures EndingOf(rd).None? && rd.steer.None? && rd.stream.calls != [] ==> Only(Added(rd), INJECTED) == []
  {
    if EndingOf(rd).Some? {
      CutShort(rd);
      NoneInjected(Added(rd));
    } else {
      GoesOnCloses(rd);
      LastInjected(rd);
    }
  }

  // ----- whether the prompt goes on -----------------------------------------

  /** What the round needs room for, apart from a message injected at its end. */
  ghost function Needed(rd: Round): int
    requires rd.stream.Streamed?
  {
    var said := |rd.stream.calls| + if rd.stream.text.Some? then 1 else 0;
    var replies := if AllAskToTerminate(rd) then 0
                   else if CallsRan(rd) then Answered(rd.tools.preps, |rd.tools.preps|) else |rd.stream.calls|;
    said + replies + |rd.pending|
  }

  /** The round got to the end of its turn: nothing stopped it before, the model replied,
      and its calls were answered or cut off. */
  ghost predicate TurnDone(rd: Round) {
    !rd.stopped && rd.setup == None && rd.stream.Streamed?
      && (rd.stream.calls == [] || rd.stream.cutOff || CallsRan(rd))
  }

  ghost predicate EndsHere(rd: Round) {
    AllAskToTerminate(rd) || SomeAskToSuspend(rd) || rd.stopAfterTurn
  }

  lemma RepliesSize(rd: Round)
    requires Plays(rd)
    ensures |TurnOf(rd).replies| == if AllAskToTerminate(rd) then 0
                                    else if CallsRan(rd) then Answered(rd.tools.preps, |rd.tools.preps|)
                                    else |rd.stream.calls|
  {
    StopsMean(rd);
    if CallsRan(rd) {
      RepliesMean(rd.stream.calls, rd.tools.preps, 0);
    } else {
      CutOffIs(rd.stream.calls);
      RepliesAt(Replies(rd.stream.calls, CutOffResults(rd.stream.calls)));
    }
  }

  lemma TurnSize(rd: Round)
    requires Plays(rd)
    ensures |TurnPart(rd)| + |rd.pending| == Needed(rd) && |ChangePart(rd.pending)| == |rd.pending|
  {
    CallsAt(rd.stream.calls);
    ChangesAt(rd.pending);
    RepliesAt(TurnOf(rd).replies);
    RepliesSize(rd);
  }

  /** The prompt goes on exactly if a turn was done that does not end it, there is a reason
      to ask the model again, and the session takes all messages. */
  lemma GoesOnExactly(rd: Round)
    requires Possible(rd)
    ensures EndingOf(rd).None? <==>
            && TurnDone(rd) && !EndsHere(rd)
            && (rd.steer.Some? || if rd.stream.calls == [] then rd.followUp.Some? else !rd.stoppedLater)
            && Needed(rd) + (if rd.steer.Some? || rd.stream.calls == [] then 1 else 0) <= rd.room
  {
    if Plays(rd) {
      StopsMean(rd);
      TurnSize(rd);
    }
  }

  /** It completes exactly if the session takes what the turn appends, and a tool or a hook
      ends it there, or nothing is left to do and nothing cancelled it. */
  lemma CompletesExactly(rd: Round)
    requires Possible(rd)
    ensures EndingOf(rd) == Some(Completed) <==>
            && TurnDone(rd) && Needed(rd) <= rd.room
            && (EndsHere(rd) || (rd.steer.None? && rd.stream.calls == [] && rd.followUp.None? && !rd.stoppedLater))
  {
    if Plays(rd) {
      StopsMean(rd);
      TurnSize(rd);
    }
  }

  /** The failures that can end the prompt in this round. */
  ghost predicate Meets(rd: Round, f: Failure) {
    || (f == rd.cause && (rd.stopped || rd.stoppedLater || (Streams(rd) && Abandons(rd))))
    || (!rd.stopped && rd.setup == Some(f))
    || (Asks(rd) && rd.stream == StreamFails(f))
  }

  ghost predicate SameAs(e: Ending, f: Failure) {
    match f
    case AgentStopped => e == Stopped
    case ContextCancelled => e == Cancelled
    case OtherError(text) => e == Errored(text)
  }

  /** Any other ending is a failure the round met, or the session's. */
  lemma FailsAs(rd: Round, e: Ending) returns (f: Failure)
    requires Possible(rd) && EndingOf(rd) == Some(e) && e != Completed && e != SessionFailed
    ensures Meets(rd, f) && SameAs(e, f)
  {
    if rd.setup.Some? && !rd.stopped {
      f := rd.setup.value;
    } else if Asks(rd) && rd.stream.StreamFails? {
      f := rd.stream.failure;
    } else {
      f := rd.cause;
    }
  }

  /** The result says suspended exactly if some call did, and its turn was appended. */
  lemma SuspendedMeans(rd: Round)
    requires Possible(rd)
    ensures SuspendedBy(rd) <==> TurnDone(rd) && SomeAskToSuspend(rd) && Needed(rd) - |rd.pending| <= rd.room
  {
    if Plays(rd) {
      StopsMean(rd);
      TurnSize(rd);
    }
  }

  // ----- events -------------------------------------------------------------

  predicate OfTool(ev: Event) {
    ev.ToolError? || ev.ToolUpdate? || ev.ToolEnd? || ev.ToolLeak?
  }

  ghost predicate AllOfTools(es: seq<Event>) {
    forall i :: 0 <= i < |es| ==> OfTool(es[i])
  }

  lemma {:induction false} EmitsOfTools(acts: seq<Act>)
    ensures AllOfTools(EmitsOf(acts))
  {
    if acts != [] {
      EmitsOfTools(Init(acts));
    }
  }

  lemma {:induction false} RefusalsOfTools(preps: seq<Prep>)
    ensures AllOfTools(Refusals(preps))
  {
    if preps != [] {
      RefusalsOfTools(Init(preps));
    }
  }

  lemma {:induction false} LeaksOfTools(calls: seq<nat>, among: seq<seq<Act>>)
    requires |calls| == |among|
    ensures AllOfTools(LeaksAmong(calls, among))
  {
    if calls != [] {
      LeaksOfTools(Init(calls), Init(among));
      EmitsOfTools(Last(among));
    }
  }

  lemma {:induction false} CutOffOfTools(n: nat)
    ensures AllOfTools(CutOffEnds(n))
  {
    if n > 0 {
      CutOffOfTools(n - 1);
    }
  }

  lemma OfToolsAppend(a: seq<Event>, b: seq<Event>)
    requires AllOfTools(a) && AllOfTools(b)
    ensures AllOfTools(a + b)
  {
  }

  lemma BatchOfTools(tools: Tools, calls: seq<string>)
    requires CanRun(tools, calls)
    ensures AllOfTools(BatchEvents(tools, calls))
  {
    if tools.NotStarted? {
      RefusalsOfTools(tools.prepared);
    } else {
      RefusalsOfTools(tools.preps);
      EmitsOfTools(tools.acts);
      OfToolsAppend(Refusals(tools.preps), EmitsOf(tools.acts));
      if tools.gaveUp {
        LeaksOfTools(LeakedBy(tools), tools.late.amongLeaks);
        EmitsOfTools(tools.late.afterLeaks);
        OfToolsAppend(LeaksAmong(LeakedBy(tools), tools.late.amongLeaks), EmitsOf(tools.late.afterLeaks));
        OfToolsAppend(Refusals(tools.preps) + EmitsOf(tools.acts), GivingUp(tools, calls));
      }
    }
  }

  lemma ToolsOfTools(rd: Round)
    requires Possible(rd) && Streams(rd) && |SaidIn(rd)| <= rd.room
    ensures AllOfTools(ToolEvents(rd))
  {
    if rd.stream.calls != [] && rd.stream.cutOff {
      CutOffOfTools(CutOffTold(rd));
    } else if rd.stream.calls != [] {
      BatchOfTools(rd.tools, rd.stream.calls);
    }
  }

  /** The calls whose leaks are told. */
  function LeaksIn(es: seq<Event>): seq<nat> {
    if es == [] then [] else LeaksIn(Init(es)) + if Last(es).ToolLeak? then [Last(es).call] else []
  }

  lemma {:induction false} LeaksAppend(a: seq<Event>, b: seq<Event>)
    ensures LeaksIn(a + b) == LeaksIn(a) + LeaksIn(b)
  {
    if b == [] {
      Nil(a);
      Nil(LeaksIn(a));
    } else {
      InitAppend(a, b);
      LeaksAppend(a, Init(b));
      Assoc(LeaksIn(a), LeaksIn(Init(b)), if Last(b).ToolLeak? then [Last(b).call] else []);
    }
  }

  lemma {:induction false} EmitsLeakNothing(acts: seq<Act>)
    ensures LeaksIn(EmitsOf(acts)) == []
  {
    if acts != [] {
      EmitsLeakNothing(Init(acts));
      if !Last(acts).Completes? {
        InitPush(EmitsOf(Init(acts)), Last(EmitsOf(acts)));
      }
    }
  }

  lemma {:induction false} RefusalsLeakNothing(preps: seq<Prep>)
    ensures LeaksIn(Refusals(preps)) == []
  {
    if preps != [] {
      RefusalsLeakNothing(Init(preps));
      if Last(preps).Immediate? {
        InitPush(Refusals(Init(preps)), Last(Refusals(preps)));
      }
    }
  }

  lemma {:induction false} CutOffLeaksNothing(n: nat)
    ensures LeaksIn(CutOffEnds(n)) == []
  {
    if n > 0 {
      CutOffLeaksNothing(n - 1);
      InitPush(CutOffEnds(n - 1), Last(CutOffEnds(n)));
    }
  }

  lemma {:induction false} AmongLeaks(calls: seq<nat>, among: seq<seq<Act>>)
    requires |calls| == |among|
    ensures LeaksIn(LeaksAmong(calls, among)) == calls
  {
    if calls != [] {
      var before, one := LeaksAmong(Init(calls), Init(among)), EmitsOf(Last(among)) + [ToolLeak(Last(calls))];
      AmongLeaks(Init(calls), Init(among));
      EmitsLeakNothing(Last(among));
      InitPush(EmitsOf(Last(among)), ToolLeak(Last(calls)));
      LeaksAppend(before, one);
      InitLast(calls);
    }
  }

  lemma GivingUpLeaks(tools: Tools, calls: seq<string>)
    requires CanRun(tools, calls) && tools.Executed? && tools.gaveUp
    ensures LeaksIn(GivingUp(tools, calls)) == LeakedBy(tools)
  {
    AmongLeaks(LeakedBy(tools), tools.late.amongLeaks);
    EmitsLeakNothing(tools.late.afterLeaks);
    LeaksAppend(LeaksAmong(LeakedBy(tools), tools.late.amongLeaks), EmitsOf(tools.late.afterLeaks));
    Nil(LeakedBy(tools));
  }

  lemma BatchLeaks(tools: Tools, calls: seq<string>)
    requires CanRun(tools, calls)
    ensures LeaksIn(BatchEvents(tools, calls)) == if tools.Executed? && tools.gaveUp then LeakedBy(tools) else []
  {
    match tools
    case NotStarted(prepared) => RefusalsLeakNothing(prepared);
    case Executed(preps, acts, gaveUp, _) =>
      RefusalsLeakNothing(preps);
      EmitsLeakNothing(acts);
      LeaksAppend(Refusals(preps), EmitsOf(acts));
      if gaveUp {
        GivingUpLeaks(tools, calls);
        LeaksAppend(Refusals(preps) + EmitsOf(acts), GivingUp(tools, calls));
      }
  }

  /** If the wait for the calls gives up, each that has not completed by then is told as
      leaked, once and in the order of the calls; no other ever is. */
  lemma LeaksTold(rd: Round, i: nat)
    requires Possible(rd) && Streams(rd) && |SaidIn(rd)| <= rd.room
    ensures var leaks, gaveUp := LeaksIn(ToolEvents(rd)), Abandons(rd) && rd.tools.Executed?;
            && (i in leaks <==> gaveUp && i < |rd.stream.calls| && rd.tools.preps[i].Runnable?
                                && Completes(i) !in rd.tools.acts)
            && forall k, l :: 0 <= k < l < |leaks| ==> leaks[k] < leaks[l]
  {
    if rd.stream.calls == [] {
    } else if rd.stream.cutOff {
      CutOffLeaksNothing(CutOffTold(rd));
    } else {
      BatchLeaks(rd.tools, rd.stream.calls);
      if rd.tools.Executed? {
        MissingAre(rd.tools.preps, CompletedIn(rd.tools.acts), |rd.tools.preps|);
        CompletedAre(rd.tools.acts, i);
      }
    }
  }

  /** The progress that is told, and the progress that is made. */
  function UpdatesIn(es: seq<Event>): seq<nat> {
    if es == [] then [] else UpdatesIn(Init(es)) + if Last(es).ToolUpdate? then [Last(es).call] else []
  }

  function UpdatesOf(acts: seq<Act>): seq<nat> {
    if acts == [] then [] else UpdatesOf(Init(acts)) + if Last(acts).Updates? then [Last(acts).call] else []
  }

  lemma {:induction false} UpdatesAppend(a: seq<Event>, b: seq<Event>)
    ensures UpdatesIn(a + b) == UpdatesIn(a) + UpdatesIn(b)
  {
    if b == [] {
      Nil(a);
      Nil(UpdatesIn(a));
    } else {
      InitAppend(a, b);
      UpdatesAppend(a, Init(b));
      Assoc(UpdatesIn(a), UpdatesIn(Init(b)), if Last(b).ToolUpdate? then [Last(b).call] else []);
    }
  }

  lemma {:induction false} EmitsUpdate(acts: seq<Act>)
    ensures UpdatesIn(EmitsOf(acts)) == UpdatesOf(acts)
  {
    if acts != [] {
      EmitsUpdate(Init(acts));
      Nil(UpdatesOf(Init(acts)));
      match Last(acts)
      case Updates(i) => InitPush(EmitsOf(Init(acts)), ToolUpdate(i));
      case Completes(_) =>
      case Ends(i, result) => InitPush(EmitsOf(Init(acts)), ToolEnd(i, result));
    }
  }

  lemma {:induction false} RefusalsUpdateNothing(preps: seq<Prep>)
    ensures UpdatesIn(Refusals(preps)) == []
  {
    if preps != [] {
      RefusalsUpdateNothing(Init(preps));
      if Last(preps).Immediate? {
        InitPush(Refusals(Init(preps)), Last(Refusals(preps)));
      }
    }
  }

  /** Whatever progress the calls of a finished batch report is told, in the order in which
      they do. */
  lemma UpdatesTold(rd: Round)
    requires Plays(rd) && CallsRan(rd) && |SaidIn(rd)| <= rd.room
    ensures UpdatesIn(ToolEvents(rd)) == UpdatesOf(rd.tools.acts)
  {
    RefusalsUpdateNothing(rd.tools.preps);
    EmitsUpdate(rd.tools.acts);
    UpdatesAppend(Refusals(rd.tools.preps), EmitsOf(rd.tools.acts));
  }

  lemma {:induction false} CutOffEndsTell(n: nat, i: nat)
    ensures Told(CutOffEnds(n), i) == if i < n then [ErrorResult(CUT_OFF)] else []
  {
    if n > 0 {
      CutOffEndsTell(n - 1, i);
      InitPush(CutOffEnds(n - 1), Last(CutOffEnds(n)));
    }
  }

  /** Each call of a reply cut off is told to end with an error. */
  lemma {:induction false} CutOffTells(rd: Round, i: nat)
    requires Possible(rd) && Streams(rd) && rd.stream.cutOff && i < |rd.stream.calls|
    requires |SaidIn(rd)| + |rd.stream.calls| <= rd.room
    ensures Told(ToolEvents(rd), i) == [ErrorResult(CUT_OFF)]
  {
    CutOffEndsTell(CutOffTold(rd), i);
  }

  lemma TurnTells(rd: Round, n: nat, ev: Event)
    requires Possible(rd) && !OfTool(ev)
    ensures TurnEvents(rd, n) != [] && TurnEvents(rd, n)[0] == TurnStart(n)
    ensures ev in TurnEvents(rd, n) <==>
              ev == TurnStart(n) || (ev == TurnEnd(n) && Streams(rd) && |SaidIn(rd)| <= rd.room)
  {
    if Streams(rd) && |SaidIn(rd)| <= rd.room {
      ToolsOfTools(rd);
      var tools := ToolEvents(rd);
      assert ev !in tools;
      assert TurnEvents(rd, n) == [TurnStart(n)] + ([TurnEnd(n)] + tools);
    }
  }

  lemma NotInside(ms: seq<Message>, m: Message)
    requires Below(ms, INJECTED) && m.Injected?
    ensures m !in ms
  {
    assert forall i :: 0 <= i < |ms| ==> Rank(ms[i]) < Rank(m);
  }

  lemma FailTells(rd: Round, ev: Event)
    requires Possible(rd) && !OfTool(ev) && TurnEnding(rd).Some?
    ensures ev in FailEvents(rd) <==> Fails(TurnEnding(rd).value) && ev == ErrorEvent(TurnEnding(rd).value)
    ensures ev.InjectedEvent? ==> Injected(ev.content) !in Added(rd)
  {
    if Leaves(rd) {
      EmitsOfTools(rd.tools.late.beforeEnd);
      assert ev !in EmitsOf(rd.tools.late.beforeEnd);
    }
    CutShort(rd);
    if ev.InjectedEvent? {
      NotInside(Added(rd), Injected(ev.content));
    }
  }

  lemma LastIn(ms: seq<Message>, more: seq<Message>, room: nat, m: Message)
    requires Below(ms, INJECTED) && m.Injected? && |more| <= 1
    ensures m in Cut(ms + more, room) <==> |ms| + |more| <= room && m in more
  {
    if |ms| + |more| > room {
      CutLast(ms, more, room);
      NotInside(Cut(ms + more, room), m);
    } else {
      NotInside(ms, m);
    }
  }

  lemma AfterTells(rd: Round, ev: Event)
    requires Possible(rd) && TurnEnding(rd).None?
    ensures ev in AfterEvents(rd) <==> ev.InjectedEvent? && Injected(ev.content) in Added(rd)
  {
    if ev.InjectedEvent? {
      TurnBelow(rd);
      PartRanks(TurnOf(rd));
      NotInside(TurnPart(rd), Injected(ev.content));
      LastIn(ChangePart(rd.pending), InjectedPart(InjectedOf(rd)), RoomAfter(rd), Injected(ev.content));
    }
  }

  /** Besides what its tools tell, a round tells its start, its end once what the model
      said is appended, the error that ended the turn, if one did, and the message that
      was injected. */
  lemma RoundTells(rd: Round, n: nat, ev: Event)
    requires Possible(rd) && !OfTool(ev)
    ensures EventsOf(rd, n) != [] && EventsOf(rd, n)[0] == TurnStart(n)
    ensures Streams(rd) && |SaidIn(rd)| <= rd.room ==> |EventsOf(rd, n)| > 1 && EventsOf(rd, n)[1] == TurnEnd(n)
    ensures ev in EventsOf(rd, n) <==>
            || ev == TurnStart(n)
            || (ev == TurnEnd(n) && Streams(rd) && |SaidIn(rd)| <= rd.room)
            || (TurnEnding(rd).Some? && ev == ErrorEvent(TurnEnding(rd).value)
                && (TurnEnding(rd).value.Errored? || TurnEnding(rd).value.SessionFailed?))
            || (ev.InjectedEvent? && Injected(ev.content) in Added(rd))
  {
    TurnTells(rd, n, ev);
    if TurnEnding(rd).Some? {
      FailTells(rd, ev);
    } else {
      AfterTells(rd, ev);
    }
  }
}
