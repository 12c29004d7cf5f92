/** The loop of one prompt: turns of the model, tool batches, injected messages, and
    the ways it ends. */
module AgentLoop {
  import opened PromptScript
  import opened Text
  import opened ToolBatch
  import opened Wrappers

  class PromptRun {
    var transcript: seq<Message>
    /** What the session holds. */
    var log: seq<Message>
    /** How many messages the session still takes in this round. */
    var room: nat
    var turn: nat
    var terminated: bool
    var suspended: bool
    var events: seq<Event>
    var eventsClosed: bool
    var done: seq<PromptResult>
    /** What each request to the provider showed. */
    var requests: seq<seq<Message>>

    constructor (earlier: seq<Message>)
      ensures log == earlier && Fresh()
    {
      transcript, log, room, turn := [], earlier, 0, 0;
      terminated, suspended, eventsClosed := false, false, false;
      events, done, requests := [], [], [];
    }

    predicate Fresh()
      reads this
    {
      && transcript == [] && turn == 0 && !terminated && !suspended && !eventsClosed
      && events == [] && done == [] && requests == []
    }

    /** Sending on a closed channel is an error. */
    method Send(ev: Event)
      requires !eventsClosed
      modifies `events
      ensures events == old(events) + [ev]
    {
      events := events + [ev];
    }

    /** A late event of a leaked tool is dropped. */
    method Emit(ev: Event)
      modifies `events
      ensures events == if eventsClosed then old(events) else old(events) + [ev]
    {
      if eventsClosed {
        return;
      }
      Send(ev);
    }

    /** Appends message after message, to the session first, until the session fails. */
    method AppendTranscript(ms: seq<Message>) returns (ok: bool)
      modifies `transcript, `log, `room
      ensures ok == (|ms| <= old(room)) && (ok ==> room == old(room) - |ms|)
      ensures log == old(log) + Cut(ms, old(room)) && transcript == old(transcript) + Cut(ms, old(room))
    {
      ghost var l, t := log, transcript;
      Nil(l);
      Nil(t);
      for k := 0 to |ms|
        invariant log == l + ms[..k] && transcript == t + ms[..k] && room == old(room) - k
      {
        if room == 0 {
          return false;
        }
        SliceTo(ms, 0, k);
        Assoc(l, ms[..k], [ms[k]]);
        Assoc(t, ms[..k], [ms[k]]);
        room := room - 1;
        log := log + [ms[k]];
        transcript := transcript + [ms[k]];
      }
      assert ms[..|ms|] == ms;
      ok := true;
    }

    method Finish(ending: Ending)
      requires !eventsClosed
      modifies `events, `done
      ensures done == old(done) + [PromptResult(transcript, ending, suspended)]
      ensures events == old(events) + [AgentEnd(transcript)]
    {
      Emit(AgentEnd(transcript));
      done := done + [PromptResult(transcript, ending, suspended)];
    }

    method EmitAct(a: Act)
      modifies `events
      ensures events == if eventsClosed then old(events) else old(events) + EmitsOf([a])
    {
      InitPush([], a);
      Nil(events);
      match a {
        case Updates(i) => Emit(ToolUpdate(i));
        case Completes(_) =>
        case Ends(i, result) => Emit(ToolEnd(i, result));
      }
    }

    /** What running calls tell; nothing once the channel is closed. */
    method EmitActs(acts: seq<Act>)
      modifies `events
      ensures events == if eventsClosed then old(events) else old(events) + EmitsOf(acts)
    {
      ghost var es := events;
      Nil(es);
      for k := 0 to |acts|
        invariant events == if eventsClosed then es else es + EmitsOf(acts[..k])
      {
        SliceTo(acts, 0, k);
        EmitsPush(acts[..k], acts[k]);
        Assoc(es, EmitsOf(acts[..k]), EmitsOf([acts[k]]));
        EmitAct(acts[k]);
      }
      assert acts[..|acts|] == acts;
    }

    method EmitRefusals(preps: seq<Prep>)
      requires !eventsClosed
      modifies `events
      ensures events == old(events) + Refusals(preps)
    {
      ghost var es := events;
      Nil(es);
      for k := 0 to |preps|
        invariant events == es + Refusals(preps[..k])
      {
        SliceTo(preps, 0, k);
        InitPush(preps[..k], preps[k]);
        if preps[k].Immediate? {
          Assoc(es, Refusals(preps[..k]), [ToolError(k)]);
          Emit(ToolError(k));
        }
      }
      assert preps[..|preps|] == preps;
    }

    method EmitLeaks(leaked: seq<nat>, among: seq<seq<Act>>)
      requires !eventsClosed && |leaked| == |among|
      modifies `events
      ensures events == old(events) + LeaksAmong(leaked, among)
    {
      ghost var es := events;
      Nil(es);
      for i := 0 to |leaked|
        invariant events == es + LeaksAmong(leaked[..i], among[..i])
      {
        SliceTo(leaked, 0, i);
        SliceTo(among, 0, i);
        InitPush(leaked[..i], leaked[i]);
        InitPush(among[..i], among[i]);
        ghost var before := LeaksAmong(leaked[..i], among[..i]);
        EmitActs(among[i]);
        Assoc(es, before, EmitsOf(among[i]));
        Assoc(es + before, EmitsOf(among[i]), [ToolLeak(leaked[i])]);
        Assoc(es, before, EmitsOf(among[i]) + [ToolLeak(leaked[i])]);
        Emit(ToolLeak(leaked[i]));
      }
      assert leaked[..|leaked|] == leaked && among[..|among|] == among;
    }

    /** Appends replies to what the model said. */
    method AppendReplies(replies: seq<Reply>, ghost rd: Round, ghost base: seq<Message>) returns (ok: bool)
      requires Plays(rd) && replies == TurnOf(rd).replies && |SaidIn(rd)| <= rd.room && room == rd.room - |SaidIn(rd)|
      requires log == transcript == base + SaidIn(rd)
      modifies `transcript, `log, `room
      ensures ok == (|TurnPart(rd)| <= rd.room) && (ok ==> room == RoomAfter(rd))
      ensures log == transcript == base + Cut(TurnPart(rd), rd.room)
    {
      ghost var k := room;
      ok := AppendTranscript(ReplyPart(replies));
      CutAppend(SaidIn(rd), ReplyPart(replies), rd.room, k);
      Assoc(base, SaidIn(rd), Cut(ReplyPart(replies), k));
    }

    /** Every call of a reply that was cut off is answered with an error. */
    method FailTruncatedToolCalls(rd: Round, ghost base: seq<Message>) returns (err: Option<Ending>)
      requires Possible(rd) && Streams(rd) && rd.stream.calls != [] && rd.stream.cutOff && !eventsClosed
      requires |SaidIn(rd)| <= rd.room && room == rd.room - |SaidIn(rd)| && log == transcript == base + SaidIn(rd)
      modifies `transcript, `log, `room, `events
      ensures err == TurnEnding(rd) && (err.None? ==> room == RoomAfter(rd))
      ensures log == transcript == base + Cut(TurnPart(rd), rd.room)
      ensures !TerminatedBy(rd) && !SuspendedBy(rd)
      ensures events == old(events) + ToolEvents(rd)
    {
      ghost var es, was, part := events, base + SaidIn(rd), [];
      Nil(es);
      Nil(was);
      for k := 0 to |rd.stream.calls|
        invariant part == CutOffPart(rd.stream.calls[..k]) && log == transcript == was + part
        invariant room == rd.room - |SaidIn(rd)| - k && events == es + CutOffEnds(k) && !eventsClosed
      {
        var call := rd.stream.calls[k];
        SliceTo(rd.stream.calls, 0, k);
        CutOffPush(rd.stream.calls[..k], call);
        Assoc(es, CutOffEnds(k), [ToolEnd(k, ErrorResult(CUT_OFF))]);
        Assoc(was, part, [CutOffMsg(call)]);
        var ok := AnswerCutOff(k, call);
        if !ok {
          CutOffStops(rd, k, base);
          CutOffTells(rd, k + 1);
          return Some(SessionFailed);
        }
        part := part + [CutOffMsg(call)];
      }
      assert rd.stream.calls[..|rd.stream.calls|] == rd.stream.calls;
      CutOffGoesOn(rd, base);
      CutOffTells(rd, |rd.stream.calls|);
      err := None;
    }

    method AnswerCutOff(k: nat, call: string) returns (ok: bool)
      requires !eventsClosed
      modifies `transcript, `log, `room, `events
      ensures ok == (old(room) >= 1) && (ok ==> room == old(room) - 1)
      ensures log == old(log) + if ok then [CutOffMsg(call)] else []
      ensures transcript == old(transcript) + if ok then [CutOffMsg(call)] else []
      ensures events == old(events) + [ToolEnd(k, ErrorResult(CUT_OFF))]
    {
      Emit(ToolEnd(k, ErrorResult(CUT_OFF)));
      ok := AppendTranscript([CutOffMsg(call)]);
    }

    /** Persists what the calls of a finished batch came to. */
    method PersistResults(rd: Round, results: seq<Outcome>, ghost base: seq<Message>) returns (err: Option<Ending>)
      requires Plays(rd) && results == ResultsOf(rd)
      requires |SaidIn(rd)| <= rd.room && room == rd.room - |SaidIn(rd)| && log == transcript == base + SaidIn(rd)
      requires !terminated && !suspended
      modifies `transcript, `log, `room, `terminated, `suspended
      ensures err == TurnEnding(rd) && (err.None? ==> room == RoomAfter(rd))
      ensures log == transcript == base + Cut(TurnPart(rd), rd.room)
      ensures terminated == TerminatedBy(rd) && suspended == SuspendedBy(rd)
    {
      var phase := Conclude(rd.stream.calls, results);
      if phase.terminated {
        terminated := true;
        Nil(SaidIn(rd));
        return None;
      }
      var ok := AppendReplies(phase.replies, rd, base);
      if !ok {
        return Some(SessionFailed);
      }
      suspended := phase.suspended;
      err := None;
    }

    /** Calls run until all have ended, or the wait for them gives up. */
    method RunBatch(tools: Tools, ghost calls: seq<string>) returns (end: BatchEnd)
      requires CanRun(tools, calls) && tools.Executed? && !eventsClosed
      modifies `events
      ensures end == if tools.gaveUp then Abandoned(LeakedBy(tools)) else Finished(OutcomesOf(tools.preps))
      ensures events == old(events) + BatchEvents(tools, calls)
    {
      ghost var es := events;
      var preps, acts, late := tools.preps, tools.acts, tools.late;
      RunsTo(preps, acts, ActsAfter(late));
      EmitRefusals(preps);
      EmitActs(acts);
      Assoc(es, Refusals(preps), EmitsOf(acts));
      end := AwaitToolBatch(preps, acts, tools.gaveUp);
      if end.Abandoned? {
        GiveUp(tools, calls, end.leaked);
        Assoc(es, Refusals(preps) + EmitsOf(acts), GivingUp(tools, calls));
      }
    }

    /** The calls that have leaked are told. */
    method GiveUp(tools: Tools, ghost calls: seq<string>, leaked: seq<nat>)
      requires CanRun(tools, calls) && tools.Executed? && tools.gaveUp && leaked == LeakedBy(tools) && !eventsClosed
      modifies `events
      ensures events == old(events) + GivingUp(tools, calls)
    {
      ghost var es := events;
      EmitLeaks(leaked, tools.late.amongLeaks);
      EmitActs(tools.late.afterLeaks);
      Assoc(es, LeaksAmong(leaked, tools.late.amongLeaks), EmitsOf(tools.late.afterLeaks));
    }

    /** Runs the calls and persists what they come to, unless cancelled. */
    method ExecuteTools(rd: Round, ghost base: seq<Message>) returns (err: Option<Ending>)
      requires Possible(rd) && Streams(rd) && rd.stream.calls != [] && !rd.stream.cutOff
      requires |SaidIn(rd)| <= rd.room && room == rd.room - |SaidIn(rd)| && log == transcript == base + SaidIn(rd)
      requires !terminated && !suspended && !eventsClosed
      modifies `transcript, `log, `room, `terminated, `suspended, `events
      ensures err == TurnEnding(rd) && (err.None? ==> room == RoomAfter(rd))
      ensures log == transcript == base + Cut(TurnPart(rd), rd.room)
      ensures terminated == TerminatedBy(rd) && suspended == SuspendedBy(rd)
      ensures events == old(events) + ToolEvents(rd)
    {
      if rd.tools.NotStarted? {
        EmitRefusals(rd.tools.prepared);
        return Some(AsEnding(rd.cause));
      }
      var end := RunBatch(rd.tools, rd.stream.calls);
      if end.Abandoned? {
        return Some(AsEnding(rd.cause));
      }
      err := PersistResults(rd, end.results, base);
    }

    /** What the calls of a reply come to. */
    method AnswerCalls(rd: Round, ghost base: seq<Message>) returns (err: Option<Ending>)
      requires Possible(rd) && Streams(rd) && !terminated && !suspended && !eventsClosed
      requires |SaidIn(rd)| <= rd.room && room == rd.room - |SaidIn(rd)| && log == transcript == base + SaidIn(rd)
      modifies `transcript, `log, `room, `terminated, `suspended, `events
      ensures err == TurnEnding(rd) && (err.None? ==> room == RoomAfter(rd))
      ensures log == transcript == base + Cut(TurnPart(rd), rd.room)
      ensures terminated == TerminatedBy(rd) && suspended == SuspendedBy(rd)
      ensures events == old(events) + ToolEvents(rd)
    {
      if rd.stream.calls == [] {
        Nil(events);
        Nil(SaidIn(rd));
        err := None;
      } else if rd.stream.cutOff {
        err := FailTruncatedToolCalls(rd, base);
      } else {
        err := ExecuteTools(rd, base);
      }
    }

    /** One request to the model and what it brings. */
    method RunOneTurn(rd: Round, ghost base: seq<Message>) returns (err: Option<Ending>, hadToolCalls: bool)
      requires log == transcript == base && Possible(rd) && room == rd.room && !terminated && !suspended
               && !eventsClosed
      modifies `turn, `transcript, `log, `room, `terminated, `suspended, `events, `requests
      ensures err == TurnEnding(rd) && (err.None? ==> room == RoomAfter(rd) && hadToolCalls == (rd.stream.calls != []))
      ensures log == transcript == base + Cut(TurnPart(rd), rd.room)
      ensures terminated == TerminatedBy(rd) && suspended == SuspendedBy(rd)
      ensures requests == old(requests) + AskedIn(rd, base)
      ensures turn == old(turn) + 1 && events == old(events) + TurnEvents(rd, turn)
    {
      hadToolCalls := false;
      ghost var es := events;
      Nil(base);
      Nil(requests);
      turn := turn + 1;
      Emit(TurnStart(turn));
      if rd.stopped {
        return Some(AsEnding(rd.cause)), hadToolCalls;
      }
      if rd.setup.Some? {
        return Some(AsEnding(rd.setup.value)), hadToolCalls;
      }
      requests := requests + [transcript];
      if rd.stream.StreamFails? {
        return Some(AsEnding(rd.stream.failure)), hadToolCalls;
      }
      err, hadToolCalls := TakeReply(rd, base);
      Assoc(es, [TurnStart(turn)], ReplyEvents(rd, turn));
    }

    method AppendSaid(rd: Round, ghost base: seq<Message>) returns (ok: bool)
      requires log == transcript == base && Possible(rd) && Streams(rd) && room == rd.room
      modifies `transcript, `log, `room
      ensures ok == (|SaidIn(rd)| <= rd.room)
      ensures ok ==> room == rd.room - |SaidIn(rd)| && log == transcript == base + SaidIn(rd)
      ensures !ok ==> TurnEnding(rd) == Some(SessionFailed) && log == transcript == base + Cut(TurnPart(rd), rd.room)
      ensures !ok ==> !TerminatedBy(rd) && !SuspendedBy(rd)
    {
      ok := AppendTranscript(TextPart(rd.stream.text) + CallPart(rd.stream.calls));
      if !ok {
        SaidTooMuch(rd);
      }
    }

    /** The streamed reply, appended, and its calls. */
    method TakeReply(rd: Round, ghost base: seq<Message>) returns (err: Option<Ending>, hadToolCalls: bool)
      requires log == transcript == base && Possible(rd) && Streams(rd) && room == rd.room
      requires !terminated && !suspended && !eventsClosed
      modifies `transcript, `log, `room, `terminated, `suspended, `events
      ensures err == TurnEnding(rd) && (err.None? ==> room == RoomAfter(rd) && hadToolCalls == (rd.stream.calls != []))
      ensures log == transcript == base + Cut(TurnPart(rd), rd.room)
      ensures terminated == TerminatedBy(rd) && suspended == SuspendedBy(rd)
      ensures events == old(events) + ReplyEvents(rd, turn)
    {
      Nil(events);
      hadToolCalls := rd.stream.calls != [];
      var ok := AppendSaid(rd, base);
      if !ok {
        return Some(SessionFailed), hadToolCalls;
      }
      ghost var es := events;
      Emit(TurnEnd(turn));
      err := AnswerCalls(rd, base);
      Assoc(es, [TurnEnd(turn)], ToolEvents(rd));
    }

    /** What follows a completed turn: queued changes of the active tools, and then the
        end of the prompt, an injected message, or the next turn. */
    method AfterTurn(rd: Round, hadToolCalls: bool, ghost base: seq<Message>) returns (ended: Option<Ending>)
      requires Possible(rd) && TurnEnding(rd).None? && room == RoomAfter(rd) && hadToolCalls == (rd.stream.calls != [])
      requires log == transcript == base && terminated == TerminatedBy(rd) && suspended == SuspendedBy(rd)
               && !eventsClosed
      modifies `transcript, `log, `room, `events
      ensures ended == AfterEnding(rd)
      ensures log == transcript == base + Cut(AfterPart(rd), RoomAfter(rd))
      ensures events == old(events) + AfterEvents(rd)
    {
      Nil(events);
      CutAppend(ChangePart(rd.pending), InjectedPart(InjectedOf(rd)), RoomAfter(rd),
                RoomAfter(rd) - |ChangePart(rd.pending)|);
      var ok := AppendTranscript(ChangePart(rd.pending));
      if !ok {
        return Some(SessionFailed);
      }
      Nil(ChangePart(rd.pending));
      if terminated || suspended || rd.stopAfterTurn {
        return Some(Completed);
      }
      if rd.steer.Some? {
        ended := Inject(rd.steer.value, base, ChangePart(rd.pending));
        return;
      }
      if hadToolCalls {
        ended := if rd.stoppedLater then Some(AsEnding(rd.cause)) else None;
        return;
      }
      if rd.followUp.Some? {
        ended := Inject(rd.followUp.value, base, ChangePart(rd.pending));
        return;
      }
      ended := Some(if rd.stoppedLater then AsEnding(rd.cause) else Completed);
    }

    method Inject(m: string, ghost base: seq<Message>, ghost changes: seq<Message>) returns (ended: Option<Ending>)
      requires log == transcript == base + changes && !eventsClosed
      modifies `transcript, `log, `room, `events
      ensures ended == if old(room) >= 1 then None else Some(SessionFailed)
      ensures log == transcript == base + (changes + Cut([Injected(m)], old(room)))
      ensures events == old(events) + if old(room) >= 1 then [InjectedEvent(m)] else []
    {
      Nil(events);
      Assoc(base, changes, Cut([Injected(m)], room));
      var ok := AppendTranscript([Injected(m)]);
      if !ok {
        return Some(SessionFailed);
      }
      Emit(InjectedEvent(m));
      ended := None;
    }

    /** The prompt has played these rounds and goes on. */
    ghost predicate Going(earlier: seq<Message>, played: seq<Round>)
      reads this
    {
      && Shows(earlier, played, turn, transcript, requests, events) && log == transcript
      && !terminated && !suspended && done == [] && !eventsClosed
    }

    /** It has ended in one round more, before which it showed this; its one result is
        delivered. */
    ghost predicate Over(rd: Round, n: nat, shown: seq<Message>, before: seq<seq<Message>>, es: seq<Event>)
      reads this
    {
      && Possible(rd) && EndingOf(rd).Some? && !eventsClosed && turn == n + 1
      && log == transcript == shown + Added(rd) && requests == before + AskedIn(rd, shown)
      && done == [PromptResult(transcript, EndingOf(rd).value, SuspendedBy(rd))]
      && events == es + EventsOf(rd, turn) + [AgentEnd(transcript)]
    }

    /** A failure is told, and what calls do that were left behind. */
    method TellFailure(rd: Round, ending: Ending)
      requires Possible(rd) && TurnEnding(rd) == Some(ending) && !eventsClosed
      modifies `events
      ensures events == old(events) + FailEvents(rd)
    {
      ghost var es := events;
      Nil(es);
      Nil(es + [ErrorEvent(ending)]);
      Nil([ErrorEvent(ending)]);
      if Fails(ending) {
        Emit(ErrorEvent(ending));
      }
      if Leaves(rd) {
        Assoc(es, [ErrorEvent(ending)], EmitsOf(rd.tools.late.beforeEnd));
        EmitActs(rd.tools.late.beforeEnd);
      }
    }

    /** A turn and what follows it. */
    method PlayTurn(rd: Round, ghost base: seq<Message>) returns (ended: Option<Ending>)
      requires log == transcript == base && Possible(rd) && !terminated && !suspended && !eventsClosed
      modifies `turn, `transcript, `log, `room, `terminated, `suspended, `events, `requests
      ensures ended == EndingOf(rd) && log == transcript == base + Added(rd)
      ensures terminated == TerminatedBy(rd) && suspended == SuspendedBy(rd)
      ensures requests == old(requests) + AskedIn(rd, base)
      ensures turn == old(turn) + 1 && events == old(events) + EventsOf(rd, turn)
    {
      room := rd.room;
      ghost var es := events;
      var hadToolCalls;
      ended, hadToolCalls := RunOneTurn(rd, base);
      if ended.Some? {
        TellFailure(rd, ended.value);
        TurnFails(rd, base, es, turn);
        return;
      }
      TurnSucceeds(rd, base, es, turn);
      ended := AfterTurn(rd, hadToolCalls, base + TurnPart(rd));
    }

    /** A round, and the result if it is the last. */
    method TakeRound(rd: Round, ghost base: seq<Message>) returns (ended: bool)
      requires log == transcript == base && Possible(rd) && !terminated && !suspended && !eventsClosed && done == []
      modifies this
      ensures ended == EndingOf(rd).Some?
      ensures ended ==> Over(rd, old(turn), base, old(requests), old(events))
      ensures !ended ==> log == transcript == base + Added(rd) && done == [] && !eventsClosed && turn == old(turn) + 1
      ensures !ended ==> terminated == TerminatedBy(rd) && suspended == SuspendedBy(rd)
      ensures !ended ==> requests == old(requests) + AskedIn(rd, base) && events == old(events) + EventsOf(rd, turn)
    {
      var ending := PlayTurn(rd, base);
      ended := ending.Some?;
      if ended {
        Finish(ending.value);
      }
    }

    /** One round. */
    method PlayRound(rd: Round, ghost earlier: seq<Message>, ghost played: seq<Round>, ghost next: seq<Round>)
      returns (ended: bool)
      requires Going(earlier, played) && Possible(rd) && next == played + [rd]
      modifies this
      ensures ended == EndingOf(rd).Some?
      ensures ended ==> Over(rd, old(turn), old(transcript), old(requests), old(events))
      ensures !ended ==> Going(earlier, next)
    {
      ghost var n, shown, before, es := turn, transcript, requests, events;
      ended := TakeRound(rd, shown);
      if !ended {
        OneMore(earlier, played, rd, n, shown, before, es, next, turn);
      }
    }

    /** Closing the channel a second time is an error. */
    method CloseEvents()
      requires !eventsClosed
      modifies `eventsClosed
      ensures eventsClosed
    {
      eventsClosed := true;
    }

    /** The prompt has played these rounds and ended in one more, its drain is done and
        its channel closed. */
    ghost predicate Ran(earlier: seq<Message>, played: seq<Round>, rd: Round, shown: seq<Message>,
                        before: seq<seq<Message>>,
                        es: seq<Event>, drained: seq<Message>)
      reads this
    {
      && Shows(earlier, played, |played|, shown, before, es) && Possible(rd) && EndingOf(rd).Some? && eventsClosed
      && log == transcript == shown + Added(rd) + drained && requests == before + AskedIn(rd, shown)
      && done == [PromptResult(shown + Added(rd), EndingOf(rd).value, SuspendedBy(rd))]
      && events == es + EventsOf(rd, turn) + [AgentEnd(shown + Added(rd))] + BehindEnd(rd) && turn == |played| + 1
    }

    /** Rounds until the prompt ends or the script does. */
    method PlayRounds(script: seq<Round>, ghost earlier: seq<Message>)
      returns (ended: bool, n: nat, ghost shown: seq<Message>, ghost before: seq<seq<Message>>, ghost es: seq<Event>)
      requires Going(earlier, []) && forall i :: 0 <= i < |script| ==> Possible(script[i])
      modifies this
      ensures n <= |script| && (ended <==> n < |script|)
      ensures !ended ==> Going(earlier, script)
      ensures ended ==> Shows(earlier, script[..n], n, shown, before, es) && Over(script[n], n, shown, before, es)
    {
      n, shown, before, es, ended := 0, [], [], [], false;
      ghost var played: seq<Round> := [];
      for i := 0 to |script|
        invariant n == i && played == script[..i] && !ended && Going(earlier, played)
      {
        SliceTo(script, 0, i);
        shown, before, es := transcript, requests, events;
        ended := PlayRound(script[i], earlier, played, script[..i + 1]);
        if ended {
          return;
        }
        n, played := n + 1, script[..i + 1];
      }
      assert script[..n] == script;
    }

    /** The whole prompt. Changes queued too late for a turn are drained after the result
        is delivered. */
    method Loop(script: seq<Round>, loadFails: bool, late: seq<seq<string>>, lateRoom: nat)
      returns (ended: bool, n: nat, ghost shown: seq<Message>, ghost before: seq<seq<Message>>, ghost es: seq<Event>)
      requires Fresh() && forall i :: 0 <= i < |script| ==> Possible(script[i])
      modifies this
      ensures loadFails ==>
                ended && eventsClosed && done == [PromptResult([], Errored("load"), false)] && requests == []
      ensures loadFails ==> events == [AgentStart, AgentEnd([])] && log == old(log) + Cut(ChangePart(late), lateRoom)
      ensures !loadFails ==> n <= |script| && (ended <==> n < |script|)
      ensures !ended ==> Going(old(log), script)
      ensures ended && !loadFails ==>
                Ran(old(log), script[..n], script[n], shown, before, es, Cut(ChangePart(late), lateRoom))
    {
      n, shown, before, es := 0, [], [], [];
      Emit(AgentStart);
      if loadFails {
        Finish(Errored("load"));
        Drain(late, lateRoom);
        return true, n, shown, before, es;
      }
      transcript := log;
      Nil(log);
      ended, n, shown, before, es := PlayRounds(script, log);
      if ended {
        CloseUp(script[n], late, lateRoom);
      }
    }

    /** What happens after the result is delivered. Calls that were left behind may still
        tell something until the channel is closed. */
    method CloseUp(rd: Round, late: seq<seq<string>>, lateRoom: nat)
      requires !eventsClosed
      modifies `transcript, `log, `room, `events, `eventsClosed
      ensures eventsClosed && events == old(events) + BehindEnd(rd)
      ensures log == old(log) + Cut(ChangePart(late), lateRoom)
      ensures transcript == old(transcript) + Cut(ChangePart(late), lateRoom)
    {
      Nil(events);
      if Leaves(rd) {
        EmitActs(rd.tools.late.beforeClose);
        Drain(late, lateRoom);
        EmitActs(rd.tools.late.afterClose);
      } else {
        Drain(late, lateRoom);
      }
    }

    /** Changes that are still queued, and the close. */
    method Drain(late: seq<seq<string>>, lateRoom: nat)
      requires !eventsClosed
      modifies `transcript, `log, `room, `eventsClosed
      ensures eventsClosed && log == old(log) + Cut(ChangePart(late), lateRoom)
      ensures transcript == old(transcript) + Cut(ChangePart(late), lateRoom)
    {
      room := lateRoom;
      var ok := AppendTranscript(ChangePart(late));
      CloseEvents();
    }
  }
}
