/** What a prompt comes to, as functions of all that its rounds meet from outside: the
    turns it adds, what it asks the provider, what it tells, and how it ends. */
module PromptScript {
  import C = Compaction
  import opened Text
  import opened ToolBatch
  import opened Wrappers

  datatype Message =
    | Earlier(content: string)
    | AssistantText(content: string)
    | ToolCall(callID: string)
    | ToolResultMsg(reply: Reply)
    | ActiveToolsChange(names: seq<string>)
    | Injected(content: string)

  // ----- what happens around the loop ---------------------------------------

  /** Errors by what the loop makes of them: stopped by the agent, cancelled by the
      caller, or any other, an expired deadline among them. */
  datatype Failure = AgentStopped | ContextCancelled | OtherError(text: string)

  /** What the model's stream comes to; a call list cut off by the token limit is not
      executed. */
  datatype Stream =
    | StreamFails(failure: Failure)
    | Streamed(text: Option<string>, calls: seq<string>, cutOff: bool)

  /** What calls still do after the wait for them gave up: before each leak is told,
      then until the failure is told, the result, the close, and ever after. */
  datatype Late = Late(amongLeaks: seq<seq<Act>>, afterLeaks: seq<Act>, beforeEnd: seq<Act>, beforeClose: seq<Act>,
                       afterClose: seq<Act>)

  /** What executing the calls comes to: stopped when some are prepared, or a batch of
      calls that run, with a wait that may give up when cancelled. */
  datatype Tools =
    | NotStarted(prepared: seq<Prep>)
    | Executed(preps: seq<Prep>, acts: seq<Act>, gaveUp: bool, late: Late)

  /** All that one round of the loop meets from outside. `cause` is what cancels it, if
      anything does, and `room` the number of messages the session will take in it
      before it fails. */
  datatype Round = Round(stopped: bool, cause: Failure, setup: Option<Failure>, stream: Stream, tools: Tools, room: nat,
                         pending: seq<seq<string>>, stopAfterTurn: bool, steer: Option<string>, stoppedLater: bool,
                         followUp: Option<string>)

  function Flat(parts: seq<seq<Act>>): seq<Act> {
    if parts == [] then [] else Flat(Init(parts)) + Last(parts)
  }

  function ActsAfter(late: Late): seq<Act> {
    Flat(late.amongLeaks) + late.afterLeaks + late.beforeEnd + late.beforeClose + late.afterClose
  }

  /** The calls that have not completed when the wait gives up. */
  function LeakedBy(tools: Tools): seq<nat>
    requires tools.Executed?
  {
    Missing(tools.preps, CompletedIn(tools.acts), |tools.preps|)
  }

  ghost predicate CanRun(tools: Tools, calls: seq<string>) {
    match tools
    case NotStarted(prepared) => |prepared| <= |calls|
    case Executed(preps, acts, gaveUp, late) =>
      && |preps| == |calls| && Runs(preps, acts + ActsAfter(late)) && (!gaveUp ==> AllEnded(preps, acts))
      && |late.amongLeaks| == if gaveUp then |LeakedBy(tools)| else 0
  }

  ghost predicate Possible(rd: Round) {
    rd.stream.Streamed? ==> CanRun(rd.tools, rd.stream.calls)
  }

  datatype Ending = Completed | Stopped | Cancelled | Errored(text: string) | SessionFailed

  function AsEnding(f: Failure): Ending {
    match f
    case AgentStopped => Stopped
    case ContextCancelled => Cancelled
    case OtherError(text) => Errored(text)
  }

  datatype PromptResult = PromptResult(messages: seq<Message>, ending: Ending, suspended: bool)

  // ----- the grammar of a transcript ----------------------------------------

  /** One turn and what follows it. */
  datatype Turn = Turn(text: Option<string>, calls: seq<string>, replies: seq<Reply>, changes: seq<seq<string>>,
                       injected: Option<string>)

  function TextPart(text: Option<string>): seq<Message> {
    match text case None => [] case Some(t) => [AssistantText(t)]
  }

  function CallPart(calls: seq<string>): seq<Message> {
    if calls == [] then [] else CallPart(Init(calls)) + [ToolCall(Last(calls))]
  }

  function ReplyPart(replies: seq<Reply>): seq<Message> {
    if replies == [] then [] else ReplyPart(Init(replies)) + [ToolResultMsg(Last(replies))]
  }

  function ChangePart(changes: seq<seq<string>>): seq<Message> {
    if changes == [] then [] else ChangePart(Init(changes)) + [ActiveToolsChange(Last(changes))]
  }

  function InjectedPart(injected: Option<string>): seq<Message> {
    match injected case None => [] case Some(t) => [Injected(t)]
  }

  function Said(t: Turn): seq<Message> {
    TextPart(t.text) + CallPart(t.calls)
  }

  function Spelled(t: Turn): seq<Message> {
    Said(t) + ReplyPart(t.replies) + ChangePart(t.changes) + InjectedPart(t.injected)
  }

  function SpelledAll(ts: seq<Turn>): seq<Message> {
    if ts == [] then [] else SpelledAll(Init(ts)) + Spelled(Last(ts))
  }

  /** Every call of the turn has its result, in the order of the calls. */
  predicate Closed(t: Turn) {
    Ids(t.replies) == t.calls
  }

  predicate AllClosed(ts: seq<Turn>) {
    ts == [] || (AllClosed(Init(ts)) && Closed(Last(ts)))
  }

  function CallIds(ms: seq<Message>): seq<string> {
    if ms == [] then [] else CallIds(Init(ms)) + if Last(ms).ToolCall? then [Last(ms).callID] else []
  }

  function ResultIds(ms: seq<Message>): seq<string> {
    if ms == [] then [] else ResultIds(Init(ms)) + if Last(ms).ToolResultMsg? then [Last(ms).reply.callID] else []
  }

  lemma {:induction false} IdsAppend(a: seq<Message>, b: seq<Message>)
    ensures CallIds(a + b) == CallIds(a) + CallIds(b) && ResultIds(a + b) == ResultIds(a) + ResultIds(b)
  {
    if b == [] {
      Nil(a);
      Nil(CallIds(a));
      Nil(ResultIds(a));
    } else {
      InitAppend(a, b);
      IdsAppend(a, Init(b));
      Assoc(CallIds(a), CallIds(Init(b)), if Last(b).ToolCall? then [Last(b).callID] else []);
      Assoc(ResultIds(a), ResultIds(Init(b)), if Last(b).ToolResultMsg? then [Last(b).reply.callID] else []);
    }
  }

  lemma {:induction false} PartIds(calls: seq<string>, replies: seq<Reply>, changes: seq<seq<string>>)
    ensures CallIds(CallPart(calls)) == calls && ResultIds(CallPart(calls)) == []
    ensures CallIds(ReplyPart(replies)) == [] && ResultIds(ReplyPart(replies)) == Ids(replies)
    ensures CallIds(ChangePart(changes)) == [] && ResultIds(ChangePart(changes)) == []
    decreases |calls| + |replies| + |changes|
  {
    if calls != [] {
      PartIds(Init(calls), [], []);
      InitPush(CallPart(Init(calls)), ToolCall(Last(calls)));
      InitLast(calls);
    }
    if replies != [] {
      PartIds([], Init(replies), []);
      InitPush(ReplyPart(Init(replies)), ToolResultMsg(Last(replies)));
    }
    if changes != [] {
      PartIds([], [], Init(changes));
      InitPush(ChangePart(Init(changes)), ActiveToolsChange(Last(changes)));
    }
  }

  lemma TurnIds(t: Turn)
    ensures CallIds(Spelled(t)) == t.calls && ResultIds(Spelled(t)) == Ids(t.replies)
  {
    PartIds(t.calls, t.replies, t.changes);
    IdsAppend(TextPart(t.text), CallPart(t.calls));
    IdsAppend(Said(t), ReplyPart(t.replies));
    IdsAppend(Said(t) + ReplyPart(t.replies), ChangePart(t.changes));
    IdsAppend(Said(t) + ReplyPart(t.replies) + ChangePart(t.changes), InjectedPart(t.injected));
    assert CallIds(TextPart(t.text)) == [] && ResultIds(TextPart(t.text)) == [] by {
      if t.text.Some? {
        assert Init([AssistantText(t.text.value)]) == [];
      }
    }
    assert CallIds(InjectedPart(t.injected)) == [] && ResultIds(InjectedPart(t.injected)) == [] by {
      if t.injected.Some? {
        assert Init([Injected(t.injected.value)]) == [];
      }
    }
    Nil(t.calls);
    Nil(Ids(t.replies));
  }

  /** What closed turns add has one result for every call, in the same order. */
  lemma {:induction false} ClosedAnswersAll(ts: seq<Turn>)
    requires AllClosed(ts)
    ensures CallIds(SpelledAll(ts)) == ResultIds(SpelledAll(ts))
  {
    if ts != [] {
      ClosedAnswersAll(Init(ts));
      TurnIds(Last(ts));
      IdsAppend(SpelledAll(Init(ts)), Spelled(Last(ts)));
    }
  }

  lemma {:induction false} SpelledPush(ts: seq<Turn>, t: Turn)
    ensures SpelledAll(ts + [t]) == SpelledAll(ts) + Spelled(t)
    ensures AllClosed(ts + [t]) <==> AllClosed(ts) && Closed(t)
  {
    InitPush(ts, t);
  }

  // ----- what a round comes to ----------------------------------------------

  /** The first messages, as far as there is room. */
  function Cut<T>(ms: seq<T>, room: nat): seq<T> {
    if |ms| <= room then ms else ms[..room]
  }

  function CutOffResults(calls: seq<string>): (rs: seq<Outcome>)
    ensures |rs| == |calls| && forall i :: 0 <= i < |rs| ==> rs[i] == Failed(CUT_OFF)
  {
    seq(|calls|, _ => Failed(CUT_OFF))
  }

  const CUT_OFF := "Tool call was not executed: the response hit the output token limit."

  predicate Asks(rd: Round) {
    !rd.stopped && rd.setup.None?
  }

  predicate Streams(rd: Round) {
    Asks(rd) && rd.stream.Streamed?
  }

  /** The model's calls are left without results: cancelled before they run, or while
      they do. */
  predicate Abandons(rd: Round) {
    rd.stream.Streamed? && rd.stream.calls != [] && !rd.stream.cutOff && (rd.tools.NotStarted? || rd.tools.gaveUp)
  }

  /** The round gets to the end of its turn, if the session takes all messages. */
  ghost predicate Plays(rd: Round) {
    Possible(rd) && Streams(rd) && !Abandons(rd)
  }

  ghost function ResultsOf(rd: Round): (results: seq<Outcome>)
    requires Plays(rd)
    ensures |results| == |rd.stream.calls|
  {
    if rd.stream.calls == [] || rd.stream.cutOff then CutOffResults(rd.stream.calls) else OutcomesOf(rd.tools.preps)
  }

  ghost predicate Terminating(rd: Round)
    requires Plays(rd)
  {
    AllTerminate(ResultsOf(rd))
  }

  ghost predicate Suspending(rd: Round)
    requires Plays(rd)
  {
    !Terminating(rd) && AnySuspends(ResultsOf(rd))
  }

  ghost predicate Stops(rd: Round)
    requires Plays(rd)
  {
    Terminating(rd) || Suspending(rd) || rd.stopAfterTurn
  }

  /** A steer goes first; a follow-up only comes after a turn without calls. */
  ghost function InjectedOf(rd: Round): Option<string>
    requires Plays(rd)
  {
    if Stops(rd) then None
    else if rd.steer.Some? then rd.steer
    else if rd.stream.calls != [] then None
    else rd.followUp
  }

  /** The turn of a round, with what follows it. */
  ghost function TurnOf(rd: Round): Turn
    requires Plays(rd)
  {
    Turn(rd.stream.text, rd.stream.calls,
         if Terminating(rd) then [] else Replies(rd.stream.calls, ResultsOf(rd)), rd.pending, InjectedOf(rd))
  }

  function SaidIn(rd: Round): seq<Message>
    requires Streams(rd)
  {
    TextPart(rd.stream.text) + CallPart(rd.stream.calls)
  }

  /** What the turn itself, and what follows it, would append. */
  ghost function TurnPart(rd: Round): seq<Message>
    requires Possible(rd)
  {
    if !Streams(rd) then [] else if Abandons(rd) then SaidIn(rd) else SaidIn(rd) + ReplyPart(TurnOf(rd).replies)
  }

  ghost function AfterPart(rd: Round): seq<Message>
    requires Plays(rd)
  {
    ChangePart(rd.pending) + InjectedPart(InjectedOf(rd))
  }

  ghost function RoomAfter(rd: Round): nat
    requires Possible(rd) && |TurnPart(rd)| <= rd.room
  {
    rd.room - |TurnPart(rd)|
  }

  /** How the turn ends the prompt, if it does. */
  ghost function TurnEnding(rd: Round): (e: Option<Ending>)
    requires Possible(rd)
    ensures e.None? ==> Plays(rd) && |TurnPart(rd)| <= rd.room
  {
    if rd.stopped then Some(AsEnding(rd.cause))
    else if rd.setup.Some? then Some(AsEnding(rd.setup.value))
    else if rd.stream.StreamFails? then Some(AsEnding(rd.stream.failure))
    else if |TurnPart(rd)| > rd.room then Some(SessionFailed)
    else if Abandons(rd) then Some(AsEnding(rd.cause))
    else None
  }

  /** How the prompt ends after a turn, if it does. */
  ghost function AfterEnding(rd: Round): Option<Ending>
    requires Possible(rd) && TurnEnding(rd).None?
  {
    if |AfterPart(rd)| > RoomAfter(rd) then Some(SessionFailed)
    else if Stops(rd) then Some(Completed)
    else if rd.steer.Some? then None
    else if rd.stream.calls == [] && rd.followUp.Some? then None
    else if rd.stoppedLater then Some(AsEnding(rd.cause))
    else if rd.stream.calls == [] then Some(Completed)
    else None
  }

  ghost function EndingOf(rd: Round): Option<Ending>
    requires Possible(rd)
  {
    if TurnEnding(rd).Some? then TurnEnding(rd) else AfterEnding(rd)
  }

  /** What the round appends. */
  ghost function Added(rd: Round): seq<Message>
    requires Possible(rd)
  {
    if TurnEnding(rd).Some? then Cut(TurnPart(rd), rd.room) else TurnPart(rd) + Cut(AfterPart(rd), RoomAfter(rd))
  }

  ghost predicate TerminatedBy(rd: Round) {
    Plays(rd) && Terminating(rd) && |SaidIn(rd)| <= rd.room
  }

  ghost predicate SuspendedBy(rd: Round) {
    Plays(rd) && Suspending(rd) && |TurnPart(rd)| <= rd.room
  }

  // ----- the events of a round ----------------------------------------------

  datatype Event =
    | AgentStart
    | TurnStart(turn: nat)
    | TurnEnd(turn: nat)
    | ToolError(call: nat)
    | ToolUpdate(call: nat)
    | ToolEnd(call: nat, result: ToolResult)
    | ToolLeak(call: nat)
    | ErrorEvent(ending: Ending)
    | InjectedEvent(content: string)
    | AgentEnd(messages: seq<Message>)

  /** One for each call that is refused, in source order. */
  function Refusals(preps: seq<Prep>): seq<Event> {
    if preps == [] then []
    else if Last(preps).Immediate? then Refusals(Init(preps)) + [ToolError(|preps| - 1)]
    else Refusals(Init(preps))
  }

  function EmitsOf(acts: seq<Act>): seq<Event> {
    if acts == [] then []
    else match Last(acts)
      case Updates(i) => EmitsOf(Init(acts)) + [ToolUpdate(i)]
      case Completes(_) => EmitsOf(Init(acts))
      case Ends(i, result) => EmitsOf(Init(acts)) + [ToolEnd(i, result)]
  }

  /** One for every call that has leaked, among what calls still do. */
  function LeaksAmong(calls: seq<nat>, among: seq<seq<Act>>): seq<Event>
    requires |calls| == |among|
  {
    if calls == [] then []
    else LeaksAmong(Init(calls), Init(among)) + (EmitsOf(Last(among)) + [ToolLeak(Last(calls))])
  }

  function CutOffEnds(n: nat): seq<Event> {
    if n == 0 then [] else CutOffEnds(n - 1) + [ToolEnd(n - 1, ErrorResult(CUT_OFF))]
  }

  ghost function GivingUp(tools: Tools, calls: seq<string>): seq<Event>
    requires CanRun(tools, calls) && tools.Executed? && tools.gaveUp
  {
    LeaksAmong(LeakedBy(tools), tools.late.amongLeaks) + EmitsOf(tools.late.afterLeaks)
  }

  ghost function BatchEvents(tools: Tools, calls: seq<string>): seq<Event>
    requires CanRun(tools, calls)
  {
    match tools
    case NotStarted(prepared) => Refusals(prepared)
    case Executed(preps, acts, gaveUp, _) =>
      if gaveUp then Refusals(preps) + EmitsOf(acts) + GivingUp(tools, calls) else Refusals(preps) + EmitsOf(acts)
  }

  /** The answers to a reply that was cut off are told one by one, up to the first that
      the session does not take. */
  ghost function CutOffTold(rd: Round): nat
    requires Streams(rd) && |SaidIn(rd)| <= rd.room
  {
    if |rd.stream.calls| <= rd.room - |SaidIn(rd)| then |rd.stream.calls| else rd.room - |SaidIn(rd)| + 1
  }

  ghost function ToolEvents(rd: Round): seq<Event>
    requires Possible(rd) && Streams(rd) && |SaidIn(rd)| <= rd.room
  {
    if rd.stream.calls == [] then []
    else if rd.stream.cutOff then CutOffEnds(CutOffTold(rd))
    else BatchEvents(rd.tools, rd.stream.calls)
  }

  ghost function ReplyEvents(rd: Round, n: nat): seq<Event>
    requires Possible(rd) && Streams(rd)
  {
    if |SaidIn(rd)| <= rd.room then [TurnEnd(n)] + ToolEvents(rd) else []
  }

  ghost function TurnEvents(rd: Round, n: nat): seq<Event>
    requires Possible(rd)
  {
    if Streams(rd) then [TurnStart(n)] + ReplyEvents(rd, n) else [TurnStart(n)]
  }

  predicate Fails(e: Ending) {
    e.Errored? || e.SessionFailed?
  }

  /** The wait for the calls of the round gave up, and they may still do something. */
  predicate Leaves(rd: Round) {
    Streams(rd) && Abandons(rd) && rd.tools.Executed? && |SaidIn(rd)| <= rd.room
  }

  /** What the calls left behind tell before the result, and behind it. */
  function BeforeEnd(rd: Round): seq<Event> {
    if Leaves(rd) then EmitsOf(rd.tools.late.beforeEnd) else []
  }

  function BehindEnd(rd: Round): seq<Event> {
    if Leaves(rd) then EmitsOf(rd.tools.late.beforeClose) else []
  }

  /** A turn that fails is told as an error, one that is cancelled is not. */
  ghost function FailEvents(rd: Round): seq<Event>
    requires Possible(rd) && TurnEnding(rd).Some?
  {
    if Fails(TurnEnding(rd).value) then [ErrorEvent(TurnEnding(rd).value)] + BeforeEnd(rd) else BeforeEnd(rd)
  }

  ghost function AfterEvents(rd: Round): seq<Event>
    requires Possible(rd) && TurnEnding(rd).None?
  {
    if InjectedOf(rd).Some? && |AfterPart(rd)| <= RoomAfter(rd) then [InjectedEvent(InjectedOf(rd).value)] else []
  }

  /** The events of round n. */
  ghost function EventsOf(rd: Round, n: nat): seq<Event>
    requires Possible(rd)
  {
    TurnEvents(rd, n) + if TurnEnding(rd).Some? then FailEvents(rd) else AfterEvents(rd)
  }

  // ----- the grammar of what is appended ------------------------------------

  lemma CutAppend<T>(a: seq<T>, b: seq<T>, room: nat, rest: int)
    requires rest == room - |a|
    ensures rest >= 0 ==> Cut(a + b, room) == a + Cut(b, rest)
    ensures rest < 0 ==> Cut(a + b, room) == Cut(a, room)
  {
    Nil(a);
  }

  lemma SpelledOf(rd: Round)
    requires Plays(rd)
    ensures Spelled(TurnOf(rd)) == TurnPart(rd) + AfterPart(rd)
  {
    Assoc(TurnPart(rd), ChangePart(rd.pending), InjectedPart(InjectedOf(rd)));
  }

  lemma AddsCut(rd: Round)
    requires Plays(rd)
    ensures Added(rd) == Cut(TurnPart(rd) + AfterPart(rd), rd.room)
  {
    CutAppend(TurnPart(rd), AfterPart(rd), rd.room, rd.room - |TurnPart(rd)|);
  }

  lemma TooLongFails(rd: Round, n: nat)
    requires Plays(rd) && n == |TurnPart(rd)| + |AfterPart(rd)|
    ensures n > rd.room <==> EndingOf(rd) == Some(SessionFailed)
  {
  }

  /** Unless the calls are abandoned, what a round appends is its turn, or a first
      part of it if the session fails. */
  lemma AddsTurn(rd: Round)
    requires Plays(rd)
    ensures Added(rd) == Cut(Spelled(TurnOf(rd)), rd.room)
    ensures |Spelled(TurnOf(rd))| > rd.room <==> EndingOf(rd) == Some(SessionFailed)
  {
    SpelledOf(rd);
    AddsCut(rd);
    TooLongFails(rd, |Spelled(TurnOf(rd))|);
  }

  /** A round after which the prompt goes on has appended a whole closed turn. */
  lemma GoesOnCloses(rd: Round)
    requires Possible(rd) && EndingOf(rd).None?
    ensures Plays(rd) && Added(rd) == Spelled(TurnOf(rd)) && Closed(TurnOf(rd))
  {
    AddsTurn(rd);
    AllAnswered(rd.stream.calls, ResultsOf(rd));
  }

  lemma CompletesPlays(rd: Round)
    requires Possible(rd) && EndingOf(rd) == Some(Completed)
    ensures Plays(rd) && |TurnPart(rd)| <= rd.room && |SaidIn(rd)| <= rd.room && InjectedOf(rd) == None
    ensures |Spelled(TurnOf(rd))| <= rd.room
  {
    AddsTurn(rd);
  }

  /** So has one that completes the prompt, unless it terminates, with no result at
      all, or suspends, with some missing. */
  lemma CompletesWhole(rd: Round)
    requires Possible(rd) && EndingOf(rd) == Some(Completed)
    ensures Plays(rd) && Added(rd) == Spelled(TurnOf(rd)) && TurnOf(rd).injected == None
    ensures TerminatedBy(rd) <==> Terminating(rd)
    ensures SuspendedBy(rd) <==> Suspending(rd)
    ensures if Terminating(rd) then TurnOf(rd).replies == [] && TurnOf(rd).calls != []
            else Closed(TurnOf(rd)) <==> !Suspending(rd)
  {
    CompletesPlays(rd);
    AddsTurn(rd);
    AllAnswered(rd.stream.calls, ResultsOf(rd));
  }

  lemma {:induction false} SaidIds(text: Option<string>, calls: seq<string>)
    ensures ResultIds(TextPart(text) + CallPart(calls)) == []
  {
    PartIds(calls, [], []);
    IdsAppend(TextPart(text), CallPart(calls));
    if text.Some? {
      assert Init([AssistantText(text.value)]) == [];
    }
  }

  lemma {:induction false} NoResultsBefore(ms: seq<Message>, k: nat, front: seq<Message>)
    requires k <= |ms| && front == ms[..k] && ResultIds(ms) == []
    ensures ResultIds(front) == []
  {
    IdsAppend(front, ms[k..]);
    assert ms == front + ms[k..];
  }

  /** Calls that are abandoned leave no result, nor does anything follow them. */
  lemma AbandonedAddsNothing(rd: Round)
    requires Possible(rd) && Streams(rd) && Abandons(rd)
    ensures Added(rd) == Cut(SaidIn(rd), rd.room)
    ensures EndingOf(rd) == Some(if |SaidIn(rd)| <= rd.room then AsEnding(rd.cause) else SessionFailed)
    ensures ResultIds(Added(rd)) == [] && !TerminatedBy(rd) && !SuspendedBy(rd)
  {
    SaidIds(rd.stream.text, rd.stream.calls);
    if |SaidIn(rd)| > rd.room {
      NoResultsBefore(SaidIn(rd), rd.room, Cut(SaidIn(rd), rd.room));
    }
  }

  lemma SaidTooMuch(rd: Round)
    requires Possible(rd) && Streams(rd) && |SaidIn(rd)| > rd.room
    ensures |TurnPart(rd)| > rd.room && Cut(TurnPart(rd), rd.room) == Cut(SaidIn(rd), rd.room)
  {
    if !Abandons(rd) {
      CutAppend(SaidIn(rd), ReplyPart(TurnOf(rd).replies), rd.room, rd.room - |SaidIn(rd)|);
    }
  }

  lemma TurnFails(rd: Round, base: seq<Message>, es: seq<Event>, n: nat)
    requires Possible(rd) && TurnEnding(rd).Some?
    ensures EndingOf(rd) == TurnEnding(rd) && base + Cut(TurnPart(rd), rd.room) == base + Added(rd)
    ensures es + TurnEvents(rd, n) + FailEvents(rd) == es + EventsOf(rd, n)
  {
    Assoc(es, TurnEvents(rd, n), FailEvents(rd));
  }

  lemma TurnSucceeds(rd: Round, base: seq<Message>, es: seq<Event>, n: nat)
    requires Possible(rd) && TurnEnding(rd).None?
    ensures EndingOf(rd) == AfterEnding(rd) && Cut(TurnPart(rd), rd.room) == TurnPart(rd)
    ensures base + TurnPart(rd) + Cut(AfterPart(rd), RoomAfter(rd)) == base + Added(rd)
    ensures es + TurnEvents(rd, n) + AfterEvents(rd) == es + EventsOf(rd, n)
  {
    Assoc(base, TurnPart(rd), Cut(AfterPart(rd), RoomAfter(rd)));
    Assoc(es, TurnEvents(rd, n), AfterEvents(rd));
  }

  // ----- replies that were cut off ------------------------------------------

  function CutOffMsg(call: string): Message {
    ToolResultMsg(Reply(call, CUT_OFF, true))
  }

  function CutOffPart(calls: seq<string>): seq<Message> {
    if calls == [] then [] else CutOffPart(Init(calls)) + [CutOffMsg(Last(calls))]
  }

  lemma {:induction false} CutOffPush(calls: seq<string>, call: string)
    ensures CutOffPart(calls + [call]) == CutOffPart(calls) + [CutOffMsg(call)]
  {
    InitPush(calls, call);
  }

  lemma {:induction false} CutOffIs(calls: seq<string>)
    ensures ReplyPart(Replies(calls, CutOffResults(calls))) == CutOffPart(calls) && |CutOffPart(calls)| == |calls|
  {
    if calls != [] {
      CutOffIs(Init(calls));
      assert Init(CutOffResults(calls)) == CutOffResults(Init(calls));
      InitPush(Replies(Init(calls), CutOffResults(Init(calls))), Reply(Last(calls), CUT_OFF, true));
    }
  }

  lemma {:induction false} CutOffSlice(calls: seq<string>, k: nat)
    requires k <= |calls|
    ensures |CutOffPart(calls)| == |calls| && CutOffPart(calls)[..k] == CutOffPart(calls[..k])
  {
    CutOffIs(calls);
    if k < |calls| {
      CutOffSlice(Init(calls), k);
      assert Init(calls)[..k] == calls[..k];
    } else {
      assert calls[..k] == calls;
    }
  }

  lemma CutOffNeither(calls: seq<string>)
    requires calls != []
    ensures !AllTerminate(CutOffResults(calls)) && !AnySuspends(CutOffResults(calls))
  {
    assert CutOffResults(calls)[0] == Failed(CUT_OFF);
  }

  lemma CutOffResultsOf(rd: Round)
    requires Possible(rd) && Streams(rd) && rd.stream.calls != [] && rd.stream.cutOff
    ensures Plays(rd) && ResultsOf(rd) == CutOffResults(rd.stream.calls)
    ensures !Terminating(rd) && !TerminatedBy(rd) && !SuspendedBy(rd)
  {
    CutOffNeither(rd.stream.calls);
  }

  lemma CutOffTurn(rd: Round)
    requires Possible(rd) && Streams(rd) && rd.stream.calls != [] && rd.stream.cutOff
    ensures TurnPart(rd) == SaidIn(rd) + CutOffPart(rd.stream.calls)
            && |CutOffPart(rd.stream.calls)| == |rd.stream.calls|
    ensures !TerminatedBy(rd) && !SuspendedBy(rd)
  {
    CutOffResultsOf(rd);
    CutOffIs(rd.stream.calls);
  }

  lemma {:induction false} CutOffKept(said: seq<Message>, calls: seq<string>, k: nat, room: nat, base: seq<Message>)
    requires k < |calls| && room == |said| + k
    ensures |said + CutOffPart(calls)| > room
    ensures base + said + CutOffPart(calls[..k]) == base + Cut(said + CutOffPart(calls), room)
  {
    CutOffSlice(calls, k);
    CutAppend(said, CutOffPart(calls), room, k);
    Assoc(base, said, CutOffPart(calls[..k]));
  }

  lemma CutOffStops(rd: Round, k: nat, base: seq<Message>)
    requires Possible(rd) && Streams(rd) && rd.stream.cutOff && k < |rd.stream.calls| && rd.room == |SaidIn(rd)| + k
    ensures TurnEnding(rd) == Some(SessionFailed) && !TerminatedBy(rd) && !SuspendedBy(rd)
    ensures base + SaidIn(rd) + CutOffPart(rd.stream.calls[..k]) == base + Cut(TurnPart(rd), rd.room)
  {
    CutOffTurn(rd);
    CutOffKept(SaidIn(rd), rd.stream.calls, k, rd.room, base);
  }

  lemma CutOffGoesOn(rd: Round, base: seq<Message>)
    requires Possible(rd) && Streams(rd) && rd.stream.cutOff && rd.stream.calls != []
    requires |SaidIn(rd)| + |rd.stream.calls| <= rd.room
    ensures TurnEnding(rd) == None && !TerminatedBy(rd) && !SuspendedBy(rd)
    ensures RoomAfter(rd) == rd.room - |SaidIn(rd)| - |rd.stream.calls|
    ensures base + SaidIn(rd) + CutOffPart(rd.stream.calls) == base + Cut(TurnPart(rd), rd.room)
  {
    CutOffTurn(rd);
    Assoc(base, SaidIn(rd), CutOffPart(rd.stream.calls));
  }

  /** Emits count: all calls, or one more than the session takes. */
  lemma {:induction false} CutOffTells(rd: Round, n: nat)
    requires Possible(rd) && Streams(rd) && rd.stream.cutOff && rd.stream.calls != [] && |SaidIn(rd)| <= rd.room
    requires n == CutOffTold(rd)
    ensures ToolEvents(rd) == CutOffEnds(n)
  {
  }

  // ----- what calls tell ----------------------------------------------------

  lemma {:induction false} EmitsPush(acts: seq<Act>, a: Act)
    ensures EmitsOf(acts + [a]) == EmitsOf(acts) + EmitsOf([a])
  {
    InitPush(acts, a);
    InitPush([], a);
    Nil(EmitsOf(acts));
  }

  /** The results that are told for a call. */
  function Told(es: seq<Event>, i: nat): seq<ToolResult> {
    if es == [] then []
    else if Last(es).ToolEnd? && Last(es).call == i then Told(Init(es), i) + [Last(es).result]
    else Told(Init(es), i)
  }

  lemma {:induction false} ToldAppend(a: seq<Event>, b: seq<Event>, i: nat)
    ensures Told(a + b, i) == Told(a, i) + Told(b, i)
  {
    if b == [] {
      Nil(a);
      Nil(Told(a, i));
    } else {
      InitAppend(a, b);
      ToldAppend(a, Init(b), i);
      if Last(b).ToolEnd? && Last(b).call == i {
        Assoc(Told(a, i), Told(Init(b), i), [Last(b).result]);
      }
    }
  }

  lemma {:induction false} ToldNext(acts: seq<Act>, before: seq<Act>, a: Act, i: nat)
    requires acts != [] && before == Init(acts) && a == Last(acts)
    ensures Told(EmitsOf(acts), i)
         == if a.Ends? && a.call == i then Told(EmitsOf(before), i) + [a.result] else Told(EmitsOf(before), i)
  {
    if !a.Completes? {
      InitPush(EmitsOf(before), Last(EmitsOf(acts)));
    }
  }

  lemma InPush<T>(s: seq<T>, x: T, y: T)
    ensures y in s + [x] <==> y in s || y == x
  {
  }

  lemma {:induction false} EndsAsRecorded(preps: seq<Prep>, before: seq<Act>, a: Act, i: nat)
    requires CanAct(preps, before, a) && i < |preps| && preps[i].Runnable?
    ensures a.Ends? && a.call == i <==> a == EndOf(preps, i)
    ensures a.Ends? && a.call == i ==> EndOf(preps, i) !in before
    ensures a == EndOf(preps, i) ==> a.result == Finalize(preps[i].exec, preps[i].hookError)
  {
  }

  /** A call tells its result once, when it ends. */
  lemma {:induction false} EmitsTell(preps: seq<Prep>, acts: seq<Act>, i: nat)
    requires Runs(preps, acts) && i < |preps| && preps[i].Runnable?
    ensures Told(EmitsOf(acts), i)
         == if EndOf(preps, i) in acts then [Finalize(preps[i].exec, preps[i].hookError)] else []
  {
    if acts != [] {
      var before, a := Init(acts), Last(acts);
      EmitsTell(preps, before, i);
      ToldNext(acts, before, a, i);
      EndsAsRecorded(preps, before, a, i);
      InitLast(acts);
      InPush(before, a, EndOf(preps, i));
    }
  }

  lemma {:induction false} RefusedTellNothing(preps: seq<Prep>, acts: seq<Act>, i: nat)
    requires Runs(preps, acts) && i < |preps| && preps[i].Immediate?
    ensures Told(EmitsOf(acts), i) == []
  {
    if acts != [] {
      RefusedTellNothing(preps, Init(acts), i);
      if !Last(acts).Completes? {
        InitPush(EmitsOf(Init(acts)), Last(EmitsOf(acts)));
      }
    }
  }

  lemma {:induction false} RefusalsAre(preps: seq<Prep>, i: nat)
    ensures Told(Refusals(preps), i) == []
    ensures ToolError(i) in Refusals(preps) <==> i < |preps| && preps[i].Immediate?
  {
    if preps != [] {
      RefusalsAre(Init(preps), i);
      if Last(preps).Immediate? {
        InitPush(Refusals(Init(preps)), ToolError(|preps| - 1));
      }
    }
  }

  lemma {:induction false} NoErrors(acts: seq<Act>, i: nat)
    ensures ToolError(i) !in EmitsOf(acts)
  {
    if acts != [] {
      NoErrors(Init(acts), i);
    }
  }

  /** The events of a batch that finished agree with its results: each call that ran
      has told just the result recorded for it, once; each that was refused is told as
      an error instead. */
  lemma {:induction false} ToolsTell(rd: Round, i: nat)
    requires Plays(rd) && rd.stream.calls != [] && !rd.stream.cutOff && |SaidIn(rd)| <= rd.room && i < |rd.stream.calls|
    ensures ResultsOf(rd)[i].Ran? ==> Told(ToolEvents(rd), i) == [ResultsOf(rd)[i].result]
    ensures ResultsOf(rd)[i].Failed? ==> Told(ToolEvents(rd), i) == []
    ensures ToolError(i) in ToolEvents(rd) <==> ResultsOf(rd)[i].Failed?
  {
    var preps, acts := rd.tools.preps, rd.tools.acts;
    RunsTo(preps, acts, ActsAfter(rd.tools.late));
    ToldAppend(Refusals(preps), EmitsOf(acts), i);
    RefusalsAre(preps, i);
    NoErrors(acts, i);
    if preps[i].Runnable? {
      EmitsTell(preps, acts, i);
    } else {
      RefusedTellNothing(preps, acts, i);
    }
  }

  /** A call that has leaked has told no result by then. */
  lemma {:induction false} LeakedToldNothing(tools: Tools, calls: seq<string>, i: nat)
    requires CanRun(tools, calls) && tools.Executed? && i in LeakedBy(tools)
    ensures i < |calls| && Told(EmitsOf(tools.acts), i) == []
  {
    RunsTo(tools.preps, tools.acts, ActsAfter(tools.late));
    MissingAre(tools.preps, CompletedIn(tools.acts), |tools.preps|);
    CompletedAre(tools.acts, i);
    EmitsTell(tools.preps, tools.acts, i);
    if EndOf(tools.preps, i) in tools.acts {
      EndedCompleted(tools.preps, tools.acts, EndOf(tools.preps, i));
    }
  }

  // ----- what is told behind the result -------------------------------------

  lemma {:induction false} EmitsAreOfTools(acts: seq<Act>)
    ensures EmitsOf(acts) != [] ==> Last(EmitsOf(acts)).ToolUpdate? || Last(EmitsOf(acts)).ToolEnd?
  {
    if acts != [] {
      EmitsAreOfTools(Init(acts));
    }
  }

  /** Calls do something later only if one of them has not ended. */
  lemma EndedLeaveNothing(tools: Tools, calls: seq<string>)
    requires CanRun(tools, calls) && tools.Executed? && AllEnded(tools.preps, tools.acts)
    ensures ActsAfter(tools.late) == []
  {
    NothingAfterEnds(tools.preps, tools.acts, ActsAfter(tools.late));
  }

  /** The end of the prompt is its last event exactly if calls left behind tell nothing
      before the channel is closed. They can only do so if the wait for them gave up
      when not all had ended. */
  lemma EndIsLast(rd: Round, es: seq<Event>, ms: seq<Message>)
    requires Possible(rd)
    ensures Last(es + [AgentEnd(ms)] + BehindEnd(rd)) == AgentEnd(ms) <==> BehindEnd(rd) == []
    ensures BehindEnd(rd) != [] ==> Leaves(rd) && !AllEnded(rd.tools.preps, rd.tools.acts)
  {
    if BehindEnd(rd) != [] {
      EmitsAreOfTools(rd.tools.late.beforeClose);
      if AllEnded(rd.tools.preps, rd.tools.acts) {
        EndedLeaveNothing(rd.tools, rd.stream.calls);
      }
    } else {
      Nil(es + [AgentEnd(ms)]);
    }
  }

  /** A stopped prompt, whose one call ends behind the result. */
  function LateCall(acts: seq<Act>, among: seq<seq<Act>>, behind: seq<Act>): Round {
    Round(false, AgentStopped, None, Streamed(None, ["a"], false),
          Executed([Runnable(Raised("late"), None)], acts, true, Late(among, [], [], behind, [])), 1,
          [], false, None, false, None)
  }

  lemma LateRuns(p: Prep, r: ToolResult)
    requires p.Runnable? && Ran(r) == OutcomeOf(p)
    ensures Runs([p], [] + ([Completes(0)] + [Ends(0, r)])) && Runs([p], [Completes(0)] + [Ends(0, r)])
  {
    var both := [Completes(0)] + [Ends(0, r)];
    InitPush([Completes(0)], Ends(0, r));
    InitPush([], Completes(0));
    assert [] + [Completes(0)] == [Completes(0)] && [] + both == both;
    assert Runs([p], []) && CanAct([p], [], Completes(0));
    assert CanAct([p], [Completes(0)], Ends(0, r));
  }

  lemma LateEmits(i: nat, r: ToolResult)
    ensures EmitsOf([Ends(i, r)]) == [ToolEnd(i, r)] == EmitsOf([Completes(i), Ends(i, r)])
  {
    InitPush([], Ends(i, r));
    InitPush([], Completes(i));
    InitPush([Completes(i)], Ends(i, r));
    assert [Completes(i)] + [Ends(i, r)] == [Completes(i), Ends(i, r)];
  }

  lemma LateSaid(rd: Round)
    requires rd.stream == Streamed(None, ["a"], false) && rd.room == 1
    requires Asks(rd) && rd.cause == AgentStopped && rd.tools.Executed? && rd.tools.gaveUp && Possible(rd)
    ensures EndingOf(rd) == Some(Stopped) && Leaves(rd)
  {
    InitPush([], "a");
    assert [""] + ["a"] == ["", "a"];
    assert CallPart(["a"]) == [ToolCall("a")];
  }

  /** The end is not always last: a call that has leaked tells its result behind it. */
  lemma LeakedTellsLate() returns (rd: Round)
    ensures Possible(rd) && EndingOf(rd) == Some(Stopped) && rd.tools.Executed? && LeakedBy(rd.tools) == [0]
    ensures BehindEnd(rd) == [ToolEnd(0, ErrorResult("late"))]
  {
    var p, r := Runnable(Raised("late"), None), ErrorResult("late");
    rd := LateCall([], [[]], [Completes(0), Ends(0, r)]);
    assert LeakedBy(rd.tools) == [0] by {
      assert Missing([p], [], 1) == Missing([p], [], 0) + [0];
    }
    assert ActsAfter(rd.tools.late) == [Completes(0)] + [Ends(0, r)] by {
      assert Flat([[]]) == [];
    }
    LateRuns(p, r);
    LateEmits(0, r);
    LateSaid(rd);
  }

  /** Nor is it if none has leaked: a call can have completed, but not told its result. */
  lemma CompletedTellsLate() returns (rd: Round)
    ensures Possible(rd) && EndingOf(rd) == Some(Stopped) && rd.tools.Executed? && LeakedBy(rd.tools) == []
    ensures BehindEnd(rd) == [ToolEnd(0, ErrorResult("late"))]
  {
    var p, r := Runnable(Raised("late"), None), ErrorResult("late");
    rd := LateCall([Completes(0)], [], [Ends(0, r)]);
    assert LeakedBy(rd.tools) == [] by {
      CompletedAre([Completes(0)], 0);
      assert Missing([p], CompletedIn([Completes(0)]), 1) == Missing([p], CompletedIn([Completes(0)]), 0);
    }
    LateRuns(p, r);
    LateEmits(0, r);
    LateSaid(rd);
  }

  // ----- a whole prompt -----------------------------------------------------

  /** Rounds after each of which the prompt goes on. */
  ghost predicate AllGoOn(script: seq<Round>) {
    script == [] || (AllGoOn(Init(script)) && Possible(Last(script)) && EndingOf(Last(script)).None?)
  }

  /** The turns of such rounds, one each. */
  ghost function TurnsOf(script: seq<Round>): (ts: seq<Turn>)
    requires AllGoOn(script)
    ensures |ts| == |script|
  {
    if script == [] then [] else TurnsOf(Init(script)) + [TurnOf(Last(script))]
  }

  /** What each request showed: the turns before it. */
  ghost function RequestsOf(earlier: seq<Message>, script: seq<Round>): (rs: seq<seq<Message>>)
    requires AllGoOn(script)
    ensures |rs| == |script|
  {
    if script == [] then []
    else RequestsOf(earlier, Init(script)) + [earlier + SpelledAll(TurnsOf(Init(script)))]
  }

  ghost function EventsTo(script: seq<Round>): seq<Event>
    requires AllGoOn(script)
  {
    if script == [] then [AgentStart] else EventsTo(Init(script)) + EventsOf(Last(script), |script|)
  }

  lemma {:induction false} RoundPush(earlier: seq<Message>, script: seq<Round>, rd: Round, next: seq<Round>)
    requires AllGoOn(script) && Possible(rd) && EndingOf(rd).None?
    requires next != [] && Init(next) == script && Last(next) == rd
    ensures AllGoOn(next) && TurnsOf(next) == TurnsOf(script) + [TurnOf(rd)]
    ensures SpelledAll(TurnsOf(next)) == SpelledAll(TurnsOf(script)) + Added(rd)
    ensures RequestsOf(earlier, next) == RequestsOf(earlier, script) + [earlier + SpelledAll(TurnsOf(script))]
  {
    GoesOnCloses(rd);
    SpelledPush(TurnsOf(script), TurnOf(rd));
  }

  lemma {:induction false} EventsPush(script: seq<Round>, rd: Round, n: nat, next: seq<Round>)
    requires AllGoOn(next) && next != [] && Init(next) == script && Last(next) == rd && n == |next|
    ensures AllGoOn(script) && EventsTo(next) == EventsTo(script) + EventsOf(rd, n)
  {
  }

  /** What a prompt shows that has played n rounds, each of which went on: their turns
      behind the earlier messages, a request each, and their events. */
  ghost predicate Shows(earlier: seq<Message>, played: seq<Round>, n: nat, shown: seq<Message>,
                        requests: seq<seq<Message>>,
                        events: seq<Event>) {
    && AllGoOn(played) && n == |played| && shown == earlier + SpelledAll(TurnsOf(played))
    && requests == RequestsOf(earlier, played) && events == EventsTo(played)
  }

  ghost function AskedIn(rd: Round, shown: seq<Message>): seq<seq<Message>> {
    if Asks(rd) then [shown] else []
  }

  lemma {:induction false} GoesOnAsks(rd: Round)
    requires Possible(rd) && EndingOf(rd).None?
    ensures Asks(rd) && !TerminatedBy(rd) && !SuspendedBy(rd)
  {
  }

  lemma {:induction false} OneMore(earlier: seq<Message>, played: seq<Round>, rd: Round, n: nat, shown: seq<Message>,
                                   requests: seq<seq<Message>>, events: seq<Event>, next: seq<Round>, n': nat)
    requires Shows(earlier, played, n, shown, requests, events) && Possible(rd) && EndingOf(rd).None?
    requires next == played + [rd] && n' == n + 1
    ensures Shows(earlier, next, n', shown + Added(rd), requests + AskedIn(rd, shown), events + EventsOf(rd, n'))
    ensures !TerminatedBy(rd) && !SuspendedBy(rd)
  {
    GoesOnAsks(rd);
    InitPush(played, rd);
    RoundPush(earlier, played, rd, next);
    EventsPush(played, rd, n', next);
    Assoc(earlier, SpelledAll(TurnsOf(played)), Added(rd));
  }

  /** Turn i is that of round i, and all are closed. */
  lemma {:induction false} TurnAt(script: seq<Round>, i: nat)
    requires AllGoOn(script) && i < |script|
    ensures Plays(script[i]) && TurnsOf(script)[i] == TurnOf(script[i])
  {
    if i < |script| - 1 {
      TurnAt(Init(script), i);
    }
  }

  lemma {:induction false} TurnsClosed(script: seq<Round>)
    requires AllGoOn(script)
    ensures AllClosed(TurnsOf(script))
  {
    if script != [] {
      TurnsClosed(Init(script));
      GoesOnCloses(Last(script));
      InitPush(TurnsOf(Init(script)), TurnOf(Last(script)));
    }
  }

  /** Request i shows exactly the turns of the rounds before it. */
  lemma {:induction false} RequestAt(earlier: seq<Message>, script: seq<Round>, i: nat, before: seq<Round>)
    requires AllGoOn(script) && i < |script| && before == script[..i]
    ensures AllGoOn(before) && RequestsOf(earlier, script)[i] == earlier + SpelledAll(TurnsOf(before))
  {
    if i < |script| - 1 {
      assert Init(script)[..i] == before;
      RequestAt(earlier, Init(script), i, before);
    } else {
      assert Init(script) == before;
    }
  }

  lemma {:induction false} PlayedAnswered(played: seq<Round>)
    requires AllGoOn(played)
    ensures CallIds(SpelledAll(TurnsOf(played))) == ResultIds(SpelledAll(TurnsOf(played)))
  {
    TurnsClosed(played);
    ClosedAnswersAll(TurnsOf(played));
  }

  /** Every request sees exactly one result for every call that the prompt has added,
      in the order of the calls. */
  lemma {:induction false} RequestAnswered(earlier: seq<Message>, script: seq<Round>, i: nat)
    requires AllGoOn(script) && i < |script|
    ensures AllGoOn(script[..i])
    ensures var added := SpelledAll(TurnsOf(script[..i]));
            RequestsOf(earlier, script)[i] == earlier + added && CallIds(added) == ResultIds(added)
  {
    RequestAt(earlier, script, i, script[..i]);
    PlayedAnswered(script[..i]);
  }

  // ----- what the provider is sent ------------------------------------------

  /** The messages as the context builder sees them. */
  ghost function Entries(entry: Message -> C.Message, ms: seq<Message>): seq<C.Message> {
    if ms == [] then [] else Entries(entry, Init(ms)) + [entry(Last(ms))]
  }

  /** What C.BuildLLMContext makes of them. */
  ghost function ContextOf(ms: seq<C.Message>, summaries: seq<C.BranchSummary>): seq<C.Message> {
    C.WithoutBookkeeping(C.Context(ms, C.Chosen(C.ExchangeSort(summaries))))
  }

  /** All but the changes of the active tools. */
  function Conversation(ms: seq<Message>): seq<Message> {
    if ms == [] then [] else if Last(ms).ActiveToolsChange? then Conversation(Init(ms))
      else Conversation(Init(ms)) + [Last(ms)]
  }

  lemma {:induction false} EntriesAppend(entry: Message -> C.Message, a: seq<Message>, b: seq<Message>)
    ensures |Entries(entry, a)| == |a| && Entries(entry, a + b) == Entries(entry, a) + Entries(entry, b)
    decreases |a| + |b|
  {
    if a != [] {
      EntriesAppend(entry, Init(a), []);
    }
    if b == [] {
      Nil(a);
      Nil(Entries(entry, a));
    } else {
      InitAppend(a, b);
      EntriesAppend(entry, a, Init(b));
      Assoc(Entries(entry, a), Entries(entry, Init(b)), [entry(Last(b))]);
    }
  }

  lemma {:induction false} EntriesStripped(entry: Message -> C.Message, ms: seq<Message>)
    requires forall m :: entry(m).kind.ActiveToolsChange? <==> m.ActiveToolsChange?
    ensures C.WithoutBookkeeping(Entries(entry, ms)) == Entries(entry, Conversation(ms))
  {
    if ms != [] {
      EntriesStripped(entry, Init(ms));
      InitPush(Entries(entry, Init(ms)), entry(Last(ms)));
      Nil(Entries(entry, Conversation(Init(ms))));
      InitPush(Conversation(Init(ms)), Last(ms));
    }
  }

  lemma {:induction false} ConversationIds(ms: seq<Message>)
    ensures CallIds(Conversation(ms)) == CallIds(ms) && ResultIds(Conversation(ms)) == ResultIds(ms)
  {
    if ms != [] {
      ConversationIds(Init(ms));
      InitPush(Conversation(Init(ms)), Last(ms));
      Nil(CallIds(Init(ms)));
      Nil(ResultIds(Init(ms)));
    }
  }

  /** The summaries are of messages that were there before the prompt: so whatever they
      replace, the provider is sent everything that the prompt has added but its changes
      of the active tools, with one result for every call in order. */
  lemma {:induction false} ContextAnswered(earlier: seq<Message>, script: seq<Round>, i: nat,
                                           entry: Message -> C.Message,
                        summaries: seq<C.BranchSummary>, added: seq<Message>)
    requires AllGoOn(script) && i < |script| && AllGoOn(script[..i]) && added == SpelledAll(TurnsOf(script[..i]))
    requires forall m :: entry(m).kind.ActiveToolsChange? <==> m.ActiveToolsChange?
    requires forall k :: 0 <= k < |summaries| ==> C.InRange(summaries[k], |earlier|)
    ensures ContextOf(Entries(entry, RequestsOf(earlier, script)[i]), summaries)
      == ContextOf(Entries(entry, earlier), summaries) + Entries(entry, Conversation(added))
    ensures CallIds(Conversation(added)) == ResultIds(Conversation(added)) == CallIds(added)
  {
    RequestAnswered(earlier, script, i);
    EntriesAppend(entry, earlier, added);
    C.ContextGrows(Entries(entry, earlier), Entries(entry, added), summaries);
    EntriesStripped(entry, added);
    ConversationIds(added);
  }
}
