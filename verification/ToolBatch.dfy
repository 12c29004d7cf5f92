/** One batch of tool calls that run in parallel: what it yields whatever the order in
    which the calls complete, and which calls it leaks when a cancelled wait gives up. */
module ToolBatch {
  import opened Text
  import opened Wrappers

  datatype ToolResult = ToolResult(content: string, isError: bool, terminate: bool, suspend: bool)

  /** What executing a tool comes to. */
  datatype Exec = Returned(result: ToolResult) | Raised(text: string)

  /** A prepared call: refused at once (unknown tool, or a hook said no), or ready to
      run, with what running it and the hook after it will come to. */
  datatype Prep = Immediate(text: string) | Runnable(exec: Exec, hookError: Option<string>)

  datatype Outcome = Failed(text: string) | Ran(result: ToolResult)

  function ErrorResult(text: string): ToolResult {
    ToolResult(text, true, false, false)
  }

  function Finalize(exec: Exec, hookError: Option<string>): ToolResult {
    match hookError
    case Some(text) => ErrorResult(text)
    case None =>
      match exec
      case Returned(result) => result
      case Raised(text) => ErrorResult(text)
  }

  function OutcomeOf(p: Prep): Outcome {
    match p
    case Immediate(text) => Failed(text)
    case Runnable(exec, hookError) => Ran(Finalize(exec, hookError))
  }

  function OutcomesOf(preps: seq<Prep>): (r: seq<Outcome>)
    ensures |r| == |preps|
  {
    seq(|preps|, i requires 0 <= i < |preps| => OutcomeOf(preps[i]))
  }

  // ----- what the calls do --------------------------------------------------

  /** A running call reports progress, is marked complete, and last tells its result. */
  datatype Act = Updates(call: nat) | Completes(call: nat) | Ends(call: nat, result: ToolResult)

  ghost predicate CanAct(preps: seq<Prep>, before: seq<Act>, a: Act) {
    && a.call < |preps| && preps[a.call].Runnable?
    && match a {
         case Updates(i) => Completes(i) !in before
         case Completes(i) => Completes(i) !in before
         case Ends(i, r) => Completes(i) in before && Ends(i, r) !in before && Ran(r) == OutcomeOf(preps[i])
       }
  }

  /** What calls that run in parallel do, in the order in which it happens. */
  ghost predicate Runs(preps: seq<Prep>, acts: seq<Act>) {
    acts == [] || (Runs(preps, Init(acts)) && CanAct(preps, Init(acts), Last(acts)))
  }

  ghost predicate AllEnded(preps: seq<Prep>, acts: seq<Act>) {
    forall i :: 0 <= i < |preps| && preps[i].Runnable? ==> EndOf(preps, i) in acts
  }

  function EndOf(preps: seq<Prep>, i: nat): Act
    requires i < |preps| && preps[i].Runnable?
  {
    Ends(i, Finalize(preps[i].exec, preps[i].hookError))
  }

  /** The calls that complete, in the order in which they do. */
  function CompletedIn(acts: seq<Act>): seq<nat> {
    if acts == [] then []
    else if Last(acts).Completes? then CompletedIn(Init(acts)) + [Last(acts).call]
    else CompletedIn(Init(acts))
  }

  lemma {:induction false} CompletedAre(acts: seq<Act>, i: nat)
    ensures i in CompletedIn(acts) <==> Completes(i) in acts
  {
    if acts != [] {
      CompletedAre(Init(acts), i);
      assert acts == Init(acts) + [Last(acts)];
    }
  }

  /** What runs, runs up to any point. */
  lemma {:induction false} RunsTo(preps: seq<Prep>, acts: seq<Act>, more: seq<Act>)
    requires Runs(preps, acts + more)
    ensures Runs(preps, acts)
  {
    if more == [] {
      Nil(acts);
    } else {
      InitAppend(acts, more);
      RunsTo(preps, acts, Init(more));
    }
  }

  lemma {:induction false} EndedCompleted(preps: seq<Prep>, acts: seq<Act>, e: Act)
    requires Runs(preps, acts) && e in acts && e.Ends?
    ensures e.call < |preps| && preps[e.call].Runnable? && Completes(e.call) in acts && e == EndOf(preps, e.call)
  {
    assert acts == Init(acts) + [Last(acts)];
    if e in Init(acts) {
      EndedCompleted(preps, Init(acts), e);
    }
  }

  /** Once all calls have ended, nothing more can happen. */
  lemma {:induction false} NothingAfterEnds(preps: seq<Prep>, acts: seq<Act>, more: seq<Act>)
    requires Runs(preps, acts + more) && AllEnded(preps, acts)
    ensures more == []
  {
    if more != [] {
      InitAppend(acts, more);
      NothingAfterEnds(preps, acts, Init(more));
      Nil(acts);
      RunsTo(preps, acts, []);
      EndedCompleted(preps, acts, EndOf(preps, Last(more).call));
      assert false;
    }
  }

  /** Of the first n calls, those that can run and have not completed. */
  function Missing(preps: seq<Prep>, order: seq<nat>, n: nat): seq<nat>
    requires n <= |preps|
  {
    if n == 0 then []
    else Missing(preps, order, n - 1) + if preps[n - 1].Runnable? && n - 1 !in order then [n - 1] else []
  }

  /** They are just those calls, in source order. */
  lemma {:induction false} MissingAre(preps: seq<Prep>, order: seq<nat>, n: nat)
    requires n <= |preps|
    ensures forall i :: i in Missing(preps, order, n) <==> 0 <= i < n && preps[i].Runnable? && i !in order
    ensures forall k, l :: 0 <= k < l < |Missing(preps, order, n)| ==>
              Missing(preps, order, n)[k] < Missing(preps, order, n)[l]
  {
    if n > 0 {
      MissingAre(preps, order, n - 1);
      var before := Missing(preps, order, n - 1);
      assert forall k :: 0 <= k < |before| ==> before[k] in before;
    }
  }

  class Batch {
    const preps: seq<Prep>
    const completed: array<bool>
    const results: array<Outcome>

    /** The state once the calls in `order` have completed. */
    ghost predicate After(order: seq<nat>)
      reads completed, results
    {
      && completed.Length == |preps| && results.Length == |preps|
      && (forall i :: 0 <= i < |preps| ==> (completed[i] <==> i in order))
      && (forall i :: 0 <= i < |preps| && (preps[i].Immediate? || i in order) ==> results[i] == OutcomeOf(preps[i]))
    }

    constructor (preps: seq<Prep>)
      ensures this.preps == preps && After([]) && fresh(completed) && fresh(results)
    {
      this.preps := preps;
      completed := new bool[|preps|](_ => false);
      results := new Outcome[|preps|](i requires 0 <= i < |preps| =>
                                        if preps[i].Immediate? then Failed(preps[i].text)
                                          else Ran(ToolResult("", false, false, false)));
    }

    /** One call's goroutine finishes. */
    method Complete(i: nat, ghost order: seq<nat>)
      requires After(order) && i < |preps| && preps[i].Runnable? && i !in order
      modifies completed, results
      ensures After(order + [i])
    {
      results[i] := Ran(Finalize(preps[i].exec, preps[i].hookError));
      completed[i] := true;
    }

    /** The calls that have not finished, in source order. */
    method Leaked(ghost order: seq<nat>) returns (leaked: seq<nat>)
      requires After(order)
      ensures leaked == Missing(preps, order, |preps|)
    {
      leaked := [];
      for i := 0 to |preps|
        invariant leaked == Missing(preps, order, i)
      {
        if preps[i].Immediate? || completed[i] {
          Nil(leaked);
          continue;
        }
        leaked := leaked + [i];
      }
    }
  }

  datatype BatchEnd = Finished(results: seq<Outcome>) | Abandoned(leaked: seq<nat>)

  /** The wait ends when all calls have ended, or gives up after a cancellation; then
      what has not completed has leaked. */
  method AwaitToolBatch(preps: seq<Prep>, acts: seq<Act>, gaveUp: bool) returns (r: BatchEnd)
    requires Runs(preps, acts) && (!gaveUp ==> AllEnded(preps, acts))
    ensures !gaveUp ==> r == Finished(OutcomesOf(preps))
    ensures gaveUp ==> r == Abandoned(Missing(preps, CompletedIn(acts), |preps|))
  {
    var b := new Batch(preps);
    for k := 0 to |acts|
      invariant b.After(CompletedIn(acts[..k])) && fresh(b.completed) && fresh(b.results) && b.preps == preps
    {
      SliceTo(acts, 0, k);
      InitPush(acts[..k], acts[k]);
      assert acts == acts[..k + 1] + acts[k + 1..];
      RunsTo(preps, acts[..k + 1], acts[k + 1..]);
      if acts[k].Completes? {
        CompletedAre(acts[..k], acts[k].call);
        b.Complete(acts[k].call, CompletedIn(acts[..k]));
      }
    }
    assert acts[..|acts|] == acts;
    if gaveUp {
      var leaked := b.Leaked(CompletedIn(acts));
      r := Abandoned(leaked);
    } else {
      forall i | 0 <= i < |preps| && preps[i].Runnable? ensures i in CompletedIn(acts) {
        EndedCompleted(preps, acts, EndOf(preps, i));
        CompletedAre(acts, i);
      }
      assert b.results[..] == OutcomesOf(preps);
      r := Finished(b.results[..]);
    }
  }

  // ----- what a finished batch persists -------------------------------------

  datatype Reply = Reply(callID: string, content: string, isError: bool)

  predicate Terminates(o: Outcome) {
    o.Ran? && o.result.terminate
  }

  predicate Suspends(o: Outcome) {
    o.Ran? && o.result.suspend
  }

  function ReplyOf(callID: string, o: Outcome): Reply {
    match o
    case Failed(text) => Reply(callID, text, true)
    case Ran(result) => Reply(callID, result.content, result.isError)
  }

  /** One reply a call, in source order, but none to a call that suspends. */
  function Replies(calls: seq<string>, results: seq<Outcome>): seq<Reply>
    requires |calls| == |results|
  {
    if calls == [] then []
    else Replies(Init(calls), Init(results)) + if Suspends(Last(results)) then []
         else [ReplyOf(Last(calls), Last(results))]
  }

  ghost predicate AllTerminate(results: seq<Outcome>) {
    results != [] && forall i :: 0 <= i < |results| ==> Terminates(results[i])
  }

  ghost predicate AnySuspends(results: seq<Outcome>) {
    exists i :: 0 <= i < |results| && Suspends(results[i])
  }

  function Ids(rs: seq<Reply>): seq<string> {
    if rs == [] then [] else Ids(Init(rs)) + [Last(rs).callID]
  }

  lemma {:induction false} RepliesCount(calls: seq<string>, results: seq<Outcome>)
    requires |calls| == |results|
    ensures |Replies(calls, results)| <= |calls| && |Ids(Replies(calls, results))| == |Replies(calls, results)|
    ensures AnySuspends(results) ==> |Replies(calls, results)| < |calls|
  {
    if calls != [] {
      RepliesCount(Init(calls), Init(results));
      IdsCount(Replies(calls, results));
      if AnySuspends(results) && !Suspends(Last(results)) {
        var i :| 0 <= i < |results| && Suspends(results[i]);
        assert Suspends(Init(results)[i]);
      }
    }
  }

  lemma {:induction false} IdsCount(rs: seq<Reply>)
    ensures |Ids(rs)| == |rs|
  {
    if rs != [] {
      IdsCount(Init(rs));
    }
  }

  /** Every call is answered, in order, exactly if none suspends. */
  lemma {:induction false} AllAnswered(calls: seq<string>, results: seq<Outcome>)
    requires |calls| == |results|
    ensures Ids(Replies(calls, results)) == calls <==> !AnySuspends(results)
  {
    RepliesCount(calls, results);
    if calls != [] && !AnySuspends(results) {
      assert !Suspends(Last(results));
      assert forall i :: 0 <= i < |Init(results)| ==> results[i] == Init(results)[i];
      AllAnswered(Init(calls), Init(results));
      InitPush(Replies(Init(calls), Init(results)), ReplyOf(Last(calls), Last(results)));
      InitLast(calls);
    }
  }

  datatype ToolPhase = ToolPhase(terminated: bool, suspended: bool, replies: seq<Reply>)

  /** If all calls ask to terminate, nothing is persisted. */
  method Conclude(calls: seq<string>, results: seq<Outcome>) returns (t: ToolPhase)
    requires |calls| == |results|
    ensures t.terminated <==> AllTerminate(results)
    ensures t.terminated ==> t.replies == [] && !t.suspended
    ensures !t.terminated ==> t.replies == Replies(calls, results) && (t.suspended <==> AnySuspends(results))
  {
    if |results| > 0 {
      var allTerminate := true;
      for i := 0 to |results|
        invariant allTerminate && forall j :: 0 <= j < i ==> Terminates(results[j])
      {
        if !Terminates(results[i]) {
          allTerminate := false;
          break;
        }
      }
      if allTerminate {
        return ToolPhase(true, false, []);
      }
    }
    var suspended, replies := false, [];
    for i := 0 to |results|
      invariant replies == Replies(calls[..i], results[..i])
      invariant suspended <==> exists j :: 0 <= j < i && Suspends(results[j])
    {
      SliceTo(calls, 0, i);
      SliceTo(results, 0, i);
      InitPush(calls[..i], calls[i]);
      InitPush(results[..i], results[i]);
      if Suspends(results[i]) {
        suspended := true;
      } else {
        replies := replies + [ReplyOf(calls[i], results[i])];
      }
    }
    assert calls[..|calls|] == calls && results[..|results|] == results;
    t := ToolPhase(false, suspended, replies);
  }
}
