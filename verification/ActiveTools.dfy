/** Changes of the active tools while prompts start, run and end: every interleaving
    of setters, flushes at the end of turns, drains at the end of prompts, and
    starts. */
module ActiveTools {
  import opened Text

  /** A flush has taken the queue and appends its entries one by one. */
  datatype Flush<T> = Flush(prompt: nat, rest: seq<T>)

  /** What the agent and its session hold, and what is under way. `accepted` is every
      change accepted on a bound session, and `queued` those that went to the queue,
      in that order; `flushed` is what flushes appended. */
  datatype Agent<T> = Agent(
    bound: bool, running: int, pending: seq<T>, log: multiset<T>,
    starting: set<nat>, looping: set<nat>, ending: set<nat>, nextPrompt: nat,
    flushes: seq<Flush<T>>, direct: multiset<T>, lost: multiset<T>,
    accepted: multiset<T>, queued: seq<T>, flushed: seq<T>, startsFailed: nat)

  datatype Step<T> =
    | Start
    | StartFails(prompt: nat)
    | Launch(prompt: nat)
    | TakeAtTurnEnd(prompt: nat)
    | ClearFlag(prompt: nat)
    | TakeAtExit(prompt: nat)
    | Append(flush: nat)
    | AppendFails(flush: nat)
    | FlushDone(flush: nat)
    | Set(change: T)
    | AppendDirect(change: T)
    | DirectFails(change: T)

  function Fresh<T>(): Agent<T> {
    Agent(false, 0, [], multiset{}, {}, {}, {}, 0, [], multiset{}, multiset{}, multiset{}, [], [], 0)
  }

  predicate Flushing<T>(a: Agent<T>, prompt: nat) {
    exists k :: 0 <= k < |a.flushes| && a.flushes[k].prompt == prompt
  }

  /** Which steps a state admits. A start that finds the slot taken changes nothing. */
  predicate Enabled<T(==)>(a: Agent<T>, s: Step<T>) {
    match s
    case Start => a.running == 0
    case StartFails(p) => p in a.starting
    case Launch(p) => p in a.starting
    case TakeAtTurnEnd(p) => p in a.looping && !Flushing(a, p)
    case ClearFlag(p) => p in a.looping && !Flushing(a, p)
    case TakeAtExit(p) => p in a.ending
    case Append(k) => k < |a.flushes| && a.flushes[k].rest != []
    case AppendFails(k) => k < |a.flushes| && a.flushes[k].rest != []
    case FlushDone(k) => k < |a.flushes| && a.flushes[k].rest == []
    case Set(_) => true
    case AppendDirect(c) => c in a.direct
    case DirectFails(c) => c in a.direct
  }

  function Without<T>(fs: seq<Flush<T>>, k: nat): seq<Flush<T>>
    requires k < |fs|
  {
    fs[..k] + fs[k + 1..]
  }

  function TakeQueue<T>(a: Agent<T>, prompt: nat): Agent<T> {
    a.(flushes := a.flushes + [Flush(prompt, a.pending)], pending := [])
  }

  /** A setter decides under the lock: queue the change while a prompt runs, or append
      it; before a session is bound, neither. */
  function SetActiveTools<T>(a: Agent<T>, c: T): Agent<T> {
    if !a.bound then a
    else if a.running != 0 then a.(pending := a.pending + [c], queued := a.queued + [c],
                                   accepted := a.accepted + multiset{c})
    else a.(direct := a.direct + multiset{c}, accepted := a.accepted + multiset{c})
  }

  function Do<T>(a: Agent<T>, s: Step<T>): Agent<T>
    requires Enabled(a, s)
  {
    match s
    case Start => a.(running := 1, starting := a.starting + {a.nextPrompt}, nextPrompt := a.nextPrompt + 1)
    case StartFails(p) => a.(running := 0, starting := a.starting - {p}, startsFailed := a.startsFailed + 1)
    case Launch(p) => a.(bound := true, starting := a.starting - {p}, looping := a.looping + {p})
    case TakeAtTurnEnd(p) => TakeQueue(a, p)
    case ClearFlag(p) => a.(running := a.running - 1, looping := a.looping - {p}, ending := a.ending + {p})
    case TakeAtExit(p) => TakeQueue(a.(ending := a.ending - {p}), p)
    case Append(k) =>
      var f := a.flushes[k];
      a.(flushes := a.flushes[k := f.(rest := f.rest[1..])], log := a.log + multiset{f.rest[0]},
         flushed := a.flushed + [f.rest[0]])
    case AppendFails(k) => a.(flushes := Without(a.flushes, k), lost := a.lost + multiset(a.flushes[k].rest))
    case FlushDone(k) => a.(flushes := Without(a.flushes, k))
    case Set(c) => SetActiveTools(a, c)
    case AppendDirect(c) => a.(direct := a.direct - multiset{c}, log := a.log + multiset{c})
    case DirectFails(c) => a.(direct := a.direct - multiset{c}, lost := a.lost + multiset{c})
  }

  /** The steps can be taken one after the other from a fresh agent. */
  ghost predicate IsRun<T>(steps: seq<Step<T>>)
    decreases |steps|, 0
  {
    steps == [] || (IsRun(Init(steps)) && Enabled(After(Init(steps)), Last(steps)))
  }

  ghost function After<T>(steps: seq<Step<T>>): Agent<T>
    requires IsRun(steps)
    decreases |steps|, 1
  {
    if steps == [] then Fresh() else Do(After(Init(steps)), Last(steps))
  }

  // ----- the running flag ---------------------------------------------------

  /** The flag counts the holders of the one slot. */
  ghost predicate OneRunner<T>(a: Agent<T>) {
    && a.running == |a.starting| + |a.looping| && a.running <= 1 && a.starting !! a.looping
    && forall p :: p in a.starting + a.looping ==> p < a.nextPrompt
  }

  lemma Singleton(s: set<nat>, p: nat)
    requires |s| == 1 && p in s
    ensures s == {p}
  {
    assert |s - {p}| == 0;
  }

  lemma OneRunnerKept<T>(a: Agent<T>, s: Step<T>)
    requires OneRunner(a) && Enabled(a, s)
    ensures OneRunner(Do(a, s))
  {
    match s
    case StartFails(p) => assert |a.starting| >= 1; Singleton(a.starting, p);
    case Launch(p) => assert |a.starting| >= 1; Singleton(a.starting, p);
    case ClearFlag(p) => assert |a.looping| >= 1; Singleton(a.looping, p);
    case _ =>
  }

  lemma {:induction false} RunningIsHolders<T>(steps: seq<Step<T>>)
    requires IsRun(steps)
    ensures OneRunner(After(steps))
  {
    if steps != [] {
      RunningIsHolders(Init(steps));
      OneRunnerKept(After(Init(steps)), Last(steps));
    }
  }

  // ----- conservation -------------------------------------------------------

  ghost function InFlight<T>(fs: seq<Flush<T>>): multiset<T> {
    if fs == [] then multiset{} else InFlight(Init(fs)) + multiset(Last(fs).rest)
  }

  /** Every accepted change is in exactly one place. */
  ghost predicate Conserved<T>(a: Agent<T>) {
    a.accepted == multiset(a.pending) + InFlight(a.flushes) + a.direct + a.log + a.lost
  }

  lemma {:induction false} InFlightAppend<T>(fs: seq<Flush<T>>, gs: seq<Flush<T>>)
    ensures InFlight(fs + gs) == InFlight(fs) + InFlight(gs)
  {
    if gs == [] {
      Nil(fs);
    } else {
      InitAppend(fs, gs);
      InFlightAppend(fs, Init(gs));
    }
  }

  lemma InFlightOne<T>(f: Flush<T>)
    ensures InFlight([f]) == multiset(f.rest)
  {
    assert Init([f]) == [] && Last([f]) == f;
  }

  lemma InFlightAt<T>(fs: seq<Flush<T>>, k: nat, f: Flush<T>)
    requires k < |fs|
    ensures InFlight(fs) == InFlight(Without(fs, k)) + multiset(fs[k].rest)
    ensures InFlight(fs[k := f]) == InFlight(Without(fs, k)) + multiset(f.rest)
  {
    var a, b := fs[..k], fs[k + 1..];
    assert fs == a + ([fs[k]] + b) && fs[k := f] == a + ([f] + b);
    InFlightAppend(a, [fs[k]] + b);
    InFlightAppend([fs[k]], b);
    InFlightAppend(a, [f] + b);
    InFlightAppend([f], b);
    InFlightAppend(a, b);
    InFlightOne(fs[k]);
    InFlightOne(f);
  }

  lemma FirstOf<T>(s: seq<T>)
    requires s != []
    ensures multiset(s) == multiset{s[0]} + multiset(s[1..]) && s == [s[0]] + s[1..]
  {
    assert s == [s[0]] + s[1..];
  }

  lemma TakeKeeps<T>(a: Agent<T>, p: nat)
    requires Conserved(a)
    ensures Conserved(TakeQueue(a, p))
  {
    var f := Flush(p, a.pending);
    InFlightAppend(a.flushes, [f]);
    InFlightOne(f);
    assert multiset(TakeQueue(a, p).pending) == multiset{};
  }

  lemma AppendKeeps<T>(a: Agent<T>, k: nat)
    requires Conserved(a) && Enabled(a, Append(k))
    ensures Conserved(Do(a, Append(k)))
  {
    var f := a.flushes[k];
    InFlightAt(a.flushes, k, f.(rest := f.rest[1..]));
    FirstOf(f.rest);
  }

  lemma DropKeeps<T>(a: Agent<T>, k: nat, lost: multiset<T>)
    requires Conserved(a) && k < |a.flushes| && lost == multiset(a.flushes[k].rest)
    ensures Conserved(a.(flushes := Without(a.flushes, k), lost := a.lost + lost))
  {
    InFlightAt(a.flushes, k, a.flushes[k]);
  }

  lemma SetKeeps<T>(a: Agent<T>, c: T)
    requires Conserved(a)
    ensures Conserved(SetActiveTools(a, c))
  {
  }

  lemma DirectKeeps<T>(a: Agent<T>, s: Step<T>)
    requires Conserved(a) && Enabled(a, s) && (s.AppendDirect? || s.DirectFails?)
    ensures Conserved(Do(a, s))
  {
    assert a.direct == a.direct - multiset{s.change} + multiset{s.change};
  }

  lemma ConservedKept<T>(a: Agent<T>, s: Step<T>)
    requires Conserved(a) && Enabled(a, s)
    ensures Conserved(Do(a, s))
  {
    match s
    case Start => {}
    case StartFails(_) => {}
    case Launch(_) => {}
    case ClearFlag(_) => {}
    case TakeAtTurnEnd(p) => TakeKeeps(a, p);
    case TakeAtExit(p) => TakeKeeps(a.(ending := a.ending - {p}), p);
    case Append(k) => AppendKeeps(a, k);
    case AppendFails(k) => DropKeeps(a, k, multiset(a.flushes[k].rest));
    case FlushDone(k) => DropKeeps(a, k, multiset{});
    case Set(c) => SetKeeps(a, c);
    case AppendDirect(_) => DirectKeeps(a, s);
    case DirectFails(_) => DirectKeeps(a, s);
  }

  /** In every interleaving, each accepted change is appended exactly once, still
      queued, on its way, or lost to a failed append. */
  lemma {:induction false} ChangesConserved<T>(steps: seq<Step<T>>)
    requires IsRun(steps)
    ensures Conserved(After(steps))
  {
    if steps != [] {
      ChangesConserved(Init(steps));
      ConservedKept(After(Init(steps)), Last(steps));
    }
  }

  // ----- what is left in the queue ------------------------------------------

  predicate Takes<T>(s: Step<T>) {
    s.TakeAtTurnEnd? || s.TakeAtExit?
  }

  /** A change was queued while prompt p was starting, and nothing has been taken from
      the queue since. */
  ghost predicate QueuedInStart<T>(steps: seq<Step<T>>, p: nat)
    requires IsRun(steps)
  {
    steps != [] && !Takes(Last(steps)) &&
    var a := After(Init(steps));
    (QueuedInStart(Init(steps), p) || (Last(steps).Set? && a.bound && p in a.starting))
  }

  /** ... and then that start failed, and still nothing has been taken. */
  ghost predicate StrandedBy<T>(steps: seq<Step<T>>, p: nat)
    requires IsRun(steps)
  {
    steps != [] && !Takes(Last(steps)) &&
    (StrandedBy(Init(steps), p) || (Last(steps) == StartFails(p) && QueuedInStart(Init(steps), p)))
  }

  ghost predicate Idle<T>(a: Agent<T>) {
    a.starting == {} && a.looping == {} && a.ending == {}
  }

  lemma {:induction false} StillQueued<T>(steps: seq<Step<T>>, p: nat)
    requires IsRun(steps) && (QueuedInStart(steps, p) || StrandedBy(steps, p))
    ensures After(steps).pending != []
  {
    var a := After(Init(steps));
    RunningIsHolders(Init(steps));
    if QueuedInStart(Init(steps), p) || StrandedBy(Init(steps), p) {
      StillQueued(Init(steps), p);
    } else {
      assert |a.starting| >= 1;
    }
  }

  /** Whatever is queued has a prompt that will take it, or a start to blame. */
  ghost predicate Accounted<T>(steps: seq<Step<T>>, p: nat)
    requires IsRun(steps)
  {
    var a := After(steps);
    a.pending == [] || a.looping != {} || a.ending != {} || (p in a.starting && QueuedInStart(steps, p))
      || StrandedBy(steps, p)
  }

  lemma {:induction false} AlwaysAccounted<T>(steps: seq<Step<T>>) returns (p: nat)
    requires IsRun(steps)
    ensures Accounted(steps, p)
  {
    p := 0;
    if steps != [] {
      p := AlwaysAccounted(Init(steps));
      RunningIsHolders(Init(steps));
      p := StepAccounted(steps, p);
    }
  }

  lemma StepAccounted<T>(steps: seq<Step<T>>, p: nat) returns (q: nat)
    requires IsRun(steps) && steps != [] && Accounted(Init(steps), p) && OneRunner(After(Init(steps)))
    ensures Accounted(steps, q)
  {
    q := p;
    var a := After(Init(steps));
    match Last(steps)
    case Launch(l) => assert l in After(steps).looping;
    case ClearFlag(l) => assert l in After(steps).ending;
    case StartFails(l) => assert |a.starting| >= 1; Singleton(a.starting, l);
    case Set(_) =>
      if a.bound && a.running != 0 && a.looping == {} {
        assert a.starting != {};
        q :| q in a.starting;
      }
    case _ =>
  }

  /** When no prompt is about, a change is left in the queue exactly if it was queued
      during a start that then failed, and no flush or drain came after it. */
  lemma {:induction false} StrandedExactly<T>(steps: seq<Step<T>>)
    requires IsRun(steps) && Idle(After(steps))
    ensures After(steps).pending != [] <==> exists p: nat :: StrandedBy(steps, p)
  {
    var q := AlwaysAccounted(steps);
    if After(steps).pending != [] {
      assert StrandedBy(steps, q);
    }
    if p: nat :| StrandedBy(steps, p) {
      StillQueued(steps, p);
    }
  }

  // ----- order --------------------------------------------------------------

  /** What the flushes still have, first taken first. */
  ghost function Rests<T>(fs: seq<Flush<T>>): seq<T> {
    if fs == [] then [] else Rests(Init(fs)) + Last(fs).rest
  }

  /** Queued changes that are not appended yet, in the order of the queue. */
  ghost function Waiting<T>(a: Agent<T>): seq<T> {
    Rests(a.flushes) + a.pending
  }

  /** The step appends an entry of one flush while one taken before has some left. */
  ghost predicate Overtakes<T>(a: Agent<T>, s: Step<T>) {
    s.Append? && s.flush <= |a.flushes| && Rests(a.flushes[..s.flush]) != []
  }

  ghost predicate EverOvertakes<T>(steps: seq<Step<T>>)
    requires IsRun(steps)
  {
    steps != [] && (EverOvertakes(Init(steps)) || Overtakes(After(Init(steps)), Last(steps)))
  }

  ghost predicate NoAppendFails<T>(steps: seq<Step<T>>) {
    steps == [] || (NoAppendFails(Init(steps)) && !Last(steps).AppendFails?)
  }

  ghost predicate InOrder<T>(a: Agent<T>) {
    a.queued == a.flushed + Waiting(a)
  }

  /** Some appended change is not the one that was queued in its place. */
  ghost predicate OutOfOrder<T>(a: Agent<T>) {
    exists m :: 0 <= m < |a.flushed| && m < |a.queued| && a.flushed[m] != a.queued[m]
  }

  lemma {:induction false} RestsAppend<T>(fs: seq<Flush<T>>, gs: seq<Flush<T>>)
    ensures Rests(fs + gs) == Rests(fs) + Rests(gs)
  {
    if gs == [] {
      Nil(fs);
      Nil(Rests(fs));
    } else {
      InitAppend(fs, gs);
      RestsAppend(fs, Init(gs));
      Assoc(Rests(fs), Rests(Init(gs)), Last(gs).rest);
    }
  }

  lemma RestsOne<T>(f: Flush<T>)
    ensures Rests([f]) == f.rest
  {
    assert Init([f]) == [] && Last([f]) == f;
    Nil(f.rest);
  }

  /** What waits before, in and after flush k; `rest` may take the place of its own. */
  lemma RestsAt<T>(fs: seq<Flush<T>>, k: nat, f: Flush<T>)
    requires k < |fs|
    ensures Rests(fs) == Rests(fs[..k]) + fs[k].rest + Rests(fs[k + 1..])
    ensures Rests(fs[k := f]) == Rests(fs[..k]) + f.rest + Rests(fs[k + 1..])
    ensures Rests(Without(fs, k)) == Rests(fs[..k]) + Rests(fs[k + 1..])
  {
    var a, b := fs[..k], fs[k + 1..];
    assert fs == (a + [fs[k]]) + b && fs[k := f] == (a + [f]) + b;
    RestsAppend(a + [fs[k]], b);
    RestsAppend(a, [fs[k]]);
    RestsAppend(a + [f], b);
    RestsAppend(a, [f]);
    RestsAppend(a, b);
    RestsOne(fs[k]);
    RestsOne(f);
  }

  lemma TakeInOrder<T>(a: Agent<T>, p: nat)
    requires InOrder(a)
    ensures InOrder(TakeQueue(a, p))
  {
    var f := Flush(p, a.pending);
    RestsAppend(a.flushes, [f]);
    RestsOne(f);
    Nil(Rests(a.flushes) + a.pending);
  }

  /** The next of flush k is appended: first of those that wait, or behind others. */
  lemma AppendAt<T>(flushed: seq<T>, before: seq<T>, rest: seq<T>, after: seq<T>, pending: seq<T>, c: T)
    requires rest != [] && c == rest[0]
    ensures before == [] ==>
              flushed + (before + rest + after + pending) == (flushed + [c]) + (before + rest[1..] + after + pending)
    ensures var q := flushed + (before + rest + after + pending);
            q[|flushed| + |before|] == c && (before != [] ==> q[|flushed|] == before[0])
  {
    assert rest == [c] + rest[1..];
  }

  lemma AppendInOrder<T>(a: Agent<T>, k: nat)
    requires InOrder(a) && Enabled(a, Append(k)) && Rests(a.flushes[..k]) == []
    ensures InOrder(Do(a, Append(k)))
  {
    var f := a.flushes[k];
    RestsAt(a.flushes, k, f.(rest := f.rest[1..]));
    AppendAt(a.flushed, Rests(a.flushes[..k]), f.rest, Rests(a.flushes[k + 1..]), a.pending, f.rest[0]);
  }

  lemma DoneInOrder<T>(a: Agent<T>, k: nat)
    requires InOrder(a) && Enabled(a, FlushDone(k))
    ensures InOrder(Do(a, FlushDone(k)))
  {
    RestsAt(a.flushes, k, a.flushes[k]);
    Nil(Rests(a.flushes[..k]));
  }

  lemma SetInOrder<T>(a: Agent<T>, c: T)
    requires InOrder(a)
    ensures InOrder(SetActiveTools(a, c))
  {
    Assoc(Rests(a.flushes), a.pending, [c]);
    Assoc(a.flushed, Waiting(a), [c]);
  }

  lemma OrderKept<T>(a: Agent<T>, s: Step<T>)
    requires InOrder(a) && Enabled(a, s) && !Overtakes(a, s) && !s.AppendFails?
    ensures InOrder(Do(a, s))
  {
    match s
    case Start => {}
    case StartFails(_) => {}
    case Launch(_) => {}
    case ClearFlag(_) => {}
    case TakeAtTurnEnd(p) => TakeInOrder(a, p);
    case TakeAtExit(p) => TakeInOrder(a.(ending := a.ending - {p}), p);
    case Append(k) => AppendInOrder(a, k);
    case FlushDone(k) => DoneInOrder(a, k);
    case Set(c) => SetInOrder(a, c);
    case AppendDirect(_) => {}
    case DirectFails(c) => {}
  }

  /** As long as no append overtakes, and none fails, queued changes are appended in the
      order in which they were queued. */
  lemma {:induction false} QueueOrder<T>(steps: seq<Step<T>>)
    requires IsRun(steps) && NoAppendFails(steps) && !EverOvertakes(steps)
    ensures InOrder(After(steps))
  {
    if steps != [] {
      QueueOrder(Init(steps));
      OrderKept(After(Init(steps)), Last(steps));
    }
  }

  ghost predicate Distinct<T>(s: seq<T>) {
    forall i, j :: 0 <= i < j < |s| ==> s[i] != s[j]
  }

  lemma OvertakingBreaks<T>(a: Agent<T>, s: Step<T>)
    requires InOrder(a) && Enabled(a, s) && Overtakes(a, s) && Distinct(a.queued)
    ensures OutOfOrder(Do(a, s))
  {
    var k, f := s.flush, a.flushes[s.flush];
    var before := Rests(a.flushes[..k]);
    RestsAt(a.flushes, k, f);
    AppendAt(a.flushed, before, f.rest, Rests(a.flushes[k + 1..]), a.pending, f.rest[0]);
    assert a.queued[|a.flushed|] != a.queued[|a.flushed| + |before|];
    assert Do(a, s).flushed[|a.flushed|] == f.rest[0];
  }

  /** Queue and flushed changes only grow. */
  lemma Grows<T>(a: Agent<T>, s: Step<T>)
    requires Enabled(a, s)
    ensures a.queued <= Do(a, s).queued && a.flushed <= Do(a, s).flushed
  {
  }

  lemma StaysOutOfOrder<T>(a: Agent<T>, s: Step<T>)
    requires OutOfOrder(a) && Enabled(a, s)
    ensures OutOfOrder(Do(a, s))
  {
    Grows(a, s);
    var m :| 0 <= m < |a.flushed| && m < |a.queued| && a.flushed[m] != a.queued[m];
    assert Do(a, s).flushed[m] != Do(a, s).queued[m];
  }

  lemma {:induction false} OvertakenOutOfOrder<T>(steps: seq<Step<T>>)
    requires IsRun(steps) && NoAppendFails(steps) && EverOvertakes(steps) && Distinct(After(steps).queued)
    ensures OutOfOrder(After(steps))
  {
    var a, s := After(Init(steps)), Last(steps);
    Grows(a, s);
    if EverOvertakes(Init(steps)) {
      OvertakenOutOfOrder(Init(steps));
      StaysOutOfOrder(a, s);
    } else {
      QueueOrder(Init(steps));
      OvertakingBreaks(a, s);
    }
  }

  /** If appends succeed, the changes are appended in queue order exactly if no append
      overtook another flush. */
  lemma {:induction false} OrderExactly<T>(steps: seq<Step<T>>)
    requires IsRun(steps) && NoAppendFails(steps) && Distinct(After(steps).queued)
    ensures After(steps).flushed <= After(steps).queued <==> !EverOvertakes(steps)
  {
    if EverOvertakes(steps) {
      OvertakenOutOfOrder(steps);
    } else {
      QueueOrder(steps);
    }
  }

  /** The caller starts a prompt only when the one before is done with its drain. */
  ghost predicate StartsApart<T>(steps: seq<Step<T>>)
    requires IsRun(steps)
  {
    steps == [] ||
    (StartsApart(Init(steps)) && (Last(steps).Start? ==>
                                  After(Init(steps)).ending == {} && After(Init(steps)).flushes == []))
  }

  /** Only one prompt is about, and it does one flush at a time. */
  ghost predicate Solo<T>(a: Agent<T>) {
    && |a.flushes| <= 1 && (a.ending != {} ==>
                            a.starting == {} && a.looping == {} && a.flushes == [] && |a.ending| == 1)
    && (a.flushes != [] ==> a.starting == {} && a.looping <= {a.flushes[0].prompt})
  }

  lemma SoloKept<T>(a: Agent<T>, s: Step<T>)
    requires Solo(a) && OneRunner(a) && Enabled(a, s) && (s.Start? ==> a.ending == {} && a.flushes == [])
    ensures Solo(Do(a, s))
  {
    match s
    case TakeAtTurnEnd(p) => LoopsAlone(a, p);
    case ClearFlag(p) => LoopsAlone(a, p);
    case TakeAtExit(p) => Singleton(a.ending, p);
    case StartFails(p) => assert a.ending == {};
    case Launch(p) => assert a.ending == {};
    case _ =>
  }

  lemma LoopsAlone<T>(a: Agent<T>, p: nat)
    requires Solo(a) && OneRunner(a) && p in a.looping && !Flushing(a, p)
    ensures a.flushes == [] && a.ending == {} && a.looping == {p} && a.starting == {}
  {
    assert |a.looping| >= 1;
    Singleton(a.looping, p);
  }

  lemma {:induction false} ApartIsSolo<T>(steps: seq<Step<T>>)
    requires IsRun(steps) && StartsApart(steps)
    ensures Solo(After(steps)) && !EverOvertakes(steps)
  {
    if steps != [] {
      ApartIsSolo(Init(steps));
      RunningIsHolders(Init(steps));
      SoloKept(After(Init(steps)), Last(steps));
    }
  }

  /** A caller that waits for each prompt to be done has its changes in order. */
  lemma {:induction false} ApartInOrder<T>(steps: seq<Step<T>>)
    requires IsRun(steps) && StartsApart(steps) && NoAppendFails(steps)
    ensures InOrder(After(steps))
  {
    ApartIsSolo(steps);
    QueueOrder(steps);
  }

  // ----- what does not hold -------------------------------------------------

  lemma Then<T>(steps: seq<Step<T>>, s: Step<T>) returns (more: seq<Step<T>>)
    requires IsRun(steps) && Enabled(After(steps), s)
    ensures more == steps + [s] && IsRun(more) && After(more) == Do(After(steps), s)
  {
    more := steps + [s];
    InitPush(steps, s);
  }

  lemma DrainUnderWay() returns (steps: seq<Step<int>>)
    ensures IsRun(steps)
    ensures var a := After(steps);
            && a.bound && a.running == 0 && a.nextPrompt == 1 && a.looping == {} && a.pending == []
            && |a.flushes| == 1 && a.flushes[0] == Flush(0, [1]) && a.queued == [1] && a.flushed == []
  {
    steps := [];
    steps := Then(steps, Start);
    steps := Then(steps, Launch(0));
    steps := Then(steps, Set(1));
    steps := Then(steps, ClearFlag(0));
    steps := Then(steps, TakeAtExit(0));
  }

  lemma SecondChange() returns (steps: seq<Step<int>>)
    ensures IsRun(steps)
    ensures var a := After(steps);
            && a.looping == {1} && a.pending == [2] && |a.flushes| == 1 && a.flushes[0] == Flush(0, [1])
            && a.queued == [1, 2] && a.flushed == []
  {
    steps := DrainUnderWay();
    steps := Then(steps, Start);
    steps := Then(steps, Launch(1));
    steps := Then(steps, Set(2));
  }

  lemma TwoFlushes() returns (steps: seq<Step<int>>)
    ensures IsRun(steps)
    ensures var a := After(steps);
            && |a.flushes| == 2 && a.flushes[0].rest == [1] && a.flushes[1].rest == [2]
            && a.queued == [1, 2] && a.flushed == []
  {
    steps := SecondChange();
    steps := Then(steps, TakeAtTurnEnd(1));
  }

  /** The drain at the end of one prompt may overlap a flush of the next, and then the
      later change is appended first. */
  lemma OverlapReorders() returns (steps: seq<Step<int>>)
    ensures IsRun(steps) && After(steps).queued == [1, 2] && After(steps).flushed == [2, 1]
  {
    steps := TwoFlushes();
    steps := Then(steps, Append(1));
    steps := Then(steps, Append(0));
  }

  /** A change made while a start is under way that then fails stays queued with no
      prompt to flush it. */
  lemma FailedStartStrands() returns (steps: seq<Step<int>>)
    ensures IsRun(steps)
    ensures var a := After(steps);
                a.starting == {} && a.looping == {} && a.ending == {} && a.flushes == [] && a.pending == [1]
  {
    steps := [];
    steps := Then(steps, Start);
    steps := Then(steps, Launch(0));
    steps := Then(steps, ClearFlag(0));
    steps := Then(steps, TakeAtExit(0));
    steps := Then(steps, FlushDone(0));
    steps := Then(steps, Start);
    steps := Then(steps, Set(1));
    steps := Then(steps, StartFails(1));
  }

  // ----- the agent's own fields ---------------------------------------------

  /** All of them are known, and none comes twice. */
  ghost predicate Valid(names: seq<string>, registered: set<string>) {
    forall n :: n in names ==> n in registered && multiset(names)[n] == 1
  }

  lemma ValidNext(names: seq<string>, registered: set<string>, name: string)
    requires Valid(names, registered)
    ensures Valid(names + [name], registered) <==> name in registered && name !in names
  {
    var more := names + [name];
    assert name in more;
    forall n | n in more ensures multiset(more)[n] == multiset(names)[n] + if n == name then 1 else 0 {
      assert multiset(more) == multiset(names) + multiset{name};
    }
  }

  lemma ValidFront(names: seq<string>, registered: set<string>, front: seq<string>)
    requires front <= names && Valid(names, registered)
    ensures Valid(front, registered)
  {
    assert names == front + names[|front|..];
    forall n | n in front ensures n in registered && multiset(front)[n] == 1 {
      assert n in names;
    }
  }

  method ValidateToolConfig(registered: set<string>, activeNames: seq<string>) returns (ok: bool)
    ensures ok <==> Valid(activeNames, registered)
  {
    var active: set<string> := {};
    for i := 0 to |activeNames|
      invariant Valid(activeNames[..i], registered) && forall n :: n in active <==> n in activeNames[..i]
    {
      var name := activeNames[i];
      SliceTo(activeNames, 0, i);
      ValidNext(activeNames[..i], registered, name);
      if name !in registered || name in active {
        if Valid(activeNames, registered) {
          ValidFront(activeNames, registered, activeNames[..i + 1]);
        }
        return false;
      }
      active := active + {name};
    }
    assert activeNames[..|activeNames|] == activeNames;
    ok := true;
  }

  /** The fields that setters and flushes share, and the session's entries. */
  class AgentFields {
    var registered: set<string>
    var activeToolNames: seq<string>
    var bound: bool
    var running: bool
    var pendingActiveTools: seq<seq<string>>
    var log: seq<seq<string>>

    /** Refused without effect, queued while a prompt runs, or appended at once. The
        change stays in force even if appending it fails. */
    method SetActiveTools(names: seq<string>, appends: bool) returns (ok: bool)
      modifies this
      ensures registered == old(registered) && bound == old(bound) && running == old(running)
      ensures !Valid(names, registered) ==> !ok && activeToolNames == old(activeToolNames)
                                             && pendingActiveTools == old(pendingActiveTools) && log == old(log)
      ensures Valid(names, registered) ==>
                && activeToolNames == names && (ok <==> !bound || running || appends)
                && pendingActiveTools == old(pendingActiveTools) + (if bound && running then [names] else [])
                && log == old(log) + (if bound && !running && appends then [names] else [])
    {
      Nil(pendingActiveTools);
      Nil(log);
      var valid := ValidateToolConfig(registered, names);
      if !valid {
        return false;
      }
      activeToolNames := names;
      if bound && running {
        pendingActiveTools := pendingActiveTools + [names];
      }
      if bound && !running {
        if !appends {
          return false;
        }
        log := log + [names];
      }
      ok := true;
    }

    /** Takes the whole queue and appends it in order, as far as the session goes. */
    method FlushPendingActiveTools(room: nat) returns (ok: bool)
      modifies `pendingActiveTools, `log
      ensures pendingActiveTools == [] && (ok <==> |old(pendingActiveTools)| <= room)
      ensures log == old(log) + if ok then old(pendingActiveTools) else old(pendingActiveTools)[..room]
    {
      var pending := pendingActiveTools;
      pendingActiveTools := [];
      ghost var before := log;
      Nil(before);
      for k := 0 to |pending|
        invariant k <= room && log == before + pending[..k] && pendingActiveTools == []
      {
        if k == room {
          return false;
        }
        SliceTo(pending, 0, k);
        Assoc(before, pending[..k], [pending[k]]);
        log := log + [pending[k]];
      }
      assert pending[..|pending|] == pending;
      ok := true;
    }
  }
}
