/** Serializing the edits of one file: a lock for each file, held around a whole
    read-modify-write. */
module MutationQueue {
  import opened Text
  import opened Wrappers

  datatype Phase<V> = Waiting | Holding | HasRead(value: V) | HasWritten | Finished

  /** A call that edits the file with some key. */
  datatype Call<!K, !V> = Call(key: K, edit: V -> V, phase: Phase<V>)

  /** The files, the locks made so far, the calls, and for each key the edits in the
      order in which their calls acquired the lock, without those that gave up. A write
      that failed stands among them as the edit to what it left in the file. */
  datatype World<!K, !V> = World(files: map<K, V>, locks: map<K, Option<nat>>, calls: seq<Call<K, V>>,
                                 history: map<K, seq<V -> V>>)

  datatype Step<!K, !V> =
    | Arrive(key: K, edit: V -> V)
    | Acquire(call: nat)
    | Read(call: nat)
    | Write(call: nat)
    | WriteFails(call: nat, left: V)
    | Release(call: nat)

  ghost function Content<K, V>(w: World<K, V>, init: K -> V, k: K): V {
    if k in w.files then w.files[k] else init(k)
  }

  ghost function Holder<K, V>(w: World<K, V>, k: K): Option<nat> {
    if k in w.locks then w.locks[k] else None
  }

  ghost function Acquired<K, V>(w: World<K, V>, k: K): seq<V -> V> {
    if k in w.history then w.history[k] else []
  }

  /** All edits applied, first to last. */
  ghost function Fold<V>(v: V, edits: seq<V -> V>): V {
    if edits == [] then v else Last(edits)(Fold(v, Init(edits)))
  }

  function Replacing<V>(left: V): V -> V {
    _ => left
  }

  predicate Active<V>(p: Phase<V>) {
    p.Holding? || p.HasRead? || p.HasWritten?
  }

  ghost predicate Enabled<K, V>(w: World<K, V>, s: Step<K, V>) {
    match s
    case Arrive(_, _) => true
    case Acquire(i) => i < |w.calls| && w.calls[i].phase.Waiting? && Holder(w, w.calls[i].key).None?
    case Read(i) => i < |w.calls| && w.calls[i].phase.Holding?
    case Write(i) => i < |w.calls| && w.calls[i].phase.HasRead?
    case WriteFails(i, _) => i < |w.calls| && w.calls[i].phase.HasRead?
    case Release(i) => i < |w.calls| && Active(w.calls[i].phase)
  }

  ghost function Enter<K, V>(w: World<K, V>, i: nat, p: Phase<V>): World<K, V>
    requires i < |w.calls|
  {
    w.(calls := w.calls[i := w.calls[i].(phase := p)])
  }

  /** A lock is made by the first call that needs it. A call that gives up releases
      its lock without having written. */
  ghost function Do<K, V>(w: World<K, V>, init: K -> V, s: Step<K, V>): World<K, V>
    requires Enabled(w, s)
  {
    match s
    case Arrive(k, edit) =>
      w.(locks := if k in w.locks then w.locks else w.locks[k := None], calls := w.calls + [Call(k, edit, Waiting)])
    case Acquire(i) =>
      var k := w.calls[i].key;
      Enter(w, i, Holding).(locks := w.locks[k := Some(i)],
                            history := w.history[k := Acquired(w, k) + [w.calls[i].edit]])
    case Read(i) => Enter(w, i, HasRead(Content(w, init, w.calls[i].key)))
    case Write(i) =>
      var c := w.calls[i];
      Enter(w, i, HasWritten).(files := w.files[c.key := c.edit(c.phase.value)])
    case WriteFails(i, left) =>
      var k := w.calls[i].key;
      var edits := Acquired(w, k);
      Enter(w, i, HasWritten).(files := w.files[k := left],
        history := w.history[k := (if edits == [] then [] else Init(edits)) + [Replacing(left)]])
    case Release(i) =>
      var k := w.calls[i].key;
      var edits := Acquired(w, k);
      Enter(w, i, Finished).(locks := w.locks[k := None],
        history := if w.calls[i].phase.HasWritten? || edits == [] then w.history else w.history[k := Init(edits)])
  }

  // ----- what every step keeps ----------------------------------------------

  /** The file of a key is all acquired edits applied in order, or all but the one
      that its holder has still to write. */
  ghost predicate KeyOk<K, V>(w: World<K, V>, init: K -> V, k: K) {
    var edits, v := Acquired(w, k), Content(w, init, k);
    match Holder(w, k)
    case None => v == Fold(init(k), edits)
    case Some(i) =>
      && i < |w.calls| && w.calls[i].key == k && edits != []
      && match w.calls[i].phase
         case Holding => v == Fold(init(k), Init(edits)) && Last(edits) == w.calls[i].edit
         case HasRead(u) => u == v == Fold(init(k), Init(edits)) && Last(edits) == w.calls[i].edit
         case HasWritten => v == Fold(init(k), edits)
         case _ => false
  }

  ghost predicate CallOk<K, V>(w: World<K, V>, i: nat)
    requires i < |w.calls|
  {
    Active(w.calls[i].phase) ==> Holder(w, w.calls[i].key) == Some(i)
  }

  ghost predicate Inv<K(!new), V>(w: World<K, V>, init: K -> V) {
    (forall k :: KeyOk(w, init, k)) && (forall i :: 0 <= i < |w.calls| ==> CallOk(w, i))
  }

  /** Call i is at work on the file of key k. */
  predicate AtWork<K(==), V>(w: World<K, V>, i: nat, k: K) {
    i < |w.calls| && w.calls[i].key == k && Active(w.calls[i].phase)
  }

  /** A step on one key leaves the others alone. */
  lemma OtherKey<K(!new), V>(w: World<K, V>, init: K -> V, s: Step<K, V>, k: K)
    requires Inv(w, init) && Enabled(w, s)
    requires s.Arrive? || w.calls[s.call].key != k
    ensures KeyOk(Do(w, init, s), init, k)
  {
    assert KeyOk(w, init, k);
    var d := Do(w, init, s);
    assert Acquired(d, k) == Acquired(w, k) && Content(d, init, k) == Content(w, init, k)
      && Holder(d, k) == Holder(w, k);
  }

  lemma OwnKey<K(!new), V>(w: World<K, V>, init: K -> V, s: Step<K, V>)
    requires Inv(w, init) && Enabled(w, s) && !s.Arrive?
    ensures KeyOk(Do(w, init, s), init, w.calls[s.call].key)
  {
    var i := s.call;
    var k := w.calls[i].key;
    var edits := Acquired(w, k);
    assert KeyOk(w, init, k) && CallOk(w, i);
    match s
    case Acquire(_) => InitPush(edits, w.calls[i].edit);
    case WriteFails(_, left) => InitPush(Init(edits), Replacing(left));
    case _ =>
  }

  lemma CallsOk<K(!new), V>(w: World<K, V>, init: K -> V, s: Step<K, V>, j: nat)
    requires Inv(w, init) && Enabled(w, s) && j < |Do(w, init, s).calls|
    ensures CallOk(Do(w, init, s), j)
  {
    if j < |w.calls| {
      assert CallOk(w, j);
      if !s.Arrive? {
        assert CallOk(w, s.call);
      }
    }
  }

  lemma StepKeeps<K(!new), V>(w: World<K, V>, init: K -> V, s: Step<K, V>)
    requires Inv(w, init) && Enabled(w, s)
    ensures Inv(Do(w, init, s), init)
  {
    var d := Do(w, init, s);
    forall k ensures KeyOk(d, init, k) {
      if s.Arrive? || w.calls[s.call].key != k {
        OtherKey(w, init, s, k);
      } else {
        OwnKey(w, init, s);
      }
    }
    forall j | 0 <= j < |d.calls| ensures CallOk(d, j) {
      CallsOk(w, init, s, j);
    }
  }

  // ----- whole runs ---------------------------------------------------------

  ghost predicate IsRun<K, V>(init: K -> V, steps: seq<Step<K, V>>)
    decreases |steps|, 0
  {
    steps == [] || (IsRun(init, Init(steps)) && Enabled(After(init, Init(steps)), Last(steps)))
  }

  ghost function After<K, V>(init: K -> V, steps: seq<Step<K, V>>): World<K, V>
    requires IsRun(init, steps)
    decreases |steps|, 1
  {
    if steps == [] then World(map[], map[], [], map[]) else Do(After(init, Init(steps)), init, Last(steps))
  }

  lemma {:induction false} RunKeeps<K(!new), V>(init: K -> V, steps: seq<Step<K, V>>)
    requires IsRun(init, steps)
    ensures Inv(After(init, steps), init)
  {
    if steps != [] {
      RunKeeps(init, Init(steps));
      StepKeeps(After(init, Init(steps)), init, Last(steps));
    }
  }

  /** In every run at most one call of a key is at work. */
  lemma {:induction false} OneAtATime<K(!new), V>(init: K -> V, steps: seq<Step<K, V>>, i: nat, j: nat, k: K)
    requires IsRun(init, steps) && AtWork(After(init, steps), i, k) && AtWork(After(init, steps), j, k)
    ensures i == j
  {
    var w := After(init, steps);
    RunKeeps(init, steps);
    assert CallOk(w, i) && CallOk(w, j);
  }

  /** In every run a call waits only for a call of the same key that is at work. */
  lemma {:induction false} WaitsOnlyForSameKey<K(!new), V>(init: K -> V, steps: seq<Step<K, V>>, i: nat)
    requires IsRun(init, steps) && i < |After(init, steps).calls| && After(init, steps).calls[i].phase.Waiting?
    ensures var w := After(init, steps);
            Enabled(w, Acquire(i)) || exists j :: AtWork(w, j, w.calls[i].key)
  {
    var w := After(init, steps);
    var k := w.calls[i].key;
    RunKeeps(init, steps);
    assert KeyOk(w, init, k);
    if Holder(w, k).Some? {
      assert AtWork(w, Holder(w, k).value, k);
    }
  }

  lemma QuietIsFree<K(!new), V>(w: World<K, V>, init: K -> V, k: K)
    requires Inv(w, init) && forall i :: !AtWork(w, i, k)
    ensures Holder(w, k).None?
  {
    assert KeyOk(w, init, k);
    assert Holder(w, k).Some? ==> AtWork(w, Holder(w, k).value, k);
  }

  /** Whatever the interleaving, a file that nobody works on is the edits of its key
      applied in the order in which their calls acquired the lock: none is lost. */
  lemma {:induction false} Linearizable<K(!new), V>(init: K -> V, steps: seq<Step<K, V>>, k: K)
    requires IsRun(init, steps)
    requires forall i :: !AtWork(After(init, steps), i, k)
    ensures Content(After(init, steps), init, k) == Fold(init(k), Acquired(After(init, steps), k))
  {
    var w := After(init, steps);
    RunKeeps(init, steps);
    QuietIsFree(w, init, k);
    assert KeyOk(w, init, k);
  }
}
