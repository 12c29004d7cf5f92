/** Concurrent edits of files: each file is the edits of it that succeed, one applied
    after the other. */
module EditQueue {
  import opened EditEngine
  import opened EditTool
  import opened LineEndings
  import opened MutationQueue
  import opened Text
  import opened Wrappers

  ghost function EditOf(norm: Bytes -> Bytes, edits: seq<Edit>): Bytes -> Bytes {
    data => AfterEdit(norm, data, edits)
  }

  // ----- runs of edit calls -------------------------------------------------

  /** An edit call writes only if its edits succeed on what it has read. */
  ghost predicate EditStep<K>(norm: Bytes -> Bytes, w: World<K, Bytes>, s: Step<K, Bytes>)
    requires Enabled(w, s)
  {
    match s
    case Arrive(_, edit) => exists edits :: edit == EditOf(norm, edits)
    case Write(i) => WritesEdit(norm, w.calls[i])
    case WriteFails(i, _) => WritesEdit(norm, w.calls[i])
    case _ => true
  }

  ghost predicate WritesEdit<K>(norm: Bytes -> Bytes, c: Call<K, Bytes>)
    requires c.phase.HasRead?
  {
    exists edits :: c.edit == EditOf(norm, edits) && Works(norm, c.phase.value, edits)
  }

  ghost predicate IsEditRun<K(!new)>(norm: Bytes -> Bytes, init: K -> Bytes, steps: seq<Step<K, Bytes>>)
    ensures IsEditRun(norm, init, steps) ==> IsRun(init, steps)
  {
    steps == []
    || (IsEditRun(norm, init, Init(steps)) && Enabled(After(init, Init(steps)), Last(steps))
        && EditStep(norm, After(init, Init(steps)), Last(steps)))
  }

  /** f is what a call has made of a file: an edit that succeeded, or what a failed
      write has left. */
  ghost predicate MadeBy(norm: Bytes -> Bytes, before: Bytes, f: Bytes -> Bytes) {
    || (exists edits :: f == EditOf(norm, edits) && Works(norm, before, edits))
    || exists left :: f == Replacing(left)
  }

  /** Each was made of what those before it have left. */
  ghost predicate Chained(norm: Bytes -> Bytes, v: Bytes, fs: seq<Bytes -> Bytes>) {
    fs == [] || (Chained(norm, v, Init(fs)) && MadeBy(norm, Fold(v, Init(fs)), Last(fs)))
  }

  /** All that is done with a file, without what its holder has still to write. */
  ghost predicate KeyChained<K>(norm: Bytes -> Bytes, w: World<K, Bytes>, init: K -> Bytes, k: K) {
    var fs := Acquired(w, k);
    match Holder(w, k)
    case None => Chained(norm, init(k), fs)
    case Some(i) =>
      i < |w.calls| && fs != [] && Chained(norm, init(k), if w.calls[i].phase.HasWritten? then fs else Init(fs))
  }

  lemma OtherChained<K(!new)>(norm: Bytes -> Bytes, w: World<K, Bytes>, init: K -> Bytes, s: Step<K, Bytes>, k: K)
    requires Inv(w, init) && Enabled(w, s) && KeyChained(norm, w, init, k)
    requires s.Arrive? || w.calls[s.call].key != k
    ensures KeyChained(norm, Do(w, init, s), init, k)
  {
    var d := Do(w, init, s);
    assert KeyOk(w, init, k);
    assert Acquired(d, k) == Acquired(w, k) && Holder(d, k) == Holder(w, k);
  }

  lemma OwnChained<K(!new)>(norm: Bytes -> Bytes, w: World<K, Bytes>, init: K -> Bytes, s: Step<K, Bytes>, k: K)
    requires Inv(w, init) && Enabled(w, s) && EditStep(norm, w, s) && !s.Arrive? && k == w.calls[s.call].key
    requires KeyChained(norm, w, init, k)
    ensures KeyChained(norm, Do(w, init, s), init, k)
  {
    var i, fs := s.call, Acquired(w, k);
    assert KeyOk(w, init, k) && CallOk(w, i);
    match s
    case Acquire(_) => InitPush(fs, w.calls[i].edit);
    case Write(_) => assert MadeBy(norm, Fold(init(k), Init(fs)), Last(fs));
    case WriteFails(_, left) =>
      InitPush(Init(fs), Replacing(left));
      assert MadeBy(norm, Fold(init(k), Init(fs)), Replacing(left));
    case _ =>
  }

  lemma {:induction false} RunChained<K(!new)>(norm: Bytes -> Bytes, init: K -> Bytes, steps: seq<Step<K, Bytes>>, k: K)
    requires IsEditRun(norm, init, steps)
    ensures KeyChained(norm, After(init, steps), init, k)
  {
    if steps != [] {
      var w, s := After(init, Init(steps)), Last(steps);
      RunChained(norm, init, Init(steps), k);
      RunKeeps(init, Init(steps));
      if s.Arrive? || w.calls[s.call].key != k {
        OtherChained(norm, w, init, s, k);
      } else {
        OwnChained(norm, w, init, s, k);
      }
    }
  }

  /** Whatever the interleaving, a file that no call works on is the outcome of the
      edits that succeeded, each applied to what those before it have left. */
  lemma {:induction false} EditsLinearize<K(!new)>(norm: Bytes -> Bytes, init: K -> Bytes, steps: seq<Step<K, Bytes>>,
                                                   k: K)
    requires IsEditRun(norm, init, steps) && forall i :: !AtWork(After(init, steps), i, k)
    ensures var fs := Acquired(After(init, steps), k);
            Content(After(init, steps), init, k) == Fold(init(k), fs) && Chained(norm, init(k), fs)
  {
    Linearizable(init, steps, k);
    RunChained(norm, init, steps, k);
    RunKeeps(init, steps);
    QuietIsFree(After(init, steps), init, k);
  }
}
