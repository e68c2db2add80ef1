/** What the index holds after builds, pulls, tags and annotations have run side by side, given that index and
    Copy read and write it in two transactions (internal/repo/local.go, pkg/layerdb/layerdb.go). */
module StoreIndex {
  import opened Basics
  import opened Oci
  import opened LayerIndex
  import opened Store

  // ----- names after one write

  lemma NamesAfterIndexing(idx: seq<Descriptor>, r: string, d: Descriptor, q: string)
    ensures HasRef(Indexed(idx, r, d), q) <==> HasRef(idx, q) || q == r
  {
    if HasRef(idx, r) {
      HasRefSame(Indexed(idx, r, d), idx, q);
    } else {
      HasRefAppend(idx, Entry(r, d), q);
    }
  }

  lemma NamesAfterCopying(idx: seq<Descriptor>, r1: string, r2: string, q: string)
    ensures Copied(idx, r1, r2).Some? <==> HasRef(idx, r1)
    ensures HasRef(idx, r1) ==> (HasRef(Copied(idx, r1, r2).value, q) <==> HasRef(idx, q) || q == r2)
  {
    LastOfIn(idx, r1);
    if HasRef(idx, r1) {
      var source := LastOf(idx, r1).value;
      HasRefAppend(idx, source.(annotations := source.annotations[REF_NAME := r2]), q);
    }
  }

  lemma {:induction false} NamesAfterAnnotating(idx: seq<Descriptor>, r: string, key: string, action: Action, q: string)
    requires key != REF_NAME
    ensures HasRef(Annotated(idx, r, key, action), q) <==> HasRef(idx, q)
  {
    if idx != [] {
      NamesAfterAnnotating(idx[1..], r, key, action, q);
    }
  }

  function NameOf(job: Job): string {
    if job.Tag? then job.ref2 else job.reference
  }

  function OpOf(job: Job): Op {
    if job.Tag? then OpCopy(job.ref1, job.ref2) else OpIndex(job.reference, job.desc)
  }

  /** Whether a job's write goes through, given the index it holds. */
  predicate Accepts(job: Job, held: seq<Descriptor>) {
    job.Tag? ==> HasRef(held, job.ref1)
  }

  /** One index write: the names are those the job read, and its own. What was written in between is gone. */
  lemma WriteExactly(w: World, s: State, j: nat, q: string)
    requires Step(w, s, WriteIndex(j)).Some?
    ensures var t, held := Step(w, s, WriteIndex(j)).value, s.phases[j].idx;
            && t.phases == s.phases[j := if Accepts(w.jobs[j], held) then Done else Failed]
            && t.idx == (if Accepts(w.jobs[j], held) then Apply(held, OpOf(w.jobs[j])) else s.idx)
            && (HasRef(t.idx, q) <==>
                if Accepts(w.jobs[j], held) then HasRef(held, q) || q == NameOf(w.jobs[j]) else HasRef(s.idx, q))
  {
    var job, held := w.jobs[j], s.phases[j].idx;
    if job.Tag? {
      NamesAfterCopying(held, job.ref1, job.ref2, q);
    } else {
      NamesAfterIndexing(held, job.reference, job.desc, q);
    }
  }

  // ----- which index a job holds

  lemma {:induction false} RunSnoc(w: World, s: State, front: seq<Event>, e: Event)
    ensures Run(w, s, front + [e]) == if Run(w, s, front).None? then None else Step(w, Run(w, s, front).value, e)
    decreases |front|
  {
    if front == [] {
      assert front + [e] == [e] && [e][1..] == [];
    } else {
      assert (front + [e])[1..] == front[1..] + [e];
      if Step(w, s, front[0]).Some? {
        RunSnoc(w, Step(w, s, front[0]).value, front[1..], e);
      }
    }
  }

  lemma RunLast(w: World, s: State, es: seq<Event>)
    requires es != [] && Run(w, s, es).Some?
    ensures Run(w, s, es[..|es| - 1]).Some?
    ensures Step(w, Run(w, s, es[..|es| - 1]).value, es[|es| - 1]) == Run(w, s, es)
  {
    RunSnoc(w, s, es[..|es| - 1], es[|es| - 1]);
    assert es == es[..|es| - 1] + [es[|es| - 1]];
  }

  lemma {:induction false} RunPrefix(w: World, s: State, es: seq<Event>, n: nat)
    requires Run(w, s, es).Some? && n <= |es|
    ensures Run(w, s, es[..n]).Some?
    decreases |es|
  {
    if n < |es| {
      RunLast(w, s, es);
      RunPrefix(w, s, es[..|es| - 1], n);
      assert es[..|es| - 1][..n] == es[..n];
    } else {
      assert es[..n] == es;
    }
  }

  /** Where job `j` last read the index. */
  function LastRead(es: seq<Event>, j: nat): (r: Option<nat>)
    ensures r.Some? ==> r.value < |es| && es[r.value] == ReadIndex(j)
  {
    if es == [] then None
    else if es[|es| - 1] == ReadIndex(j) then Some(|es| - 1)
    else LastRead(es[..|es| - 1], j)
  }

  /** Nobody holds the index. */
  ghost predicate AtRest(s: State) {
    forall j: nat :: j < |s.phases| ==> !s.phases[j].Holding? && !s.phases[j].Done?
  }

  lemma StepHolding(w: World, s: State, e: Event, j: nat)
    requires Step(w, s, e).Some? && j < |s.phases|
    ensures var t := Step(w, s, e).value;
            && |t.phases| == |s.phases|
            && (t.phases[j].Holding? ==>
                  if e == ReadIndex(j) then t.phases[j].idx == s.idx else t.phases[j] == s.phases[j])
            && (t.phases[j].Done? ==> s.phases[j].Done? || (e == WriteIndex(j) && s.phases[j].Holding?))
  {
  }

  /** What a job holds is the index as it stood when the job read it. */
  lemma {:induction false} HeldIsRead(w: World, s: State, es: seq<Event>, j: nat)
    requires AtRest(s) && Run(w, s, es).Some? && j < |s.phases|
    ensures |Run(w, s, es).value.phases| == |s.phases|
    ensures Run(w, s, es).value.phases[j].Holding? ==>
              && LastRead(es, j).Some?
              && Run(w, s, es[..LastRead(es, j).value]).Some?
              && Run(w, s, es).value.phases[j].idx == Run(w, s, es[..LastRead(es, j).value]).value.idx
    decreases |es|
  {
    if es != [] {
      var front, e := es[..|es| - 1], es[|es| - 1];
      RunLast(w, s, es);
      HeldIsRead(w, s, front, j);
      StepHolding(w, Run(w, s, front).value, e, j);
      hide Step, Run;
      if e != ReadIndex(j) && LastRead(front, j).Some? {
        assert front[..LastRead(front, j).value] == es[..LastRead(front, j).value];
      }
    }
  }

  // ----- which names survive, exactly

  /** Whether a name is in the index after a run, told from the events alone: the last write that went through
      decides, by its own name and by what its job had read. */
  predicate Traced(w: World, idx: seq<Descriptor>, es: seq<Event>, q: string)
    decreases |es|
  {
    if es == [] then HasRef(idx, q)
    else
      var front, e := es[..|es| - 1], es[|es| - 1];
      if !e.WriteIndex? || e.j >= |w.jobs| || LastRead(front, e.j).None? then Traced(w, idx, front, q)
      else
        var job, seen := w.jobs[e.j], es[..LastRead(front, e.j).value];
        if job.Tag? && !Traced(w, idx, seen, job.ref1) then Traced(w, idx, front, q)
        else q == NameOf(job) || Traced(w, idx, seen, q)
  }

  lemma OtherNames(w: World, s: State, e: Event, q: string)
    requires Step(w, s, e).Some? && !e.WriteIndex?
    ensures HasRef(Step(w, s, e).value.idx, q) <==> HasRef(s.idx, q)
  {
    if e.Annotate? {
      NamesAfterAnnotating(s.idx, e.reference, e.key, e.action, q);
    }
  }

  /** Over every interleaving, with writes that overtake each other and jobs that fail, a name is in the index
      at the end exactly when the trace says so. A job that reported success has lost its name otherwise. */
  lemma {:induction false} NamesExactly(w: World, s: State, es: seq<Event>, q: string)
    requires AtRest(s) && Run(w, s, es).Some?
    ensures HasRef(Run(w, s, es).value.idx, q) <==> Traced(w, s.idx, es, q)
    decreases |es|
  {
    if es != [] {
      var front, e := es[..|es| - 1], es[|es| - 1];
      RunLast(w, s, es);
      NamesExactly(w, s, front, q);
      var f := Run(w, s, front).value;
      if e.WriteIndex? {
        WriteStepTraced(w, s, es, f, q);
      } else {
        OtherNames(w, f, e, q);
      }
    }
  }

  lemma {:induction false} WriteStepTraced(w: World, s: State, es: seq<Event>, f: State, q: string)
    requires AtRest(s) && es != [] && Run(w, s, es).Some? && es[|es| - 1].WriteIndex?
    requires Run(w, s, es[..|es| - 1]) == Some(f) && Step(w, f, es[|es| - 1]) == Run(w, s, es)
    requires HasRef(f.idx, q) <==> Traced(w, s.idx, es[..|es| - 1], q)
    ensures HasRef(Run(w, s, es).value.idx, q) <==> Traced(w, s.idx, es, q)
    decreases |es|, 0
  {
    var front, j := es[..|es| - 1], es[|es| - 1].j;
    WriteExactly(w, f, j, q);
    PhasesKept(w, s, front);
    HeldIsRead(w, s, front, j);
    hide Step, Run, Apply;
    var a := LastRead(front, j).value;
    assert front[..a] == es[..a];
    NamesExactly(w, s, es[..a], q);
    if w.jobs[j].Tag? {
      NamesExactly(w, s, es[..a], w.jobs[j].ref1);
    }
  }

  lemma {:induction false} PhasesKept(w: World, s: State, es: seq<Event>)
    requires Run(w, s, es).Some?
    ensures |Run(w, s, es).value.phases| == |s.phases|
    decreases |es|
  {
    if es != [] {
      PhasesKept(w, Step(w, s, es[0]).value, es[1..]);
    }
  }

  // ----- runs in which no write is overtaken

  predicate Writes(e: Event) {
    e.WriteIndex? || e.Annotate?
  }

  /** Between a job's read of the index and its write, nobody else writes. */
  ghost predicate Serialised(es: seq<Event>) {
    forall a, c, b :: 0 <= a < c < b < |es| && es[a].ReadIndex? && es[b].WriteIndex? && es[a].j == es[b].j ==>
          !Writes(es[c])
  }

  /** The operations of a run in the order of their writes. */
  function Written(w: World, es: seq<Event>): seq<Op> {
    if es == [] then []
    else
      var front, e := Written(w, es[..|es| - 1]), es[|es| - 1];
      match e
      case WriteIndex(j) => if j < |w.jobs| then front + [OpOf(w.jobs[j])] else front
      case Annotate(r, key, action) => front + [OpAnnotate(r, key, action)]
      case _ => front
  }

  lemma QuietStep(w: World, s: State, e: Event)
    requires Step(w, s, e).Some? && !Writes(e)
    ensures Step(w, s, e).value.idx == s.idx
  {
  }

  lemma {:induction false} QuietStretch(w: World, s: State, es: seq<Event>, a: nat)
    requires Run(w, s, es).Some? && a <= |es| && forall c :: a <= c < |es| ==> !Writes(es[c])
    ensures Run(w, s, es[..a]).Some? && Run(w, s, es[..a]).value.idx == Run(w, s, es).value.idx
    decreases |es|
  {
    if a == |es| {
      assert es[..a] == es;
    } else {
      RunLast(w, s, es);
      QuietStep(w, Run(w, s, es[..|es| - 1]).value, es[|es| - 1]);
      QuietStretch(w, s, es[..|es| - 1], a);
      assert es[..|es| - 1][..a] == es[..a];
    }
  }

  /** In a serialised run every write acts on the index as it is. */
  lemma SerialWrite(w: World, s: State, es: seq<Event>, f: State)
    requires AtRest(s) && Serialised(es) && es != [] && es[|es| - 1].WriteIndex?
    requires Run(w, s, es[..|es| - 1]) == Some(f) && Step(w, f, es[|es| - 1]).Some?
    ensures es[|es| - 1].j < |w.jobs|
            && Step(w, f, es[|es| - 1]).value.idx == Apply(f.idx, OpOf(w.jobs[es[|es| - 1].j]))
    ensures f.phases[es[|es| - 1].j].idx == f.idx
  {
    var front, j := es[..|es| - 1], es[|es| - 1].j;
    PhasesKept(w, s, front);
    HeldIsRead(w, s, front, j);
    var a := LastRead(front, j).value;
    assert es[a] == front[a] && front[a].j == es[|es| - 1].j;
    forall c | a <= c < |front| ensures !Writes(front[c]) {
      assert front[c] == es[c];
    }
    QuietStretch(w, s, front, a);
    WriteExactly(w, f, j, "");
    LastOfIn(f.idx, if w.jobs[j].Tag? then w.jobs[j].ref1 else "");
  }

  lemma SerialFront(es: seq<Event>)
    requires Serialised(es) && es != []
    ensures Serialised(es[..|es| - 1])
  {
  }

  /** A serialised run leaves the list that its operations, one after the other in the order of their writes,
      make of it: the interleaving is the sequential index. */
  lemma {:induction false} SerialisedIsSequential(w: World, s: State, es: seq<Event>)
    requires AtRest(s) && Serialised(es) && Run(w, s, es).Some?
    ensures Run(w, s, es).value.idx == Exec(s.idx, Written(w, es))
    decreases |es|
  {
    if es != [] {
      var front, e := es[..|es| - 1], es[|es| - 1];
      RunLast(w, s, es);
      SerialFront(es);
      SerialisedIsSequential(w, s, front);
      var f := Run(w, s, front).value;
      if e.WriteIndex? {
        SerialWrite(w, s, es, f);
        ExecSnoc(s.idx, Written(w, front), OpOf(w.jobs[e.j]));
      } else if e.Annotate? {
        ExecSnoc(s.idx, Written(w, front), OpAnnotate(e.reference, e.key, e.action));
      } else {
        QuietStep(w, f, e);
      }
    }
  }

  lemma ExecSnoc(idx: seq<Descriptor>, ops: seq<Op>, op: Op)
    ensures Exec(idx, ops + [op]) == Apply(Exec(idx, ops), op)
  {
    assert (ops + [op])[..|ops|] == ops;
  }

  /** And every job that reported success has its name in the index. */
  lemma {:induction false} SerialisedLosesNothing(w: World, s: State, es: seq<Event>, j: nat)
    requires AtRest(s) && Serialised(es) && Run(w, s, es).Some? && |s.phases| == |w.jobs| && j < |w.jobs|
    ensures |Run(w, s, es).value.phases| == |w.jobs|
    ensures Run(w, s, es).value.phases[j].Done? ==> HasRef(Run(w, s, es).value.idx, NameOf(w.jobs[j]))
    decreases |es|
  {
    if es != [] {
      var front, e := es[..|es| - 1], es[|es| - 1];
      RunLast(w, s, es);
      SerialFront(es);
      SerialisedLosesNothing(w, s, front, j);
      var f := Run(w, s, front).value;
      StepHolding(w, f, e, j);
      if e.WriteIndex? {
        SerialWrite(w, s, es, f);
        WriteExactly(w, f, e.j, NameOf(w.jobs[j]));
      } else {
        OtherNames(w, f, e, NameOf(w.jobs[j]));
      }
    }
  }
}
