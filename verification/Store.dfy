/** Builds, pulls and tags running side by side over one store (internal/repo/local.go,
    pkg/layerdb/layerdb.go): no index entry ever dangles. */
module Store {
  import opened Basics
  import opened Oci
  import opened LayerIndex
  import P = WorkerPool

  /** One descriptor a pull works on: a tar layer is unpacked into the snapshot directory, anything
      else goes into the key-value store. */
  datatype Item = Item(digest: string, isTar: bool)

  datatype Job =
    | Build(reference: string, layerKeys: set<string>, config: string, desc: Descriptor)
    | Pull(reference: string, items: seq<Item>, limit: nat, config: string, desc: Descriptor)
    | Tag(ref1: string, ref2: string)

  /** How far an operation is. `Building(done)` has workers recording layers, those in `done` already. `Holding(idx)`
      has read the index and not yet written it back: the two are separate transactions. */
  datatype Phase =
    | Working
    | Building(done: set<string>)
    | Pulling(pool: P.Pool<string>, fetching: seq<bool>)
    | ConfigWritten
    | Ready
    | Holding(idx: seq<Descriptor>)
    | Done
    | Failed

  datatype State = State(kv: KV, objects: set<string>, idx: seq<Descriptor>, phases: seq<Phase>)

  datatype Event =
    | SetMarker(j: nat, key: string)
    | WriteConfig(j: nat)
    | WriteManifest(j: nat)
    | Dispatch(j: nat, m: P.Move)
    | Check(j: nat, i: nat)
    | Fetch(j: nat, i: nat)
    | Collect(j: nat)
    | ReadIndex(j: nat)
    | WriteIndex(j: nat)
    | Annotate(reference: string, key: string, action: Action)
    | Fail(j: nat)

  /** The jobs, and what the content of every digest is. */
  datatype World = World(jobs: seq<Job>, blobs: string -> Blob)

  function Keys(items: seq<Item>): seq<Option<string>> {
    seq(|items|, i requires 0 <= i < |items| => Some(items[i].digest))
  }

  predicate At(w: World, s: State, j: nat) {
    j < |w.jobs| && j < |s.phases|
  }

  function With(s: State, j: nat, p: Phase): State
    requires j < |s.phases|
  {
    s.(phases := s.phases[j := p])
  }

  predicate Exists(s: State, d: string) {
    d in s.kv || d in s.objects
  }

  /** One step, or None where the event is not possible. */
  function Step(w: World, s: State, e: Event): Option<State> {
    match e
    case SetMarker(j, key) =>
      if At(w, s, j) && w.jobs[j].Build? && s.phases[j].Building? && key in w.jobs[j].layerKeys then
        Some(With(s, j, Building(s.phases[j].done + {key})).(kv := s.kv[key := OtherBlob([])]))
      else None
    case WriteConfig(j) =>
      if At(w, s, j) && w.jobs[j].Build? && s.phases[j].Building? && s.phases[j].done == w.jobs[j].layerKeys then
        Some(With(s, j, ConfigWritten).(kv := s.kv[w.jobs[j].config := w.blobs(w.jobs[j].config)]))
      else None
    case WriteManifest(j) =>
      if At(w, s, j) && w.jobs[j].Build? && s.phases[j].ConfigWritten? then
        Some(With(s, j, Ready).(kv := s.kv[w.jobs[j].desc.digest := w.blobs(w.jobs[j].desc.digest)]))
      else None
    case Dispatch(j, m) =>
      if At(w, s, j) && w.jobs[j].Pull? && s.phases[j].Pulling?
          && (m.Skip? || m.Launch? || m.Interrupt? || m.Fail?) then
        var p := P.Step(Keys(w.jobs[j].items), w.jobs[j].limit, s.phases[j].pool, m);
        if p.Some? then Some(With(s, j, Pulling(p.value, s.phases[j].fetching))) else None
      else None
    case Check(j, i) =>
      if At(w, s, j) && w.jobs[j].Pull? && s.phases[j].Pulling? && i < |w.jobs[j].items| && i < |s.phases[j].fetching|
         && s.phases[j].pool.Is(i, P.Running) && !s.phases[j].fetching[i] then
        if Exists(s, w.jobs[j].items[i].digest) then
          var p := P.Step(Keys(w.jobs[j].items), w.jobs[j].limit, s.phases[j].pool, P.Finish(i));
          if p.Some? then Some(With(s, j, Pulling(p.value, s.phases[j].fetching))) else None
        else Some(With(s, j, Pulling(s.phases[j].pool, s.phases[j].fetching[i := true])))
      else None
    case Fetch(j, i) =>
      if At(w, s, j) && w.jobs[j].Pull? && s.phases[j].Pulling? && i < |w.jobs[j].items| && i < |s.phases[j].fetching|
         && s.phases[j].pool.Is(i, P.Running) && s.phases[j].fetching[i] then
        var p := P.Step(Keys(w.jobs[j].items), w.jobs[j].limit, s.phases[j].pool, P.Finish(i));
        var d := w.jobs[j].items[i].digest;
        if p.None? then None
        else if w.jobs[j].items[i].isTar then Some(With(s, j, Pulling(p.value, s.phases[j].fetching)))
        else Some(With(s, j, Pulling(p.value, s.phases[j].fetching)).(kv := s.kv[d := w.blobs(d)]))
      else None
    case Collect(j) =>
      if At(w, s, j) && w.jobs[j].Pull? && s.phases[j].Pulling?
          && P.Succeeded(Keys(w.jobs[j].items), s.phases[j].pool) then
        Some(With(s, j, Ready))
      else None
    case ReadIndex(j) =>
      if At(w, s, j) && (s.phases[j].Ready? || (w.jobs[j].Tag? && s.phases[j].Working?)) then
        Some(With(s, j, Holding(s.idx)))
      else None
    case WriteIndex(j) =>
      if At(w, s, j) && s.phases[j].Holding? then
        var held := s.phases[j].idx;
        match w.jobs[j]
        case Tag(r1, r2) =>
          var c := Copied(held, r1, r2);
          if c.Some? then Some(With(s, j, Done).(idx := c.value)) else Some(With(s, j, Failed))
        case job => Some(With(s, j, Done).(idx := Indexed(held, job.reference, job.desc)))
      else None
    case Annotate(reference, key, action) =>
      if key != REF_NAME then Some(s.(idx := Annotated(s.idx, reference, key, action))) else None
    case Fail(j) => if At(w, s, j) && !s.phases[j].Done? then Some(With(s, j, Failed)) else None
  }

  function Run(w: World, s: State, es: seq<Event>): Option<State>
    decreases |es|
  {
    if es == [] then Some(s)
    else
      var next := Step(w, s, es[0]);
      if next.None? then None else Run(w, next.value, es[1..])
  }

  function StartPhase(job: Job): Phase {
    match job
    case Build(_, _, _, _) => Building({})
    case Pull(_, items, _, _, _) => Pulling(P.Start(|items|), seq(|items|, _ => false))
    case Tag(_, _) => Working
  }

  // ----- what is asked of the jobs

  /** The digest of a manifest names a manifest, whose config is the job's. */
  ghost predicate Names(w: World, config: string, desc: Descriptor) {
    w.blobs(desc.digest).ManifestBlob? && w.blobs(desc.digest).manifest.config.digest == config
  }

  /** The first item with this digest goes to the key-value store. */
  predicate FirstIsPlain(items: seq<Item>, d: string) {
    exists i: nat :: i < |items| && items[i].digest == d && !items[i].isTar
                     && forall k :: 0 <= k < i ==> items[k].digest != d
  }

  /** Layers are not manifests, and a pull lists its config and manifest before any tar layer with the
      same digest, which is the case whenever no tar layer shares their digests. */
  ghost predicate JobOk(w: World, objects: set<string>, job: Job) {
    match job
    case Build(_, layerKeys, config, desc) =>
      Names(w, config, desc) && forall key :: key in layerKeys ==> !w.blobs(key).ManifestBlob?
    case Pull(_, items, _, config, desc) =>
      && Names(w, config, desc)
      && FirstIsPlain(items, config) && FirstIsPlain(items, desc.digest)
      && config !in objects && desc.digest !in objects
    case Tag(_, _) => true
  }

  ghost predicate WorldOk(w: World, objects: set<string>) {
    forall j: nat :: j < |w.jobs| ==> JobOk(w, objects, w.jobs[j])
  }

  // ----- the invariant

  /** An index entry that does not dangle. */
  ghost predicate Backed(kv: KV, d: Descriptor) {
    Resolves(kv, d) && kv[d.digest].manifest.config.digest in kv
  }

  ghost predicate AllBacked(kv: KV, idx: seq<Descriptor>) {
    forall d :: d in idx ==> Backed(kv, d)
  }

  /** A manifest digest in the store holds that manifest. */
  ghost predicate Faithful(w: World, kv: KV) {
    forall d :: d in kv && w.blobs(d).ManifestBlob? ==> kv[d] == w.blobs(d)
  }

  /** An entry written by these jobs, or there from the start. */
  ghost predicate Genuine(w: World, idx: seq<Descriptor>) {
    forall d :: d in idx ==> w.blobs(d.digest).ManifestBlob?
  }

  ghost predicate PhaseInv(w: World, s: State, j: nat)
    requires j < |w.jobs| && j < |s.phases|
  {
    var job := w.jobs[j];
    match s.phases[j]
    case ConfigWritten => job.Build? && job.config in s.kv
    case Ready => !job.Tag? && Backed(s.kv, job.desc)
    case Holding(idx) => AllBacked(s.kv, idx) && Genuine(w, idx) && (!job.Tag? ==> Backed(s.kv, job.desc))
    case Pulling(pool, fetching) =>
      && job.Pull? && P.Inv(Keys(job.items), job.limit, pool) && |fetching| == |job.items|
      && forall i: nat :: i < |job.items| && pool.Is(i, P.Finished) && !job.items[i].isTar ==>
           Exists(s, job.items[i].digest)
    case _ => true
  }

  ghost predicate Inv(w: World, s: State) {
    && |s.phases| == |w.jobs|
    && AllBacked(s.kv, s.idx) && Genuine(w, s.idx) && Faithful(w, s.kv)
    && forall j: nat :: j < |w.jobs| ==> PhaseInv(w, s, j)
  }

  // ----- preservation

  /** Writes only add keys, and never change what a manifest digest holds. */
  ghost predicate Grows(w: World, before: KV, after: KV) {
    && before.Keys <= after.Keys
    && forall d :: d in before && w.blobs(d).ManifestBlob? ==> after[d] == before[d]
  }

  lemma BackedStays(w: World, before: KV, after: KV, d: Descriptor)
    requires Grows(w, before, after) && Backed(before, d) && w.blobs(d.digest).ManifestBlob?
    ensures Backed(after, d)
  {
  }

  /** A step that grows the store, leaves the index alone and moves job `j` keeps the invariant,
      given the invariant of job `j`'s new phase. */
  lemma MoveKeepsInv(w: World, s: State, t: State, j: nat)
    requires Inv(w, s) && WorldOk(w, s.objects) && j < |w.jobs|
    requires t.objects == s.objects && t.idx == s.idx && |t.phases| == |s.phases|
    requires forall k: nat :: k < |s.phases| && k != j ==> t.phases[k] == s.phases[k]
    requires Grows(w, s.kv, t.kv) && Faithful(w, t.kv) && PhaseInv(w, t, j)
    ensures Inv(w, t)
  {
    forall d | d in t.idx ensures Backed(t.kv, d) {
      BackedStays(w, s.kv, t.kv, d);
    }
    forall k: nat | k < |w.jobs| ensures PhaseInv(w, t, k) {
      if k != j {
        assert PhaseInv(w, s, k);
        PhaseStays(w, s, t, k);
      }
    }
  }

  lemma PhaseStays(w: World, s: State, t: State, k: nat)
    requires WorldOk(w, s.objects) && k < |w.jobs| && k < |s.phases| && k < |t.phases|
    requires PhaseInv(w, s, k) && t.phases[k] == s.phases[k]
    requires t.objects == s.objects && Grows(w, s.kv, t.kv)
    ensures PhaseInv(w, t, k)
  {
    var job := w.jobs[k];
    assert JobOk(w, s.objects, job);
    if !job.Tag? && (s.phases[k].Ready? || s.phases[k].Holding?) {
      BackedStays(w, s.kv, t.kv, job.desc);
    }
    if s.phases[k].Holding? {
      forall d | d in s.phases[k].idx ensures Backed(t.kv, d) {
        BackedStays(w, s.kv, t.kv, d);
      }
    }
  }

  lemma BuildStep(w: World, s: State, e: Event)
    requires Inv(w, s) && WorldOk(w, s.objects) && Step(w, s, e).Some?
             && (e.SetMarker? || e.WriteConfig? || e.WriteManifest?)
    ensures Inv(w, Step(w, s, e).value)
  {
    var t := Step(w, s, e).value;
    assert JobOk(w, s.objects, w.jobs[e.j]) && PhaseInv(w, s, e.j);
    MoveKeepsInv(w, s, t, e.j);
  }

  /** The three moves of a pull, on its own phase. */
  lemma DispatchPhase(w: World, s: State, j: nat, m: P.Move)
    requires j < |w.jobs| && j < |s.phases| && PhaseInv(w, s, j) && Step(w, s, Dispatch(j, m)).Some?
    ensures var t := Step(w, s, Dispatch(j, m)).value;
            t == s.(phases := t.phases) && t.phases == s.phases[j := t.phases[j]] && PhaseInv(w, t, j)
  {
    P.StepInv(Keys(w.jobs[j].items), w.jobs[j].limit, s.phases[j].pool, m);
    P.FinishedFrom(Keys(w.jobs[j].items), w.jobs[j].limit, s.phases[j].pool, m);
    hide P.Step, P.Inv, Keys, Genuine, Backed, AllBacked;
  }

  lemma CheckPhase(w: World, s: State, j: nat, i: nat)
    requires j < |w.jobs| && j < |s.phases| && PhaseInv(w, s, j) && Step(w, s, Check(j, i)).Some?
    ensures var t := Step(w, s, Check(j, i)).value;
            t == s.(phases := t.phases) && t.phases == s.phases[j := t.phases[j]] && PhaseInv(w, t, j)
  {
    hide P.Step, P.Inv, Keys, Genuine, Backed, AllBacked;
    if Exists(s, w.jobs[j].items[i].digest) {
      P.StepInv(Keys(w.jobs[j].items), w.jobs[j].limit, s.phases[j].pool, P.Finish(i));
      P.FinishedFrom(Keys(w.jobs[j].items), w.jobs[j].limit, s.phases[j].pool, P.Finish(i));
    }
  }

  lemma FetchPhase(w: World, s: State, j: nat, i: nat)
    requires j < |w.jobs| && j < |s.phases| && PhaseInv(w, s, j) && Step(w, s, Fetch(j, i)).Some?
    ensures var t, d := Step(w, s, Fetch(j, i)).value, w.jobs[j].items[i].digest;
            && t == s.(phases := t.phases, kv := t.kv) && t.phases == s.phases[j := t.phases[j]] && PhaseInv(w, t, j)
            && t.kv == if w.jobs[j].items[i].isTar then s.kv else s.kv[d := w.blobs(d)]
  {
    P.StepInv(Keys(w.jobs[j].items), w.jobs[j].limit, s.phases[j].pool, P.Finish(i));
    P.FinishedFrom(Keys(w.jobs[j].items), w.jobs[j].limit, s.phases[j].pool, P.Finish(i));
    hide P.Step, P.Inv, Keys, Genuine, Backed, AllBacked;
  }

  lemma PullStep(w: World, s: State, e: Event)
    requires Inv(w, s) && WorldOk(w, s.objects) && Step(w, s, e).Some? && (e.Dispatch? || e.Check? || e.Fetch?)
    ensures Inv(w, Step(w, s, e).value)
  {
    assert PhaseInv(w, s, e.j);
    match e {
      case Dispatch(j, m) => DispatchPhase(w, s, j, m);
      case Check(j, i) => CheckPhase(w, s, j, i);
      case Fetch(j, i) => FetchPhase(w, s, j, i);
    }
    MoveKeepsInv(w, s, Step(w, s, e).value, e.j);
  }

  /** A pull that succeeded has its config and its manifest in the key-value store. */
  lemma CollectStep(w: World, s: State, j: nat)
    requires Inv(w, s) && WorldOk(w, s.objects) && Step(w, s, Collect(j)).Some?
    ensures Inv(w, Step(w, s, Collect(j)).value)
  {
    var job := w.jobs[j];
    assert PhaseInv(w, s, j) && JobOk(w, s.objects, job);
    PulledPlain(w, s, j, job.config);
    PulledPlain(w, s, j, job.desc.digest);
    MoveKeepsInv(w, s, Step(w, s, Collect(j)).value, j);
  }

  lemma PulledPlain(w: World, s: State, j: nat, d: string)
    requires j < |w.jobs| && j < |s.phases| && PhaseInv(w, s, j) && s.phases[j].Pulling?
    requires P.Succeeded(Keys(w.jobs[j].items), s.phases[j].pool)
    requires FirstIsPlain(w.jobs[j].items, d) && d !in s.objects
    ensures d in s.kv
  {
    var job := w.jobs[j];
    var i: nat :| i < |job.items| && job.items[i].digest == d && !job.items[i].isTar
                  && forall k :: 0 <= k < i ==> job.items[k].digest != d;
    assert P.First(Keys(job.items), i);
    P.AllFinished(Keys(job.items), job.limit, s.phases[j].pool, i);
  }

  /** Replacing the index by a list without danglers. */
  lemma IndexKeepsInv(w: World, s: State, t: State, j: nat)
    requires Inv(w, s) && j < |w.jobs| && t.kv == s.kv && t.objects == s.objects
    requires |t.phases| == |s.phases| && t.phases == s.phases[j := t.phases[j]]
             && (t.phases[j].Done? || t.phases[j].Failed?)
    requires AllBacked(t.kv, t.idx) && Genuine(w, t.idx)
    ensures Inv(w, t)
  {
    forall k: nat | k < |w.jobs| ensures PhaseInv(w, t, k) {
      assert PhaseInv(w, s, k);
    }
  }

  lemma WriteIndexStep(w: World, s: State, j: nat)
    requires Inv(w, s) && WorldOk(w, s.objects) && Step(w, s, WriteIndex(j)).Some?
    ensures Inv(w, Step(w, s, WriteIndex(j)).value)
  {
    var t := Step(w, s, WriteIndex(j)).value;
    var job, held := w.jobs[j], s.phases[j].idx;
    assert PhaseInv(w, s, j) && JobOk(w, s.objects, job);
    if job.Tag? {
      LastOfIn(held, job.ref1);
    } else {
      assert forall d :: d in t.idx ==> d in held || d == Entry(job.reference, job.desc);
    }
    IndexKeepsInv(w, s, t, j);
  }

  lemma {:induction false} AnnotatedDigests(idx: seq<Descriptor>, r: string, key: string, action: Action, d: Descriptor)
    requires d in Annotated(idx, r, key, action)
    ensures exists e :: e in idx && e.digest == d.digest
  {
    if !Matches(idx[0], r) && d != idx[0] {
      AnnotatedDigests(idx[1..], r, key, action, d);
      var e :| e in idx[1..] && e.digest == d.digest;
      assert e in idx;
    } else if Matches(idx[0], r) && d == Marked(idx[0], key, action) {
      assert idx[0] in idx;
    } else {
      assert d in idx;
    }
  }

  lemma AnnotateStep(w: World, s: State, r: string, key: string, action: Action)
    requires Inv(w, s) && Step(w, s, Annotate(r, key, action)).Some?
    ensures Inv(w, Step(w, s, Annotate(r, key, action)).value)
  {
    var t := Step(w, s, Annotate(r, key, action)).value;
    forall d | d in t.idx ensures Backed(t.kv, d) && w.blobs(d.digest).ManifestBlob? {
      AnnotatedDigests(s.idx, r, key, action, d);
      var e :| e in s.idx && e.digest == d.digest;
      assert Backed(s.kv, e);
    }
    forall k: nat | k < |w.jobs| ensures PhaseInv(w, t, k) {
      assert PhaseInv(w, s, k);
    }
  }

  lemma StepInv(w: World, s: State, e: Event)
    requires Inv(w, s) && WorldOk(w, s.objects) && Step(w, s, e).Some?
    ensures Inv(w, Step(w, s, e).value) && Step(w, s, e).value.objects == s.objects
  {
    match e
    case SetMarker(_, _) => BuildStep(w, s, e);
    case WriteConfig(_) => BuildStep(w, s, e);
    case WriteManifest(_) => BuildStep(w, s, e);
    case Dispatch(_, _) => PullStep(w, s, e);
    case Check(_, _) => PullStep(w, s, e);
    case Fetch(_, _) => PullStep(w, s, e);
    case Collect(j) => CollectStep(w, s, j);
    case ReadIndex(j) =>
      assert PhaseInv(w, s, j);
      MoveKeepsInv(w, s, Step(w, s, e).value, j);
    case WriteIndex(j) => WriteIndexStep(w, s, j);
    case Annotate(r, key, action) => AnnotateStep(w, s, r, key, action);
    case Fail(j) => MoveKeepsInv(w, s, Step(w, s, e).value, j);
  }

  lemma {:induction false} RunInv(w: World, s: State, es: seq<Event>)
    requires Inv(w, s) && WorldOk(w, s.objects) && Run(w, s, es).Some?
    ensures Inv(w, Run(w, s, es).value)
    decreases |es|
  {
    if es != [] {
      StepInv(w, s, es[0]);
      RunInv(w, Step(w, s, es[0]).value, es[1..]);
    }
  }

  /** A store at rest, before the jobs start. */
  ghost predicate Initial(w: World, s: State) {
    && AllBacked(s.kv, s.idx) && Genuine(w, s.idx) && Faithful(w, s.kv)
    && |s.phases| == |w.jobs| && forall j: nat :: j < |w.jobs| ==> s.phases[j] == StartPhase(w.jobs[j])
  }

  lemma StartInv(w: World, s: State)
    requires Initial(w, s)
    ensures Inv(w, s)
  {
    forall j: nat | j < |w.jobs| ensures PhaseInv(w, s, j) {
      if w.jobs[j].Pull? {
        P.StartInv(Keys(w.jobs[j].items), w.jobs[j].limit);
      }
    }
  }

  /** No dangling reference. Over every interleaving of builds, pulls, tags and annotations, any of which may
      fail at any point and whose index updates may overtake each other, every index entry's manifest and
      that manifest's config are in the key-value store; so no lookup ever fails on a missing blob. */
  lemma NoDanglingReference(w: World, s: State, es: seq<Event>)
    requires Initial(w, s) && WorldOk(w, s.objects) && Run(w, s, es).Some?
    ensures var r := Run(w, s, es).value; AllBacked(r.kv, r.idx) && AllResolve(r.kv, r.idx)
  {
    StartInv(w, s);
    RunInv(w, s, es);
    var r := Run(w, s, es).value;
    forall d | d in r.idx ensures Resolves(r.kv, d) {
      assert Backed(r.kv, d);
    }
  }

  /** No build, pull or tag puts anything into the object store: layers are unpacked elsewhere, and what `Exists`
      finds of a built one is its record in the key-value store. */
  lemma {:induction false} ObjectsStay(w: World, s: State, es: seq<Event>)
    requires Run(w, s, es).Some?
    ensures Run(w, s, es).value.objects == s.objects
    decreases |es|
  {
    if es != [] {
      StepKeepsObjects(w, s, es[0]);
      hide Step;
      ObjectsStay(w, Step(w, s, es[0]).value, es[1..]);
    }
  }

  lemma StepKeepsObjects(w: World, s: State, e: Event)
    requires Step(w, s, e).Some?
    ensures Step(w, s, e).value.objects == s.objects
  {
    hide P.Step, Keys, P.Succeeded;
  }

  // ----- when a pull's own config is missing

  /** Job `j`'s workers only. */
  predicate OwnMove(e: Event, j: nat) {
    (e.Dispatch? || e.Check? || e.Fetch?) && e.j == j
  }

  /** During a pull running alone, a digest enters the key-value store only by being its first item's
      plain content, and only when the object store does not have it. */
  ghost predicate Alone(w: World, s0: State, s: State, j: nat, d: string) {
    && j < |w.jobs| && j < |s.phases| && w.jobs[j].Pull? && s.phases[j].Pulling? && PhaseInv(w, s, j)
    && s.objects == s0.objects && s0.kv.Keys <= s.kv.Keys
    && (forall i: nat :: i < |w.jobs[j].items| && s.phases[j].fetching[i] ==> w.jobs[j].items[i].digest !in s.objects)
    && (d in s.kv ==> d in s0.kv || (FirstIsPlain(w.jobs[j].items, d) && d !in s.objects))
  }

  lemma AloneStep(w: World, s0: State, s: State, j: nat, d: string, e: Event)
    requires Alone(w, s0, s, j, d) && OwnMove(e, j) && Step(w, s, e).Some?
    ensures Alone(w, s0, Step(w, s, e).value, j, d)
  {
    match e
    case Dispatch(_, m) => DispatchPhase(w, s, j, m);
    case Check(_, i) => CheckPhase(w, s, j, i);
    case Fetch(_, i) =>
      FetchPhase(w, s, j, i);
      var job := w.jobs[j];
      P.Launched(Keys(job.items), job.limit, s.phases[j].pool, i);
      forall k | 0 <= k < i ensures job.items[k].digest != job.items[i].digest {
        assert Keys(job.items)[k] != Keys(job.items)[i];
      }
      if d == job.items[i].digest && !job.items[i].isTar {
        assert FirstIsPlain(job.items, d);
      }
  }

  lemma {:induction false} AloneRun(w: World, s0: State, s: State, j: nat, d: string, es: seq<Event>)
    requires Alone(w, s0, s, j, d) && (forall e :: e in es ==> OwnMove(e, j)) && Run(w, s, es).Some?
    ensures Alone(w, s0, Run(w, s, es).value, j, d)
    decreases |es|
  {
    if es != [] {
      assert es[0] in es;
      AloneStep(w, s0, s, j, d, es[0]);
      AloneRun(w, s0, Step(w, s, es[0]).value, j, d, es[1..]);
    }
  }

  /** A pull running alone and succeeding leaves the config (or the manifest) `d` it lists in the key-value
      store exactly when it was there before, or the first item with that digest is no tar layer and the
      object store does not have it. Otherwise the index entry it goes on to write dangles. */
  lemma PulledExactly(w: World, s: State, j: nat, d: string, es: seq<Event>)
    requires j < |w.jobs| && j < |s.phases| && w.jobs[j].Pull? && s.phases[j] == StartPhase(w.jobs[j])
    requires (forall e :: e in es ==> OwnMove(e, j)) && Run(w, s, es).Some?
    requires var p := Run(w, s, es).value.phases;
             j < |p| && p[j].Pulling? && P.Succeeded(Keys(w.jobs[j].items), p[j].pool)
    ensures d in Run(w, s, es).value.kv <==>
              d in s.kv || (FirstIsPlain(w.jobs[j].items, d) && d !in s.objects)
  {
    P.StartInv(Keys(w.jobs[j].items), w.jobs[j].limit);
    AloneRun(w, s, s, j, d, es);
    var r := Run(w, s, es).value;
    if d !in s.kv && FirstIsPlain(w.jobs[j].items, d) && d !in s.objects {
      PulledPlain(w, r, j, d);
    }
  }

  // ----- what the two transactions of index cost

  lemma RunFour(w: World, s: State, a: Event, b: Event, c: Event, d: Event)
    requires Step(w, s, a).Some?
    requires var s1 := Step(w, s, a).value;
             Step(w, s1, b).Some? && var s2 := Step(w, s1, b).value;
             Step(w, s2, c).Some? && Step(w, Step(w, s2, c).value, d).Some?
    ensures Run(w, s, [a, b, c, d]) ==
            Step(w, Step(w, Step(w, Step(w, s, a).value, b).value, c).value, d)
  {
    assert [a, b, c, d][1..] == [b, c, d] && [b, c, d][1..] == [c, d] && [c, d][1..] == [d] && [d][1..] == [];
    var s1 := Step(w, s, a).value;
    var s2 := Step(w, s1, b).value;
    var s3 := Step(w, s2, c).value;
    var s4 := Step(w, s3, d).value;
    assert Run(w, s4, []) == Some(s4);
    assert Run(w, s3, [d]) == Some(s4);
    assert Run(w, s2, [c, d]) == Run(w, s3, [d]);
  }

  /** Two operations that both read the index before either writes it back both report success, and the
      name of the one that wrote first is not in the index. */
  lemma OvertakenIndexIsLost(w: World, s: State, j: nat, k: nat)
    requires At(w, s, j) && At(w, s, k) && j != k && !w.jobs[j].Tag? && !w.jobs[k].Tag?
    requires s.phases[j].Ready? && s.phases[k].Ready?
    requires w.jobs[j].reference != w.jobs[k].reference && !HasRef(s.idx, w.jobs[j].reference)
    ensures var es := [ReadIndex(j), ReadIndex(k), WriteIndex(j), WriteIndex(k)];
            && Run(w, s, es).Some?
            && var r := Run(w, s, es).value;
               r.phases == s.phases[j := Done][k := Done] && !HasRef(r.idx, w.jobs[j].reference)
  {
    var s1 := Step(w, s, ReadIndex(j)).value;
    var s2 := Step(w, s1, ReadIndex(k)).value;
    var s3 := Step(w, s2, WriteIndex(j)).value;
    var s4 := Step(w, s3, WriteIndex(k)).value;
    RunFour(w, s, ReadIndex(j), ReadIndex(k), WriteIndex(j), WriteIndex(k));
    var r2, d2 := w.jobs[k].reference, w.jobs[k].desc;
    assert s4.idx == Indexed(s.idx, r2, d2);
    if HasRef(s.idx, r2) {
      HasRefSame(s4.idx, s.idx, w.jobs[j].reference);
    } else {
      HasRefAppend(s.idx, Entry(r2, d2), w.jobs[j].reference);
    }
    assert s4.phases == s.phases[j := Done][k := Done];
  }
}
