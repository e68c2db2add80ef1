/** Pushing images to a registry (internal/repo/local.go): blobs before manifest, as the section
    "Pushing Manifests" of the OCI Distribution Specification v1.1 asks. */
module Push {
  import opened Basics
  import opened Oci
  import P = WorkerPool

  /** One push: the manifest's config and layers in that order, the tag, and the concurrency. */
  datatype Job = Job(manifest: Manifest, tag: string, limit: nat)

  datatype Phase = Pushing(pool: P.Pool<string>) | Pushed | Failed

  /** The registry: its blobs, and the manifests put there by PushReference, by tag. */
  datatype Remote = Remote(blobs: set<string>, tags: map<string, Manifest>)

  datatype State = State(remote: Remote, phases: seq<Phase>)

  datatype Event =
    | Dispatch(j: nat, m: P.Move)
    | Upload(j: nat, i: nat)
    | BlobDone(j: nat, i: nat)
    | PushReference(j: nat)
    | Fail(j: nat)
    | OtherClient(digest: string)

  function Items(m: Manifest): seq<string> {
    [m.config.digest] + seq(|m.layers|, i requires 0 <= i < |m.layers| => m.layers[i].digest)
  }

  function Keys(m: Manifest): seq<Option<string>> {
    seq(|Items(m)|, i requires 0 <= i < |Items(m)| => Some(Items(m)[i]))
  }

  predicate At(jobs: seq<Job>, s: State, j: nat) {
    j < |jobs| && j < |s.phases| && s.phases[j].Pushing?
  }

  /** One step, or None where the event is not possible. A blob worker ends well when the registry has its
      blob: it was there, or the upload succeeded; an upload may also arrive although its worker fails. */
  function Step(jobs: seq<Job>, s: State, e: Event): Option<State> {
    match e
    case Dispatch(j, m) =>
      if At(jobs, s, j) && (m.Skip? || m.Launch? || m.Interrupt? || m.Fail?) then
        var p := P.Step(Keys(jobs[j].manifest), jobs[j].limit, s.phases[j].pool, m);
        if p.Some? then Some(s.(phases := s.phases[j := Pushing(p.value)])) else None
      else None
    case Upload(j, i) =>
      if At(jobs, s, j) && i < |Items(jobs[j].manifest)| && s.phases[j].pool.Is(i, P.Running) then
        Some(s.(remote := s.remote.(blobs := s.remote.blobs + {Items(jobs[j].manifest)[i]})))
      else None
    case BlobDone(j, i) =>
      if At(jobs, s, j) && i < |Items(jobs[j].manifest)| && Items(jobs[j].manifest)[i] in s.remote.blobs then
        var p := P.Step(Keys(jobs[j].manifest), jobs[j].limit, s.phases[j].pool, P.Finish(i));
        if p.Some? then Some(s.(phases := s.phases[j := Pushing(p.value)])) else None
      else None
    case PushReference(j) =>
      if At(jobs, s, j) && P.Succeeded(Keys(jobs[j].manifest), s.phases[j].pool) then
        Some(State(s.remote.(tags := s.remote.tags[jobs[j].tag := jobs[j].manifest]), s.phases[j := Pushed]))
      else None
    case Fail(j) => if At(jobs, s, j) then Some(s.(phases := s.phases[j := Failed])) else None
    case OtherClient(digest) => Some(s.(remote := s.remote.(blobs := s.remote.blobs + {digest})))
  }

  function Run(jobs: seq<Job>, s: State, es: seq<Event>): Option<State>
    decreases |es|
  {
    if es == [] then Some(s)
    else
      var next := Step(jobs, s, es[0]);
      if next.None? then None else Run(jobs, next.value, es[1..])
  }

  function Start(jobs: seq<Job>, remote: Remote): State {
    State(remote, seq(|jobs|, j requires 0 <= j < |jobs| => Pushing(P.Start(|Items(jobs[j].manifest)|))))
  }

  /** A manifest whose config and layers are all there. */
  predicate Complete(blobs: set<string>, m: Manifest) {
    m.config.digest in blobs && forall l :: l in m.layers ==> l.digest in blobs
  }

  ghost predicate PhaseInv(jobs: seq<Job>, s: State, j: nat)
    requires j < |jobs| && j < |s.phases|
  {
    s.phases[j].Pushing? ==>
      && P.Inv(Keys(jobs[j].manifest), jobs[j].limit, s.phases[j].pool)
      && forall i: nat :: i < |Items(jobs[j].manifest)| && s.phases[j].pool.Is(i, P.Finished) ==>
           Items(jobs[j].manifest)[i] in s.remote.blobs
  }

  ghost predicate TagsComplete(r: Remote) {
    forall t :: t in r.tags ==> Complete(r.blobs, r.tags[t])
  }

  ghost predicate Inv(jobs: seq<Job>, s: State) {
    && |s.phases| == |jobs|
    && TagsComplete(s.remote)
    && forall j: nat :: j < |jobs| ==> PhaseInv(jobs, s, j)
  }

  lemma MoveKeepsInv(jobs: seq<Job>, s: State, t: State, j: nat)
    requires Inv(jobs, s) && j < |jobs| && |t.phases| == |s.phases|
    requires forall k: nat :: k < |s.phases| && k != j ==> t.phases[k] == s.phases[k]
    requires s.remote.blobs <= t.remote.blobs && TagsComplete(t.remote) && PhaseInv(jobs, t, j)
    ensures Inv(jobs, t)
  {
    forall k: nat | k < |jobs| ensures PhaseInv(jobs, t, k) {
      assert PhaseInv(jobs, s, k);
    }
  }

  /** When every worker has finished well, the registry has the whole image. */
  lemma SucceededIsComplete(jobs: seq<Job>, s: State, j: nat)
    requires j < |jobs| && j < |s.phases| && PhaseInv(jobs, s, j) && s.phases[j].Pushing?
    requires P.Succeeded(Keys(jobs[j].manifest), s.phases[j].pool)
    ensures Complete(s.remote.blobs, jobs[j].manifest)
  {
    var m, items := jobs[j].manifest, Items(jobs[j].manifest);
    forall k: nat | k < |items| ensures items[k] in s.remote.blobs {
      assert Keys(m)[k] == Some(items[k]);
      var i := P.FirstWith(Keys(m), items[k]);
      P.AllFinished(Keys(m), jobs[j].limit, s.phases[j].pool, i);
    }
    assert items[0] == m.config.digest;
    forall l | l in m.layers ensures l.digest in s.remote.blobs {
      var k :| 0 <= k < |m.layers| && m.layers[k] == l;
      assert items[k + 1] == l.digest;
    }
  }

  /** A move of the pool alone, finishing only a worker whose blob is there. */
  lemma PoolMove(jobs: seq<Job>, s: State, t: State, j: nat, m: P.Move)
    requires Inv(jobs, s) && At(jobs, s, j)
    requires P.Step(Keys(jobs[j].manifest), jobs[j].limit, s.phases[j].pool, m).Some?
    requires t == s.(phases := s.phases[j :=
                       Pushing(P.Step(Keys(jobs[j].manifest), jobs[j].limit, s.phases[j].pool, m).value)])
    requires m.Finish? && m.i < |Items(jobs[j].manifest)| ==> Items(jobs[j].manifest)[m.i] in s.remote.blobs
    ensures Inv(jobs, t)
  {
    hide P.Step, P.Inv, Items, Keys;
    assert PhaseInv(jobs, s, j);
    P.StepInv(Keys(jobs[j].manifest), jobs[j].limit, s.phases[j].pool, m);
    P.FinishedFrom(Keys(jobs[j].manifest), jobs[j].limit, s.phases[j].pool, m);
    MoveKeepsInv(jobs, s, t, j);
  }

  lemma StepInv(jobs: seq<Job>, s: State, e: Event)
    requires Inv(jobs, s) && Step(jobs, s, e).Some?
    ensures Inv(jobs, Step(jobs, s, e).value)
  {
    var t := Step(jobs, s, e).value;
    match e
    case Dispatch(j, m) => PoolMove(jobs, s, t, j, m);
    case BlobDone(j, i) => PoolMove(jobs, s, t, j, P.Finish(i));
    case PushReference(j) =>
      assert PhaseInv(jobs, s, j);
      SucceededIsComplete(jobs, s, j);
      MoveKeepsInv(jobs, s, t, j);
    case Upload(j, i) =>
      assert PhaseInv(jobs, s, j);
      MoveKeepsInv(jobs, s, t, j);
    case Fail(j) => MoveKeepsInv(jobs, s, t, j);
    case OtherClient(_) =>
      forall k: nat | k < |jobs| ensures PhaseInv(jobs, t, k) {
        assert PhaseInv(jobs, s, k);
      }
  }

  lemma {:induction false} RunInv(jobs: seq<Job>, s: State, es: seq<Event>)
    requires Inv(jobs, s) && Run(jobs, s, es).Some?
    ensures Inv(jobs, Run(jobs, s, es).value)
    decreases |es|
  {
    if es != [] {
      StepInv(jobs, s, es[0]);
      RunInv(jobs, Step(jobs, s, es[0]).value, es[1..]);
    }
  }

  /** Blobs before manifest: over every interleaving of any number of pushes and of other clients, no
      manifest that PushReference put on the registry lacks its config or a layer; and no push ever has
      more than its concurrency in flight. */
  lemma ManifestsAreComplete(jobs: seq<Job>, remote: Remote, es: seq<Event>)
    requires TagsComplete(remote) && Run(jobs, Start(jobs, remote), es).Some?
    ensures var r := Run(jobs, Start(jobs, remote), es).value;
            && TagsComplete(r.remote) && |r.phases| == |jobs|
            && forall j: nat :: j < |jobs| && r.phases[j].Pushing? ==>
                 P.Count(r.phases[j].pool.status) <= jobs[j].limit
  {
    forall j: nat | j < |jobs| ensures PhaseInv(jobs, Start(jobs, remote), j) {
      P.StartInv(Keys(jobs[j].manifest), jobs[j].limit);
    }
    RunInv(jobs, Start(jobs, remote), es);
    var r := Run(jobs, Start(jobs, remote), es).value;
    forall j: nat | j < |jobs| && r.phases[j].Pushing? ensures P.Count(r.phases[j].pool.status) <= jobs[j].limit {
      assert PhaseInv(jobs, r, j);
    }
  }

  /** Worker `i` was for digest `d` and finished well. */
  predicate Handles(m: Manifest, p: P.Pool<string>, i: nat, d: string) {
    i < |Items(m)| && Items(m)[i] == d && p.Is(i, P.Finished)
  }

  /** On a push whose workers all succeeded each distinct digest was handled by exactly one worker. */
  lemma EachBlobOnce(jobs: seq<Job>, remote: Remote, es: seq<Event>, j: nat, d: string)
    requires Run(jobs, Start(jobs, remote), es).Some? && TagsComplete(remote) && j < |jobs|
             && d in Items(jobs[j].manifest)
    requires var r := Run(jobs, Start(jobs, remote), es).value;
             j < |r.phases| && r.phases[j].Pushing? && P.Succeeded(Keys(jobs[j].manifest), r.phases[j].pool)
    ensures var p := Run(jobs, Start(jobs, remote), es).value.phases[j].pool;
            && (exists i: nat :: Handles(jobs[j].manifest, p, i, d))
            && (forall a: nat, b: nat :: Handles(jobs[j].manifest, p, a, d) && Handles(jobs[j].manifest, p, b, d) ==>
                  a == b)
  {
    forall k: nat | k < |jobs| ensures PhaseInv(jobs, Start(jobs, remote), k) {
      P.StartInv(Keys(jobs[k].manifest), jobs[k].limit);
    }
    RunInv(jobs, Start(jobs, remote), es);
    var r := Run(jobs, Start(jobs, remote), es).value;
    assert PhaseInv(jobs, r, j);
    var keys := Keys(jobs[j].manifest);
    var k :| 0 <= k < |Items(jobs[j].manifest)| && Items(jobs[j].manifest)[k] == d;
    assert keys[k] == Some(d);
    P.EachKeyOnce(keys, jobs[j].limit, r.phases[j].pool, d);
    var i: nat :| r.phases[j].pool.Is(i, P.Finished) && P.First(keys, i) && keys[i] == Some(d);
    assert Handles(jobs[j].manifest, r.phases[j].pool, i, d);
    forall a: nat, b: nat | Handles(jobs[j].manifest, r.phases[j].pool, a, d)
        && Handles(jobs[j].manifest, r.phases[j].pool, b, d)
      ensures a == b
    {
      assert keys[a] == keys[b];
    }
  }

  // ----- what a push leaves on the registry

  /** The last job of the run that put its manifest under this tag. */
  function LastPush(jobs: seq<Job>, es: seq<Event>, tag: string): Option<nat> {
    if es == [] then None
    else
      var e := es[|es| - 1];
      if e.PushReference? && e.j < |jobs| && jobs[e.j].tag == tag then Some(e.j)
      else LastPush(jobs, es[..|es| - 1], tag)
  }

  lemma {:induction false} RunSnoc(jobs: seq<Job>, s: State, es: seq<Event>, e: Event)
    ensures Run(jobs, s, es + [e]) == if Run(jobs, s, es).None? then None else Step(jobs, Run(jobs, s, es).value, e)
    decreases |es|
  {
    if es == [] {
      assert ([] + [e])[1..] == [];
    } else {
      assert (es + [e])[1..] == es[1..] + [e];
      var next := Step(jobs, s, es[0]);
      if next.Some? {
        RunSnoc(jobs, next.value, es[1..], e);
      }
    }
  }

  /** What one step does to tags and outcomes. */
  lemma StepTags(jobs: seq<Job>, s: State, e: Event)
    requires Step(jobs, s, e).Some?
    ensures var t := Step(jobs, s, e).value;
            && |t.phases| == |s.phases|
            && t.remote.tags == (if e.PushReference? then s.remote.tags[jobs[e.j].tag := jobs[e.j].manifest]
                                 else s.remote.tags)
            && forall j: nat :: j < |s.phases| ==>
                 (t.phases[j].Pushed? <==> s.phases[j].Pushed? || e == PushReference(j))
    ensures e.PushReference? ==> e.j < |jobs| && e.j < |s.phases|
  {
    hide P.Step, P.Succeeded, Items, Keys;
  }

  /** Over every interleaving: which manifest a tag holds is told by the last PushReference for it, a tag nobody
      pushed is as it was, and a push is done exactly when its PushReference happened. */
  lemma {:induction false} TagsExactly(jobs: seq<Job>, remote: Remote, es: seq<Event>)
    requires Run(jobs, Start(jobs, remote), es).Some?
    ensures var r := Run(jobs, Start(jobs, remote), es).value;
            && |r.phases| == |jobs|
            && (forall tag :: TagNow(jobs, remote, es, r.remote, tag))
            && (forall j: nat :: j < |jobs| ==> (r.phases[j].Pushed? <==> PushReference(j) in es))
    decreases |es|
  {
    if es != [] {
      var front, e := es[..|es| - 1], es[|es| - 1];
      assert es == front + [e];
      RunSnoc(jobs, Start(jobs, remote), front, e);
      TagsExactly(jobs, remote, front);
      StepTags(jobs, Run(jobs, Start(jobs, remote), front).value, e);
      hide Step, Run, Start;
      var r := Run(jobs, Start(jobs, remote), es).value;
      forall tag ensures TagNow(jobs, remote, es, r.remote, tag) {
        assert TagNow(jobs, remote, front, Run(jobs, Start(jobs, remote), front).value.remote, tag);
      }
    }
  }

  ghost predicate TagNow(jobs: seq<Job>, remote: Remote, es: seq<Event>, r: Remote, tag: string) {
    var last := LastPush(jobs, es, tag);
    if last.Some? then last.value < |jobs| && tag in r.tags && r.tags[tag] == jobs[last.value].manifest
    else (tag in r.tags <==> tag in remote.tags) && (tag in r.tags ==> r.tags[tag] == remote.tags[tag])
  }

  lemma {:induction false} LastPushIs(jobs: seq<Job>, es: seq<Event>, j: nat)
    requires j < |jobs| && PushReference(j) in es
    ensures var last := LastPush(jobs, es, jobs[j].tag);
            last.Some? && last.value < |jobs| && jobs[last.value].tag == jobs[j].tag && PushReference(last.value) in es
  {
    var front, e := es[..|es| - 1], es[|es| - 1];
    assert es == front + [e];
    if !(e.PushReference? && e.j < |jobs| && jobs[e.j].tag == jobs[j].tag) {
      LastPushIs(jobs, front, j);
    }
  }

  /** A push that is done has a manifest under its tag: its own, or that of another push of the same tag that is
      done too. */
  lemma PushedIsThere(jobs: seq<Job>, remote: Remote, es: seq<Event>, j: nat)
    requires Run(jobs, Start(jobs, remote), es).Some? && j < |jobs|
    requires var phases := Run(jobs, Start(jobs, remote), es).value.phases; j < |phases| && phases[j].Pushed?
    ensures var r := Run(jobs, Start(jobs, remote), es).value;
            && |r.phases| == |jobs| && jobs[j].tag in r.remote.tags
            && exists k: nat :: k < |jobs| && r.phases[k].Pushed? && jobs[k].tag == jobs[j].tag
                                && r.remote.tags[jobs[j].tag] == jobs[k].manifest
  {
    TagsExactly(jobs, remote, es);
    LastPushIs(jobs, es, j);
    assert TagNow(jobs, remote, es, Run(jobs, Start(jobs, remote), es).value.remote, jobs[j].tag);
  }

  // ----- a push can succeed

  lemma RunCons(jobs: seq<Job>, s: State, e: Event, es: seq<Event>)
    requires Step(jobs, s, e).Some?
    ensures Run(jobs, s, [e] + es) == Run(jobs, Step(jobs, s, e).value, es)
  {
    assert ([e] + es)[1..] == es;
  }

  function ItemSet(m: Manifest, n: nat): set<string>
    requires n <= |Items(m)|
  {
    set d | d in Items(m)[..n]
  }

  /** Job `j` has pushed its first `n` blobs, and nothing else has happened. */
  ghost predicate Onto(jobs: seq<Job>, remote: Remote, j: nat, n: nat, s: State) {
    && j < |jobs| && n <= |Items(jobs[j].manifest)| && j < |s.phases| && s.phases[j].Pushing?
    && s.phases == Start(jobs, remote).phases[j := s.phases[j]]
    && P.Upto(Keys(jobs[j].manifest), jobs[j].limit, s.phases[j].pool, n)
    && s.remote == Remote(remote.blobs + ItemSet(jobs[j].manifest, n), remote.tags)
  }

  lemma MoreItems(m: Manifest, n: nat)
    requires n < |Items(m)|
    ensures ItemSet(m, n + 1) == ItemSet(m, n) + {Items(m)[n]}
    ensures !P.First(Keys(m), n) ==> Items(m)[n] in ItemSet(m, n)
  {
    assert Items(m)[..n + 1] == Items(m)[..n] + [Items(m)[n]];
    if !P.First(Keys(m), n) {
      var i :| 0 <= i < n && Keys(m)[i] == Keys(m)[n];
      assert Items(m)[..n][i] == Items(m)[n];
    }
  }

  lemma PushSkip(jobs: seq<Job>, remote: Remote, j: nat, n: nat, s: State)
    requires Onto(jobs, remote, j, n, s) && n < |Items(jobs[j].manifest)| && !P.First(Keys(jobs[j].manifest), n)
    ensures Step(jobs, s, Dispatch(j, P.Skip)).Some?
    ensures Onto(jobs, remote, j, n + 1, Step(jobs, s, Dispatch(j, P.Skip)).value)
  {
    MoreItems(jobs[j].manifest, n);
    P.UptoSkip(Keys(jobs[j].manifest), jobs[j].limit, s.phases[j].pool, n);
    hide P.Step, P.Upto, P.First, Items, Keys;
  }

  /** The three steps of one worker. */
  lemma PushOne(jobs: seq<Job>, remote: Remote, j: nat, n: nat, s: State)
    requires Onto(jobs, remote, j, n, s) && n < |Items(jobs[j].manifest)| && P.First(Keys(jobs[j].manifest), n)
    requires jobs[j].limit >= 1
    ensures Step(jobs, s, Dispatch(j, P.Launch)).Some?
    ensures var s1 := Step(jobs, s, Dispatch(j, P.Launch)).value;
            && Step(jobs, s1, Upload(j, n)).Some?
            && var s2 := Step(jobs, s1, Upload(j, n)).value;
            && Step(jobs, s2, BlobDone(j, n)).Some?
            && Onto(jobs, remote, j, n + 1, Step(jobs, s2, BlobDone(j, n)).value)
  {
    var m, p := jobs[j].manifest, s.phases[j].pool;
    MoreItems(m, n);
    P.UptoLaunch(Keys(m), jobs[j].limit, p, n);
    hide P.Step, P.Upto, P.First, Items, Keys, ItemSet, Start;
    var q := P.Step(Keys(m), jobs[j].limit, p, P.Launch).value;
    var s1 := Step(jobs, s, Dispatch(j, P.Launch)).value;
    assert s1 == s.(phases := s.phases[j := Pushing(q)]);
    var s2 := Step(jobs, s1, Upload(j, n)).value;
    assert s2 == s1.(remote := s1.remote.(blobs := s1.remote.blobs + {Items(m)[n]}));
  }

  lemma {:induction false} PushFrom(jobs: seq<Job>, remote: Remote, j: nat, n: nat, s: State) returns (es: seq<Event>)
    requires Onto(jobs, remote, j, n, s) && jobs[j].limit >= 1
    ensures Run(jobs, s, es).Some? && Onto(jobs, remote, j, |Items(jobs[j].manifest)|, Run(jobs, s, es).value)
    decreases |Items(jobs[j].manifest)| - n
  {
    if n == |Items(jobs[j].manifest)| {
      es := [];
    } else {
      if P.First(Keys(jobs[j].manifest), n) {
        PushOne(jobs, remote, j, n, s);
        hide Step, Onto, Items;
        var s1 := Step(jobs, s, Dispatch(j, P.Launch)).value;
        var s2 := Step(jobs, s1, Upload(j, n)).value;
        var s3 := Step(jobs, s2, BlobDone(j, n)).value;
        es := PushFrom(jobs, remote, j, n + 1, s3);
        RunCons(jobs, s2, BlobDone(j, n), es);
        RunCons(jobs, s1, Upload(j, n), [BlobDone(j, n)] + es);
        RunCons(jobs, s, Dispatch(j, P.Launch), [Upload(j, n)] + ([BlobDone(j, n)] + es));
        es := [Dispatch(j, P.Launch)] + ([Upload(j, n)] + ([BlobDone(j, n)] + es));
      } else {
        PushSkip(jobs, remote, j, n, s);
        hide Step, Onto, Items;
        var rest := PushFrom(jobs, remote, j, n + 1, Step(jobs, s, Dispatch(j, P.Skip)).value);
        RunCons(jobs, s, Dispatch(j, P.Skip), rest);
        es := [Dispatch(j, P.Skip)] + rest;
      }
    }
  }

  /** Any push that may run at least one worker has a run that ends with exactly its manifest under its tag and its
      blobs on the registry. */
  lemma PushSucceeds(jobs: seq<Job>, remote: Remote, j: nat) returns (es: seq<Event>)
    requires j < |jobs| && jobs[j].limit >= 1
    ensures var m, s := jobs[j].manifest, Start(jobs, remote);
            var pushed := Remote(remote.blobs + (set d | d in Items(m)), remote.tags[jobs[j].tag := m]);
            Run(jobs, s, es) == Some(State(pushed, s.phases[j := Pushed]))
  {
    var m, s := jobs[j].manifest, Start(jobs, remote);
    P.UptoStart(Keys(m), jobs[j].limit);
    assert ItemSet(m, 0) == {} && s.phases == s.phases[j := s.phases[j]];
    var rest := PushFrom(jobs, remote, j, 0, s);
    var r := Run(jobs, s, rest).value;
    P.UptoAll(Keys(m), jobs[j].limit, r.phases[j].pool);
    assert Items(m)[..|Items(m)|] == Items(m);
    hide P.Succeeded, P.Upto, Items, Keys, Start;
    RunSnoc(jobs, s, rest, PushReference(j));
    es := rest + [PushReference(j)];
    assert s.phases[j := r.phases[j]][j := Pushed] == s.phases[j := Pushed];
  }
}
