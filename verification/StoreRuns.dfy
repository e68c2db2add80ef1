/** What builds, pulls and tags leave when they are done, and that each can be (internal/repo/local.go). */
module StoreRuns {
  import opened Basics
  import opened Oci
  import opened LayerIndex
  import opened Store
  import opened StoreIndex
  import P = WorkerPool

  // ----- layers are found

  /** Whether job `j` has got past its layers. */
  predicate PastLayers(p: Phase) {
    p.ConfigWritten? || p.Ready? || p.Holding? || p.Done?
  }

  /** The layers a build has got past are recorded. */
  ghost predicate Recorded(w: World, s: State, j: nat) {
    j < |w.jobs| && j < |s.phases| && w.jobs[j].Build? ==>
      && (s.phases[j].Building? ==> s.phases[j].done <= s.kv.Keys)
      && (PastLayers(s.phases[j]) ==> w.jobs[j].layerKeys <= s.kv.Keys)
  }

  lemma KeysStay(w: World, s: State, e: Event)
    requires Step(w, s, e).Some?
    ensures s.kv.Keys <= Step(w, s, e).value.kv.Keys
  {
    hide P.Step, P.Succeeded, Keys;
  }

  lemma RecordedStep(w: World, s: State, e: Event, j: nat)
    requires Recorded(w, s, j) && Step(w, s, e).Some?
    ensures Recorded(w, Step(w, s, e).value, j)
  {
    KeysStay(w, s, e);
    hide P.Step, P.Succeeded, Keys, Exists;
  }

  lemma {:induction false} RecordedRun(w: World, s: State, es: seq<Event>, j: nat)
    requires Recorded(w, s, j) && Run(w, s, es).Some?
    ensures Recorded(w, Run(w, s, es).value, j)
    decreases |es|
  {
    if es != [] {
      RecordedStep(w, s, es[0], j);
      hide Step;
      RecordedRun(w, Step(w, s, es[0]).value, es[1..], j);
    }
  }

  /** Over every interleaving: a build that got as far as its config, and so every build that is done, has every layer
      where Exists finds it. */
  lemma BuiltLayersAreFound(w: World, s: State, es: seq<Event>, j: nat, key: string)
    requires j < |w.jobs| && j < |s.phases| && w.jobs[j].Build? && s.phases[j] == StartPhase(w.jobs[j])
    requires Run(w, s, es).Some? && key in w.jobs[j].layerKeys
    ensures var r := Run(w, s, es).value;
            j < |r.phases| && PastLayers(r.phases[j]) ==> Exists(r, key)
  {
    RecordedRun(w, s, es, j);
  }

  // ----- every job can be done

  lemma {:induction false} RunJoins(w: World, s: State, a: seq<Event>, b: seq<Event>)
    requires Run(w, s, a).Some?
    ensures Run(w, s, a + b) == Run(w, Run(w, s, a).value, b)
    decreases |a|
  {
    if a == [] {
      assert a + b == b;
    } else {
      assert (a + b)[1..] == a[1..] + b;
      RunJoins(w, Step(w, s, a[0]).value, a[1..], b);
    }
  }

  /** From `s` to `r` only job `j` and the key-value store have moved, and no key is gone. */
  ghost predicate OnlyJob(s: State, r: State, j: nat, p: Phase) {
    && j < |s.phases| && r.phases == s.phases[j := p] && r.idx == s.idx && r.objects == s.objects
    && s.kv.Keys <= r.kv.Keys
  }

  /** Recording the layers that are left, in any order. */
  lemma {:induction false} MarkersRun(w: World, s: State, j: nat) returns (es: seq<Event>)
    requires At(w, s, j) && w.jobs[j].Build? && s.phases[j].Building? && s.phases[j].done <= w.jobs[j].layerKeys
    ensures Run(w, s, es).Some? && OnlyJob(s, Run(w, s, es).value, j, Building(w.jobs[j].layerKeys))
    decreases w.jobs[j].layerKeys - s.phases[j].done
  {
    if w.jobs[j].layerKeys <= s.phases[j].done {
      assert s.phases[j].done == w.jobs[j].layerKeys;
      assert s.phases[j := s.phases[j]] == s.phases;
      es := [];
    } else {
      var key :| key in w.jobs[j].layerKeys && key !in s.phases[j].done;
      var next := Step(w, s, SetMarker(j, key)).value;
      assert w.jobs[j].layerKeys - next.phases[j].done < w.jobs[j].layerKeys - s.phases[j].done;
      var rest := MarkersRun(w, next, j);
      RunSnoc(w, s, [], SetMarker(j, key));
      RunJoins(w, s, [] + [SetMarker(j, key)], rest);
      es := [] + [SetMarker(j, key)] + rest;
    }
  }

  /** The end that builds, pulls and tags share: read the index, write it. */
  lemma IndexRuns(w: World, s: State, j: nat) returns (es: seq<Event>)
    requires At(w, s, j) && (s.phases[j].Ready? || (w.jobs[j].Tag? && s.phases[j].Working?))
    requires Accepts(w.jobs[j], s.idx)
    ensures Run(w, s, es) == Some(s.(idx := Apply(s.idx, OpOf(w.jobs[j])), phases := s.phases[j := Done]))
  {
    var held := Step(w, s, ReadIndex(j)).value;
    WriteExactly(w, held, j, "");
    RunSnoc(w, s, [], ReadIndex(j));
    RunSnoc(w, s, [] + [ReadIndex(j)], WriteIndex(j));
    es := [] + [ReadIndex(j)] + [WriteIndex(j)];
    assert s.phases[j := held.phases[j]][j := Done] == s.phases[j := Done];
  }

  /** A build, from wherever its layers are: it can be done, with all its layers, its config and its manifest in the
      key-value store and its name in the index. */
  lemma BuildSucceeds(w: World, s: State, j: nat) returns (es: seq<Event>)
    requires At(w, s, j) && w.jobs[j].Build? && s.phases[j] == StartPhase(w.jobs[j])
    ensures var job := w.jobs[j];
            && Run(w, s, es).Some?
            && var r := Run(w, s, es).value;
            && r.phases == s.phases[j := Done] && r.objects == s.objects
            && r.idx == Indexed(s.idx, job.reference, job.desc)
            && job.layerKeys + {job.config, job.desc.digest} <= r.kv.Keys
            && r.kv[job.desc.digest] == w.blobs(job.desc.digest)
  {
    es := MarkersRun(w, s, j);
    RecordedRun(w, s, es, j);
    var s1 := Run(w, s, es).value;
    var s2 := Step(w, s1, WriteConfig(j)).value;
    RunSnoc(w, s, es, WriteConfig(j));
    es := es + [WriteConfig(j)];
    var s3 := Step(w, s2, WriteManifest(j)).value;
    RunSnoc(w, s, es, WriteManifest(j));
    es := es + [WriteManifest(j)];
    assert OnlyJob(s, s3, j, Ready);
    var last := IndexRuns(w, s3, j);
    RunJoins(w, s, es, last);
    es := es + last;
  }

  /** A tag of a name that is there can be done. */
  lemma TagSucceeds(w: World, s: State, j: nat) returns (es: seq<Event>)
    requires At(w, s, j) && w.jobs[j].Tag? && s.phases[j] == StartPhase(w.jobs[j]) && HasRef(s.idx, w.jobs[j].ref1)
    ensures Run(w, s, es).Some?
    ensures var r := Run(w, s, es).value;
            Copied(s.idx, w.jobs[j].ref1, w.jobs[j].ref2) == Some(r.idx) && r.phases == s.phases[j := Done]
            && r.kv == s.kv
  {
    LastOfIn(s.idx, w.jobs[j].ref1);
    es := IndexRuns(w, s, j);
  }

  /** A pull has dealt with its first `n` items and nothing is running. */
  ghost predicate PulledUpto(w: World, s0: State, s: State, j: nat, n: nat) {
    && At(w, s, j) && w.jobs[j].Pull? && s.phases[j].Pulling? && OnlyJob(s0, s, j, s.phases[j])
    && n <= |w.jobs[j].items| == |s.phases[j].fetching|
    && P.Upto(Keys(w.jobs[j].items), w.jobs[j].limit, s.phases[j].pool, n)
    && (forall i: nat :: n <= i < |w.jobs[j].items| ==> !s.phases[j].fetching[i])
  }

  lemma PullSkips(w: World, s0: State, s: State, j: nat, n: nat)
    requires PulledUpto(w, s0, s, j, n) && n < |w.jobs[j].items| && !P.First(Keys(w.jobs[j].items), n)
    ensures var es := [] + [Dispatch(j, P.Skip)];
            Run(w, s, es).Some? && PulledUpto(w, s0, Run(w, s, es).value, j, n + 1)
  {
    P.UptoSkip(Keys(w.jobs[j].items), w.jobs[j].limit, s.phases[j].pool, n);
    hide P.Step, P.Upto, P.First, Keys;
    RunSnoc(w, s, [], Dispatch(j, P.Skip));
  }

  /** One item: launched, looked up, and fetched if it is not there. */
  lemma PullerRuns(w: World, s0: State, s: State, j: nat, n: nat) returns (es: seq<Event>)
    requires PulledUpto(w, s0, s, j, n) && n < |w.jobs[j].items| && P.First(Keys(w.jobs[j].items), n)
    requires w.jobs[j].limit >= 1
    ensures Run(w, s, es).Some? && PulledUpto(w, s0, Run(w, s, es).value, j, n + 1)
  {
    P.UptoLaunch(Keys(w.jobs[j].items), w.jobs[j].limit, s.phases[j].pool, n);
    hide P.Step, P.Upto, P.First, Keys;
    var s1 := Step(w, s, Dispatch(j, P.Launch)).value;
    assert s1.phases == s.phases[j := s1.phases[j]] && s1.phases[j].fetching == s.phases[j].fetching;
    RunSnoc(w, s, [], Dispatch(j, P.Launch));
    es := [] + [Dispatch(j, P.Launch)];
    RunSnoc(w, s, es, Check(j, n));
    es := es + [Check(j, n)];
    if !Exists(s1, w.jobs[j].items[n].digest) {
      RunSnoc(w, s, es, Fetch(j, n));
      es := es + [Fetch(j, n)];
    }
  }

  lemma {:induction false} PullersRun(w: World, s0: State, s: State, j: nat, n: nat) returns (es: seq<Event>)
    requires PulledUpto(w, s0, s, j, n) && w.jobs[j].limit >= 1
    ensures Run(w, s, es).Some? && PulledUpto(w, s0, Run(w, s, es).value, j, |w.jobs[j].items|)
    decreases |w.jobs[j].items| - n
  {
    if n == |w.jobs[j].items| {
      es := [];
    } else {
      if P.First(Keys(w.jobs[j].items), n) {
        es := PullerRuns(w, s0, s, j, n);
      } else {
        PullSkips(w, s0, s, j, n);
        es := [] + [Dispatch(j, P.Skip)];
      }
      hide Run;
      var more := PullersRun(w, s0, Run(w, s, es).value, j, n + 1);
      RunJoins(w, s, es, more);
      es := es + more;
    }
  }

  /** A pull that may run at least one worker can be done, with its name in the index. */
  lemma PullSucceeds(w: World, s: State, j: nat) returns (es: seq<Event>)
    requires At(w, s, j) && w.jobs[j].Pull? && s.phases[j] == StartPhase(w.jobs[j]) && w.jobs[j].limit >= 1
    ensures Run(w, s, es).Some?
    ensures var r := Run(w, s, es).value;
            && r.phases == s.phases[j := Done] && r.idx == Indexed(s.idx, w.jobs[j].reference, w.jobs[j].desc)
            && r.objects == s.objects && s.kv.Keys <= r.kv.Keys
  {
    var job := w.jobs[j];
    P.UptoStart(Keys(job.items), job.limit);
    assert s.phases[j := s.phases[j]] == s.phases;
    es := PullersRun(w, s, s, j, 0);
    var s1 := Run(w, s, es).value;
    P.UptoAll(Keys(job.items), job.limit, s1.phases[j].pool);
    hide P.Succeeded, P.Upto, Keys, P.Step;
    var s2 := Step(w, s1, Collect(j)).value;
    RunSnoc(w, s, es, Collect(j));
    es := es + [Collect(j)];
    assert OnlyJob(s, s2, j, Ready);
    var last := IndexRuns(w, s2, j);
    RunJoins(w, s, es, last);
    es := es + last;
  }
}
