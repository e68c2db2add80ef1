/** An export that comes to its end, and with it the whole way from a workspace through an image and back
    (internal/repo/local.go). */
module ExportRuns {
  import opened Basics
  import opened Oci
  import opened Bundle
  import opened BundleFiles
  import opened Makefile
  import opened Export
  import BuildRuns
  import P = WorkerPool

  lemma {:induction false} SinkSnoc(job: SinkJob, s: SinkState, es: seq<SinkEvent>, e: SinkEvent)
    ensures SinkRun(job, s, es + [e]) ==
            if SinkRun(job, s, es).None? then None else SinkStep(job, SinkRun(job, s, es).value, e)
    decreases |es|
  {
    if es == [] {
      assert ([] + [e])[1..] == [];
    } else {
      assert (es + [e])[1..] == es[1..] + [e];
      var next := SinkStep(job, s, es[0]);
      if next.Some? {
        SinkSnoc(job, next.value, es[1..], e);
      }
    }
  }

  lemma {:induction false} SinkJoins(job: SinkJob, s: SinkState, a: seq<SinkEvent>, b: seq<SinkEvent>)
    requires SinkRun(job, s, a).Some?
    ensures SinkRun(job, s, a + b) == SinkRun(job, SinkRun(job, s, a).value, b)
    decreases |a|
  {
    if a == [] {
      assert a + b == b;
    } else {
      assert (a + b)[1..] == a[1..] + b;
      SinkJoins(job, SinkStep(job, s, a[0]).value, a[1..], b);
    }
  }

  /** The first `n` layers are dealt with, and nobody is at work. */
  ghost predicate SunkUpto(job: SinkJob, s: SinkState, n: nat) {
    && n <= |job.layers| == |s.stages| && P.Upto(Digests(job.layers), job.limit, s.pool, n)
    && (n > 0 ==> s.stages[0] == Sunk)
    && (forall i: nat :: n <= i < |s.stages| ==> s.stages[i] == Sinking.Idle)
  }

  ghost predicate HasSources(job: SinkJob) {
    forall i: nat :: i < |job.layers| ==> SourceOf(job, i).Some?
  }

  /** One layer's worker from launch to end: truncate, copy, close. */
  lemma SinkerRuns(job: SinkJob, s: SinkState, n: nat) returns (es: seq<SinkEvent>)
    requires SunkUpto(job, s, n) && P.First(Digests(job.layers), n) && n < |job.layers|
    requires HasSources(job) && job.limit >= 1
    ensures SinkRun(job, s, es).Some? && SunkUpto(job, SinkRun(job, s, es).value, n + 1)
  {
    P.UptoLaunch(Digests(job.layers), job.limit, s.pool, n);
    hide P.Step, P.Upto, P.First, Digests, WriteAt;
    var src := SourceOf(job, n).value;
    SinkSnoc(job, s, [], SinkEvent.Launch);
    es := [] + [SinkEvent.Launch];
    SinkSnoc(job, s, es, OpenOut(n));
    es := es + [OpenOut(n)];
    if |src| > 0 {
      SinkSnoc(job, s, es, Copy(n, |src|));
      es := es + [Copy(n, |src|)];
    }
    SinkSnoc(job, s, es, Done(n));
    es := es + [Done(n)];
  }

  lemma SinkSkips(job: SinkJob, s: SinkState, n: nat)
    requires SunkUpto(job, s, n) && n < |job.layers| && !P.First(Digests(job.layers), n)
    ensures var es := [] + [SinkEvent.Skip];
            SinkRun(job, s, es).Some? && SunkUpto(job, SinkRun(job, s, es).value, n + 1)
  {
    P.UptoSkip(Digests(job.layers), job.limit, s.pool, n);
    assert n > 0;
    hide P.Step, P.Upto, P.First, Digests;
    SinkSnoc(job, s, [], SinkEvent.Skip);
  }

  lemma {:induction false} SinkersRun(job: SinkJob, s: SinkState, n: nat) returns (es: seq<SinkEvent>)
    requires SunkUpto(job, s, n) && HasSources(job) && job.limit >= 1
    ensures SinkRun(job, s, es).Some? && SunkUpto(job, SinkRun(job, s, es).value, |job.layers|)
    decreases |job.layers| - n
  {
    if n == |job.layers| {
      es := [];
    } else {
      if P.First(Digests(job.layers), n) {
        es := SinkerRuns(job, s, n);
      } else {
        SinkSkips(job, s, n);
        es := [] + [SinkEvent.Skip];
      }
      hide SinkRun, SunkUpto, HasSources;
      var more := SinkersRun(job, SinkRun(job, s, es).value, n + 1);
      SinkJoins(job, s, es, more);
      es := es + more;
    }
  }

  /** An export of at least one layer whose snapshot files are all there can succeed. */
  lemma SinkSucceeds(job: SinkJob, out0: map<string, Bytes>) returns (es: seq<SinkEvent>)
    requires job.limit >= 1 && job.layers != [] && HasSources(job)
    ensures SinkRun(job, SinkStart(job, out0), es).Some?
    ensures Exported(job, SinkRun(job, SinkStart(job, out0), es).value)
  {
    P.UptoStart(Digests(job.layers), job.limit);
    es := SinkersRun(job, SinkStart(job, out0), 0);
    var r := SinkRun(job, SinkStart(job, out0), es).value;
    P.UptoAll(Digests(job.layers), job.limit, r.pool);
    assert r.stages[0] == Sunk;
  }

  /** What Sink is given after a build. */
  ghost predicate SinkOf(sink: SinkJob, r: State, package: Package) {
    sink.layers == r.layers && forall p :: sink.source(p) == SnapshotSource(r.fs, package, p)
  }

  /** After a successful build every layer has its snapshot file, so an export can succeed too. */
  lemma ExportSucceeds(job: Job, package: Package, files: map<string, Bytes>, fs: Fs, es: seq<Event>, some: nat,
                       sink: SinkJob, out0: map<string, Bytes>) returns (sinkEvents: seq<SinkEvent>)
    requires Setting(job) && FsOk(fs) && Sound(job.codec, fs) && BuildOf(job, package, files)
    requires Run(job, Start(job, fs), es).Some? && Built(job, Run(job, Start(job, fs), es).value)
    requires some < |job.contents| && job.contents[some].path != ""
    requires OneFile(files, sink.place) && sink.limit >= 1 && SinkOf(sink, Run(job, Start(job, fs), es).value, package)
    ensures BuiltAndExported(job, package, files, fs, es, sink, out0, sinkEvents)
  {
    var r := Run(job, Start(job, fs), es).value;
    BuiltLayers(job, fs, es);
    assert Layer(job.codec, job.contents[some]) in r.layers;
    forall i: nat | i < |sink.layers| ensures SourceOf(sink, i).Some? {
      assert IsLayer(job, sink.layers[i]);
      var k: nat :| k < |job.contents| && job.contents[k].path != ""
                    && sink.layers[i] == Layer(job.codec, job.contents[k]);
      SourceIsTheFile(job, package, files, fs, es, k);
      LayerPath(job.codec, job.contents[k]);
    }
    sinkEvents := SinkSucceeds(sink, out0);
  }

  /** There and back. From any workspace with something listed, and any sound snapshot directory, there is a build and
      an export of what it built, each with whatever concurrency; and every listed file comes back if and only if no
      two have one base name and one content. */
  lemma ThereAndBack(job: Job, package: Package, files: map<string, Bytes>, fs: Fs, some: nat,
                     place: string -> string, limit: nat, out0: map<string, Bytes>)
    returns (es: seq<Event>, sink: SinkJob, sinkEvents: seq<SinkEvent>)
    requires Setting(job) && FsOk(fs) && Sound(job.codec, fs) && BuildOf(job, package, files) && OneFile(files, place)
    requires some < |job.contents| && job.contents[some].path != "" && job.limit >= 1 && limit >= 1
    requires forall i: nat :: i < |Listed(package)| && Listed(package)[i].path != "" ==>
               place(Listed(package)[i].path) !in out0
    ensures sink.place == place && BuiltAndExported(job, package, files, fs, es, sink, out0, sinkEvents)
    ensures AllComeBack(files, package, sink, SinkRun(sink, SinkStart(sink, out0), sinkEvents).value.out) <==>
              NoTwins(job, place)
  {
    es := BuildRuns.BuildSucceeds(job, fs, some);
    var r := Run(job, Start(job, fs), es).value;
    sink := SinkJob(r.layers, p => SnapshotSource(r.fs, package, p), place, limit);
    sinkEvents := ExportSucceeds(job, package, files, fs, es, some, sink, out0);
    hide BuiltAndExported, AllComeBack, NoTwins;
    RoundTripExactly(job, package, files, fs, es, sink, out0, sinkEvents);
  }
}
