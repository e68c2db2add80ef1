/** Exporting an image (internal/repo/local.go), and the round trip from workspace to export. */
module Export {
  import opened Basics
  import opened Oci
  import opened Bundle
  import opened BundleFiles
  import opened Makefile
  import P = WorkerPool

  /** One call of Sink: the manifest's layers, what the snapshot directory yields for a path (None when
      its file is missing), which file of the export directory a path leads to, and the concurrency. Different
      spellings of a path lead to one file. */
  datatype SinkJob = SinkJob(layers: seq<Descriptor>, source: string -> Option<Bytes>, place: string -> string,
                             limit: nat)

  datatype Sinking = Idle | Opening | Copying(n: nat) | Sunk | Broken

  /** `owners` is which worker opened a file last. */
  datatype SinkState = SinkState(pool: P.Pool<string>, stages: seq<Sinking>, out: map<string, Bytes>,
                                 owners: map<string, nat>)

  datatype SinkEvent =
    | Skip
    | Launch
    | Interrupt
    | OpenOut(i: nat)
    | Copy(i: nat, n: nat)
    | Done(i: nat)
    | Fails(i: nat)

  function PathOf(d: Descriptor): string {
    if FILEPATH in d.annotations then d.annotations[FILEPATH] else ""
  }

  function PlaceOf(job: SinkJob, i: nat): string
    requires i < |job.layers|
  {
    job.place(PathOf(job.layers[i]))
  }

  function SourceOf(job: SinkJob, i: nat): Option<Bytes>
    requires i < |job.layers|
  {
    job.source(PathOf(job.layers[i]))
  }

  function Digests(layers: seq<Descriptor>): seq<Option<string>> {
    seq(|layers|, i requires 0 <= i < |layers| => Some(layers[i].digest))
  }

  function SinkStart(job: SinkJob, out: map<string, Bytes>): SinkState {
    SinkState(P.Start(|job.layers|), seq(|job.layers|, _ => Sinking.Idle), out, map[])
  }

  function SinkStep(job: SinkJob, s: SinkState, e: SinkEvent): Option<SinkState> {
    match e
    case Skip =>
      var p := P.Step(Digests(job.layers), job.limit, s.pool, P.Skip);
      if p.Some? then Some(s.(pool := p.value)) else None
    case Interrupt =>
      var p := P.Step(Digests(job.layers), job.limit, s.pool, P.Interrupt);
      if p.Some? then Some(s.(pool := p.value)) else None
    case Launch =>
      var p := P.Step(Digests(job.layers), job.limit, s.pool, P.Launch);
      if p.Some? && s.pool.next < |s.stages| then
        Some(s.(pool := p.value, stages := s.stages[s.pool.next := Opening]))
      else None
    case OpenOut(i) =>
      if i < |job.layers| && i < |s.stages| && s.stages[i].Opening? && SourceOf(job, i).Some? then
        Some(s.(out := s.out[PlaceOf(job, i) := []], owners := s.owners[PlaceOf(job, i) := i],
                stages := s.stages[i := Copying(0)]))
      else None
    case Copy(i, n) =>
      if i < |job.layers| && i < |s.stages| && s.stages[i].Copying? && PlaceOf(job, i) in s.out then
        var q, src, k := PlaceOf(job, i), SourceOf(job, i), s.stages[i].n;
        if src.Some? && 0 < n && k + n <= |src.value| then
          Some(s.(out := s.out[q := WriteAt(s.out[q], k, src.value[k..k + n])],
                  stages := s.stages[i := Copying(k + n)]))
        else None
      else None
    case Done(i) =>
      if i < |job.layers| && i < |s.stages| && s.stages[i].Copying? && SourceOf(job, i).Some?
          && s.stages[i].n == |SourceOf(job, i).value| then
        var p := P.Step(Digests(job.layers), job.limit, s.pool, P.Finish(i));
        if p.Some? then Some(s.(pool := p.value, stages := s.stages[i := Sunk])) else None
      else None
    case Fails(i) =>
      if i < |s.stages| && (s.stages[i].Opening? || s.stages[i].Copying?) then
        var p := P.Step(Digests(job.layers), job.limit, s.pool, P.Fail(i));
        if p.Some? then Some(s.(pool := p.value, stages := s.stages[i := Broken])) else None
      else None
  }

  function SinkRun(job: SinkJob, s: SinkState, es: seq<SinkEvent>): Option<SinkState>
    decreases |es|
  {
    if es == [] then Some(s)
    else
      var next := SinkStep(job, s, es[0]);
      if next.None? then None else SinkRun(job, next.value, es[1..])
  }

  predicate Exported(job: SinkJob, s: SinkState) {
    P.Succeeded(Digests(job.layers), s.pool) && Sunk in s.stages
  }

  /** Layers for one file have one source. With one spelling for each path there is nothing to ask. */
  ghost predicate SourcesAgree(job: SinkJob) {
    forall i: nat, j: nat :: i < |job.layers| && j < |job.layers| && PlaceOf(job, i) == PlaceOf(job, j) ==>
          SourceOf(job, i) == SourceOf(job, j)
  }

  predicate SinkStatus(st: Sinking, status: P.Status) {
    match status
    case Pending => st.Idle?
    case Running => st.Opening? || st.Copying?
    case Finished => st.Sunk?
    case Failed => st.Broken?
  }

  ghost predicate SinkPool(job: SinkJob, s: SinkState) {
    && P.Inv(Digests(job.layers), job.limit, s.pool)
    && |s.stages| == |job.layers| == |s.pool.status|
    && forall i :: 0 <= i < |s.stages| ==> SinkStatus(s.stages[i], s.pool.status[i])
  }

  /** The dispatch move inside an event, if there is one. */
  function SinkMove(e: SinkEvent): Option<P.Move> {
    match e
    case Skip => Some(P.Skip)
    case Launch => Some(P.Launch)
    case Interrupt => Some(P.Interrupt)
    case Done(i) => Some(P.Finish(i))
    case Fails(i) => Some(P.Fail(i))
    case _ => None
  }

  lemma SinkStepPool(job: SinkJob, s: SinkState, e: SinkEvent)
    requires SinkStep(job, s, e).Some?
    ensures var t := SinkStep(job, s, e).value;
            && (SinkMove(e).Some? ==> P.Step(Digests(job.layers), job.limit, s.pool, SinkMove(e).value) == Some(t.pool))
            && (SinkMove(e).None? ==> t.pool == s.pool)
  {
  }

  lemma SinkStagesFollow(job: SinkJob, s: SinkState, e: SinkEvent)
    requires SinkStep(job, s, e).Some? && |s.stages| == |job.layers| == |s.pool.status|
    requires forall i :: 0 <= i < |s.stages| ==> SinkStatus(s.stages[i], s.pool.status[i])
    ensures var t := SinkStep(job, s, e).value;
            && |t.stages| == |s.stages| == |t.pool.status|
            && forall i :: 0 <= i < |t.stages| ==> SinkStatus(t.stages[i], t.pool.status[i])
  {
  }

  lemma SinkPoolStep(job: SinkJob, s: SinkState, e: SinkEvent)
    requires SinkPool(job, s) && SinkStep(job, s, e).Some?
    ensures SinkPool(job, SinkStep(job, s, e).value)
  {
    SinkStepPool(job, s, e);
    SinkStagesFollow(job, s, e);
    if SinkMove(e).Some? {
      P.StepInv(Digests(job.layers), job.limit, s.pool, SinkMove(e).value);
    }
  }

  predicate HasOpened(st: Sinking) {
    st.Copying? || st.Sunk? || st.Broken?
  }

  /** What worker `i` has written so far, when it has opened its file and not failed. */
  function Upto(job: SinkJob, st: Sinking, i: nat): Option<nat>
    requires i < |job.layers|
  {
    match st
    case Copying(n) => Some(n)
    case Sunk => Some(if SourceOf(job, i).Some? then |SourceOf(job, i).value| else 0)
    case _ => None
  }

  predicate Kept(before: map<string, Bytes>, after: map<string, Bytes>, p: string) {
    (p in after <==> p in before) && (p in before ==> after[p] == before[p])
  }

  /** A file starts with the first `n` bytes of its source, and is no longer than that. */
  predicate Holds(file: Bytes, src: Bytes, n: nat) {
    n <= |file| <= |src| && file[..n] == src[..n]
  }

  /** The file at `q` belongs to whoever opened it last; what it has written is there, whatever others who opened
      it before still write. */
  ghost predicate LastOpener(job: SinkJob, s: SinkState, q: string)
    requires q in s.owners && |s.stages| == |job.layers|
  {
    var i := s.owners[q];
    && i < |job.layers| && PlaceOf(job, i) == q && HasOpened(s.stages[i])
    && q in s.out && SourceOf(job, i).Some?
    && Holds(s.out[q], SourceOf(job, i).value,
             if Upto(job, s.stages[i], i).Some? then Upto(job, s.stages[i], i).value else 0)
  }

  ghost predicate OutInv(job: SinkJob, out0: map<string, Bytes>, s: SinkState) {
    && |s.stages| == |job.layers|
    && (forall q :: q in s.owners ==> LastOpener(job, s, q))
    && (forall i: nat :: i < |job.layers| && (s.stages[i].Copying? || s.stages[i].Sunk?) ==>
          PlaceOf(job, i) in s.owners)
    && (forall q :: q !in s.owners ==> Kept(out0, s.out, q))
  }

  /** A write of the right bytes at the right offset never spoils what is there, and extends it where it ends. */
  lemma WriteHolds(file: Bytes, src: Bytes, m: nat, k: nat, n: nat)
    requires Holds(file, src, m) && k + n <= |src|
    ensures Holds(WriteAt(file, k, src[k..k + n]), src, m)
    ensures k == m ==> Holds(WriteAt(file, k, src[k..k + n]), src, k + n)
  {
    var w := WriteAt(file, k, src[k..k + n]);
    forall x | 0 <= x < m ensures x < |w| && w[x] == src[x] {
      assert file[..m][x] == src[..m][x];
    }
    assert w[..m] == src[..m];
    if k == m {
      assert w[..k + n] == src[..k] + src[k..k + n] == src[..k + n];
    }
  }

  lemma OpenInv(job: SinkJob, out0: map<string, Bytes>, s: SinkState, i: nat)
    requires OutInv(job, out0, s) && SinkStep(job, s, OpenOut(i)).Some?
    ensures OutInv(job, out0, SinkStep(job, s, OpenOut(i)).value)
  {
    var t := SinkStep(job, s, OpenOut(i)).value;
    forall q | q in t.owners ensures LastOpener(job, t, q) {
      if q != PlaceOf(job, i) {
        assert LastOpener(job, s, q);
      }
    }
  }

  /** Somebody else's file, while worker `i` writes. */
  lemma OtherStays(job: SinkJob, s: SinkState, t: SinkState, i: nat, st: Sinking, p: string)
    requires |s.stages| == |job.layers| == |t.stages| && i < |job.layers| && p in s.owners && t.owners == s.owners
    requires LastOpener(job, s, p) && PlaceOf(job, i) != p && t.stages == s.stages[i := st] && Kept(s.out, t.out, p)
    ensures LastOpener(job, t, p)
  {
  }

  /** The file worker `i` writes to, given that the write kept what its last opener has written. */
  lemma OwnFile(job: SinkJob, s: SinkState, t: SinkState, i: nat, n: nat)
    requires |s.stages| == |job.layers| == |t.stages| && i < |job.layers| && PlaceOf(job, i) in s.owners
             && t.owners == s.owners
    requires LastOpener(job, s, PlaceOf(job, i)) && t.stages == s.stages[i := Copying(n)] && PlaceOf(job, i) in t.out
    requires var l := s.owners[PlaceOf(job, i)];
             var m := if l == i then n
                      else if Upto(job, s.stages[l], l).Some? then Upto(job, s.stages[l], l).value else 0;
             Holds(t.out[PlaceOf(job, i)], SourceOf(job, l).value, m)
    ensures LastOpener(job, t, PlaceOf(job, i))
  {
  }

  lemma CopyEffect(job: SinkJob, s: SinkState, i: nat, n: nat)
    requires SinkStep(job, s, Copy(i, n)).Some?
    ensures i < |job.layers| && i < |s.stages| && s.stages[i].Copying? && PlaceOf(job, i) in s.out
            && SourceOf(job, i).Some?
    ensures var q, src, k := PlaceOf(job, i), SourceOf(job, i).value, s.stages[i].n;
            && k + n <= |src|
            && SinkStep(job, s, Copy(i, n)).value ==
               s.(out := s.out[q := WriteAt(s.out[q], k, src[k..k + n])], stages := s.stages[i := Copying(k + n)])
  {
  }

  /** What worker `i` writes, on the file it shares with whoever opened it last. */
  lemma SharedWrite(job: SinkJob, s: SinkState, i: nat, n: nat)
    requires SourcesAgree(job) && |s.stages| == |job.layers| && SinkStep(job, s, Copy(i, n)).Some?
    requires i < |job.layers| && PlaceOf(job, i) in s.owners && LastOpener(job, s, PlaceOf(job, i))
    ensures s.stages[i].Copying?
    ensures LastOpener(job, SinkStep(job, s, Copy(i, n)).value, PlaceOf(job, i))
  {
    var t, q, k := SinkStep(job, s, Copy(i, n)).value, PlaceOf(job, i), s.stages[i].n;
    var l := s.owners[q];
    var m := if Upto(job, s.stages[l], l).Some? then Upto(job, s.stages[l], l).value else 0;
    WriteHolds(s.out[q], SourceOf(job, l).value, m, k, n);
    CopyEffect(job, s, i, n);
    hide WriteAt, Holds, SinkStep;
    OwnFile(job, s, t, i, k + n);
  }

  lemma CopyInv(job: SinkJob, out0: map<string, Bytes>, s: SinkState, i: nat, n: nat)
    requires SourcesAgree(job) && OutInv(job, out0, s) && SinkStep(job, s, Copy(i, n)).Some?
    ensures OutInv(job, out0, SinkStep(job, s, Copy(i, n)).value)
  {
    CopyEffect(job, s, i, n);
    hide SinkStep, LastOpener, WriteAt, SourcesAgree;
    var t, q := SinkStep(job, s, Copy(i, n)).value, PlaceOf(job, i);
    SharedWrite(job, s, i, n);
    forall p | p in t.owners ensures LastOpener(job, t, p) {
      if p != q {
        OtherStays(job, s, t, i, t.stages[i], p);
      }
    }
  }

  /** Steps that write nothing. */
  lemma QuietInv(job: SinkJob, out0: map<string, Bytes>, s: SinkState, t: SinkState, i: nat, st: Sinking)
    requires OutInv(job, out0, s) && t.out == s.out && t.owners == s.owners && i < |s.stages|
             && t.stages == s.stages[i := st]
    requires HasOpened(s.stages[i]) ==> HasOpened(st)
    requires Upto(job, st, i).Some? ==> Upto(job, st, i) == Upto(job, s.stages[i], i)
    ensures OutInv(job, out0, t)
  {
    forall q | q in t.owners ensures LastOpener(job, t, q) {
      assert LastOpener(job, s, q);
    }
  }

  lemma SinkStepInv(job: SinkJob, out0: map<string, Bytes>, s: SinkState, e: SinkEvent)
    requires SinkPool(job, s) && SourcesAgree(job) && OutInv(job, out0, s) && SinkStep(job, s, e).Some?
    ensures OutInv(job, out0, SinkStep(job, s, e).value)
  {
    var t := SinkStep(job, s, e).value;
    match e
    case OpenOut(i) => OpenInv(job, out0, s, i);
    case Copy(i, n) => CopyInv(job, out0, s, i, n);
    case Done(i) => QuietInv(job, out0, s, t, i, Sunk);
    case Fails(i) => QuietInv(job, out0, s, t, i, Broken);
    case Launch =>
      assert SinkStatus(s.stages[s.pool.next], s.pool.status[s.pool.next]);
      QuietInv(job, out0, s, t, s.pool.next, Opening);
    case _ => PoolOnly(job, out0, s, t);
  }

  lemma PoolOnly(job: SinkJob, out0: map<string, Bytes>, s: SinkState, t: SinkState)
    requires OutInv(job, out0, s) && t == s.(pool := t.pool)
    ensures OutInv(job, out0, t)
  {
    forall q | q in t.owners ensures LastOpener(job, t, q) {
      assert LastOpener(job, s, q);
    }
  }

  lemma {:induction false} SinkRunInv(job: SinkJob, out0: map<string, Bytes>, s: SinkState, es: seq<SinkEvent>)
    requires SinkPool(job, s) && SourcesAgree(job) && OutInv(job, out0, s) && SinkRun(job, s, es).Some?
    ensures SinkPool(job, SinkRun(job, s, es).value) && OutInv(job, out0, SinkRun(job, s, es).value)
    decreases |es|
  {
    if es != [] {
      SinkPoolStep(job, s, es[0]);
      SinkStepInv(job, out0, s, es[0]);
      SinkRunInv(job, out0, SinkStep(job, s, es[0]).value, es[1..]);
    }
  }

  /** A successful export leaves at every place that the first layer of some digest leads to exactly that layer's
      source, also when layers of several digests lead there and their workers truncate and write the one file side
      by side; and of the directory as it was once Sink had written the Apackfile into it, which is `out0`, the
      workers touch no other place. */
  lemma SinkWritesFirstOfEachDigest(sink: SinkJob, out0: map<string, Bytes>, es: seq<SinkEvent>, q: string)
    requires SourcesAgree(sink)
    requires SinkRun(sink, SinkStart(sink, out0), es).Some?
             && Exported(sink, SinkRun(sink, SinkStart(sink, out0), es).value)
    ensures var out := SinkRun(sink, SinkStart(sink, out0), es).value.out;
            && (forall i: nat :: P.First(Digests(sink.layers), i) && PlaceOf(sink, i) == q ==>
                                   q in out && SourceOf(sink, i) == Some(out[q]))
            && ((forall i: nat :: P.First(Digests(sink.layers), i) ==> PlaceOf(sink, i) != q) ==> Kept(out0, out, q))
  {
    SinkStartInv(sink, out0);
    SinkRunInv(sink, out0, SinkStart(sink, out0), es);
    var r := SinkRun(sink, SinkStart(sink, out0), es).value;
    forall i: nat | P.First(Digests(sink.layers), i) && PlaceOf(sink, i) == q
      ensures q in r.out && SourceOf(sink, i) == Some(r.out[q]) {
      FirstIsWritten(sink, out0, r, i);
    }
    if forall i: nat :: P.First(Digests(sink.layers), i) ==> PlaceOf(sink, i) != q {
      OthersAreKept(sink, out0, r, q);
    }
  }

  lemma SinkStartInv(job: SinkJob, out0: map<string, Bytes>)
    ensures SinkPool(job, SinkStart(job, out0)) && OutInv(job, out0, SinkStart(job, out0))
  {
    P.StartInv(Digests(job.layers), job.limit);
  }

  lemma FirstIsWritten(job: SinkJob, out0: map<string, Bytes>, r: SinkState, i: nat)
    requires SinkPool(job, r) && SourcesAgree(job) && OutInv(job, out0, r) && Exported(job, r)
             && P.First(Digests(job.layers), i)
    ensures PlaceOf(job, i) in r.out && SourceOf(job, i) == Some(r.out[PlaceOf(job, i)])
  {
    hide SinkPool, Exported;
    assert i < |job.layers|;
    SinkAllOver(job, r, i);
    hide P.First;
    var q := PlaceOf(job, i);
    assert LastOpener(job, r, q);
    var l := r.owners[q];
    SinkAllOver(job, r, l);
    var src := SourceOf(job, l).value;
    assert src[..|src|] == src && r.out[q][..|src|] == r.out[q];
  }

  lemma OthersAreKept(job: SinkJob, out0: map<string, Bytes>, r: SinkState, q: string)
    requires SinkPool(job, r) && OutInv(job, out0, r) && Exported(job, r)
    requires forall i: nat :: P.First(Digests(job.layers), i) ==> PlaceOf(job, i) != q
    ensures Kept(out0, r.out, q)
  {
    if q in r.owners {
      assert LastOpener(job, r, q);
      SinkAllOver(job, r, r.owners[q]);
    }
  }

  lemma SinkAllOver(job: SinkJob, r: SinkState, i: nat)
    requires SinkPool(job, r) && Exported(job, r) && i < |job.layers|
    ensures r.stages[i] == if P.First(Digests(job.layers), i) then Sunk else Sinking.Idle
  {
    P.AllFinished(Digests(job.layers), job.limit, r.pool, i);
    assert SinkStatus(r.stages[i], r.pool.status[i]);
  }

  // ----- the round trip

  /** What Sink reads: the snapshot file named by the id that the exported artifact lists for the path. */
  function SnapshotSource(fs: Fs, package: Package, path: string): Option<Bytes> {
    var id := FindDiffid(package, path);
    if id in fs.dir && fs.dir[id] in fs.data then Some(fs.data[fs.dir[id]]) else None
  }

  /** The build list of a described package over a workspace. */
  ghost predicate BuildOf(job: Job, package: Package, files: map<string, Bytes>) {
    && AllDescribed(Listed(package), files, job.codec.hash)
    && |job.contents| == |Listed(package)|
    && forall i :: 0 <= i < |job.contents| ==>
         job.contents[i].path == Listed(package)[i].path && job.contents[i].bytes == files[job.contents[i].path]
  }

  /** Paths that lead to one file are spellings of one name, with one content. */
  ghost predicate OneFile(files: map<string, Bytes>, place: string -> string) {
    forall p, q :: p in files && q in files && place(p) == place(q) ==> files[p] == files[q] && Base(p) == Base(q)
  }

  /** No two different files have the same base name and the same bytes. */
  ghost predicate NoTwins(job: Job, place: string -> string) {
    forall i, j :: 0 <= i < |job.contents| && 0 <= j < |job.contents| ==> !Twins(job, place, i, j)
  }

  predicate Twins(job: Job, place: string -> string, i: nat, j: nat)
    requires i < |job.contents| && j < |job.contents|
  {
    var c, d := job.contents[i], job.contents[j];
    c.path != "" && d.path != "" && place(c.path) != place(d.path) && Base(c.path) == Base(d.path) && c.bytes == d.bytes
  }

  lemma LayerPath(codec: Codec, c: Content)
    ensures PathOf(Layer(codec, c)) == c.path
  {
  }

  /** A descriptor that layering made of some content with a path. */
  ghost predicate IsLayer(job: Job, d: Descriptor) {
    exists i: nat :: i < |job.contents| && job.contents[i].path != "" && d == Layer(job.codec, job.contents[i])
  }

  /** A successful build's layers are the layers of its contents, all of them. */
  lemma BuiltLayers(job: Job, fs: Fs, es: seq<Event>)
    requires Run(job, Start(job, fs), es).Some? && Built(job, Run(job, Start(job, fs), es).value)
    ensures var r := Run(job, Start(job, fs), es).value;
            && (forall k :: 0 <= k < |r.layers| ==> IsLayer(job, r.layers[k]))
            && (forall i: nat :: i < |job.contents| && job.contents[i].path != "" ==>
                  Layer(job.codec, job.contents[i]) in r.layers)
  {
    ListsAligned(job, fs, es);
    var r := Run(job, Start(job, fs), es).value;
    forall k | 0 <= k < |r.layers| ensures IsLayer(job, r.layers[k]) {
      var i := r.order[k];
      assert i in r.order;
      assert r.layers[k] == Layer(job.codec, job.contents[i]) && job.contents[i].path != "";
    }
    forall i: nat | i < |job.contents| && job.contents[i].path != ""
      ensures Layer(job.codec, job.contents[i]) in r.layers {
      assert i in r.order;
      var k :| 0 <= k < |r.order| && r.order[k] == i;
      assert r.layers[k] == Layer(job.codec, job.contents[i]);
    }
  }

  /** Built layers for one file are one layer up to the spelling of its path. */
  lemma BuiltPlacesDecide(job: Job, package: Package, files: map<string, Bytes>, place: string -> string,
                          c: Descriptor, d: Descriptor)
    requires Ideal(job.codec) && BuildOf(job, package, files) && OneFile(files, place)
    requires IsLayer(job, c) && IsLayer(job, d) && place(PathOf(c)) == place(PathOf(d))
    ensures c.digest == d.digest
  {
    var i: nat :| i < |job.contents| && c == Layer(job.codec, job.contents[i]);
    var j: nat :| j < |job.contents| && d == Layer(job.codec, job.contents[j]);
    LayerPath(job.codec, job.contents[i]);
    LayerPath(job.codec, job.contents[j]);
    assert Listed(package)[i].path in files && Listed(package)[j].path in files;
    LayerDigests(job.codec, job.contents[i], job.contents[j]);
  }

  /** A workspace without sub-directories has no twins. */
  lemma FlatHasNoTwins(job: Job, place: string -> string)
    requires forall i :: 0 <= i < |job.contents| ==> Base(job.contents[i].path) == job.contents[i].path
    ensures NoTwins(job, place)
  {
  }

  /** A build that succeeded, followed by an export of what it built that succeeded. */
  ghost predicate BuiltAndExported(job: Job, package: Package, files: map<string, Bytes>, fs: Fs, es: seq<Event>,
                                   sink: SinkJob, out0: map<string, Bytes>, sinkEvents: seq<SinkEvent>) {
    && Setting(job) && FsOk(fs) && Sound(job.codec, fs) && BuildOf(job, package, files) && OneFile(files, sink.place)
    && Run(job, Start(job, fs), es).Some? && Built(job, Run(job, Start(job, fs), es).value)
    && sink.layers == Run(job, Start(job, fs), es).value.layers
    && (forall p :: sink.source(p) == SnapshotSource(Run(job, Start(job, fs), es).value.fs, package, p))
    && SinkRun(sink, SinkStart(sink, out0), sinkEvents).Some?
    && Exported(sink, SinkRun(sink, SinkStart(sink, out0), sinkEvents).value)
  }

  /** Build, then export: whatever the workers' interleavings, and whatever was in the directories before,
      every listed file comes back with its original bytes, also when one path sits in several sections. */
  lemma BuildThenExport(job: Job, package: Package, files: map<string, Bytes>, fs: Fs, es: seq<Event>,
                        sink: SinkJob, out0: map<string, Bytes>, sinkEvents: seq<SinkEvent>, i: nat)
    requires BuiltAndExported(job, package, files, fs, es, sink, out0, sinkEvents) && NoTwins(job, sink.place)
    requires i < |Listed(package)| && Listed(package)[i].path != ""
    ensures ComesBack(files, sink, SinkRun(sink, SinkStart(sink, out0), sinkEvents).value.out, Listed(package)[i].path)
  {
    var r := Run(job, Start(job, fs), es).value;
    var p := job.contents[i].path;
    BuiltLayers(job, fs, es);
    BuiltSourcesAgree(job, package, files, fs, es, sink, out0, sinkEvents);
    SourceIsTheFile(job, package, files, fs, es, i);
    SinkWritesFirstOfEachDigest(sink, out0, sinkEvents, sink.place(p));
    var k, j := FirstLayerLike(job, r.layers, i);
    assert !Twins(job, sink.place, i, j);
    SourceIsTheFile(job, package, files, fs, es, j);
    assert PlaceOf(sink, k) == sink.place(p) && SourceOf(sink, k) == Some(files[job.contents[j].path]);
  }

  /** The file a path leads to holds the workspace file's bytes. */
  predicate ComesBack(files: map<string, Bytes>, sink: SinkJob, out: map<string, Bytes>, path: string) {
    path in files && sink.place(path) in out && out[sink.place(path)] == files[path]
  }

  lemma BuiltSourcesAgree(job: Job, package: Package, files: map<string, Bytes>, fs: Fs, es: seq<Event>,
                          sink: SinkJob, out0: map<string, Bytes>, sinkEvents: seq<SinkEvent>)
    requires BuiltAndExported(job, package, files, fs, es, sink, out0, sinkEvents)
    ensures SourcesAgree(sink)
  {
    BuiltLayers(job, fs, es);
    forall a: nat, b: nat | a < |sink.layers| && b < |sink.layers| && PlaceOf(sink, a) == PlaceOf(sink, b)
      ensures SourceOf(sink, a) == SourceOf(sink, b)
    {
      LayerSource(job, package, files, fs, es, sink, out0, sinkEvents, a);
      LayerSource(job, package, files, fs, es, sink, out0, sinkEvents, b);
    }
  }

  lemma LayerSource(job: Job, package: Package, files: map<string, Bytes>, fs: Fs, es: seq<Event>,
                    sink: SinkJob, out0: map<string, Bytes>, sinkEvents: seq<SinkEvent>, a: nat)
    requires BuiltAndExported(job, package, files, fs, es, sink, out0, sinkEvents) && a < |sink.layers|
    ensures PathOf(sink.layers[a]) in files && SourceOf(sink, a) == Some(files[PathOf(sink.layers[a])])
  {
    BuiltLayers(job, fs, es);
    assert IsLayer(job, sink.layers[a]);
    var i: nat :| i < |job.contents| && job.contents[i].path != ""
        && sink.layers[a] == Layer(job.codec, job.contents[i]);
    LayerPath(job.codec, job.contents[i]);
    SourceIsTheFile(job, package, files, fs, es, i);
  }

  /** After a successful build the snapshot directory yields a listed path's original bytes. */
  lemma SourceIsTheFile(job: Job, package: Package, files: map<string, Bytes>, fs: Fs, es: seq<Event>, i: nat)
    requires Setting(job) && FsOk(fs) && Sound(job.codec, fs) && BuildOf(job, package, files)
    requires Run(job, Start(job, fs), es).Some? && Built(job, Run(job, Start(job, fs), es).value)
    requires i < |job.contents| && job.contents[i].path != ""
    ensures job.contents[i].path in files
    ensures SnapshotSource(Run(job, Start(job, fs), es).value.fs, package, job.contents[i].path) ==
              Some(files[job.contents[i].path])
  {
    SuccessfulBuildIsSound(job, fs, es);
    FindDiffidIsTheId(package, files, job.codec.hash, job.contents[i].path);
    assert Listed(package)[i].path == job.contents[i].path;
  }

  /** The first layer with a content's digest: some content with the same base name and bytes. */
  lemma FirstLayerLike(job: Job, layers: seq<Descriptor>, i: nat) returns (k: nat, j: nat)
    requires Ideal(job.codec) && i < |job.contents| && Layer(job.codec, job.contents[i]) in layers
    requires forall k :: 0 <= k < |layers| ==> IsLayer(job, layers[k])
    ensures P.First(Digests(layers), k) && layers[k].digest == Layer(job.codec, job.contents[i]).digest
    ensures j < |job.contents| && job.contents[j].path != "" && PathOf(layers[k]) == job.contents[j].path
    ensures Base(job.contents[i].path) == Base(job.contents[j].path) && job.contents[i].bytes == job.contents[j].bytes
  {
    var digest := Layer(job.codec, job.contents[i]).digest;
    var m :| 0 <= m < |layers| && layers[m] == Layer(job.codec, job.contents[i]);
    assert Digests(layers)[m] == Some(digest);
    k := P.FirstWith(Digests(layers), digest);
    assert IsLayer(job, layers[k]);
    j :| j < |job.contents| && job.contents[j].path != "" && layers[k] == Layer(job.codec, job.contents[j]);
    LayerPath(job.codec, job.contents[j]);
    LayerDigests(job.codec, job.contents[i], job.contents[j]);
  }

  /** With twins the export loses a file: their layers have one digest, so only one of them is written,
      and the other place stays as it was before. */
  lemma TwinsLoseAFile(job: Job, package: Package, files: map<string, Bytes>, fs: Fs, es: seq<Event>,
                       sink: SinkJob, out0: map<string, Bytes>, sinkEvents: seq<SinkEvent>, i: nat, j: nat)
    requires BuiltAndExported(job, package, files, fs, es, sink, out0, sinkEvents)
    requires i < |job.contents| && j < |job.contents| && Twins(job, sink.place, i, j)
    ensures var out := SinkRun(sink, SinkStart(sink, out0), sinkEvents).value.out;
            Kept(out0, out, sink.place(job.contents[i].path)) || Kept(out0, out, sink.place(job.contents[j].path))
  {
    var r := Run(job, Start(job, fs), es).value;
    BuiltLayers(job, fs, es);
    BuiltSourcesAgree(job, package, files, fs, es, sink, out0, sinkEvents);
    LayerDigests(job.codec, job.contents[i], job.contents[j]);
    var k, m := FirstLayerLike(job, r.layers, i);
    var lost := if PlaceOf(sink, k) == sink.place(job.contents[i].path) then j else i;
    NoFirstThere(job, package, files, fs, es, sink, out0, sinkEvents, lost, k);
    SinkWritesFirstOfEachDigest(sink, out0, sinkEvents, sink.place(job.contents[lost].path));
  }

  /** Every layer for a content's file has the content's digest, so the first of that digest is the only one written. */
  lemma NoFirstThere(job: Job, package: Package, files: map<string, Bytes>, fs: Fs, es: seq<Event>,
                     sink: SinkJob, out0: map<string, Bytes>, sinkEvents: seq<SinkEvent>, lost: nat, k: nat)
    requires BuiltAndExported(job, package, files, fs, es, sink, out0, sinkEvents)
    requires lost < |job.contents| && job.contents[lost].path != "" && P.First(Digests(sink.layers), k)
    requires sink.layers[k].digest == Layer(job.codec, job.contents[lost]).digest
    requires PlaceOf(sink, k) != sink.place(job.contents[lost].path)
    ensures forall a: nat :: P.First(Digests(sink.layers), a) ==>
              PlaceOf(sink, a) != sink.place(job.contents[lost].path)
  {
    BuiltLayers(job, fs, es);
    var own := Layer(job.codec, job.contents[lost]);
    LayerPath(job.codec, job.contents[lost]);
    assert IsLayer(job, own);
    forall a: nat | P.First(Digests(sink.layers), a) ensures PlaceOf(sink, a) != sink.place(job.contents[lost].path) {
      assert IsLayer(job, sink.layers[a]);
      if PlaceOf(sink, a) == sink.place(job.contents[lost].path) {
        BuiltPlacesDecide(job, package, files, sink.place, sink.layers[a], own);
        SameFirst(Digests(sink.layers), a, k);
      }
    }
  }

  ghost predicate NoneThere(package: Package, sink: SinkJob, out0: map<string, Bytes>) {
    forall i: nat :: i < |Listed(package)| && Listed(package)[i].path != "" ==>
          sink.place(Listed(package)[i].path) !in out0
  }

  ghost predicate AllComeBack(files: map<string, Bytes>, package: Package, sink: SinkJob, out: map<string, Bytes>) {
    forall i: nat :: i < |Listed(package)| && Listed(package)[i].path != "" ==>
          ComesBack(files, sink, out, Listed(package)[i].path)
  }

  /** The round trip, exactly: into a directory that has none of the files yet, an export after a build brings every
      listed file back if and only if no two of them have the same base name and the same bytes. */
  lemma RoundTripExactly(job: Job, package: Package, files: map<string, Bytes>, fs: Fs, es: seq<Event>,
                         sink: SinkJob, out0: map<string, Bytes>, sinkEvents: seq<SinkEvent>)
    requires BuiltAndExported(job, package, files, fs, es, sink, out0, sinkEvents)
    requires NoneThere(package, sink, out0)
    ensures AllComeBack(files, package, sink, SinkRun(sink, SinkStart(sink, out0), sinkEvents).value.out) <==>
              NoTwins(job, sink.place)
  {
    var out := SinkRun(sink, SinkStart(sink, out0), sinkEvents).value.out;
    if NoTwins(job, sink.place) {
      forall i: nat | i < |Listed(package)| && Listed(package)[i].path != ""
        ensures ComesBack(files, sink, out, Listed(package)[i].path) {
        BuildThenExport(job, package, files, fs, es, sink, out0, sinkEvents, i);
      }
    } else {
      var i, j :| 0 <= i < |job.contents| && 0 <= j < |job.contents| && Twins(job, sink.place, i, j);
      TwinsLoseAFile(job, package, files, fs, es, sink, out0, sinkEvents, i, j);
      assert Listed(package)[i].path == job.contents[i].path && Listed(package)[j].path == job.contents[j].path;
      assert !ComesBack(files, sink, out, Listed(package)[i].path)
          || !ComesBack(files, sink, out, Listed(package)[j].path);
    }
  }

  lemma SameFirst(keys: seq<Option<string>>, a: nat, b: nat)
    requires P.First(keys, a) && P.First(keys, b) && keys[a] == keys[b]
    ensures a == b
  {
  }
}
