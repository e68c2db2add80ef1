/** What a build leaves in the snapshot directory (internal/repo/local.go): when every digest-named
    file holds exactly the bytes of its digest, and when it does not. */
module BundleFiles {
  import opened Basics
  import opened Oci
  import opened Bundle
  import P = WorkerPool

  /** Worker `i` has created its temporary file and not yet renamed it. */
  predicate Writer(job: Job, s: State, i: nat) {
    i < |job.contents| && i < |s.stages| && (s.stages[i].Writing? || s.stages[i].Written?)
  }

  /** No workspace file has the name of a digest. */
  ghost predicate HashesSeparate(job: Job) {
    forall i: nat, b :: i < |job.contents| ==> job.codec.hash(b) != Tmp(job, i)
  }

  /** Two contents that both need a snapshot file, go through the same temporary name, and are not both empty. */
  ghost predicate Clash(job: Job, fs: Fs, i: nat, j: nat) {
    && i < |job.contents| && j < |job.contents| && i != j
    && job.contents[i].path != "" && job.contents[j].path != ""
    && Tmp(job, i) == Tmp(job, j)
    && Id(job.codec, job.contents[i]) !in fs.dir && Id(job.codec, job.contents[j]) !in fs.dir
    && job.contents[i].bytes != []
  }

  ghost predicate NoClash(job: Job, fs: Fs) {
    forall i: nat, j: nat :: !Clash(job, fs, i, j)
  }

  predicate BothEmpty(job: Job, i: nat, j: nat)
    requires i < |job.contents| && j < |job.contents|
  {
    job.contents[i].bytes == [] && job.contents[j].bytes == []
  }

  /** A writer's temporary name leads to the inode it writes, which holds what it has written; a writer
      with nothing to write only needs the file to be empty while it is there. */
  ghost predicate WriterOk(job: Job, s: State, i: nat)
    requires Writer(job, s, i)
  {
    var ino, bytes, name := s.stages[i].ino, job.contents[i].bytes, Tmp(job, i);
    && (s.stages[i].Writing? ==> s.stages[i].off <= |bytes|)
    && (bytes == [] && name in s.fs.dir ==> s.fs.dir[name] in s.fs.data && s.fs.data[s.fs.dir[name]] == [])
    && (bytes != [] ==> name in s.fs.dir && s.fs.dir[name] == ino && ino in s.fs.data)
    && (bytes != [] && s.stages[i].Writing? ==> s.fs.data[ino] == bytes[..s.stages[i].off])
    && (bytes != [] && s.stages[i].Written? ==> s.fs.data[ino] == bytes)
  }

  ghost predicate Good(job: Job, s: State) {
    && FsOk(s.fs) && Sound(job.codec, s.fs)
    && (forall i: nat :: Writer(job, s, i) ==> WriterOk(job, s, i))
    && (forall i: nat, j: nat :: Writer(job, s, i) && Writer(job, s, j) && i != j && Tmp(job, i) == Tmp(job, j) ==>
          BothEmpty(job, i, j))
  }

  /** More writers than temporary files: somebody's rename is bound to fail. */
  ghost predicate Doomed(job: Job, s: State) {
    exists i: nat :: Writer(job, s, i) &&
      (Tmp(job, i) !in s.fs.dir || exists j: nat :: j != i && Writer(job, s, j) && Tmp(job, j) == Tmp(job, i))
  }

  ghost predicate Setting(job: Job) {
    Ideal(job.codec) && HashesSeparate(job)
  }

  // ----- good steps

  /** Steps that leave the directory alone and make no new writer. */
  lemma QuietKeepsGood(job: Job, s: State, t: State)
    requires Good(job, s) && t.fs == s.fs
    requires forall i: nat :: Writer(job, t, i) ==> Writer(job, s, i)
    requires forall i: nat :: Writer(job, t, i) ==> t.stages[i].ino == s.stages[i].ino
    requires forall i: nat :: Writer(job, t, i) ==>
               t.stages[i] == s.stages[i]
                   || (t.stages[i].Written? && s.stages[i].Writing? && s.stages[i].off == |job.contents[i].bytes|)
    ensures Good(job, t)
  {
    forall i: nat | Writer(job, t, i) ensures WriterOk(job, t, i) {
      assert WriterOk(job, s, i);
      assert job.contents[i].bytes[..|job.contents[i].bytes|] == job.contents[i].bytes;
    }
  }

  lemma CreateKeepsGood(job: Job, s: State, t: State, i: nat)
    requires Setting(job) && Good(job, s) && i < |job.contents| && i < |s.stages| && s.stages[i] == Ready(true)
    requires forall j: nat :: Writer(job, s, j) && Tmp(job, j) == Tmp(job, i) ==> BothEmpty(job, i, j)
    requires var (fs, ino) := Created(s.fs, Tmp(job, i)); t == s.(fs := fs, stages := s.stages[i := Writing(ino, 0)])
    ensures Good(job, t)
  {
    var name := Tmp(job, i);
    assert FsOk(t.fs);
    forall b | job.codec.hash(b) in t.fs.dir
      ensures t.fs.dir[job.codec.hash(b)] in t.fs.data && t.fs.data[t.fs.dir[job.codec.hash(b)]] == b
    {
      assert job.codec.hash(b) != name;
      assert job.codec.hash(b) in s.fs.dir;
    }
    forall j: nat | Writer(job, t, j) ensures WriterOk(job, t, j) {
      if j != i {
        assert Writer(job, s, j) && WriterOk(job, s, j);
      }
    }
    assert forall j: nat :: Writer(job, t, j) <==> Writer(job, s, j) || j == i;
  }

  lemma WriteKeepsGood(job: Job, s: State, t: State, i: nat, n: nat)
    requires n > 0
    requires Setting(job) && Good(job, s) && Writer(job, s, i) && s.stages[i].Writing?
             && s.stages[i].off + n <= |job.contents[i].bytes|
    requires s.stages[i].ino in s.fs.data
    requires var ino, off := s.stages[i].ino, s.stages[i].off;
             t == s.(fs := s.fs.(data := s.fs.data[ino :=
                                   WriteAt(s.fs.data[ino], off, job.contents[i].bytes[off..off + n])]),
                     stages := s.stages[i := Writing(ino, off + n)])
    ensures Good(job, t)
  {
    var ino, off, bytes := s.stages[i].ino, s.stages[i].off, job.contents[i].bytes;
    assert WriterOk(job, s, i);
    assert bytes[..off] + Zeros(0) + bytes[off..off + n] == bytes[..off + n];
    forall b | job.codec.hash(b) in t.fs.dir
      ensures t.fs.dir[job.codec.hash(b)] in t.fs.data && t.fs.data[t.fs.dir[job.codec.hash(b)]] == b
    {
      assert job.codec.hash(b) != Tmp(job, i);
    }
    forall j: nat | Writer(job, t, j) ensures WriterOk(job, t, j) {
      assert Writer(job, s, j) && WriterOk(job, s, j);
      if j != i && Tmp(job, j) in s.fs.dir {
        assert Tmp(job, j) != Tmp(job, i);
        assert s.fs.dir[Tmp(job, j)] != ino;
      }
    }
    assert forall j: nat :: Writer(job, t, j) <==> Writer(job, s, j);
  }

  lemma RenameKeepsGood(job: Job, s: State, t: State, i: nat)
    requires Setting(job) && Good(job, s) && Writer(job, s, i) && s.stages[i].Written? && Tmp(job, i) in s.fs.dir
    requires t == s.(fs := Renamed(s.fs, Tmp(job, i), Id(job.codec, job.contents[i])), stages := s.stages[i := Hashed])
    ensures Good(job, t)
  {
    var name, id := Tmp(job, i), Id(job.codec, job.contents[i]);
    assert WriterOk(job, s, i);
    assert id != name;
    assert FsOk(t.fs);
    forall b | job.codec.hash(b) in t.fs.dir
      ensures t.fs.dir[job.codec.hash(b)] in t.fs.data && t.fs.data[t.fs.dir[job.codec.hash(b)]] == b
    {
      if job.codec.hash(b) == id {
        assert b == job.contents[i].bytes;
      } else {
        assert job.codec.hash(b) in s.fs.dir;
      }
    }
    forall j: nat | Writer(job, t, j) ensures WriterOk(job, t, j) {
      assert Writer(job, s, j) && WriterOk(job, s, j);
      assert job.codec.hash(job.contents[i].bytes) != Tmp(job, j);
    }
    assert forall j: nat :: Writer(job, t, j) ==> Writer(job, s, j);
  }

  predicate Quiet(e: Event) {
    e.Skip? || e.Interrupt? || e.LayeringEnds? || e.Lock? || e.Append? || e.Unlock? || e.SetKey? || e.Fails?
  }

  /** A quiet step leaves files alone and makes no writer. */
  lemma QuietEffect(job: Job, s: State, e: Event, i: nat)
    requires Quiet(e) && Step(job, s, e).Some?
    ensures var t := Step(job, s, e).value;
            && t.fs == s.fs
            && (Writer(job, t, i) ==> Writer(job, s, i) && t.stages[i].ino == s.stages[i].ino)
            && (Writer(job, t, i) ==>
                  t.stages[i] == s.stages[i]
                      || (t.stages[i].Written? && s.stages[i].Writing? && s.stages[i].off == |job.contents[i].bytes|))
            && (Writer(job, s, i) && !e.Fails? ==> Writer(job, t, i))
  {
  }

  lemma LaunchEffect(job: Job, s: State, i: nat)
    requires PoolInv(job, s) && Step(job, s, Launch).Some?
    ensures var t := Step(job, s, Launch).value;
            && t.fs == s.fs
            && (Writer(job, t, i) <==> Writer(job, s, i))
            && (Writer(job, s, i) ==> t.stages[i] == s.stages[i])
  {
  }

  lemma QuietGood(job: Job, s: State, e: Event)
    requires PoolInv(job, s) && Good(job, s) && (Quiet(e) || e.Launch?) && Step(job, s, e).Some?
    ensures Good(job, Step(job, s, e).value)
  {
    var t := Step(job, s, e).value;
    forall i: nat
      ensures t.fs == s.fs
      ensures Writer(job, t, i) ==> Writer(job, s, i) && t.stages[i].ino == s.stages[i].ino
      ensures Writer(job, t, i) ==>
                t.stages[i] == s.stages[i]
                    || (t.stages[i].Written? && s.stages[i].Writing? && s.stages[i].off == |job.contents[i].bytes|)
    {
      if e.Launch? {
        LaunchEffect(job, s, i);
      } else {
        QuietEffect(job, s, e, i);
      }
    }
    QuietKeepsGood(job, s, t);
  }

  /** Creating a temporary file that another writer is still using. */
  ghost predicate Collides(job: Job, s: State, e: Event) {
    e.CreateTmp? && e.i < |job.contents| &&
    exists j: nat :: j != e.i && Writer(job, s, j) && Tmp(job, j) == Tmp(job, e.i) && !BothEmpty(job, e.i, j)
  }

  lemma CreateGood(job: Job, s: State, i: nat)
    requires Setting(job) && Good(job, s) && Step(job, s, CreateTmp(i)).Some?
    ensures var t := Step(job, s, CreateTmp(i)).value;
            Good(job, t) || (Collides(job, s, CreateTmp(i)) && Doomed(job, t))
  {
    var t := Step(job, s, CreateTmp(i)).value;
    if j: nat :| j != i && Writer(job, s, j) && Tmp(job, j) == Tmp(job, i) && !BothEmpty(job, i, j) {
      DoomedPair(job, t, i, j);
    } else {
      assert !Writer(job, s, i);
      CreateKeepsGood(job, s, t, i);
    }
  }

  /** From a good state every step is good again, unless it creates a temporary file that another
      writer is still using. */
  lemma GoodStep(job: Job, s: State, e: Event)
    requires Setting(job) && PoolInv(job, s) && Good(job, s) && Step(job, s, e).Some?
    ensures var t := Step(job, s, e).value;
            Good(job, t) || (Collides(job, s, e) && Doomed(job, t))
  {
    var t := Step(job, s, e).value;
    match e
    case CreateTmp(i) => CreateGood(job, s, i);
    case WriteChunk(i, n) => WriteKeepsGood(job, s, t, i, n);
    case Rename(i) => RenameKeepsGood(job, s, t, i);
    case _ => QuietGood(job, s, e);
  }

  // ----- doomed steps

  lemma DoomedPair(job: Job, s: State, i: nat, j: nat)
    requires Writer(job, s, i) && Writer(job, s, j) && i != j && Tmp(job, i) == Tmp(job, j)
    ensures Doomed(job, s)
  {
  }

  lemma DoomedAlone(job: Job, s: State, i: nat)
    requires Writer(job, s, i) && Tmp(job, i) !in s.fs.dir
    ensures Doomed(job, s)
  {
  }

  /** Steps that neither touch the directory nor end a writer. */
  lemma QuietKeepsDoomed(job: Job, s: State, t: State)
    requires Doomed(job, s) && t.fs.dir == s.fs.dir
    requires forall i: nat :: Writer(job, s, i) ==> Writer(job, t, i)
    ensures Doomed(job, t)
  {
    var i: nat :| Writer(job, s, i) &&
      (Tmp(job, i) !in s.fs.dir || exists j: nat :: j != i && Writer(job, s, j) && Tmp(job, j) == Tmp(job, i));
    if Tmp(job, i) in s.fs.dir {
      var j: nat :| j != i && Writer(job, s, j) && Tmp(job, j) == Tmp(job, i);
      DoomedPair(job, t, i, j);
    } else {
      DoomedAlone(job, t, i);
    }
  }

  lemma CreateKeepsDoomed(job: Job, s: State, t: State, k: nat)
    requires Doomed(job, s) && k < |job.contents| && k < |s.stages| && s.stages[k] == Ready(true)
    requires t.fs.dir.Keys == s.fs.dir.Keys + {Tmp(job, k)} && Writer(job, t, k)
    requires forall i: nat :: Writer(job, s, i) ==> Writer(job, t, i)
    ensures Doomed(job, t)
  {
    var i: nat :| Writer(job, s, i) &&
      (Tmp(job, i) !in s.fs.dir || exists j: nat :: j != i && Writer(job, s, j) && Tmp(job, j) == Tmp(job, i));
    if Tmp(job, i) == Tmp(job, k) {
      DoomedPair(job, t, i, k);
    } else if Tmp(job, i) in s.fs.dir {
      var j: nat :| j != i && Writer(job, s, j) && Tmp(job, j) == Tmp(job, i);
      DoomedPair(job, t, i, j);
    } else {
      DoomedAlone(job, t, i);
    }
  }

  lemma RenameKeepsDoomed(job: Job, s: State, t: State, k: nat)
    requires Setting(job) && Doomed(job, s) && Writer(job, s, k) && Tmp(job, k) in s.fs.dir
    requires t.fs.dir.Keys == s.fs.dir.Keys - {Tmp(job, k)} + {Id(job.codec, job.contents[k])}
    requires forall i: nat :: Writer(job, s, i) && i != k ==> Writer(job, t, i)
    ensures Doomed(job, t)
  {
    var i: nat :| Writer(job, s, i) &&
      (Tmp(job, i) !in s.fs.dir || exists j: nat :: j != i && Writer(job, s, j) && Tmp(job, j) == Tmp(job, i));
    assert forall m: nat :: m < |job.contents| ==> job.codec.hash(job.contents[k].bytes) != Tmp(job, m);
    if Tmp(job, i) in s.fs.dir {
      var j: nat :| j != i && Writer(job, s, j) && Tmp(job, j) == Tmp(job, i);
      if Tmp(job, i) == Tmp(job, k) {
        DoomedAlone(job, t, if i == k then j else i);
      } else {
        DoomedPair(job, t, i, j);
      }
    } else {
      DoomedAlone(job, t, i);
    }
  }

  /** A doomed build stays doomed until a worker fails. */
  lemma DoomedStep(job: Job, s: State, e: Event)
    requires Setting(job) && PoolInv(job, s) && Doomed(job, s) && Step(job, s, e).Some?
    ensures var t := Step(job, s, e).value; Doomed(job, t) || t.pool.failed
  {
    match e
    case CreateTmp(k) => CreateDoomed(job, s, k);
    case Rename(k) => RenameDoomed(job, s, k);
    case WriteChunk(k, n) => WriteDoomed(job, s, k, n);
    case Fails(_) =>
    case _ => QuietDoomed(job, s, e);
  }

  lemma CreateDoomed(job: Job, s: State, k: nat)
    requires Doomed(job, s) && Step(job, s, CreateTmp(k)).Some?
    ensures Doomed(job, Step(job, s, CreateTmp(k)).value)
  {
    CreateKeepsDoomed(job, s, Step(job, s, CreateTmp(k)).value, k);
  }

  lemma RenameDoomed(job: Job, s: State, k: nat)
    requires Setting(job) && Doomed(job, s) && Step(job, s, Rename(k)).Some?
    ensures Doomed(job, Step(job, s, Rename(k)).value)
  {
    RenameKeepsDoomed(job, s, Step(job, s, Rename(k)).value, k);
  }

  lemma WriteDoomed(job: Job, s: State, k: nat, n: nat)
    requires Doomed(job, s) && Step(job, s, WriteChunk(k, n)).Some?
    ensures Doomed(job, Step(job, s, WriteChunk(k, n)).value)
  {
    QuietKeepsDoomed(job, s, Step(job, s, WriteChunk(k, n)).value);
  }

  lemma QuietDoomed(job: Job, s: State, e: Event)
    requires PoolInv(job, s) && Doomed(job, s) && (Quiet(e) || e.Launch?) && !e.Fails? && Step(job, s, e).Some?
    ensures Doomed(job, Step(job, s, e).value)
  {
    var t := Step(job, s, e).value;
    forall i: nat ensures t.fs == s.fs && (Writer(job, s, i) ==> Writer(job, t, i)) {
      if e.Launch? {
        LaunchEffect(job, s, i);
      } else {
        QuietEffect(job, s, e, i);
      }
    }
    QuietKeepsDoomed(job, s, t);
  }

  // ----- digest names never go away

  /** Workers past the point where their snapshot file exists. */
  predicate Settled(s: State, i: nat) {
    i < |s.stages|
        && (s.stages[i] == Ready(false) || s.stages[i].Hashed? || s.stages[i].Locked? || s.stages[i].Appended?
                       || s.stages[i] == Over(true))
  }

  ghost predicate IdsPresent(job: Job, s: State) {
    forall i: nat :: i < |job.contents| && Settled(s, i) ==> Id(job.codec, job.contents[i]) in s.fs.dir
  }

  lemma HashesStay(job: Job, s: State, e: Event, b: Bytes)
    requires Setting(job) && Step(job, s, e).Some? && job.codec.hash(b) in s.fs.dir
    ensures job.codec.hash(b) in Step(job, s, e).value.fs.dir
  {
    if e.Rename? {
      assert job.codec.hash(b) != Tmp(job, e.i);
    }
  }

  lemma SettledStep(job: Job, s: State, e: Event, i: nat)
    requires Step(job, s, e).Some? && i < |job.contents| && Settled(Step(job, s, e).value, i)
    ensures Settled(s, i) || Id(job.codec, job.contents[i]) in Step(job, s, e).value.fs.dir
  {
  }

  lemma IdsStep(job: Job, s: State, e: Event)
    requires Setting(job) && IdsPresent(job, s) && Step(job, s, e).Some?
    ensures IdsPresent(job, Step(job, s, e).value)
  {
    var t := Step(job, s, e).value;
    forall i: nat | i < |job.contents| && Settled(t, i) ensures Id(job.codec, job.contents[i]) in t.fs.dir {
      SettledStep(job, s, e, i);
      if Settled(s, i) {
        HashesStay(job, s, e, job.contents[i].bytes);
      }
    }
  }

  // ----- whole runs

  ghost predicate RunInv(job: Job, s: State) {
    PoolInv(job, s) && IdsPresent(job, s) && (s.pool.failed || Doomed(job, s) || Good(job, s))
  }

  lemma StepFailed(job: Job, s: State, e: Event)
    requires s.pool.failed && Step(job, s, e).Some?
    ensures Step(job, s, e).value.pool.failed
  {
  }

  lemma {:induction false} RunKeepsInv(job: Job, s: State, es: seq<Event>)
    requires Setting(job) && RunInv(job, s) && Run(job, s, es).Some?
    ensures RunInv(job, Run(job, s, es).value)
    decreases |es|
  {
    if es != [] {
      var t := Step(job, s, es[0]).value;
      PoolStepInv(job, s, es[0]);
      IdsStep(job, s, es[0]);
      if s.pool.failed {
        StepFailed(job, s, es[0]);
      } else if Doomed(job, s) {
        DoomedStep(job, s, es[0]);
      } else {
        GoodStep(job, s, es[0]);
      }
      RunKeepsInv(job, t, es[1..]);
    }
  }

  // ----- no clash, no corruption

  predicate NeedsSnapshot(s: State, i: nat) {
    i < |s.stages| && (s.stages[i] == Ready(true) || s.stages[i].Writing? || s.stages[i].Written?)
  }

  /** Digest names of the start are still there, and whoever writes a snapshot did not find its own there. */
  ghost predicate SinceStart(job: Job, fs0: Fs, s: State) {
    && (forall b :: job.codec.hash(b) in fs0.dir ==> job.codec.hash(b) in s.fs.dir)
    && (forall i: nat :: i < |job.contents| && NeedsSnapshot(s, i) ==> Id(job.codec, job.contents[i]) !in fs0.dir)
  }

  lemma NeedsSnapshotStep(job: Job, s: State, e: Event, i: nat)
    requires Step(job, s, e).Some? && i < |job.contents| && NeedsSnapshot(Step(job, s, e).value, i)
    ensures NeedsSnapshot(s, i) || Id(job.codec, job.contents[i]) !in s.fs.dir
  {
  }

  lemma SinceStartStep(job: Job, fs0: Fs, s: State, e: Event)
    requires Setting(job) && SinceStart(job, fs0, s) && Step(job, s, e).Some?
    ensures SinceStart(job, fs0, Step(job, s, e).value)
  {
    var t := Step(job, s, e).value;
    forall b | job.codec.hash(b) in fs0.dir ensures job.codec.hash(b) in t.fs.dir {
      HashesStay(job, s, e, b);
    }
    forall i: nat | i < |job.contents| && NeedsSnapshot(t, i) ensures Id(job.codec, job.contents[i]) !in fs0.dir {
      NeedsSnapshotStep(job, s, e, i);
      assert job.codec.hash(job.contents[i].bytes) in fs0.dir ==> job.codec.hash(job.contents[i].bytes) in s.fs.dir;
    }
  }

  lemma WorkerHasPath(job: Job, s: State, i: nat)
    requires PoolInv(job, s) && i < |s.stages| && !s.stages[i].Idle?
    ensures job.contents[i].path != ""
  {
    assert StatusOf(s.stages[i], s.pool.status[i]);
    P.Launched(Keys(job), job.limit, s.pool, i);
  }

  /** Two workers at once need a limit of two. */
  lemma TwoWorkers(job: Job, s: State, i: nat, j: nat)
    requires PoolInv(job, s) && i < |s.stages| && j < |s.stages| && i != j
    requires !s.stages[i].Idle? && !s.stages[i].Over? && !s.stages[j].Idle? && !s.stages[j].Over?
    ensures job.limit >= 2
  {
    assert StatusOf(s.stages[i], s.pool.status[i]) && StatusOf(s.stages[j], s.pool.status[j]);
    P.CountTwo(s.pool.status, i, j);
  }

  /** A build in which no two writers can meet on a temporary name. */
  ghost predicate Separate(job: Job, fs: Fs) {
    job.limit <= 1 || NoClash(job, fs)
  }

  lemma NoCollision(job: Job, fs0: Fs, s: State, e: Event)
    requires Separate(job, fs0) && PoolInv(job, s) && SinceStart(job, fs0, s) && Step(job, s, e).Some?
    ensures !Collides(job, s, e)
  {
    if e.CreateTmp? {
      WorkerHasPath(job, s, e.i);
      forall j: nat | j != e.i && Writer(job, s, j) && Tmp(job, j) == Tmp(job, e.i) ensures BothEmpty(job, e.i, j) {
        TwoWorkers(job, s, e.i, j);
        WorkerHasPath(job, s, j);
        assert NeedsSnapshot(s, e.i) && NeedsSnapshot(s, j);
        assert !Clash(job, fs0, e.i, j) && !Clash(job, fs0, j, e.i);
      }
    }
  }

  lemma {:induction false} RunKeepsGood(job: Job, fs0: Fs, s: State, es: seq<Event>)
    requires Setting(job) && Separate(job, fs0) && PoolInv(job, s) && Good(job, s) && SinceStart(job, fs0, s)
    requires Run(job, s, es).Some?
    ensures Good(job, Run(job, s, es).value)
    decreases |es|
  {
    if es != [] {
      PoolStepInv(job, s, es[0]);
      GoodStep(job, s, es[0]);
      NoCollision(job, fs0, s, es[0]);
      SinceStartStep(job, fs0, s, es[0]);
      RunKeepsGood(job, fs0, Step(job, s, es[0]).value, es[1..]);
    }
  }

  lemma StartGood(job: Job, fs: Fs)
    requires FsOk(fs) && Sound(job.codec, fs)
    ensures Good(job, Start(job, fs)) && PoolInv(job, Start(job, fs)) && IdsPresent(job, Start(job, fs))
  {
    StartPool(job, fs);
  }

  /** Commit by rename. One worker at a time, or without a clash, every digest-named file holds exactly its
      digest's bytes in every state of every run: with any worker failing at any point, and so also after a crash. */
  lemma SnapshotsAlwaysSound(job: Job, fs: Fs, es: seq<Event>)
    requires Setting(job) && Separate(job, fs) && FsOk(fs) && Sound(job.codec, fs)
    requires Run(job, Start(job, fs), es).Some?
    ensures Sound(job.codec, Run(job, Start(job, fs), es).value.fs) && FsOk(Run(job, Start(job, fs), es).value.fs)
  {
    StartGood(job, fs);
    RunKeepsGood(job, fs, Start(job, fs), es);
  }

  /** For any contents at all, shared base names included: a build that succeeds has a sound directory,
      in which every content with a path is found under its digest. */
  lemma SuccessfulBuildIsSound(job: Job, fs: Fs, es: seq<Event>)
    requires Setting(job) && FsOk(fs) && Sound(job.codec, fs)
    requires Run(job, Start(job, fs), es).Some? && Built(job, Run(job, Start(job, fs), es).value)
    ensures var r := Run(job, Start(job, fs), es).value;
            && Sound(job.codec, r.fs)
            && forall i: nat :: i < |job.contents| && job.contents[i].path != "" ==>
                 Id(job.codec, job.contents[i]) in r.fs.dir
                 && r.fs.dir[Id(job.codec, job.contents[i])] in r.fs.data
                 && r.fs.data[r.fs.dir[Id(job.codec, job.contents[i])]] == job.contents[i].bytes
  {
    StartGood(job, fs);
    RunKeepsInv(job, Start(job, fs), es);
    var r := Run(job, Start(job, fs), es).value;
    forall i: nat | i < |job.contents|
      ensures !Writer(job, r, i) && (job.contents[i].path != "" ==> Id(job.codec, job.contents[i]) in r.fs.dir)
    {
      AllOver(job, r, i);
      assert Settled(r, i) <==> job.contents[i].path != "";
    }
    assert Good(job, r);
  }

  // ----- a clash corrupts

  lemma {:induction false} RunJoins(job: Job, s: State, a: seq<Event>, b: seq<Event>)
    requires Run(job, s, a).Some?
    ensures Run(job, s, a + b) == Run(job, Run(job, s, a).value, b)
    decreases |a|
  {
    if a == [] {
      assert a + b == b;
    } else {
      assert (a + b)[1..] == a[1..] + b;
      RunJoins(job, Step(job, s, a[0]).value, a[1..], b);
    }
  }

  lemma RunOne(job: Job, s: State, e: Event)
    ensures Run(job, s, [e]) == Step(job, s, e)
  {
    assert [e][1..] == [];
  }

  /** After `n` turns of the dispatch loop in which every worker failed as soon as it was launched, except
      `keep`, which has not moved yet. A worker gives its semaphore slot back before its error cancels the
      loop, so the loop can go on. */
  ghost predicate Dispatched(job: Job, fs: Fs, s: State, n: nat, keep: nat) {
    && PoolInv(job, s) && s.fs == fs && s.pool.next == n && !s.pool.stopped
    && s.pool.active == (if keep < n then 1 else 0)
    && (keep < n && keep < |job.contents| ==> s.stages[keep] == Ready(Id(job.codec, job.contents[keep]) !in fs.dir))
  }

  lemma Launches(job: Job, fs: Fs, s: State, n: nat, keep: nat)
    requires Dispatched(job, fs, s, n, keep) && n < |job.contents| && job.contents[n].path != ""
    requires job.limit >= 2
    ensures Step(job, s, Launch).Some?
    ensures var t := Step(job, s, Launch).value;
            && PoolInv(job, t) && t.fs == fs && t.pool.next == n + 1 && !t.pool.stopped
            && t.pool.active == s.pool.active + 1 && t.pool.Is(n, P.Running)
            && t.stages == s.stages[n := Ready(Id(job.codec, job.contents[n]) !in fs.dir)]
  {
    KeysFirst(job, n);
    P.FirstIsUnseen(Keys(job), n);
    PoolStepInv(job, s, Launch);
  }

  lemma LaunchThenFail(job: Job, fs: Fs, s: State, n: nat, keep: nat)
    requires Dispatched(job, fs, s, n, keep) && n < |job.contents| && job.contents[n].path != "" && n != keep
    requires job.limit >= 2
    ensures Step(job, s, Launch).Some? && Step(job, Step(job, s, Launch).value, Fails(n)).Some?
    ensures Dispatched(job, fs, Step(job, Step(job, s, Launch).value, Fails(n)).value, n + 1, keep)
  {
    Launches(job, fs, s, n, keep);
    PoolStepInv(job, Step(job, s, Launch).value, Fails(n));
  }

  /** One turn of the loop. */
  lemma DispatchOne(job: Job, fs: Fs, s: State, n: nat, keep: nat) returns (es: seq<Event>)
    requires Dispatched(job, fs, s, n, keep) && n < |job.contents| && job.limit >= 2
    requires n == keep ==> job.contents[n].path != ""
    ensures Run(job, s, es).Some? && Dispatched(job, fs, Run(job, s, es).value, n + 1, keep)
  {
    if job.contents[n].path == "" {
      PoolStepInv(job, s, Skip);
      RunOne(job, s, Skip);
      es := [Skip];
    } else if n == keep {
      Launches(job, fs, s, n, keep);
      RunOne(job, s, Launch);
      es := [Launch];
    } else {
      LaunchThenFail(job, fs, s, n, keep);
      var t := Step(job, s, Launch).value;
      RunOne(job, t, Fails(n));
      RunCons(job, s, Launch, [Fails(n)]);
      es := [Launch] + [Fails(n)];
    }
  }

  lemma {:induction false} DispatchUpTo(job: Job, fs: Fs, n: nat, keep: nat) returns (es: seq<Event>)
    requires n <= |job.contents| && job.limit >= 2
    requires keep < |job.contents| && job.contents[keep].path != ""
    ensures Run(job, Start(job, fs), es).Some? && Dispatched(job, fs, Run(job, Start(job, fs), es).value, n, keep)
  {
    es := [];
    StartPool(job, fs);
    if n > 0 {
      es := DispatchUpTo(job, fs, n - 1, keep);
      var s := Run(job, Start(job, fs), es).value;
      var turn := DispatchOne(job, fs, s, n - 1, keep);
      RunJoins(job, Start(job, fs), es, turn);
      es := es + turn;
    }
  }

  /** Two given contents can be in flight together, untouched, whenever two workers may run. */
  lemma BothReady(job: Job, fs: Fs, i: nat, j: nat) returns (es: seq<Event>)
    requires job.limit >= 2 && i < j < |job.contents| && job.contents[i].path != "" && job.contents[j].path != ""
    ensures Run(job, Start(job, fs), es).Some?
    ensures var s := Run(job, Start(job, fs), es).value;
            && s.fs == fs && |s.stages| == |job.contents|
            && s.stages[i] == Ready(Id(job.codec, job.contents[i]) !in fs.dir)
            && s.stages[j] == Ready(Id(job.codec, job.contents[j]) !in fs.dir)
  {
    es := DispatchUpTo(job, fs, j, i);
    var s := Run(job, Start(job, fs), es).value;
    Launches(job, fs, s, j, i);
    RunOne(job, s, Launch);
    RunJoins(job, Start(job, fs), es, [Launch]);
    es := es + [Launch];
  }

  /** The race on one temporary name: `i` writes everything, `j` truncates, `i` renames. */
  lemma RaceCorrupts(job: Job, s: State, i: nat, j: nat)
    requires Setting(job) && FsOk(s.fs) && Clash(job, s.fs, i, j)
    requires i < |s.stages| && j < |s.stages| && s.stages[i] == s.stages[j] == Ready(true)
    ensures var es := [CreateTmp(i), WriteChunk(i, |job.contents[i].bytes|), LayeringEnds(i), CreateTmp(j), Rename(i)];
            Run(job, s, es).Some? && !Sound(job.codec, Run(job, s, es).value.fs)
  {
    var name, id, bytes := Tmp(job, i), Id(job.codec, job.contents[i]), job.contents[i].bytes;
    var (fs1, ino) := Created(s.fs, name);
    var s1 := s.(fs := fs1, stages := s.stages[i := Writing(ino, 0)]);
    assert Step(job, s, CreateTmp(i)) == Some(s1);
    var s2 := Step(job, s1, WriteChunk(i, |bytes|)).value;
    var s3 := Step(job, s2, LayeringEnds(i)).value;
    var s4 := Step(job, s3, CreateTmp(j)).value;
    assert s4.fs.dir[name] == ino && s4.fs.data[ino] == [];
    var s5 := Step(job, s4, Rename(i)).value;
    assert s5.fs.dir[job.codec.hash(bytes)] == ino && s5.fs.data[ino] == [];
    RunOne(job, s4, Rename(i));
    RunCons(job, s3, CreateTmp(j), [Rename(i)]);
    RunCons(job, s2, LayeringEnds(i), [CreateTmp(j), Rename(i)]);
    RunCons(job, s1, WriteChunk(i, |bytes|), [LayeringEnds(i), CreateTmp(j), Rename(i)]);
    RunCons(job, s, CreateTmp(i), [WriteChunk(i, |bytes|), LayeringEnds(i), CreateTmp(j), Rename(i)]);
  }

  lemma RunCons(job: Job, s: State, e: Event, es: seq<Event>)
    requires Step(job, s, e).Some?
    ensures Run(job, s, [e] + es) == Run(job, Step(job, s, e).value, es)
  {
    RunOne(job, s, e);
    RunJoins(job, s, [e], es);
  }

  /** Every clash can corrupt the directory as soon as two workers may run, however many contents there are. */
  lemma ClashCorrupts(job: Job, fs: Fs, i: nat, j: nat) returns (es: seq<Event>)
    requires Setting(job) && FsOk(fs) && job.limit >= 2 && Clash(job, fs, i, j)
    ensures Run(job, Start(job, fs), es).Some? && !Sound(job.codec, Run(job, Start(job, fs), es).value.fs)
  {
    var start := BothReady(job, fs, if i < j then i else j, if i < j then j else i);
    var s := Run(job, Start(job, fs), start).value;
    var race := [CreateTmp(i), WriteChunk(i, |job.contents[i].bytes|), LayeringEnds(i), CreateTmp(j), Rename(i)];
    RaceCorrupts(job, s, i, j);
    RunJoins(job, Start(job, fs), start, race);
    es := start + race;
  }

  /** The exact condition: the snapshot directory is sound in every reachable state if and only if at most one
      worker runs at a time or no two contents clash on a temporary name. */
  lemma SoundExactlyWithoutClash(job: Job, fs: Fs)
    requires Setting(job) && FsOk(fs) && Sound(job.codec, fs)
    ensures (forall es :: Run(job, Start(job, fs), es).Some? ==>
               Sound(job.codec, Run(job, Start(job, fs), es).value.fs))
            <==> job.limit <= 1 || NoClash(job, fs)
  {
    if Separate(job, fs) {
      forall es | Run(job, Start(job, fs), es).Some? ensures Sound(job.codec, Run(job, Start(job, fs), es).value.fs) {
        SnapshotsAlwaysSound(job, fs, es);
      }
    } else {
      var i: nat, j: nat :| Clash(job, fs, i, j);
      var es := ClashCorrupts(job, fs, i, j);
    }
  }
}
