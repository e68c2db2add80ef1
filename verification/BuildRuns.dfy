/** A build that comes to its end, one worker after the other, from dispatch to the two lists
    (internal/repo/local.go). */
module BuildRuns {
  import opened Basics
  import opened Bundle
  import P = WorkerPool

  lemma {:induction false} RunSnoc(job: Job, s: State, es: seq<Event>, e: Event)
    ensures Run(job, s, es + [e]) == if Run(job, s, es).None? then None else Step(job, Run(job, s, es).value, e)
    decreases |es|
  {
    if es == [] {
      assert ([] + [e])[1..] == [];
    } else {
      assert (es + [e])[1..] == es[1..] + [e];
      var next := Step(job, s, es[0]);
      if next.Some? {
        RunSnoc(job, next.value, es[1..], e);
      }
    }
  }

  lemma {:induction false} RunJoins(job: Job, s: State, a: seq<Event>, b: seq<Event>)
    requires Run(job, s, a).Some?
    ensures Run(job, s, a + b) == Run(job, Run(job, s, a).value, b)
    decreases |a|
  {
    if a == [] {
      assert a + b == b;
    } else {
      assert (a + b)[1..] == a[1..] + b;
      RunJoins(job, Step(job, s, a[0]).value, a[1..], b);
    }
  }

  /** From `s` to `r` only worker `i`, the snapshot directory and the lists have moved. */
  ghost predicate Moved(s: State, r: State, i: nat, st: Stage) {
    && i < |s.stages| && r.stages == s.stages[i := st] && r.pool == s.pool && r.lock == s.lock
  }

  /** A worker that found no snapshot file writes it through the temporary name; one that found it only layers. */
  lemma LayeringRuns(job: Job, s: State, i: nat) returns (es: seq<Event>)
    requires i < |job.contents| && i < |s.stages| && s.stages[i].Ready?
    ensures Run(job, s, es).Some? && Moved(s, Run(job, s, es).value, i, Hashed)
  {
    if s.stages[i].snap {
      es := WritingRuns(job, s, i);
    } else {
      RunSnoc(job, s, [], LayeringEnds(i));
      es := [] + [LayeringEnds(i)];
    }
  }

  lemma WritingRuns(job: Job, s: State, i: nat) returns (es: seq<Event>)
    requires i < |job.contents| && i < |s.stages| && s.stages[i] == Ready(true)
    ensures Run(job, s, es).Some? && Moved(s, Run(job, s, es).value, i, Hashed)
  {
    var n := |job.contents[i].bytes|;
    var s1 := Step(job, s, CreateTmp(i)).value;
    RunSnoc(job, s, [], CreateTmp(i));
    es := [] + [CreateTmp(i)];
    var s2 := s1;
    if n > 0 {
      s2 := Step(job, s1, WriteChunk(i, n)).value;
      RunSnoc(job, s, es, WriteChunk(i, n));
      es := es + [WriteChunk(i, n)];
    }
    assert s2.stages[i] == Writing(s2.stages[i].ino, n) && Tmp(job, i) in s2.fs.dir;
    assert Moved(s, s2, i, s2.stages[i]);
    hide Created, WriteAt;
    var s3 := Step(job, s2, LayeringEnds(i)).value;
    RunSnoc(job, s, es, LayeringEnds(i));
    es := es + [LayeringEnds(i)];
    RunSnoc(job, s, es, Rename(i));
    es := es + [Rename(i)];
  }

  /** Both appends inside the mutex. */
  lemma ListingRuns(job: Job, s: State, i: nat) returns (es: seq<Event>)
    requires i < |job.contents| && i < |s.stages| && s.stages[i].Hashed? && s.lock.None?
    ensures Run(job, s, es).Some? && Moved(s, Run(job, s, es).value, i, Appended)
  {
    RunSnoc(job, s, [], Lock(i));
    es := [] + [Lock(i)];
    RunSnoc(job, s, es, Append(i));
    es := es + [Append(i)];
    RunSnoc(job, s, es, Append(i));
    es := es + [Append(i)];
    RunSnoc(job, s, es, Unlock(i));
    es := es + [Unlock(i)];
  }

  /** The first `n` contents are done, and nobody is at work. */
  ghost predicate Upto(job: Job, s: State, n: nat) {
    && n <= |job.contents| == |s.stages| && s.lock.None?
    && P.Upto(Keys(job), job.limit, s.pool, n)
    && (forall i: nat :: i < n ==> s.stages[i] == if job.contents[i].path != "" then Over(true) else Idle)
    && (forall i: nat :: n <= i < |s.stages| ==> s.stages[i] == Idle)
  }

  /** One worker from launch to end. */
  lemma WorkerRuns(job: Job, s: State, n: nat) returns (es: seq<Event>)
    requires Upto(job, s, n) && n < |job.contents| && job.contents[n].path != "" && job.limit >= 1
    ensures Run(job, s, es).Some? && Upto(job, Run(job, s, es).value, n + 1)
  {
    KeysFirst(job, n);
    P.UptoLaunch(Keys(job), job.limit, s.pool, n);
    hide P.Step, P.Upto, P.First, Keys;
    var s1 := Step(job, s, Launch).value;
    RunSnoc(job, s, [], Launch);
    es := [] + [Launch];
    var more := LayeringRuns(job, s1, n);
    RunJoins(job, s, es, more);
    es := es + more;
    var s2 := Run(job, s1, more).value;
    more := ListingRuns(job, s2, n);
    RunJoins(job, s, es, more);
    es := es + more;
    RunSnoc(job, s, es, SetKey(n));
    es := es + [SetKey(n)];
  }

  lemma SkipRuns(job: Job, s: State, n: nat)
    requires Upto(job, s, n) && n < |job.contents| && job.contents[n].path == ""
    ensures Run(job, s, [] + [Skip]).Some? && Upto(job, Run(job, s, [] + [Skip]).value, n + 1)
  {
    KeysFirst(job, n);
    P.UptoSkip(Keys(job), job.limit, s.pool, n);
    hide P.Step, P.Upto, P.First, Keys;
    RunSnoc(job, s, [], Skip);
  }

  lemma {:induction false} WorkersRun(job: Job, s: State, n: nat) returns (es: seq<Event>)
    requires Upto(job, s, n) && job.limit >= 1
    ensures Run(job, s, es).Some? && Upto(job, Run(job, s, es).value, |job.contents|)
    decreases |job.contents| - n
  {
    if n == |job.contents| {
      es := [];
    } else {
      if job.contents[n].path != "" {
        es := WorkerRuns(job, s, n);
      } else {
        SkipRuns(job, s, n);
        es := [] + [Skip];
      }
      hide Run, Upto;
      var more := WorkersRun(job, Run(job, s, es).value, n + 1);
      RunJoins(job, s, es, more);
      es := es + more;
    }
  }

  /** Any build that may run at least one worker and has something to build can succeed, whatever is in the snapshot
      directory, and whichever contents share their names. */
  lemma BuildSucceeds(job: Job, fs: Fs, some: nat) returns (es: seq<Event>)
    requires job.limit >= 1 && some < |job.contents| && job.contents[some].path != ""
    ensures Run(job, Start(job, fs), es).Some? && Built(job, Run(job, Start(job, fs), es).value)
  {
    P.UptoStart(Keys(job), job.limit);
    es := WorkersRun(job, Start(job, fs), 0);
    var r := Run(job, Start(job, fs), es).value;
    P.UptoAll(Keys(job), job.limit, r.pool);
    assert r.stages[some] == Over(true);
  }
}
