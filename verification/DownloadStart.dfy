/** Start from its pre-check to its return, as runs of the downloader (internal/transfer/download.go): merging, and
    which downloads succeed. */
module DownloadStart {
  import opened Basics
  import opened ChunkPlan
  import opened ProgressWriter
  import opened Download
  import opened DownloadRuns

  // ----- the merge loop is a run

  lemma MergeFailsHere(remote: Bytes, maxRetries: int, s: State)
    requires s.phase.Creating? || s.phase.Merging?
    ensures Run(remote, maxRetries, s, [MergeFails] + []) == Some(s.(phase := Returned(false, false)))
  {
    RunCons(remote, maxRetries, s, MergeFails, []);
  }

  /** Copying the next bytes of a part, if there are any. */
  lemma CopyRuns(remote: Bytes, maxRetries: int, s: State, n: nat) returns (es: seq<Event>)
    requires s.phase.Merging? && s.phase.part < PartCount(|remote|) && s.phase.part in s.disk.parts
    requires s.phase.copied == 0 && n <= |s.disk.parts[s.phase.part]| && s.disk.dest.Some?
    ensures Run(remote, maxRetries, s, es) ==
            Some(s.(disk := s.disk.(dest := Some(s.disk.dest.value + s.disk.parts[s.phase.part][..n])),
                    phase := Merging(s.phase.part, n)))
  {
    if n == 0 {
      assert s.disk.dest.value + s.disk.parts[s.phase.part][..0] == s.disk.dest.value;
      es := [];
    } else {
      RunCons(remote, maxRetries, s, CopyPart(n), []);
      es := [CopyPart(n)] + [];
    }
  }

  lemma {:induction false} MergeRuns(remote: Bytes, maxRetries: int, s: State, fault: Option<nat>, copied: nat,
                                     stuck: set<nat>) returns (es: seq<Event>)
    requires s.phase.Merging? && s.phase.copied == 0 && s.phase.part <= PartCount(|remote|) && s.disk.dest.Some?
    ensures var (after, ok) := Merged(s.disk, s.phase.part, PartCount(|remote|), fault, copied, stuck);
            Run(remote, maxRetries, s, es) == Some(State(after, Returned(ok, false), s.progress))
    decreases PartCount(|remote|) - s.phase.part
  {
    hide PartCount;
    var i := s.phase.part;
    if i == PartCount(|remote|) {
      RunCons(remote, maxRetries, s, FinishMerge, []);
      es := [FinishMerge] + [];
    } else if i !in s.disk.parts {
      MergeFailsHere(remote, maxRetries, s);
      es := [MergeFails] + [];
    } else if fault == Some(i) {
      var first := CopyRuns(remote, maxRetries, s, Min(copied, |s.disk.parts[i]|));
      MergeFailsHere(remote, maxRetries, Run(remote, maxRetries, s, first).value);
      RunJoins(remote, maxRetries, s, first, [MergeFails] + []);
      es := first + ([MergeFails] + []);
    } else {
      var first := CopyRuns(remote, maxRetries, s, |s.disk.parts[i]|);
      assert s.disk.parts[i][..|s.disk.parts[i]|] == s.disk.parts[i];
      var mid := Run(remote, maxRetries, s, first).value;
      var next := Step(remote, maxRetries, mid, NextPart(i !in stuck)).value;
      var rest := MergeRuns(remote, maxRetries, next, fault, copied, stuck);
      RunCons(remote, maxRetries, mid, NextPart(i !in stuck), rest);
      RunJoins(remote, maxRetries, s, first, [NextPart(i !in stuck)] + rest);
      es := first + ([NextPart(i !in stuck)] + rest);
    }
  }

  // ----- from the workers to the return

  /** Every chunk worker has succeeded. */
  predicate AllSucceeded(p: Phase) {
    p.Fetching? && forall w | w in p.workers :: w.Succeeded?
  }

  /** From every state the downloader can be in: once all chunk workers have succeeded, the merge can be run to
      success, and then the destination is the object and no part file is left. With a copy that fails it runs to
      failure, and what it leaves is told by `MergedMeans`. */
  lemma FetchedSucceeds(remote: Bytes, maxRetries: int, s: State, fault: Option<nat>, copied: nat, stuck: set<nat>)
    returns (es: seq<Event>)
    requires Inv(remote, s) && AllSucceeded(s.phase)
    ensures var count := PartCount(|remote|);
            var (after, ok) := Merged(s.disk.Put(Dest, []), 0, count, fault, copied, stuck);
            && Run(remote, maxRetries, s, es) == Some(State(after, Returned(ok, false), s.progress))
            && (ok <==> fault.None? || fault.value >= count)
            && (ok ==> after.dest == Some(remote) && forall i: nat :: i < count && i !in stuck ==> i !in after.parts)
  {
    JoinInv(remote, maxRetries, s);
    var s1 := Step(remote, maxRetries, s, Join).value;
    assert s1 == s.(phase := Creating);
    assert PhaseInv(remote, s1);
    var s2 := Step(remote, maxRetries, s1, Create).value;
    assert s2 == State(s.disk.Put(Dest, []), Merging(0, 0), s.progress);
    MergeStarts(remote, s.disk, fault, copied, stuck);
    var rest := MergeRuns(remote, maxRetries, s2, fault, copied, stuck);
    hide Inv, PhaseInv;
    RunCons(remote, maxRetries, s1, Create, rest);
    RunCons(remote, maxRetries, s, Join, [Create] + rest);
    es := [Join] + ([Create] + rest);
  }

  lemma MergeStarts(remote: Bytes, d: Disk, fault: Option<nat>, copied: nat, stuck: set<nat>)
    requires |remote| > 0 && forall i: nat :: i < PartCount(|remote|) ==> PartDone(remote, d, i)
    ensures var count := PartCount(|remote|);
            var (after, ok) := Merged(d.Put(Dest, []), 0, count, fault, copied, stuck);
            && (ok <==> fault.None? || fault.value >= count)
            && (ok ==> after.dest == Some(remote) && forall i: nat :: i < count && i !in stuck ==> i !in after.parts)
  {
    PlanCovers(|remote|);
    assert remote[..0] == [];
    var e, count := d.Put(Dest, []), PartCount(|remote|);
    forall j: nat | j < count ensures e.Content(Part(j)) == Some(Slice(remote, Part(j))) {
      assert PartDone(remote, d, j);
    }
    hide Slice, Offset, PartCount, PartDone;
    MergedMeans(remote, e, 0, fault, copied, stuck);
    var (after, ok) := Merged(e, 0, count, fault, copied, stuck);
    forall i: nat | ok && i < count && i !in stuck ensures i !in after.parts {
      assert after.Content(Part(i)) == None;
    }
  }

  // ----- one chunk after the other

  /** What happens to the requests of every chunk, and during the waits between them. */
  datatype World = World(tries: nat -> nat -> Attempt, interrupted: nat -> nat -> bool)

  /** Whether the retry loop of chunk `i` ends well. */
  predicate ChunkDone(remote: Bytes, maxRetries: int, d: Disk, w: World, i: nat) {
    Retry(d.Opened(Part(i)), |Slice(remote, Part(i))|, maxRetries, w.tries(i), w.interrupted(i), 0).1.Done?
  }

  predicate ChunksDone(remote: Bytes, maxRetries: int, d: Disk, w: World, n: nat) {
    forall i: nat :: i < n ==> ChunkDone(remote, maxRetries, d, w, i)
  }

  ghost predicate Servers(remote: Bytes, w: World) {
    forall i: nat :: i < PartCount(|remote|) ==> ServerFor(remote, Part(i), w.tries(i))
  }

  /** The first `n` workers have returned, well as long as none has failed; the others have not begun. */
  ghost predicate Worked(remote: Bytes, maxRetries: int, d: Disk, w: World, n: nat, s: State) {
    && Inv(remote, s) && s.phase.Fetching? && n <= |s.phase.workers| == PartCount(|remote|)
    && (forall i: nat :: i < n ==>
          s.phase.workers[i] == if ChunksDone(remote, maxRetries, d, w, i + 1) then Succeeded else Failed)
    && (forall i: nat :: n <= i < |s.phase.workers| ==>
          s.phase.workers[i] == Waiting && s.disk.Content(Part(i)) == d.Content(Part(i)))
    && (s.phase.cancelled <==> !ChunksDone(remote, maxRetries, d, w, n))
  }

  lemma OneMoreDone(remote: Bytes, maxRetries: int, d: Disk, w: World, n: nat)
    ensures ChunksDone(remote, maxRetries, d, w, n + 1) <==>
              ChunksDone(remote, maxRetries, d, w, n) && ChunkDone(remote, maxRetries, d, w, n)
    ensures ChunksDone(remote, maxRetries, d, w, 0)
  {
    hide ChunkDone;
  }

  lemma LaunchEffect(remote: Bytes, maxRetries: int, s: State, n: nat)
    requires s.phase.Fetching? && n < |s.phase.workers| && s.phase.workers[n] == Waiting
    ensures Step(remote, maxRetries, s, Launch(n)).Some?
    ensures var v := if s.phase.cancelled || maxRetries < 0 then Failed else Trying(0);
            Step(remote, maxRetries, s, Launch(n)).value ==
            s.(phase := Fetching(s.phase.workers[n := v], s.phase.cancelled || v.Failed?))
  {
  }

  /** One worker moves to its end, and leaves the files of the others alone. */
  lemma OneWorked(remote: Bytes, maxRetries: int, d: Disk, w: World, n: nat, s: State, r: State)
    requires Worked(remote, maxRetries, d, w, n, s) && n < PartCount(|remote|) && Inv(remote, r)
    requires var done := ChunksDone(remote, maxRetries, d, w, n) && ChunkDone(remote, maxRetries, d, w, n);
             var v := if done then Succeeded else Failed;
             r.phase == Fetching(s.phase.workers[n := v], s.phase.cancelled || v.Failed?)
    requires forall j: nat :: j != n ==> r.disk.Content(Part(j)) == s.disk.Content(Part(j))
    ensures Worked(remote, maxRetries, d, w, n + 1, r)
  {
    OneMoreDone(remote, maxRetries, d, w, n);
    hide Inv, ChunksDone, ChunkDone, PartCount, Disk.Content;
  }

  /** The worker of one chunk: launched, and run to its end. */
  lemma ChunkRuns(remote: Bytes, maxRetries: int, d: Disk, w: World, n: nat, s: State) returns (es: seq<Event>)
    requires Worked(remote, maxRetries, d, w, n, s) && n < PartCount(|remote|) && Servers(remote, w)
    ensures Run(remote, maxRetries, s, es).Some?
    ensures Worked(remote, maxRetries, d, w, n + 1, Run(remote, maxRetries, s, es).value)
  {
    LaunchEffect(remote, maxRetries, s, n);
    StepInv(remote, maxRetries, s, Launch(n));
    var s1 := Step(remote, maxRetries, s, Launch(n)).value;
    if s.phase.cancelled || maxRetries < 0 {
      hide Step, Inv;
      RunCons(remote, maxRetries, s, Launch(n), []);
      es := [Launch(n)] + [];
      OneWorked(remote, maxRetries, d, w, n, s, s1);
    } else {
      assert Planned(remote, Part(n));
      SoundAt(remote, s1.disk, Part(n));
      assert ServerFor(remote, Part(n), w.tries(n));
      assert s1.disk.Opened(Part(n)) == d.Opened(Part(n));
      hide Step, Inv, Slice, ChunksDone, PartCount, ServerFor, Servers, Retry;
      var more := RetryRuns(remote, maxRetries, s1, Part(n), w.tries(n), w.interrupted(n), 0);
      RunInv(remote, maxRetries, s1, more);
      RunCons(remote, maxRetries, s, Launch(n), more);
      es := [Launch(n)] + more;
      OneWorked(remote, maxRetries, d, w, n, s, Run(remote, maxRetries, s1, more).value);
    }
  }

  lemma {:induction false} ChunksRun(remote: Bytes, maxRetries: int, d: Disk, w: World, n: nat, s: State)
    returns (es: seq<Event>)
    requires Worked(remote, maxRetries, d, w, n, s) && Servers(remote, w)
    ensures Run(remote, maxRetries, s, es).Some?
    ensures Worked(remote, maxRetries, d, w, PartCount(|remote|), Run(remote, maxRetries, s, es).value)
    decreases PartCount(|remote|) - n
  {
    if n == PartCount(|remote|) {
      es := [];
    } else {
      es := ChunkRuns(remote, maxRetries, d, w, n, s);
      hide Worked, Run;
      var mid := Run(remote, maxRetries, s, es).value;
      var rest := ChunksRun(remote, maxRetries, d, w, n + 1, mid);
      RunJoins(remote, maxRetries, s, es, rest);
      es := es + rest;
    }
  }

  // ----- Start

  /** Where a Start may begin: nothing is running, and the disk is resumable. */
  ghost predicate AtRest(remote: Bytes, s: State) {
    (s.phase.Idle? || s.phase.Returned?) && Sound(remote, s.disk)
  }

  predicate Skips(remote: Bytes, d: Disk) {
    d.dest.Some? && |d.dest.value| == |remote|
  }

  lemma LargeBegins(remote: Bytes, maxRetries: int, s: State, w: World)
    requires AtRest(remote, s) && !Skips(remote, s.disk) && |remote| >= LARGE_FILE_THRESHOLD
    ensures Step(remote, maxRetries, s, Start) == Some(Started(remote, maxRetries, s.disk))
    ensures Worked(remote, maxRetries, s.disk, w, 0, Started(remote, maxRetries, s.disk))
  {
    StartInv(remote, maxRetries, s.disk);
    OneMoreDone(remote, maxRetries, s.disk, w, 0);
    PlanCovers(|remote|);
  }

  lemma ChunksFail(remote: Bytes, maxRetries: int, d: Disk, w: World, s: State)
    requires Worked(remote, maxRetries, d, w, PartCount(|remote|), s) && |remote| > 0
    requires !ChunksDone(remote, maxRetries, d, w, PartCount(|remote|))
    ensures Run(remote, maxRetries, s, [Join] + []) == Some(s.(phase := Returned(false, false)))
  {
    PlanCovers(|remote|);
    hide Inv, ChunksDone, PartCount;
    assert s.phase.workers[PartCount(|remote|) - 1] == Failed;
    RunCons(remote, maxRetries, s, Join, []);
  }

  lemma ChunksSucceed(remote: Bytes, maxRetries: int, d: Disk, w: World, s: State)
    requires Worked(remote, maxRetries, d, w, PartCount(|remote|), s)
    requires ChunksDone(remote, maxRetries, d, w, PartCount(|remote|))
    ensures AllSucceeded(s.phase) && Inv(remote, s)
  {
    forall i: nat | i < |s.phase.workers| ensures s.phase.workers[i].Succeeded? {
      assert ChunksDone(remote, maxRetries, d, w, i + 1);
    }
  }

  /** A download in chunks, from any resumable disk and against servers that honour ranges, runs to its return, and
      succeeds exactly when every chunk's retry loop ends well and no copy of the merge fails. On success the
      destination is the object, and the part files are gone but for those that could not be removed. */
  lemma LargeRuns(remote: Bytes, maxRetries: int, s: State, w: World, fault: Option<nat>, copied: nat, stuck: set<nat>)
    returns (es: seq<Event>)
    requires AtRest(remote, s) && !Skips(remote, s.disk) && |remote| >= LARGE_FILE_THRESHOLD && Servers(remote, w)
    ensures Run(remote, maxRetries, s, es).Some? && Run(remote, maxRetries, s, es).value.phase.Returned?
    ensures var r, count := Run(remote, maxRetries, s, es).value, PartCount(|remote|);
            && !r.phase.skipped
            && (r.phase.ok <==>
                  ChunksDone(remote, maxRetries, s.disk, w, count) && (fault.None? || fault.value >= count))
            && (r.phase.ok ==> r.disk.dest == Some(remote)
                               && forall i: nat :: i < count && i !in stuck ==> i !in r.disk.parts)
  {
    LargeBegins(remote, maxRetries, s, w);
    hide Worked, PartCount, Step, AtRest, ChunksDone;
    var s1 := Started(remote, maxRetries, s.disk);
    var work := ChunksRun(remote, maxRetries, s.disk, w, 0, s1);
    var s2 := Run(remote, maxRetries, s1, work).value;
    var last: seq<Event>;
    if ChunksDone(remote, maxRetries, s.disk, w, PartCount(|remote|)) {
      ChunksSucceed(remote, maxRetries, s.disk, w, s2);
      last := FetchedSucceeds(remote, maxRetries, s2, fault, copied, stuck);
    } else {
      ChunksFail(remote, maxRetries, s.disk, w, s2);
      last := [Join] + [];
    }
    hide Run;
    RunJoins(remote, maxRetries, s1, work, last);
    RunCons(remote, maxRetries, s, Start, work + last);
    es := [Start] + (work + last);
  }

  /** A download in one piece succeeds exactly when its retry loop ends well, and leaves the file the loop leaves. */
  lemma SmallRuns(remote: Bytes, maxRetries: int, s: State, tries: nat -> Attempt, interrupted: nat -> bool)
    returns (es: seq<Event>)
    requires AtRest(remote, s) && !Skips(remote, s.disk) && |remote| < LARGE_FILE_THRESHOLD
    requires ServerFor(remote, Dest, tries)
    ensures Run(remote, maxRetries, s, es).Some?
    ensures var r := Run(remote, maxRetries, s, es).value;
            var (after, outcome, _) := Retry(s.disk.Opened(Dest), |remote|, maxRetries, tries, interrupted, 0);
            && r.phase == Returned(outcome.Done?, false) && r.disk.Opened(Dest) == after
            && (outcome.Done? ==> after == remote)
            && forall i: nat :: r.disk.Content(Part(i)) == s.disk.Content(Part(i))
  {
    var s1 := Started(remote, maxRetries, s.disk);
    assert Planned(remote, Dest);
    RetryExtendsPrefix(remote, Dest, s.disk.Opened(Dest), maxRetries, tries, interrupted, 0);
    if maxRetries < 0 {
      RunCons(remote, maxRetries, s, Start, []);
      es := [Start] + [];
    } else {
      assert About(s1, Dest, 0);
      var more := RetryRuns(remote, maxRetries, s1, Dest, tries, interrupted, 0);
      hide Retry, ServerFor, Sound;
      RunCons(remote, maxRetries, s, Start, more);
      es := [Start] + more;
    }
  }

  /** And a destination that already has the size of the object is taken for it, rightly, without a request. */
  lemma SkipRuns(remote: Bytes, maxRetries: int, s: State)
    requires AtRest(remote, s) && Skips(remote, s.disk)
    ensures Step(remote, maxRetries, s, Start) == Some(State(s.disk, Returned(true, true), Counter(|remote|, 0, true)))
    ensures s.disk.dest == Some(remote)
  {
    assert Planned(remote, Dest);
    FullPrefix(s.disk.Opened(Dest), remote);
  }
}
