/** Every run of the downloader as a step system: interleaved chunk workers, failures at any
    point, crashes and restarts (internal/transfer/download.go). */
module DownloadRuns {
  import opened Basics
  import opened ChunkPlan
  import opened ProgressWriter
  import opened Download

  /** One goroutine of downloadConcurrent, or the single-file call. */
  datatype Worker = Waiting | Trying(attempt: nat) | Receiving(attempt: nat) | Succeeded | Failed

  datatype Phase =
    | Idle
    | Single(worker: Worker)
    | Fetching(workers: seq<Worker>, cancelled: bool)
    | Creating
    | Merging(part: nat, copied: nat)
    | Returned(ok: bool, skipped: bool)

  datatype State = State(disk: Disk, phase: Phase, progress: Counter)

  /** What can happen next. Workers may move in any order, which covers every concurrency limit. */
  datatype Event =
    | Start
    | Launch(i: nat)
    | Open(t: Target)
    | Receive(t: Target, n: nat)
    | BodyEnds(t: Target)
    | AttemptFails(t: Target, giveUp: bool)
    | Join
    | Create
    | CopyPart(n: nat)
    | NextPart(removed: bool)
    | MergeFails
    | FinishMerge
    | Crash

  function WorkerOf(p: Phase, t: Target): Option<Worker> {
    match p
    case Single(w) => if t.Dest? then Some(w) else None
    case Fetching(ws, _) => if t.Part? && t.i < |ws| then Some(ws[t.i]) else None
    case _ => None
  }

  function WithWorker(p: Phase, t: Target, w: Worker): (q: Phase)
    requires WorkerOf(p, t).Some?
  {
    match p
    case Single(_) =>
      if w.Succeeded? then Returned(true, false) else if w.Failed? then Returned(false, false) else Single(w)
    case Fetching(ws, c) => Fetching(ws[t.i := w], c || w.Failed?)
  }

  /** Bytes in the first `n` part files. */
  function OnDisk(parts: map<nat, Bytes>, n: nat): nat {
    if n == 0 then 0 else OnDisk(parts, n - 1) + if n - 1 in parts then |parts[n - 1]| else 0
  }

  /** The counter once downloadConcurrent has fed it the bytes already on disk. */
  function Synced(total: nat, existing: nat): Counter {
    if existing == 0 then Counter(total, 0, false) else Wrote(Counter(total, 0, false), existing)
  }

  /** The pre-check, and the choice between the two strategies. Every Start gets a fresh counter. */
  function Started(remote: Bytes, maxRetries: int, d: Disk): State {
    var total := |remote|;
    if d.dest.Some? && |d.dest.value| == total then State(d, Returned(true, true), Counter(total, 0, true))
    else if total < LARGE_FILE_THRESHOLD then
      State(d, if maxRetries < 0 then Returned(false, false) else Single(Trying(0)), Counter(total, 0, false))
    else State(d, Fetching(seq(PartCount(total), _ => Waiting), false),
               Synced(total, OnDisk(d.parts, PartCount(total))))
  }

  /** Opening the file of an attempt: creates it, and finishes at once when it is already long enough. */
  function Opening(remote: Bytes, s: State, t: Target, attempt: nat): State
    requires WorkerOf(s.phase, t).Some?
  {
    var file := s.disk.Opened(t);
    var progress := if t.Dest? && file != [] then Wrote(s.progress, |file|) else s.progress;
    var w := if |file| >= |Slice(remote, t)| then Succeeded else Receiving(attempt);
    State(s.disk.Put(t, file), WithWorker(s.phase, t, w), progress)
  }

  /** One step, or None where the event is not possible. */
  function Step(remote: Bytes, maxRetries: int, s: State, e: Event): Option<State> {
    match e
    case Crash => Some(s.(phase := Idle))
    case Start => if s.phase.Idle? || s.phase.Returned? then Some(Started(remote, maxRetries, s.disk)) else None
    case Launch(i) =>
      if WorkerOf(s.phase, Part(i)) == Some(Waiting) then
        Some(s.(phase := WithWorker(s.phase, Part(i),
                                    if s.phase.cancelled || maxRetries < 0 then Failed else Trying(0))))
      else None
    case Open(t) =>
      var w := WorkerOf(s.phase, t);
      if w.Some? && w.value.Trying? then Some(Opening(remote, s, t, w.value.attempt)) else None
    case Receive(t, n) =>
      var w, file := WorkerOf(s.phase, t), s.disk.Opened(t);
      if w.Some? && w.value.Receiving? && 0 < n && |file| + n <= |Slice(remote, t)| then
        Some(s.(disk := s.disk.Put(t, file + Slice(remote, t)[|file|..|file| + n]), progress := Wrote(s.progress, n)))
      else None
    case BodyEnds(t) =>
      var w := WorkerOf(s.phase, t);
      if w.Some? && w.value.Receiving? && |s.disk.Opened(t)| == |Slice(remote, t)| then
        Some(s.(phase := WithWorker(s.phase, t, Succeeded)))
      else None
    case AttemptFails(t, giveUp) =>
      var w := WorkerOf(s.phase, t);
      if w.Some? && (w.value.Trying? || w.value.Receiving?) then
        var a := w.value.attempt;
        Some(s.(phase := WithWorker(s.phase, t, if giveUp || a + 1 > maxRetries then Failed else Trying(a + 1))))
      else None
    case Join =>
      if s.phase.Fetching? && (forall w | w in s.phase.workers :: w.Succeeded? || w.Failed?) then
        Some(s.(phase := if Failed in s.phase.workers then Returned(false, false) else Creating))
      else None
    case Create =>
      if s.phase.Creating? then Some(s.(disk := s.disk.Put(Dest, []), phase := Merging(0, 0))) else None
    case CopyPart(n) =>
      if s.phase.Merging? && s.phase.part < PartCount(|remote|) && s.phase.part in s.disk.parts && 0 < n
          && s.phase.copied + n <= |s.disk.parts[s.phase.part]| then
        var more := s.disk.parts[s.phase.part][s.phase.copied..s.phase.copied + n];
        Some(s.(disk := s.disk.Put(Dest, s.disk.Opened(Dest) + more),
                phase := Merging(s.phase.part, s.phase.copied + n)))
      else None
    case NextPart(removed) =>
      if s.phase.Merging? && s.phase.part < PartCount(|remote|) && s.phase.part in s.disk.parts
          && s.phase.copied == |s.disk.parts[s.phase.part]| then
        var d := if removed then s.disk.(parts := s.disk.parts - {s.phase.part}) else s.disk;
        Some(s.(disk := d, phase := Merging(s.phase.part + 1, 0)))
      else None
    case MergeFails => if s.phase.Creating? || s.phase.Merging? then Some(s.(phase := Returned(false, false))) else None
    case FinishMerge =>
      if s.phase.Merging? && s.phase.part == PartCount(|remote|) then Some(s.(phase := Returned(true, false))) else None
  }

  function Run(remote: Bytes, maxRetries: int, s: State, es: seq<Event>): Option<State>
    decreases |es|
  {
    if es == [] then Some(s) else
    var next := Step(remote, maxRetries, s, es[0]);
    if next.None? then None else Run(remote, maxRetries, next.value, es[1..])
  }

  /** Where a run may begin: nothing is running, and earlier runs left only prefixes. */
  ghost predicate Initial(remote: Bytes, s: State) {
    s.phase.Idle? && Sound(remote, s.disk)
  }

  // ----- the invariant

  ghost predicate PartDone(remote: Bytes, d: Disk, i: nat) {
    d.Content(Part(i)) == Some(Slice(remote, Part(i)))
  }

  ghost predicate WorkerInv(remote: Bytes, d: Disk, t: Target, w: Worker) {
    && (w.Receiving? ==> d.Content(t).Some?)
    && (w.Succeeded? ==> d.Content(t) == Some(Slice(remote, t)))
  }

  /** In concurrent mode the counter says exactly how much is on disk, and is complete
      exactly when everything is. */
  ghost predicate Conserved(remote: Bytes, c: Counter, bytes: nat) {
    c.total == |remote| && c.written == bytes && (c.completed <==> bytes >= |remote|)
  }

  ghost predicate PhaseInv(remote: Bytes, s: State) {
    match s.phase
    case Idle => true
    case Single(w) =>
      && |remote| < LARGE_FILE_THRESHOLD
      && (w.Trying? || w.Receiving?)
      && WorkerInv(remote, s.disk, Dest, w)
      && s.progress.total == |remote|
      && (w.Receiving? ==> s.progress.written >= |s.disk.Opened(Dest)| && |remote| > 0)
      && (|remote| > 0 ==> (s.progress.completed <==> s.progress.written >= |remote|))
      && (|remote| == 0 ==> !s.progress.completed)
    case Fetching(ws, cancelled) =>
      && |remote| >= LARGE_FILE_THRESHOLD
      && |ws| == PartCount(|remote|)
      && (forall i: nat :: i < |ws| ==> WorkerInv(remote, s.disk, Part(i), ws[i]))
      && (Failed in ws ==> cancelled)
      && Conserved(remote, s.progress, OnDisk(s.disk.parts, PartCount(|remote|)))
    case Creating =>
      && |remote| >= LARGE_FILE_THRESHOLD
      && (forall i: nat :: i < PartCount(|remote|) ==> PartDone(remote, s.disk, i))
      && Conserved(remote, s.progress, |remote|)
    case Merging(p, copied) =>
      && |remote| >= LARGE_FILE_THRESHOLD
      && p <= PartCount(|remote|)
      && (forall i: nat :: p <= i < PartCount(|remote|) ==> PartDone(remote, s.disk, i))
      && (if p < PartCount(|remote|) then copied <= |Slice(remote, Part(p))| else copied == 0)
      && Offset(|remote|, p) + copied <= |remote|
      && s.disk.dest == Some(remote[..Offset(|remote|, p) + copied])
      && Conserved(remote, s.progress, |remote|)
    case Returned(ok, skipped) =>
      ok ==> s.disk.dest == Some(remote) && (s.progress.completed <==> skipped || |remote| > 0)
  }

  ghost predicate Inv(remote: Bytes, s: State) {
    Sound(remote, s.disk) && PhaseInv(remote, s)
  }

  // ----- bytes on disk

  lemma {:induction false} OnDiskPut(parts: map<nat, Bytes>, i: nat, b: Bytes, n: nat)
    ensures OnDisk(parts[i := b], n) ==
            OnDisk(parts, n) + if i < n then |b| - (if i in parts then |parts[i]| else 0) else 0
  {
    if n > 0 {
      OnDiskPut(parts, i, b, n - 1);
    }
  }

  lemma {:induction false} OnDiskFull(remote: Bytes, d: Disk, n: nat)
    requires |remote| > 0 && n <= PartCount(|remote|)
    requires forall i: nat :: i < n ==> PartDone(remote, d, i)
    ensures OnDisk(d.parts, n) == Offset(|remote|, n)
  {
    if n > 0 {
      assert PartDone(remote, d, n - 1);
      OnDiskFull(remote, d, n - 1);
      SlicesJoin(remote, n - 1);
    }
  }

  // ----- preservation, event by event

  lemma FullPrefix(b: Bytes, whole: Bytes)
    requires b <= whole
    ensures |b| >= |whole| ==> b == whole
  {
    assert b == whole[..|b|];
  }

  lemma StartInv(remote: Bytes, maxRetries: int, d: Disk)
    requires Sound(remote, d)
    ensures Inv(remote, Started(remote, maxRetries, d))
  {
    assert Planned(remote, Dest);
    FullPrefix(d.Opened(Dest), remote);
  }

  lemma OpenInv(remote: Bytes, s: State, t: Target)
    requires Inv(remote, s)
    requires WorkerOf(s.phase, t).Some? && WorkerOf(s.phase, t).value.Trying?
    ensures Inv(remote, Opening(remote, s, t, WorkerOf(s.phase, t).value.attempt))
  {
    var file := s.disk.Opened(t);
    assert Planned(remote, t);
    FullPrefix(file, Slice(remote, t));
    PutKeepsSound(remote, s.disk, t, file);
    if t.Part? {
      OnDiskPut(s.disk.parts, t.i, file, PartCount(|remote|));
    }
  }

  /** Appending the next bytes to a prefix gives the longer prefix. */
  lemma AppendsRange(file: Bytes, whole: Bytes, n: nat)
    requires file <= whole && |file| + n <= |whole|
    ensures file + whole[|file|..|file| + n] == whole[..|file| + n]
  {
    assert file == whole[..|file|];
  }

  /** What a longer file and a larger counter mean for the phase. */
  lemma LongerFile(remote: Bytes, s: State, t: Target, longer: Bytes, n: nat)
    requires PhaseInv(remote, s) && WorkerOf(s.phase, t).Some? && WorkerOf(s.phase, t).value.Receiving?
    requires n > 0 && |longer| == |s.disk.Opened(t)| + n <= |Slice(remote, t)|
    requires t.Part? ==>
               OnDisk(s.disk.Put(t, longer).parts, PartCount(|remote|)) == OnDisk(s.disk.parts, PartCount(|remote|)) + n
    ensures PhaseInv(remote, s.(disk := s.disk.Put(t, longer), progress := Wrote(s.progress, n)))
  {
    hide OnDisk, PartCount;
    if t.Part? {
      hide Slice;
      assert WorkerInv(remote, s.disk, t, s.phase.workers[t.i]);
    }
  }

  lemma ReceiveInv(remote: Bytes, maxRetries: int, s: State, t: Target, n: nat)
    requires Inv(remote, s)
    requires Step(remote, maxRetries, s, Receive(t, n)).Some?
    ensures Inv(remote, Step(remote, maxRetries, s, Receive(t, n)).value)
  {
    var file := s.disk.Opened(t);
    assert Planned(remote, t);
    SoundAt(remote, s.disk, t);
    AppendsRange(file, Slice(remote, t), n);
    var longer := file + Slice(remote, t)[|file|..|file| + n];
    PutKeepsSound(remote, s.disk, t, longer);
    if t.Part? {
      assert WorkerInv(remote, s.disk, t, s.phase.workers[t.i]);
      OnDiskPut(s.disk.parts, t.i, longer, PartCount(|remote|));
    }
    hide PhaseInv, Sound, Slice, OnDisk;
    LongerFile(remote, s, t, longer, n);
  }

  lemma WorkerEndsInv(remote: Bytes, maxRetries: int, s: State, e: Event)
    requires Inv(remote, s) && (e.BodyEnds? || e.AttemptFails? || e.Launch?)
    requires Step(remote, maxRetries, s, e).Some?
    ensures Inv(remote, Step(remote, maxRetries, s, e).value)
  {
    if e.BodyEnds? {
      assert Planned(remote, e.t);
      FullPrefix(s.disk.Opened(e.t), Slice(remote, e.t));
    }
  }

  lemma JoinInv(remote: Bytes, maxRetries: int, s: State)
    requires Inv(remote, s) && Step(remote, maxRetries, s, Join).Some?
    ensures Inv(remote, Step(remote, maxRetries, s, Join).value)
  {
    if Failed !in s.phase.workers {
      forall i: nat | i < PartCount(|remote|) ensures PartDone(remote, s.disk, i) {
        assert s.phase.workers[i] in s.phase.workers;
      }
      OnDiskFull(remote, s.disk, PartCount(|remote|));
      PlanCovers(|remote|);
    }
  }

  lemma CreateInv(remote: Bytes, maxRetries: int, s: State)
    requires Inv(remote, s) && Step(remote, maxRetries, s, Create).Some?
    ensures Inv(remote, Step(remote, maxRetries, s, Create).value)
  {
    PutKeepsSound(remote, s.disk, Dest, []);
    PlanCovers(|remote|);
    var d := s.disk.Put(Dest, []);
    forall i: nat | i < PartCount(|remote|) ensures PartDone(remote, d, i) {
      assert PartDone(remote, s.disk, i);
    }
    assert remote[..0] == [];
  }

  lemma FinishInv(remote: Bytes, maxRetries: int, s: State)
    requires Inv(remote, s) && Step(remote, maxRetries, s, FinishMerge).Some?
    ensures Inv(remote, Step(remote, maxRetries, s, FinishMerge).value)
  {
    PlanCovers(|remote|);
    assert remote[..|remote|] == remote;
  }

  /** Copying `n` bytes of part `p` extends the merged prefix by exactly those bytes of the object. */
  lemma CopyBytes(remote: Bytes, p: nat, copied: nat, n: nat)
    requires p < PartCount(|remote|) && |remote| > 0 && copied + n <= |Slice(remote, Part(p))|
    ensures Offset(|remote|, p) + copied + n <= |remote|
    ensures remote[..Offset(|remote|, p) + copied] + Slice(remote, Part(p))[copied..copied + n]
            == remote[..Offset(|remote|, p) + copied + n]
  {
    OffsetsMonotone(|remote|, p, p + 1);
    var from := Offset(|remote|, p) + copied;
    assert Slice(remote, Part(p))[copied..copied + n] == remote[from..from + n];
    assert remote[..from] + remote[from..from + n] == remote[..from + n];
  }

  lemma CopyInv(remote: Bytes, maxRetries: int, s: State, n: nat)
    requires Inv(remote, s) && Step(remote, maxRetries, s, CopyPart(n)).Some?
    ensures Inv(remote, Step(remote, maxRetries, s, CopyPart(n)).value)
  {
    var p, copied := s.phase.part, s.phase.copied;
    assert PartDone(remote, s.disk, p);
    CopyBytes(remote, p, copied, n);
    var s' := Step(remote, maxRetries, s, CopyPart(n)).value;
    var merged := remote[..Offset(|remote|, p) + copied + n];
    assert s'.disk == s.disk.Put(Dest, merged);
    PutKeepsSound(remote, s.disk, Dest, merged);
    forall i: nat | p <= i < PartCount(|remote|) ensures PartDone(remote, s'.disk, i) {
      assert PartDone(remote, s.disk, i);
    }
  }

  lemma NextPartInv(remote: Bytes, maxRetries: int, s: State, removed: bool)
    requires Inv(remote, s) && Step(remote, maxRetries, s, NextPart(removed)).Some?
    ensures Inv(remote, Step(remote, maxRetries, s, NextPart(removed)).value)
  {
    var p := s.phase.part;
    assert PartDone(remote, s.disk, p);
    SlicesJoin(remote, p);
    OffsetsClimb(|remote|, p);
    RemovalKeepsSound(remote, s.disk, p);
    var s' := Step(remote, maxRetries, s, NextPart(removed)).value;
    forall i: nat | p + 1 <= i < PartCount(|remote|) ensures PartDone(remote, s'.disk, i) {
      assert PartDone(remote, s.disk, i);
    }
  }

  lemma StepInv(remote: Bytes, maxRetries: int, s: State, e: Event)
    requires Inv(remote, s) && Step(remote, maxRetries, s, e).Some?
    ensures Inv(remote, Step(remote, maxRetries, s, e).value)
  {
    match e
    case Crash =>
    case Start => StartInv(remote, maxRetries, s.disk);
    case Open(t) => OpenInv(remote, s, t);
    case Receive(t, n) => ReceiveInv(remote, maxRetries, s, t, n);
    case Join => JoinInv(remote, maxRetries, s);
    case MergeFails =>
    case Create => CreateInv(remote, maxRetries, s);
    case CopyPart(n) => CopyInv(remote, maxRetries, s, n);
    case NextPart(removed) => NextPartInv(remote, maxRetries, s, removed);
    case FinishMerge => FinishInv(remote, maxRetries, s);
    case _ => WorkerEndsInv(remote, maxRetries, s, e);
  }

  lemma {:induction false} RunInv(remote: Bytes, maxRetries: int, s: State, es: seq<Event>)
    requires Inv(remote, s) && Run(remote, maxRetries, s, es).Some?
    ensures Inv(remote, Run(remote, maxRetries, s, es).value)
    decreases |es|
  {
    if es != [] {
      StepInv(remote, maxRetries, s, es[0]);
      RunInv(remote, maxRetries, Step(remote, maxRetries, s, es[0]).value, es[1..]);
    }
  }

  // ----- what the invariant buys

  /** Crash-safe resume. Over every run, with any failures, crashes and restarts: every file stays a
      prefix of what belongs in it; a destination of the right size is the right file, so the size-only
      pre-check is sound; and a Start that returned success left exactly the remote object. */
  lemma CrashSafeResume(remote: Bytes, maxRetries: int, s: State, es: seq<Event>)
    requires Initial(remote, s) && Run(remote, maxRetries, s, es).Some?
    ensures var r := Run(remote, maxRetries, s, es).value;
            && Sound(remote, r.disk)
            && (r.disk.dest.Some? && |r.disk.dest.value| == |remote| ==> r.disk.dest.value == remote)
            && (r.phase.Returned? && r.phase.ok ==> r.disk.dest == Some(remote))
  {
    RunInv(remote, maxRetries, s, es);
    var r := Run(remote, maxRetries, s, es).value;
    assert Planned(remote, Dest);
    FullPrefix(r.disk.Opened(Dest), remote);
  }

  /** Progress conservation: while chunks are being fetched the counter is the number of bytes in the
      part files, whatever workers retried or resumed; once merging it is the total; and the completed
      flag is up exactly when the counter has reached the total. */
  lemma ProgressConservation(remote: Bytes, maxRetries: int, s: State, es: seq<Event>)
    requires Initial(remote, s) && Run(remote, maxRetries, s, es).Some?
    ensures var r := Run(remote, maxRetries, s, es).value;
            && (r.phase.Fetching? ==> r.progress.written == OnDisk(r.disk.parts, PartCount(|remote|)))
            && (r.phase.Creating? || r.phase.Merging? ==> r.progress.written == |remote|)
            && (r.phase.Fetching? || r.phase.Creating? || r.phase.Merging? ==>
                  (r.progress.completed <==> r.progress.written >= |remote|))
  {
    RunInv(remote, maxRetries, s, es);
  }

  /** After a successful Start the counter is completed, except for an object of zero bytes
      whose destination file was not there before: it is created, and no byte is ever counted. */
  lemma CompletedAfterSuccess(remote: Bytes, maxRetries: int, s: State, es: seq<Event>)
    requires Initial(remote, s) && Run(remote, maxRetries, s, es).Some?
    requires Run(remote, maxRetries, s, es).value.phase.Returned? && Run(remote, maxRetries, s, es).value.phase.ok
    ensures var r := Run(remote, maxRetries, s, es).value;
            r.progress.completed <==> r.phase.skipped || |remote| > 0
  {
    RunInv(remote, maxRetries, s, es);
  }

  /** The run that shows the exception. */
  lemma EmptyObjectNeverCompletes(maxRetries: nat)
    ensures var s := State(Disk(None, map[]), Idle, Counter(0, 0, false));
            && Initial([], s)
            && Run([], maxRetries, s, [Start, Open(Dest)]) ==
               Some(State(Disk(Some([]), map[]), Returned(true, false), Counter(0, 0, false)))
  {
    var s := State(Disk(None, map[]), Idle, Counter(0, 0, false));
    var s1 := Started([], maxRetries, s.disk);
    assert s1 == State(Disk(None, map[]), Single(Trying(0)), Counter(0, 0, false));
    var s2 := Opening([], s1, Dest, 0);
    assert Step([], maxRetries, s, Start) == Some(s1) && Step([], maxRetries, s1, Open(Dest)) == Some(s2);
    assert [Start, Open(Dest)][1..] == [Open(Dest)] && [Open(Dest)][1..] == [];
    assert Run([], maxRetries, s1, [Open(Dest)]) == Run([], maxRetries, s2, []);
  }

  lemma StepGrows(remote: Bytes, maxRetries: int, s: State, e: Event, t: Target)
    requires Inv(remote, s) && Planned(remote, t) && Step(remote, maxRetries, s, e).Some?
    requires !e.Create? && !e.CopyPart? && !e.NextPart?
    ensures s.disk.Opened(t) <= Step(remote, maxRetries, s, e).value.disk.Opened(t)
  {
    assert s.disk.Opened(t) <= Slice(remote, t);
    var s' := Step(remote, maxRetries, s, e).value;
    if e.Receive? && e.t == t {
    } else {
      assert s'.disk.Opened(t) == s.disk.Opened(t);
    }
  }

  /** No fetched byte is lost while fetching: a run without a merge never shrinks a file. */
  lemma {:induction false} FilesOnlyGrow(remote: Bytes, maxRetries: int, s: State, es: seq<Event>, t: Target)
    requires Inv(remote, s) && Planned(remote, t) && Run(remote, maxRetries, s, es).Some?
    requires forall e :: e in es ==> !e.Create? && !e.CopyPart? && !e.NextPart?
    ensures s.disk.Opened(t) <= Run(remote, maxRetries, s, es).value.disk.Opened(t)
    decreases |es|
  {
    if es != [] {
      var s' := Step(remote, maxRetries, s, es[0]).value;
      StepInv(remote, maxRetries, s, es[0]);
      assert es[0] in es;
      StepGrows(remote, maxRetries, s, es[0], t);
      FilesOnlyGrow(remote, maxRetries, s', es[1..], t);
    }
  }

  // ----- the retry loop is a run

  lemma RunCons(remote: Bytes, maxRetries: int, s: State, e: Event, es: seq<Event>)
    requires Step(remote, maxRetries, s, e).Some?
    ensures Run(remote, maxRetries, s, [e] + es) == Run(remote, maxRetries, Step(remote, maxRetries, s, e).value, es)
  {
    assert ([e] + es)[1..] == es;
  }

  lemma {:induction false} RunJoins(remote: Bytes, maxRetries: int, s: State, a: seq<Event>, b: seq<Event>)
    requires Run(remote, maxRetries, s, a).Some?
    ensures Run(remote, maxRetries, s, a + b) == Run(remote, maxRetries, Run(remote, maxRetries, s, a).value, b)
    decreases |a|
  {
    if a == [] {
      assert a + b == b;
    } else {
      assert (a + b)[1..] == a[1..] + b;
      RunJoins(remote, maxRetries, Step(remote, maxRetries, s, a[0]).value, a[1..], b);
    }
  }

  /** The target's worker is about to make this attempt. */
  predicate About(s: State, t: Target, attempt: nat) {
    WorkerOf(s.phase, t) == Some(Trying(attempt))
  }

  /** From `s` to `r` only the target's file and worker have moved. */
  ghost predicate Moved(s: State, r: State, t: Target, file: Bytes, w: Worker)
    requires WorkerOf(s.phase, t).Some?
  {
    && r.disk.Opened(t) == file
    && (forall u: Target :: u != t ==> r.disk.Content(u) == s.disk.Content(u))
    && r.phase == WithWorker(s.phase, t, w)
  }

  /** Where an attempt leaves its worker. */
  function Next(a: Attempt, file: Bytes, expected: nat, attempt: nat, maxRetries: int): Worker {
    if AfterAttempt(file, expected, a).1 then Succeeded
    else if IsFatal(file, expected, a) || attempt + 1 > maxRetries then Failed
    else Trying(attempt + 1)
  }

  lemma OpenEffect(remote: Bytes, maxRetries: int, s: State, t: Target, attempt: nat)
    requires About(s, t, attempt)
    ensures Step(remote, maxRetries, s, Open(t)).Some?
    ensures Moved(s, Step(remote, maxRetries, s, Open(t)).value, t, s.disk.Opened(t),
                  if |s.disk.Opened(t)| >= |Slice(remote, t)| then Succeeded else Receiving(attempt))
  {
  }

  lemma FailEffect(remote: Bytes, maxRetries: int, s: State, t: Target, attempt: nat, giveUp: bool)
    requires About(s, t, attempt) || WorkerOf(s.phase, t) == Some(Receiving(attempt))
    ensures Step(remote, maxRetries, s, AttemptFails(t, giveUp)).Some?
    ensures Moved(s, Step(remote, maxRetries, s, AttemptFails(t, giveUp)).value, t, s.disk.Opened(t),
                  if giveUp || attempt + 1 > maxRetries then Failed else Trying(attempt + 1))
  {
  }

  /** The body of an answer from a server that honours the range, as one receive. */
  lemma ReceiveEffect(remote: Bytes, maxRetries: int, s: State, t: Target, attempt: nat, body: Bytes)
    requires WorkerOf(s.phase, t) == Some(Receiving(attempt)) && body != []
    requires s.disk.Opened(t) <= Slice(remote, t) && s.disk.Opened(t) + body <= Slice(remote, t)
    ensures Step(remote, maxRetries, s, Receive(t, |body|)).Some?
    ensures Moved(s, Step(remote, maxRetries, s, Receive(t, |body|)).value, t, s.disk.Opened(t) + body,
                  Receiving(attempt))
  {
    var file, slice := s.disk.Opened(t), Slice(remote, t);
    assert slice[|file|..|file| + |body|] == (file + body)[|file|..];
    PutReads(s.disk, t, file + body);
  }

  lemma EndEffect(remote: Bytes, maxRetries: int, s: State, t: Target, attempt: nat)
    requires WorkerOf(s.phase, t) == Some(Receiving(attempt)) && s.disk.Opened(t) == Slice(remote, t)
    ensures Step(remote, maxRetries, s, BodyEnds(t)).Some?
    ensures Moved(s, Step(remote, maxRetries, s, BodyEnds(t)).value, t, s.disk.Opened(t), Succeeded)
  {
  }

  /** A worker that is still at it. */
  predicate StillOn(w: Worker) {
    w.Trying? || w.Receiving?
  }

  lemma MovedTwice(s: State, r: State, q: State, t: Target, file: Bytes, w: Worker, later: Bytes, v: Worker)
    requires WorkerOf(s.phase, t).Some? && StillOn(w) && Moved(s, r, t, file, w)
    ensures WorkerOf(r.phase, t) == Some(w)
    ensures Moved(r, q, t, later, v) ==> Moved(s, q, t, later, v)
  {
  }

  lemma Unmoved(s: State, t: Target, w: Worker)
    requires WorkerOf(s.phase, t) == Some(w) && StillOn(w)
    ensures Moved(s, s, t, s.disk.Opened(t), w)
  {
    if s.phase.Fetching? {
      assert s.phase.workers[t.i := w] == s.phase.workers;
    }
  }

  /** The body of an answer, if there is any. */
  lemma BodyRuns(remote: Bytes, maxRetries: int, s: State, t: Target, attempt: nat, body: Bytes)
    returns (es: seq<Event>)
    requires WorkerOf(s.phase, t) == Some(Receiving(attempt))
    requires s.disk.Opened(t) <= Slice(remote, t) && s.disk.Opened(t) + body <= Slice(remote, t)
    ensures Run(remote, maxRetries, s, es).Some?
    ensures Moved(s, Run(remote, maxRetries, s, es).value, t, s.disk.Opened(t) + body, Receiving(attempt))
  {
    if body == [] {
      Unmoved(s, t, Receiving(attempt));
      assert s.disk.Opened(t) + body == s.disk.Opened(t);
      es := [];
    } else {
      hide Step, Moved;
      ReceiveEffect(remote, maxRetries, s, t, attempt, body);
      RunCons(remote, maxRetries, s, Receive(t, |body|), []);
      es := [Receive(t, |body|)] + [];
    }
  }

  /** After the open: what the answer brings. */
  lemma AnswerRuns(remote: Bytes, maxRetries: int, s: State, t: Target, attempt: nat, a: Attempt)
    returns (es: seq<Event>)
    requires WorkerOf(s.phase, t) == Some(Receiving(attempt)) && !a.OpenFails?
    requires s.disk.Opened(t) <= Slice(remote, t) && |s.disk.Opened(t)| < |Slice(remote, t)|
    requires Honest(remote, t, s.disk.Opened(t), a)
    ensures Run(remote, maxRetries, s, es).Some?
    ensures var file, expected := s.disk.Opened(t), |Slice(remote, t)|;
            Moved(s, Run(remote, maxRetries, s, es).value, t, AfterAttempt(file, expected, a).0,
                  Next(a, file, expected, attempt, maxRetries))
  {
    var file := s.disk.Opened(t);
    HonestAttempt(remote, t, file, a);
    hide Slice, Honest, HonoursRange, Step, Disk.Opened, Disk.Content, WorkerOf, WithWorker;
    if a.Unreachable? || (a.code != 206 && a.code != 200) {
      FailEffect(remote, maxRetries, s, t, attempt, a.contextError && a.Unreachable?);
      es := [AttemptFails(t, a.contextError && a.Unreachable?)] + [];
      RunCons(remote, maxRetries, s, AttemptFails(t, a.contextError && a.Unreachable?), []);
    } else {
      var first := BodyRuns(remote, maxRetries, s, t, attempt, a.body);
      var mid := Run(remote, maxRetries, s, first).value;
      MovedTwice(s, mid, mid, t, file + a.body, Receiving(attempt), file + a.body, Receiving(attempt));
      var last := if a.complete then BodyEnds(t) else AttemptFails(t, a.contextError);
      if a.complete {
        EndEffect(remote, maxRetries, mid, t, attempt);
      } else {
        FailEffect(remote, maxRetries, mid, t, attempt, a.contextError);
      }
      var end := Step(remote, maxRetries, mid, last).value;
      MovedTwice(s, mid, end, t, file + a.body, Receiving(attempt), file + a.body,
                 Next(a, file, |Slice(remote, t)|, attempt, maxRetries));
      RunCons(remote, maxRetries, mid, last, []);
      RunJoins(remote, maxRetries, s, first, [last] + []);
      es := first + ([last] + []);
    }
  }

  /** One attempt against a server that honours ranges is a run of its worker's events. */
  lemma AttemptRuns(remote: Bytes, maxRetries: int, s: State, t: Target, attempt: nat, a: Attempt)
    returns (es: seq<Event>)
    requires About(s, t, attempt) && s.disk.Opened(t) <= Slice(remote, t) && Honest(remote, t, s.disk.Opened(t), a)
    ensures Run(remote, maxRetries, s, es).Some?
    ensures var file, expected := s.disk.Opened(t), |Slice(remote, t)|;
            Moved(s, Run(remote, maxRetries, s, es).value, t, AfterAttempt(file, expected, a).0,
                  Next(a, file, expected, attempt, maxRetries))
  {
    var file, expected := s.disk.Opened(t), |Slice(remote, t)|;
    hide Slice, Honest, Step, Disk.Opened, Disk.Content, WithWorker;
    if a.OpenFails? {
      FailEffect(remote, maxRetries, s, t, attempt, false);
      RunCons(remote, maxRetries, s, AttemptFails(t, false), []);
      es := [AttemptFails(t, false)] + [];
    } else {
      OpenEffect(remote, maxRetries, s, t, attempt);
      var r := Step(remote, maxRetries, s, Open(t)).value;
      if |file| >= expected {
        RunCons(remote, maxRetries, s, Open(t), []);
        es := [Open(t)] + [];
      } else {
        MovedTwice(s, r, r, t, file, Receiving(attempt), file, Receiving(attempt));
        var more := AnswerRuns(remote, maxRetries, r, t, attempt, a);
        MovedTwice(s, r, Run(remote, maxRetries, r, more).value, t, file, Receiving(attempt),
                   AfterAttempt(file, expected, a).0, Next(a, file, expected, attempt, maxRetries));
        RunCons(remote, maxRetries, s, Open(t), more);
        es := [Open(t)] + more;
      }
    }
  }

  /** The retry loop, whatever fails in it and whenever its waits are interrupted, is a run of the machine: it leaves
      the same file, and its worker succeeded exactly when the loop is done. So the theorems about runs speak of the
      procedure. */
  lemma {:induction false} RetryRuns(remote: Bytes, maxRetries: int, s: State, t: Target, tries: nat -> Attempt,
                                     interrupted: nat -> bool, attempt: nat) returns (es: seq<Event>)
    requires About(s, t, attempt) && attempt <= maxRetries
    requires s.disk.Opened(t) <= Slice(remote, t) && ServerFor(remote, t, tries)
    ensures Run(remote, maxRetries, s, es).Some?
    ensures var (after, outcome, used) :=
              Retry(s.disk.Opened(t), |Slice(remote, t)|, maxRetries, tries, interrupted, attempt);
            Moved(s, Run(remote, maxRetries, s, es).value, t, after, if outcome.Done? then Succeeded else Failed)
    decreases maxRetries - attempt
  {
    var file, expected := s.disk.Opened(t), |Slice(remote, t)|;
    if attempt > 0 && interrupted(attempt) {
      FailEffect(remote, maxRetries, s, t, attempt, true);
      RunCons(remote, maxRetries, s, AttemptFails(t, true), []);
      es := [AttemptFails(t, true)] + [];
    } else {
      ServerIsHonest(remote, t, file, tries, attempt);
      es := AttemptRuns(remote, maxRetries, s, t, attempt, tries(attempt));
      if Next(tries(attempt), file, expected, attempt, maxRetries) == Trying(attempt + 1) {
        var r := Run(remote, maxRetries, s, es).value;
        var file' := AfterAttempt(file, expected, tries(attempt)).0;
        HonestAttempt(remote, t, file, tries(attempt));
        hide Step, Slice, Disk.Opened, Disk.Content, AfterAttempt, ServerFor, Honest;
        MovedTwice(s, r, r, t, file', Trying(attempt + 1), file', Trying(attempt + 1));
        var more := RetryRuns(remote, maxRetries, r, t, tries, interrupted, attempt + 1);
        var (after, outcome, used) := Retry(file', expected, maxRetries, tries, interrupted, attempt + 1);
        MovedTwice(s, r, Run(remote, maxRetries, r, more).value, t, file', Trying(attempt + 1),
                   after, if outcome.Done? then Succeeded else Failed);
        RunJoins(remote, maxRetries, s, es, more);
        es := es + more;
      }
    }
  }
}
