/** The files a download leaves on disk, and the sequential procedures that write them
    (internal/transfer/download.go). */
module Download {
  import opened Basics
  import opened ChunkPlan
  import opened ProgressWriter

  /** A file the downloader writes: the destination itself, or one numbered part file. */
  datatype Target = Dest | Part(i: nat)

  datatype Disk = Disk(dest: Option<Bytes>, parts: map<nat, Bytes>) {
    function Content(t: Target): Option<Bytes> {
      match t
      case Dest => dest
      case Part(i) => if i in parts then Some(parts[i]) else None
    }

    /** The file as O_CREATE opens it. */
    function Opened(t: Target): Bytes {
      if Content(t).Some? then Content(t).value else []
    }

    function Put(t: Target, b: Bytes): Disk {
      match t
      case Dest => this.(dest := Some(b))
      case Part(i) => this.(parts := parts[i := b])
    }
  }

  /** What a file and the others hold after a write. */
  lemma PutReads(d: Disk, t: Target, b: Bytes)
    ensures d.Put(t, b).Opened(t) == b && d.Put(t, b).Content(t) == Some(b)
    ensures forall u: Target :: u != t ==> d.Put(t, b).Content(u) == d.Content(u)
    ensures d.Content(t).Some? ==> d.Content(t) == Some(d.Opened(t))
  {
  }

  /** The bytes of the remote object that belong in a target. */
  function Slice(remote: Bytes, t: Target): Bytes {
    match t
    case Dest => remote
    case Part(i) =>
      OffsetsMonotone(|remote|, i, i + 1);
      remote[Offset(|remote|, i)..Offset(|remote|, i + 1)]
  }

  function Planned(remote: Bytes, t: Target): bool {
    t.Part? ==> |remote| > 0 && t.i < PartCount(|remote|)
  }

  /** What makes a disk resumable: every file holds a prefix of what belongs in it. */
  ghost predicate Sound(remote: Bytes, d: Disk) {
    forall t: Target :: Planned(remote, t) ==> d.Opened(t) <= Slice(remote, t)
  }

  lemma SoundAt(remote: Bytes, d: Disk, t: Target)
    requires Sound(remote, d) && Planned(remote, t)
    ensures d.Opened(t) <= Slice(remote, t)
  {
  }

  lemma PutKeepsSound(remote: Bytes, d: Disk, t: Target, b: Bytes)
    requires Sound(remote, d)
    requires Planned(remote, t) ==> b <= Slice(remote, t)
    ensures Sound(remote, d.Put(t, b))
  {
    forall u: Target | Planned(remote, u) ensures d.Put(t, b).Opened(u) <= Slice(remote, u) {
      assert u == t || d.Put(t, b).Opened(u) == d.Opened(u);
    }
  }

  lemma RemovalKeepsSound(remote: Bytes, d: Disk, i: nat)
    requires Sound(remote, d)
    ensures Sound(remote, d.(parts := d.parts - {i}))
  {
    forall u: Target | Planned(remote, u) ensures d.(parts := d.parts - {i}).Opened(u) <= Slice(remote, u) {
      assert u == Part(i) || d.(parts := d.parts - {i}).Opened(u) == d.Opened(u);
    }
  }

  /** Consecutive slices add up to a longer prefix of the object. */
  lemma SlicesJoin(remote: Bytes, i: nat)
    ensures Offset(|remote|, i) <= Offset(|remote|, i + 1) <= |remote|
    ensures remote[..Offset(|remote|, i)] + Slice(remote, Part(i)) == remote[..Offset(|remote|, i + 1)]
  {
    OffsetsMonotone(|remote|, i, i + 1);
  }

  /** The merged file after `n` bytes of part `i`. */
  lemma MergedPrefix(remote: Bytes, i: nat, n: nat)
    requires n <= |Slice(remote, Part(i))|
    ensures Offset(|remote|, i) <= Offset(|remote|, i + 1) <= |remote|
    ensures remote[..Offset(|remote|, i)] + Slice(remote, Part(i))[..n] <= Slice(remote, Dest)
    ensures n == |Slice(remote, Part(i))| ==>
              remote[..Offset(|remote|, i)] + Slice(remote, Part(i))[..n] == remote[..Offset(|remote|, i + 1)]
  {
    SlicesJoin(remote, i);
    var all := Slice(remote, Part(i));
    assert remote[..Offset(|remote|, i)] + all[..n] <= remote[..Offset(|remote|, i)] + all;
    assert all[..|all|] == all;
  }

  /** What the outside world does to one request attempt. `complete` says that the body
      ended cleanly, so the copy loop reported no error. */
  datatype Attempt =
    | OpenFails
    | Unreachable(contextError: bool)
    | Answer(code: nat, body: Bytes, complete: bool, contextError: bool)

  /** A server that speaks HTTP truthfully: 206 carries the requested range, 200 the whole object. */
  ghost predicate Truthful(remote: Bytes, from: nat, to: nat, a: Attempt)
    requires from <= to <= |remote|
  {
    a.Answer? ==>
      && (a.code == 206 ==> a.body <= remote[from..to] && (a.complete ==> a.body == remote[from..to]))
      && (a.code == 200 ==> a.body <= remote && (a.complete ==> a.body == remote))
  }

  /** A server that in addition answers 200 only when the whole object was requested. */
  ghost predicate HonoursRange(remote: Bytes, from: nat, to: nat, a: Attempt)
    requires from <= to <= |remote|
  {
    Truthful(remote, from, to, a) && (a.Answer? && a.code == 200 ==> from == 0 && to == |remote|)
  }

  function SliceStart(remote: Bytes, t: Target): nat {
    match t
    case Dest => 0
    case Part(i) => Offset(|remote|, i)
  }

  function SliceEnd(remote: Bytes, t: Target): (end: nat)
    ensures SliceStart(remote, t) <= end <= |remote|
    ensures remote[SliceStart(remote, t)..end] == Slice(remote, t)
  {
    match t
    case Dest => |remote|
    case Part(i) => OffsetsMonotone(|remote|, i, i + 1); Offset(|remote|, i + 1)
  }

  /** The file after one attempt, with the report the attempt returns. */
  function AfterAttempt(file: Bytes, expected: nat, a: Attempt): (Bytes, bool) {
    if a.OpenFails? then (file, false)
    else if |file| >= expected then (file, true)
    else if a.Unreachable? then (file, false)
    else if a.code != 206 && a.code != 200 then (file, false)
    else (file + a.body, a.complete)
  }

  /** A 200 answer to a resumed or partial request is appended as if it were the range. With a
      complete 200 answer the slice comes out right exactly when the request was for the whole object
      and nothing had been fetched before. */
  lemma WholeAnswerSound(remote: Bytes, t: Target, file: Bytes)
    requires Planned(remote, t) && file <= Slice(remote, t) && |file| < |Slice(remote, t)|
    ensures var (after, ok) := AfterAttempt(file, |Slice(remote, t)|, Answer(200, remote, true, false));
            ok && (after == Slice(remote, t) <==> file == [] && |Slice(remote, t)| == |remote|)
  {
    var after := file + remote;
    if after == Slice(remote, t) {
      assert |file| + |remote| == |Slice(remote, t)|;
    }
    if file == [] && |Slice(remote, t)| == |remote| {
      assert remote[SliceStart(remote, t)..SliceEnd(remote, t)] == Slice(remote, t);
      assert after == remote;
    }
  }

  /** A range-honouring answer extends the prefix, and success means the slice is complete. */
  lemma AttemptExtendsPrefix(remote: Bytes, t: Target, file: Bytes, a: Attempt)
    requires file <= Slice(remote, t)
    requires HonoursRange(remote, SliceStart(remote, t) + |file|, SliceEnd(remote, t), a)
    ensures var (after, ok) := AfterAttempt(file, |Slice(remote, t)|, a);
            file <= after <= Slice(remote, t) && (ok ==> after == Slice(remote, t))
  {
    var start, end := SliceStart(remote, t), SliceEnd(remote, t);
    var rest := remote[start + |file|..end];
    assert Slice(remote, t) == file + rest by {
      assert remote[start..end][..|file|] == file;
    }
    if a.Answer? && a.code == 200 && |file| < |Slice(remote, t)| {
      assert rest == remote;
    }
  }

  /** Errors the retry loop does not retry: the bare context errors. */
  function IsFatal(file: Bytes, expected: nat, a: Attempt): bool {
    match a
    case OpenFails => false
    case Unreachable(contextError) => |file| < expected && contextError
    case Answer(code, _, complete, contextError) =>
      |file| < expected && (code == 206 || code == 200) && !complete && contextError
  }

  datatype Outcome = Done | Cancelled | Fatal | Exhausted

  /** The retry loop as a function: the file it leaves, how it ended, and how many attempts ran.
      `tries(k)` is what happens to attempt `k`; `interrupted(k)` says that the context ended
      during the wait before attempt `k`. */
  function Retry(file: Bytes, expected: nat, maxRetries: int, tries: nat -> Attempt, interrupted: nat -> bool,
                 attempt: nat): (Bytes, Outcome, nat)
    decreases maxRetries + 1 - attempt
  {
    if attempt > maxRetries then (file, Exhausted, attempt)
    else if attempt > 0 && interrupted(attempt) then (file, Cancelled, attempt)
    else
      var (after, ok) := AfterAttempt(file, expected, tries(attempt));
      if ok then (after, Done, attempt + 1)
      else if IsFatal(file, expected, tries(attempt)) then (after, Fatal, attempt + 1)
      else Retry(after, expected, maxRetries, tries, interrupted, attempt + 1)
  }

  /** The requests a target can send over all its attempts are answered by a range-honouring server. */
  ghost predicate ServerFor(remote: Bytes, t: Target, tries: nat -> Attempt) {
    forall k: nat, from: nat :: SliceStart(remote, t) <= from <= SliceEnd(remote, t) ==>
      HonoursRange(remote, from, SliceEnd(remote, t), tries(k))
  }

  /** Over all its attempts the loop only ever appends, and it gives up only after all of them. Against a server
      that honours ranges the file stays a prefix, and success means the slice is complete. */
  lemma {:induction false} RetryExtendsPrefix(remote: Bytes, t: Target, file: Bytes, maxRetries: int,
                                              tries: nat -> Attempt, interrupted: nat -> bool, attempt: nat)
    ensures var (after, outcome, used) := Retry(file, |Slice(remote, t)|, maxRetries, tries, interrupted, attempt);
            && file <= after
            && attempt <= used <= Max(attempt, maxRetries + 1)
            && (outcome.Exhausted? ==> used == Max(attempt, maxRetries + 1))
            && (file <= Slice(remote, t) && ServerFor(remote, t, tries) ==>
                  after <= Slice(remote, t) && (outcome.Done? ==> after == Slice(remote, t)))
    decreases maxRetries + 1 - attempt
  {
    if attempt <= maxRetries && !(attempt > 0 && interrupted(attempt)) {
      if file <= Slice(remote, t) && ServerFor(remote, t, tries) {
        assert SliceStart(remote, t) + |file| <= SliceEnd(remote, t);
        AttemptExtendsPrefix(remote, t, file, tries(attempt));
      }
      var after := AfterAttempt(file, |Slice(remote, t)|, tries(attempt)).0;
      hide ServerFor, Slice;
      RetryExtendsPrefix(remote, t, after, maxRetries, tries, interrupted, attempt + 1);
    }
  }

  /** One clean answer is enough: whatever happened before, if attempt `k` is allowed, nothing ended the
      loop earlier, and the server serves attempt `k` to the end, the loop succeeds. */
  lemma {:induction false} RetrySucceeds(file: Bytes, expected: nat, maxRetries: int, tries: nat -> Attempt,
                                         interrupted: nat -> bool, attempt: nat, k: nat)
    requires attempt <= k <= maxRetries
    requires forall j: nat :: attempt <= j <= k ==> !interrupted(j)
    requires forall j: nat :: attempt <= j < k ==> tries(j).OpenFails? || !tries(j).contextError
    requires tries(k).Answer? && tries(k).code == 206 && tries(k).complete
    ensures Retry(file, expected, maxRetries, tries, interrupted, attempt).1.Done?
    decreases k - attempt
  {
    if attempt < k {
      RetrySucceeds(AfterAttempt(file, expected, tries(attempt)).0, expected, maxRetries, tries, interrupted,
                    attempt + 1, k);
    }
  }

  /** A request that the context itself ended is not tried again, however many attempts are left. */
  lemma {:induction false} ContextErrorStops(file: Bytes, expected: nat, maxRetries: int, tries: nat -> Attempt,
                                             interrupted: nat -> bool, attempt: nat, k: nat)
    requires attempt <= k <= maxRetries && |file| < expected
    requires forall j: nat :: attempt <= j <= k ==> !interrupted(j)
    requires forall j: nat :: attempt <= j < k ==> tries(j) == Unreachable(false)
    requires tries(k) == Unreachable(true)
    ensures Retry(file, expected, maxRetries, tries, interrupted, attempt) == (file, Fatal, k + 1)
    decreases k - attempt
  {
    if attempt < k {
      ContextErrorStops(file, expected, maxRetries, tries, interrupted, attempt + 1, k);
    }
  }

  /** What the counter is fed of bytes found on disk: in single-file mode every attempt that opens the file feeds it
      the local size, again if an earlier attempt already did. */
  function Resynced(file: Bytes, isPart: bool, a: Attempt): nat {
    if isPart || a.OpenFails? then 0 else |file|
  }

  function ResyncedInAll(file: Bytes, expected: nat, isPart: bool, maxRetries: int, tries: nat -> Attempt,
                         interrupted: nat -> bool, attempt: nat): (n: nat)
    ensures isPart ==> n == 0
    decreases maxRetries + 1 - attempt
  {
    if attempt > maxRetries || (attempt > 0 && interrupted(attempt)) then 0
    else
      var (after, ok) := AfterAttempt(file, expected, tries(attempt));
      Resynced(file, isPart, tries(attempt)) +
      if ok || IsFatal(file, expected, tries(attempt)) then 0
      else ResyncedInAll(after, expected, isPart, maxRetries, tries, interrupted, attempt + 1)
  }

  /** One attempt further, or the end of the loop. */
  lemma RetryOnce(file: Bytes, expected: nat, isPart: bool, maxRetries: int, tries: nat -> Attempt,
                  interrupted: nat -> bool, attempt: nat)
    ensures var (after, ok) := AfterAttempt(file, expected, tries(attempt));
            Retry(file, expected, maxRetries, tries, interrupted, attempt) ==
            if attempt > maxRetries then (file, Exhausted, attempt)
            else if attempt > 0 && interrupted(attempt) then (file, Cancelled, attempt)
            else if ok then (after, Done, attempt + 1)
            else if IsFatal(file, expected, tries(attempt)) then (after, Fatal, attempt + 1)
            else Retry(after, expected, maxRetries, tries, interrupted, attempt + 1)
    ensures var (after, ok) := AfterAttempt(file, expected, tries(attempt));
            ResyncedInAll(file, expected, isPart, maxRetries, tries, interrupted, attempt) ==
            if attempt > maxRetries || (attempt > 0 && interrupted(attempt)) then 0
            else Resynced(file, isPart, tries(attempt)) +
                 if ok || IsFatal(file, expected, tries(attempt)) then 0
                 else ResyncedInAll(after, expected, isPart, maxRetries, tries, interrupted, attempt + 1)
  {
  }

  /** The attempt's answer, if there is one, comes from a server that honours the range it is asked for. */
  ghost predicate Honest(remote: Bytes, t: Target, file: Bytes, a: Attempt) {
    file <= Slice(remote, t) ==> HonoursRange(remote, SliceStart(remote, t) + |file|, SliceEnd(remote, t), a)
  }

  lemma HonestAttempt(remote: Bytes, t: Target, file: Bytes, a: Attempt)
    requires file <= Slice(remote, t) && Honest(remote, t, file, a)
    ensures var (after, ok) := AfterAttempt(file, |Slice(remote, t)|, a);
            after <= Slice(remote, t) && (ok ==> after == Slice(remote, t))
  {
    AttemptExtendsPrefix(remote, t, file, a);
  }

  lemma ServerIsHonest(remote: Bytes, t: Target, file: Bytes, tries: nat -> Attempt, k: nat)
    requires ServerFor(remote, t, tries)
    ensures Honest(remote, t, file, tries(k))
  {
    if file <= Slice(remote, t) {
      assert SliceStart(remote, t) + |file| <= SliceEnd(remote, t);
    }
  }

  /** The parts from the `i`-th on are all there, whole. */
  ghost predicate Fetched(remote: Bytes, d: Disk, i: nat, count: nat) {
    forall j: nat :: i <= j < count ==> d.Content(Part(j)) == Some(Slice(remote, Part(j)))
  }

  lemma FetchedOn(remote: Bytes, d: Disk, e: Disk, i: nat, count: nat)
    requires Fetched(remote, d, i, count) && forall j: nat :: j > i ==> e.Content(Part(j)) == d.Content(Part(j))
    ensures Fetched(remote, e, i + 1, count)
  {
  }

  /** The merge loop from part `i` on: the disk it leaves, and whether it reports success. */
  function Merged(d: Disk, i: nat, count: nat, fault: Option<nat>, copied: nat, stuck: set<nat>): (Disk, bool)
    requires d.dest.Some?
    decreases count - i
  {
    if i >= count then (d, true)
    else if i !in d.parts then (d, false)
    else if fault == Some(i) then (d.(dest := Some(d.dest.value + d.parts[i][..Min(copied, |d.parts[i]|)])), false)
    else
      var rest := if i in stuck then d.parts else d.parts - {i};
      Merged(Disk(Some(d.dest.value + d.parts[i]), rest), i + 1, count, fault, copied, stuck)
  }

  /** The parts before the `n`-th and at most `copied` bytes of that. */
  function CopiedTo(remote: Bytes, n: nat, copied: nat): Bytes {
    SlicesJoin(remote, n);
    remote[..Offset(|remote|, n)] + Slice(remote, Part(n))[..Min(copied, |Slice(remote, Part(n))|)]
  }

  /** With every part there the merge succeeds unless a copy fails, and then the destination is the object. The parts
      that were copied are gone unless they could not be removed, and all others are as they were; after a failed copy
      the destination is a prefix that goes as far as the copy got. */
  lemma {:induction false} MergedMeans(remote: Bytes, d: Disk, i: nat, fault: Option<nat>, copied: nat, stuck: set<nat>)
    requires |remote| > 0 && i <= PartCount(|remote|) && Fetched(remote, d, i, PartCount(|remote|))
    requires Offset(|remote|, i) <= |remote| && d.dest == Some(remote[..Offset(|remote|, i)])
    requires fault.Some? ==> i <= fault.value
    ensures var count := PartCount(|remote|);
            var (after, ok) := Merged(d, i, count, fault, copied, stuck);
            var n := if fault.Some? && fault.value < count then fault.value else count;
            && (ok <==> n == count)
            && (ok ==> after.dest == Some(remote))
            && (!ok ==> after.dest == Some(CopiedTo(remote, n, copied)))
            && (forall j: nat :: after.Content(Part(j)) ==
                                 if i <= j < n && j !in stuck then None else d.Content(Part(j)))
    decreases PartCount(|remote|) - i
  {
    PlanCovers(|remote|);
    hide Slice, Offset, PartCount;
    if i == PartCount(|remote|) {
      assert remote[..|remote|] == remote;
    } else {
      assert d.Content(Part(i)) == Some(Slice(remote, Part(i)));
      if fault != Some(i) {
        SlicesJoin(remote, i);
        var next := Disk(Some(d.dest.value + d.parts[i]), if i in stuck then d.parts else d.parts - {i});
        FetchedOn(remote, d, next, i, PartCount(|remote|));
        MergedMeans(remote, next, i + 1, fault, copied, stuck);
      }
    }
  }

  /** One Downloader value. The remote object is what the server holds; `trail` records the
      disk after every write, so that a crash between any two writes finds one of its entries. */
  class Downloader {
    ghost const remote: Bytes
    const maxRetries: int
    const progress: Writer?
    var disk: Disk
    ghost var trail: seq<Disk>

    /** Every file, now and after every write so far, is a prefix of what belongs in it. */
    ghost predicate Resumable()
      reads this
    {
      Sound(remote, disk) && forall d :: d in trail ==> Sound(remote, d)
    }

    constructor (ghost remote: Bytes, maxRetries: int, progress: Writer?, disk: Disk)
      ensures this.remote == remote && this.disk == disk && trail == []
      ensures this.progress == progress && this.maxRetries == maxRetries
    {
      this.remote, this.maxRetries, this.progress := remote, maxRetries, progress;
      this.disk, this.trail := disk, [];
    }

    /** Feeds the counter 32 KiB at a time. */
    method SyncProgress(bytes: int)
      requires progress != null
      modifies progress
      ensures progress.View() == if bytes <= 0 then old(progress.View()) else Wrote(old(progress.View()), bytes)
    {
      if bytes <= 0 {
        return;
      }
      var bufSize := 32 * 1024;
      var remaining := bytes;
      while remaining > 0
        invariant 0 <= remaining <= bytes
        invariant progress.View() ==
                  if remaining == bytes then old(progress.View()) else Wrote(old(progress.View()), bytes - remaining)
      {
        var toWrite := remaining;
        if toWrite > bufSize {
          toWrite := bufSize;
        }
        progress.Write(toWrite);
        remaining := remaining - toWrite;
      }
    }

    /** One write: the file now holds `b`, and a crash from here on finds it so. */
    method Save(t: Target, b: Bytes)
      modifies this`disk, this`trail
      ensures disk == old(disk).Put(t, b) && trail == old(trail) + [disk]
      ensures old(Resumable()) && (Planned(remote, t) ==> b <= Slice(remote, t)) ==> Resumable()
    {
      if Sound(remote, disk) && (Planned(remote, t) ==> b <= Slice(remote, t)) {
        PutKeepsSound(remote, disk, t, b);
      }
      disk := disk.Put(t, b);
      trail := trail + [disk];
    }

    /** The copy loop: the body reaches the file piece by piece, the counter first. */
    method CopyBody(t: Target, body: Bytes)
      requires disk.Content(t).Some?
      modifies this`disk, this`trail, progress
      ensures disk == old(disk).Put(t, old(disk).Opened(t) + body)
      ensures old(Resumable()) && (Planned(remote, t) ==> old(disk).Opened(t) + body <= Slice(remote, t)) ==>
                Resumable()
      ensures progress != null ==>
                progress.View() == if body == [] then old(progress.View()) else Wrote(old(progress.View()), |body|)
    {
      hide Sound, Slice;
      var bufSize := 32 * 1024;
      var done := 0;
      ghost var whole := disk.Opened(t) + body;
      while done < |body|
        invariant 0 <= done <= |body|
        invariant old(Resumable()) && (Planned(remote, t) ==> whole <= Slice(remote, t)) ==> Resumable()
        invariant disk.Opened(t) == old(disk).Opened(t) + body[..done]
        invariant disk == old(disk).Put(t, disk.Opened(t))
        invariant progress != null ==>
                    progress.View() == if done == 0 then old(progress.View()) else Wrote(old(progress.View()), done)
      {
        var n := Min(|body| - done, bufSize);
        if progress != null {
          progress.Write(n);
        }
        var file := disk.Opened(t) + body[done..done + n];
        assert file == old(disk).Opened(t) + body[..done + n];
        assert file <= whole;
        Save(t, file);
        done := done + n;
      }
      assert body[..done] == body;
    }

    /** One attempt at a target, whatever the server answers. `isPart` is the chunk mode, where progress was
        synchronised before. */
    method DownloadPart(t: Target, rangeStart: nat, rangeEnd: nat, isPart: bool, a: Attempt) returns (ok: bool)
      requires rangeStart == SliceStart(remote, t) && rangeEnd == SliceEnd(remote, t)
      modifies this`disk, this`trail, progress
      ensures (disk.Opened(t), ok) == AfterAttempt(old(disk).Opened(t), rangeEnd - rangeStart, a)
      ensures forall u: Target :: u != t ==> disk.Content(u) == old(disk).Content(u)
      ensures ok ==> disk.Content(t).Some?
      ensures old(Resumable()) && Planned(remote, t) && Honest(remote, t, old(disk).Opened(t), a) ==>
                Resumable() && (ok ==> disk.Content(t) == Some(Slice(remote, t)))
      ensures progress != null ==>
                progress.View().written == old(progress.View().written) + |disk.Opened(t)| - |old(disk).Opened(t)|
                  + if isPart || a.OpenFails? then 0 else |old(disk).Opened(t)|
    {
      hide Sound, Honest, Slice, Disk.Put, Disk.Opened, Disk.Content;
      PutReads(disk, t, disk.Opened(t));
      if a.OpenFails? {
        return false;
      }
      var file := disk.Opened(t);
      ghost var sound := Resumable() && Planned(remote, t) && Honest(remote, t, file, a);
      if sound {
        SoundAt(remote, disk, t);
        HonestAttempt(remote, t, file, a);
      }
      Save(t, file);
      assert sound ==> Resumable();
      var currentLocalSize := |file|;
      var expectedPartSize := rangeEnd - rangeStart;
      if !isPart && progress != null && currentLocalSize > 0 {
        SyncProgress(currentLocalSize);
      }
      if currentLocalSize >= expectedPartSize {
        return true;
      }
      if a.Unreachable? {
        return false;
      }
      if a.code != 206 && a.code != 200 {
        return false;
      }
      PutReads(disk, t, disk.Opened(t) + a.body);
      CopyBody(t, a.body);
      return a.complete;
    }

    method DownloadPartWithRetry(t: Target, rangeStart: nat, rangeEnd: nat, isPart: bool,
                                 tries: nat -> Attempt, interrupted: nat -> bool) returns (result: Outcome, used: nat)
      requires rangeStart == SliceStart(remote, t) && rangeEnd == SliceEnd(remote, t)
      modifies this`disk, this`trail, progress
      ensures (disk.Opened(t), result, used) ==
              Retry(old(disk).Opened(t), rangeEnd - rangeStart, maxRetries, tries, interrupted, 0)
      ensures forall u: Target :: u != t ==> disk.Content(u) == old(disk).Content(u)
      ensures old(Resumable()) && Planned(remote, t) && ServerFor(remote, t, tries) ==>
                Resumable() && (result.Done? ==> disk.Content(t) == Some(Slice(remote, t)))
      ensures progress != null ==>
                progress.View().written == old(progress.View().written) + |disk.Opened(t)| - |old(disk).Opened(t)|
                  + ResyncedInAll(old(disk).Opened(t), rangeEnd - rangeStart, isPart, maxRetries, tries, interrupted, 0)
      ensures progress != null && isPart ==>
                progress.View().written == old(progress.View().written) + |disk.Opened(t)| - |old(disk).Opened(t)|
    {
      hide Sound, Slice, HonoursRange, Retry, ResyncedInAll;
      ghost var sound := Resumable() && Planned(remote, t) && ServerFor(remote, t, tries);
      var attempt := 0;
      while attempt <= maxRetries
        invariant sound ==> Resumable()
        invariant Retry(disk.Opened(t), rangeEnd - rangeStart, maxRetries, tries, interrupted, attempt) ==
                  Retry(old(disk).Opened(t), rangeEnd - rangeStart, maxRetries, tries, interrupted, 0)
        invariant forall u: Target :: u != t ==> disk.Content(u) == old(disk).Content(u)
        invariant progress != null ==>
                    progress.View().written + ResyncedInAll(disk.Opened(t), rangeEnd - rangeStart, isPart, maxRetries,
                                                            tries, interrupted, attempt)
                    == old(progress.View().written) + |disk.Opened(t)| - |old(disk).Opened(t)|
                       + ResyncedInAll(old(disk).Opened(t), rangeEnd - rangeStart, isPart, maxRetries,
                                       tries, interrupted, 0)
      {
        RetryOnce(disk.Opened(t), rangeEnd - rangeStart, isPart, maxRetries, tries, interrupted, attempt);
        if attempt > 0 && interrupted(attempt) {
          return Cancelled, attempt;
        }
        var file := disk.Opened(t);
        if sound {
          ServerIsHonest(remote, t, file, tries, attempt);
        }
        var ok := DownloadPart(t, rangeStart, rangeEnd, isPart, tries(attempt));
        if ok {
          return Done, attempt + 1;
        }
        if IsFatal(file, rangeEnd - rangeStart, tries(attempt)) {
          return Fatal, attempt + 1;
        }
        attempt := attempt + 1;
      }
      RetryOnce(disk.Opened(t), rangeEnd - rangeStart, isPart, maxRetries, tries, interrupted, attempt);
      return Exhausted, attempt;
    }

    /** Concatenates the parts into a fresh destination, removing each part after it was copied. A part that is not
        there ends it, and so does `fault`, the index of the part whose copy fails part-way; the parts in `stuck` cannot
        be removed, which nobody looks at. */
    method MergeParts(count: nat, fault: Option<nat>, copied: nat, stuck: set<nat>) returns (ok: bool)
      modifies this`disk, this`trail
      ensures (disk, ok) == Merged(old(disk).Put(Dest, []), 0, count, fault, copied, stuck)
      ensures old(Resumable() && Fetched(remote, disk, 0, count)) && |remote| > 0 && count == PartCount(|remote|) ==>
                Resumable()
    {
      hide Sound, Slice, Offset, PartCount;
      ghost var sound := Resumable() && Fetched(remote, disk, 0, count) && |remote| > 0 && count == PartCount(|remote|);
      if sound {
        PlanCovers(|remote|);
        assert remote[..0] == [];
      }
      Save(Dest, []);
      assert disk == old(disk).Put(Dest, []);
      var i := 0;
      while i < count
        invariant 0 <= i <= count && disk.dest.Some? && (fault.Some? ==> i <= fault.value || fault.value >= count)
        invariant Merged(disk, i, count, fault, copied, stuck) ==
                  Merged(old(disk).Put(Dest, []), 0, count, fault, copied, stuck)
        invariant sound ==> Resumable() && Fetched(remote, disk, i, count)
        invariant sound ==> Offset(|remote|, i) <= |remote| && disk.dest == Some(remote[..Offset(|remote|, i)])
      {
        if i !in disk.parts {
          return false;
        }
        var part := disk.parts[i];
        var n := if fault == Some(i) then Min(copied, |part|) else |part|;
        if sound {
          assert disk.Content(Part(i)) == Some(Slice(remote, Part(i)));
          MergedPrefix(remote, i, n);
        }
        assert part[..|part|] == part;
        ghost var before := disk;
        Save(Dest, disk.dest.value + part[..n]);
        if fault == Some(i) {
          return false;
        }
        if Resumable() {
          RemovalKeepsSound(remote, disk, i);
        }
        if i !in stuck {
          disk := disk.(parts := disk.parts - {i});
          trail := trail + [disk];
        }
        if sound {
          FetchedOn(remote, before, disk, i, count);
        }
        i := i + 1;
      }
      return true;
    }
  }
}
