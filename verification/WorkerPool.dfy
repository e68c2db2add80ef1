/** The dispatch pattern that Bundle, Pull, Push and Sink share (internal/repo/local.go): a loop that
    skips keys it has seen, a weighted semaphore, and an errgroup that waits for every worker. */
module WorkerPool {
  import opened Basics

  datatype Status = Pending | Running | Finished | Failed

  /** `next` is the loop index and `active` the weight taken from the semaphore; `failed` says a
      worker returned an error, `stopped` that acquiring the semaphore was interrupted. */
  datatype Pool<K> = Pool(next: nat, seen: set<K>, status: seq<Status>, active: nat, failed: bool, stopped: bool) {
    predicate Is(i: nat, s: Status) {
      i < |status| && status[i] == s
    }
  }

  datatype Move = Skip | Launch | Interrupt | Finish(i: nat) | Fail(i: nat)

  function Start<K>(n: nat): Pool<K> {
    Pool(0, {}, seq(n, _ => Pending), 0, false, false)
  }

  /** One move over the work list, where None marks an item the loop passes over; or None when impossible. */
  function Step<K(==)>(keys: seq<Option<K>>, limit: nat, p: Pool<K>, m: Move): Option<Pool<K>> {
    match m
    case Skip =>
      if !p.stopped && p.next < |keys| && (keys[p.next].None? || keys[p.next].value in p.seen) then
        Some(p.(next := p.next + 1))
      else None
    case Launch =>
      if !p.stopped && p.next < |keys| && p.Is(p.next, Pending)
         && keys[p.next].Some? && keys[p.next].value !in p.seen && p.active < limit then
        Some(p.(next := p.next + 1, seen := p.seen + {keys[p.next].value},
                status := p.status[p.next := Running], active := p.active + 1))
      else None
    case Interrupt => if !p.stopped && p.next < |keys| then Some(p.(stopped := true)) else None
    case Finish(i) =>
      if p.Is(i, Running) && p.active > 0 then
        Some(p.(status := p.status[i := Finished], active := p.active - 1))
      else None
    case Fail(i) =>
      if p.Is(i, Running) && p.active > 0 then
        Some(p.(status := p.status[i := Failed], active := p.active - 1, failed := true))
      else None
  }

  /** A worker is finished only by its own move. */
  lemma FinishedFrom<K(!new)>(keys: seq<Option<K>>, limit: nat, p: Pool<K>, m: Move)
    requires Step(keys, limit, p, m).Some?
    ensures forall i: nat :: Step(keys, limit, p, m).value.Is(i, Finished) ==> p.Is(i, Finished) || m == Finish(i)
  {
  }

  /** The loop is over and every launched worker has returned. */
  predicate Waited<K>(keys: seq<Option<K>>, p: Pool<K>) {
    (p.next == |keys| || p.stopped) && p.active == 0
  }

  predicate Succeeded<K>(keys: seq<Option<K>>, p: Pool<K>) {
    Waited(keys, p) && !p.failed && !p.stopped
  }

  /** `i` is the first item with its key. */
  predicate First<K(==)>(keys: seq<Option<K>>, i: nat) {
    i < |keys| && keys[i].Some? && forall j :: 0 <= j < i ==> keys[j] != keys[i]
  }

  /** The keys among the first `n` items. */
  function Seen<K(==)>(keys: seq<Option<K>>, n: nat): set<K>
    requires n <= |keys|
  {
    if n == 0 then {}
    else if keys[n - 1].None? then Seen(keys, n - 1)
    else Seen(keys, n - 1) + {keys[n - 1].value}
  }

  predicate Unseen<K(==)>(keys: seq<Option<K>>, i: nat)
    requires i < |keys|
  {
    keys[i].Some? && keys[i].value !in Seen(keys, i)
  }

  lemma {:induction false} SeenHas<K(!new)>(keys: seq<Option<K>>, n: nat, k: K)
    requires n <= |keys|
    ensures k in Seen(keys, n) <==> exists j :: 0 <= j < n && keys[j] == Some(k)
  {
    if n > 0 {
      SeenHas(keys, n - 1, k);
    }
  }

  lemma FirstIsUnseen<K(!new)>(keys: seq<Option<K>>, i: nat)
    requires i < |keys|
    ensures First(keys, i) <==> Unseen(keys, i)
  {
    if keys[i].Some? {
      SeenHas(keys, i, keys[i].value);
    }
  }

  /** How many workers are running. */
  function Count(status: seq<Status>): nat {
    if status == [] then 0 else Count(status[..|status| - 1]) + if status[|status| - 1] == Running then 1 else 0
  }

  lemma {:induction false} CountUpdate(status: seq<Status>, i: nat, s: Status)
    requires i < |status|
    ensures Count(status[i := s]) ==
            Count(status) - (if status[i] == Running then 1 else 0) + (if s == Running then 1 else 0)
  {
    var front := status[..|status| - 1];
    if i < |status| - 1 {
      CountUpdate(front, i, s);
      assert status[i := s][..|status| - 1] == front[i := s];
    } else {
      assert status[i := s][..|status| - 1] == front;
    }
  }

  lemma {:induction false} CountZero(status: seq<Status>, i: nat)
    requires i < |status| && Count(status) == 0
    ensures status[i] != Running
  {
    if i < |status| - 1 {
      CountZero(status[..|status| - 1], i);
    }
  }

  lemma {:induction false} CountOne(status: seq<Status>, i: nat)
    requires i < |status| && status[i] == Running
    ensures Count(status) >= 1
  {
    if i < |status| - 1 {
      CountOne(status[..|status| - 1], i);
    }
  }

  lemma CountTwo(status: seq<Status>, i: nat, j: nat)
    requires i < |status| && j < |status| && i != j && status[i] == status[j] == Running
    ensures Count(status) >= 2
  {
    CountUpdate(status, i, Failed);
    CountOne(status[i := Failed], j);
  }

  lemma {:induction false} CountPending(n: nat)
    ensures Count(seq(n, _ => Pending)) == 0
  {
    if n > 0 {
      CountPending(n - 1);
      assert seq(n, _ => Pending)[..n - 1] == seq(n - 1, _ => Pending);
    }
  }

  /** Exactly the first item of every key reached so far has been launched, and the semaphore's weight
      is the number of workers running. */
  ghost predicate Inv<K(!new)>(keys: seq<Option<K>>, limit: nat, p: Pool<K>) {
    && p.next <= |keys| == |p.status|
    && p.seen == Seen(keys, p.next)
    && p.active == Count(p.status) <= limit
    && (forall i :: p.next <= i < |keys| ==> p.status[i] == Pending)
    && (forall i :: 0 <= i < p.next ==> (p.status[i] != Pending <==> Unseen(keys, i)))
    && (!p.failed ==> forall i :: 0 <= i < |keys| ==> p.status[i] != Failed)
  }

  lemma StartInv<K(!new)>(keys: seq<Option<K>>, limit: nat)
    ensures Inv(keys, limit, Start<K>(|keys|))
  {
    CountPending(|keys|);
  }

  lemma LaunchInv<K(!new)>(keys: seq<Option<K>>, limit: nat, p: Pool<K>)
    requires Inv(keys, limit, p) && Step(keys, limit, p, Launch).Some?
    ensures Inv(keys, limit, Step(keys, limit, p, Launch).value)
  {
    CountUpdate(p.status, p.next, Running);
  }

  lemma EndInv<K(!new)>(keys: seq<Option<K>>, limit: nat, p: Pool<K>, m: Move)
    requires Inv(keys, limit, p) && Step(keys, limit, p, m).Some? && (m.Finish? || m.Fail?)
    ensures Inv(keys, limit, Step(keys, limit, p, m).value)
  {
    CountUpdate(p.status, m.i, if m.Finish? then Finished else Failed);
  }

  lemma StepInv<K(!new)>(keys: seq<Option<K>>, limit: nat, p: Pool<K>, m: Move)
    requires Inv(keys, limit, p) && Step(keys, limit, p, m).Some?
    ensures Inv(keys, limit, Step(keys, limit, p, m).value)
  {
    match m
    case Launch => LaunchInv(keys, limit, p);
    case Finish(_) => EndInv(keys, limit, p, m);
    case Fail(_) => EndInv(keys, limit, p, m);
    case _ =>
  }

  /** Whoever was launched is the first with its key. */
  lemma Launched<K(!new)>(keys: seq<Option<K>>, limit: nat, p: Pool<K>, i: nat)
    requires Inv(keys, limit, p) && i < |p.status| && p.status[i] != Pending
    ensures i < p.next && First(keys, i)
  {
    FirstIsUnseen(keys, i);
  }

  /** On success every first item has finished. */
  lemma AllFinished<K(!new)>(keys: seq<Option<K>>, limit: nat, p: Pool<K>, i: nat)
    requires Inv(keys, limit, p) && Succeeded(keys, p)
    ensures p.Is(i, Finished) <==> First(keys, i)
    ensures !p.Is(i, Running)
  {
    if i < |keys| {
      FirstIsUnseen(keys, i);
      CountZero(p.status, i);
    }
  }

  /** On success every distinct key was handled, and by exactly one worker. */
  lemma EachKeyOnce<K(!new)>(keys: seq<Option<K>>, limit: nat, p: Pool<K>, k: K)
    requires Inv(keys, limit, p) && Succeeded(keys, p) && Some(k) in keys
    ensures exists i: nat :: p.Is(i, Finished) && First(keys, i) && keys[i] == Some(k)
    ensures forall i: nat, j: nat ::
              i < |keys| && j < |keys| && p.Is(i, Finished) && p.Is(j, Finished) && keys[i] == keys[j] ==> i == j
  {
    var i := FirstWith(keys, k);
    AllFinished(keys, limit, p, i);
    forall a: nat, b: nat | a < |keys| && b < |keys| && p.Is(a, Finished) && p.Is(b, Finished) && keys[a] == keys[b]
      ensures a == b
    {
      AllFinished(keys, limit, p, a);
      AllFinished(keys, limit, p, b);
    }
  }

  lemma FirstWith<K(!new)>(keys: seq<Option<K>>, k: K) returns (i: nat)
    requires Some(k) in keys
    ensures First(keys, i) && keys[i] == Some(k)
  {
    i := 0;
    while keys[i] != Some(k)
      invariant i < |keys| && forall j :: 0 <= j < i ==> keys[j] != Some(k)
      decreases |keys| - i
    {
      i := i + 1;
    }
  }

  // ----- one worker after the other

  /** The first `n` items are dealt with, nobody runs and nothing went wrong. */
  ghost predicate Upto<K(!new)>(keys: seq<Option<K>>, limit: nat, p: Pool<K>, n: nat) {
    Inv(keys, limit, p) && p.next == n && p.active == 0 && !p.failed && !p.stopped
  }

  lemma UptoStart<K(!new)>(keys: seq<Option<K>>, limit: nat)
    ensures Upto(keys, limit, Start<K>(|keys|), 0)
  {
    StartInv(keys, limit);
  }

  lemma UptoSkip<K(!new)>(keys: seq<Option<K>>, limit: nat, p: Pool<K>, n: nat)
    requires Upto(keys, limit, p, n) && n < |keys| && !First(keys, n)
    ensures Step(keys, limit, p, Skip).Some? && Upto(keys, limit, Step(keys, limit, p, Skip).value, n + 1)
  {
    FirstIsUnseen(keys, n);
    StepInv(keys, limit, p, Skip);
  }

  /** A first item's worker can be launched as soon as one may run, and then can finish. */
  lemma UptoLaunch<K(!new)>(keys: seq<Option<K>>, limit: nat, p: Pool<K>, n: nat)
    requires Upto(keys, limit, p, n) && First(keys, n) && limit >= 1
    ensures Step(keys, limit, p, Launch).Some? && Step(keys, limit, p, Launch).value.Is(n, Running)
    ensures var q := Step(keys, limit, p, Launch).value;
            && Step(keys, limit, q, Finish(n)).Some?
            && Upto(keys, limit, Step(keys, limit, q, Finish(n)).value, n + 1)
  {
    FirstIsUnseen(keys, n);
    StepInv(keys, limit, p, Launch);
    StepInv(keys, limit, Step(keys, limit, p, Launch).value, Finish(n));
  }

  lemma UptoAll<K(!new)>(keys: seq<Option<K>>, limit: nat, p: Pool<K>)
    requires Upto(keys, limit, p, |keys|)
    ensures Succeeded(keys, p)
  {
  }
}
