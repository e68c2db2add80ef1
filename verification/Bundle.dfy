/** Building an image: concurrent workers copy workspace files into digest-named snapshot files and
    append to two shared lists (internal/repo/local.go). */
module Bundle {
  import opened Basics
  import opened Oci
  import P = WorkerPool

  // ----- contents, and what layering makes of them

  /** The digest function, the one-file tar stream and the compressor. */
  datatype Codec = Codec(hash: Bytes -> string, tar: (string, Bytes) -> Bytes, compress: Bytes -> Bytes)

  /** Digests do not collide, and neither encoding loses anything. */
  ghost predicate Ideal(c: Codec) {
    && (forall a, b :: c.hash(a) == c.hash(b) ==> a == b)
    && (forall n, a, m, b :: c.tar(n, a) == c.tar(m, b) ==> n == m && a == b)
    && (forall a, b :: c.compress(a) == c.compress(b) ==> a == b)
  }

  function TrimSlashes(p: string): string {
    if p != "" && p[|p| - 1] == '/' then TrimSlashes(p[..|p| - 1]) else p
  }

  function LastElement(p: string): string {
    if p == "" then ""
    else if p[|p| - 1] == '/' then ""
    else LastElement(p[..|p| - 1]) + [p[|p| - 1]]
  }

  /** filepath.Base */
  function Base(p: string): string {
    if p == "" then "."
    else if TrimSlashes(p) == "" then "/"
    else LastElement(TrimSlashes(p))
  }

  lemma {:induction false} LastIs(dir: string, name: string)
    requires '/' !in name && (dir == "" || dir[|dir| - 1] == '/')
    ensures LastElement(dir + name) == name
  {
    if name == "" {
      assert dir + name == dir;
    } else {
      var front := name[..|name| - 1];
      assert (dir + name)[..|dir + name| - 1] == dir + front;
      LastIs(dir, front);
      assert name == front + [name[|name| - 1]];
    }
  }

  /** The base name of a path is its last element, whatever directories come before it. */
  lemma BaseIsLast(dir: string, name: string)
    requires '/' !in name && name != "" && (dir == "" || dir[|dir| - 1] == '/')
    ensures Base(dir + name) == name && Base(dir + name + "/") == name
  {
    LastIs(dir, name);
    assert (dir + name)[|dir + name| - 1] == name[|name| - 1] && name[|name| - 1] in name;
    assert (dir + name + "/")[..|dir + name + "/"| - 1] == dir + name;
  }

  datatype Content = Content(path: string, mediaType: string, bytes: Bytes)

  function Id(codec: Codec, c: Content): string {
    codec.hash(c.bytes)
  }

  function DiffId(codec: Codec, c: Content): string {
    codec.hash(codec.tar(Base(c.path), c.bytes))
  }

  /** The annotation key that carries a layer's workspace path. */
  const FILEPATH := "org.cncf.model.filepath"

  function Layer(codec: Codec, c: Content): Descriptor {
    var blob := codec.compress(codec.tar(Base(c.path), c.bytes));
    Descriptor(codec.hash(blob), c.mediaType, |blob|, map[FILEPATH := c.path])
  }

  /** Two contents share a layer digest exactly when base name and bytes agree. */
  lemma LayerDigests(codec: Codec, c: Content, d: Content)
    requires Ideal(codec)
    ensures Layer(codec, c).digest == Layer(codec, d).digest <==> Base(c.path) == Base(d.path) && c.bytes == d.bytes
  {
  }

  // ----- the snapshot directory

  /** Names to inodes, inodes to bytes. A writer keeps its inode when a name moves. */
  datatype Fs = Fs(dir: map<string, nat>, data: map<nat, Bytes>, nextIno: nat)

  function Zeros(n: nat): Bytes {
    seq(n, _ => 0)
  }

  /** Writing at an offset, with a hole where the file is shorter than the offset. */
  function WriteAt(file: Bytes, off: nat, b: Bytes): Bytes {
    if |file| <= off then file + Zeros(off - |file|) + b
    else if |file| <= off + |b| then file[..off] + b
    else file[..off] + b + file[off + |b|..]
  }

  ghost predicate FsOk(fs: Fs) {
    && (forall n, m :: n in fs.dir && m in fs.dir && fs.dir[n] == fs.dir[m] ==> n == m)
    && (forall n :: n in fs.dir ==> fs.dir[n] in fs.data && fs.dir[n] < fs.nextIno)
  }

  /** Every digest-named file holds exactly that digest's bytes. */
  ghost predicate Sound(codec: Codec, fs: Fs) {
    forall b :: codec.hash(b) in fs.dir ==> fs.dir[codec.hash(b)] in fs.data && fs.data[fs.dir[codec.hash(b)]] == b
  }

  // ----- a build

  datatype Job = Job(codec: Codec, contents: seq<Content>, limit: nat)

  /** One content's worker. `Ready(snap)` carries what the dispatch loop saw of the snapshot file;
      inside the mutex `Locked(n)` has done `n` of the two appends; `Over(ok)` has returned. */
  datatype Stage = Idle | Ready(snap: bool) | Writing(ino: nat, off: nat) | Written(ino: nat) | Hashed | Locked(n: nat)
      | Appended | Over(ok: bool)

  datatype State = State(pool: P.Pool<nat>, stages: seq<Stage>, fs: Fs, lock: Option<nat>,
                         layers: seq<Descriptor>, diffIds: seq<string>, order: seq<nat>)

  datatype Event =
    | Skip
    | Launch
    | Interrupt
    | CreateTmp(i: nat)
    | WriteChunk(i: nat, n: nat)
    | LayeringEnds(i: nat)
    | Rename(i: nat)
    | Lock(i: nat)
    | Append(i: nat)
    | Unlock(i: nat)
    | SetKey(i: nat)
    | Fails(i: nat)

  function Keys(job: Job): seq<Option<nat>> {
    seq(|job.contents|, i requires 0 <= i < |job.contents| => if job.contents[i].path == "" then None else Some(i))
  }

  function Tmp(job: Job, i: nat): string
    requires i < |job.contents|
  {
    Base(job.contents[i].path)
  }

  function Start(job: Job, fs: Fs): State {
    State(P.Start(|job.contents|), seq(|job.contents|, _ => Idle), fs, None, [], [], [])
  }

  /** os.Create: an existing name is truncated in place, a new one gets a fresh inode. */
  function Created(fs: Fs, name: string): (Fs, nat) {
    if name in fs.dir then (fs.(data := fs.data[fs.dir[name] := []]), fs.dir[name])
    else (Fs(fs.dir[name := fs.nextIno], fs.data[fs.nextIno := []], fs.nextIno + 1), fs.nextIno)
  }

  function Renamed(fs: Fs, from: string, to: string): Fs
    requires from in fs.dir
  {
    fs.(dir := (fs.dir - {from})[to := fs.dir[from]])
  }

  function Step(job: Job, s: State, e: Event): Option<State> {
    match e
    case Skip =>
      var p := P.Step(Keys(job), job.limit, s.pool, P.Skip);
      if p.Some? then Some(s.(pool := p.value)) else None
    case Interrupt =>
      var p := P.Step(Keys(job), job.limit, s.pool, P.Interrupt);
      if p.Some? then Some(s.(pool := p.value)) else None
    case Launch =>
      var p := P.Step(Keys(job), job.limit, s.pool, P.Launch);
      if p.Some? && s.pool.next < |s.stages| then
        var snap := Id(job.codec, job.contents[s.pool.next]) !in s.fs.dir;
        Some(s.(pool := p.value, stages := s.stages[s.pool.next := Ready(snap)]))
      else None
    case CreateTmp(i) =>
      if i < |job.contents| && i < |s.stages| && s.stages[i] == Ready(true) then
        var (fs, ino) := Created(s.fs, Tmp(job, i));
        Some(s.(fs := fs, stages := s.stages[i := Writing(ino, 0)]))
      else None
    case WriteChunk(i, n) =>
      if i < |job.contents| && i < |s.stages| && s.stages[i].Writing? && 0 < n
          && s.stages[i].off + n <= |job.contents[i].bytes|
         && s.stages[i].ino in s.fs.data then
        var ino, off := s.stages[i].ino, s.stages[i].off;
        var file := WriteAt(s.fs.data[ino], off, job.contents[i].bytes[off..off + n]);
        Some(s.(fs := s.fs.(data := s.fs.data[ino := file]), stages := s.stages[i := Writing(ino, off + n)]))
      else None
    case LayeringEnds(i) =>
      if i < |job.contents| && i < |s.stages| && s.stages[i] == Ready(false) then
        Some(s.(stages := s.stages[i := Hashed]))
      else if i < |job.contents| && i < |s.stages| && s.stages[i].Writing?
          && s.stages[i].off == |job.contents[i].bytes| then
        Some(s.(stages := s.stages[i := Written(s.stages[i].ino)]))
      else None
    case Rename(i) =>
      if i < |job.contents| && i < |s.stages| && s.stages[i].Written? && Tmp(job, i) in s.fs.dir then
        Some(s.(fs := Renamed(s.fs, Tmp(job, i), Id(job.codec, job.contents[i])), stages := s.stages[i := Hashed]))
      else None
    case Lock(i) =>
      if i < |s.stages| && s.stages[i].Hashed? && s.lock.None? then
        Some(s.(lock := Some(i), stages := s.stages[i := Locked(0)]))
      else None
    case Append(i) =>
      if i < |job.contents| && i < |s.stages| && s.stages[i] == Locked(0) then
        Some(s.(layers := s.layers + [Layer(job.codec, job.contents[i])], order := s.order + [i],
                stages := s.stages[i := Locked(1)]))
      else if i < |job.contents| && i < |s.stages| && s.stages[i] == Locked(1) then
        Some(s.(diffIds := s.diffIds + [DiffId(job.codec, job.contents[i])], stages := s.stages[i := Locked(2)]))
      else None
    case Unlock(i) =>
      if i < |s.stages| && s.stages[i] == Locked(2) then
        Some(s.(lock := None, stages := s.stages[i := Appended]))
      else None
    case SetKey(i) =>
      if i < |s.stages| && s.stages[i].Appended? then
        var p := P.Step(Keys(job), job.limit, s.pool, P.Finish(i));
        if p.Some? then Some(s.(pool := p.value, stages := s.stages[i := Over(true)])) else None
      else None
    case Fails(i) =>
      if i < |s.stages| && !s.stages[i].Locked? && !s.stages[i].Idle? && !s.stages[i].Over? then
        var p := P.Step(Keys(job), job.limit, s.pool, P.Fail(i));
        if p.Some? then Some(s.(pool := p.value, stages := s.stages[i := Over(false)])) else None
      else None
  }

  function Run(job: Job, s: State, es: seq<Event>): Option<State>
    decreases |es|
  {
    if es == [] then Some(s)
    else
      var next := Step(job, s, es[0]);
      if next.None? then None else Run(job, next.value, es[1..])
  }

  /** The condition under which Bundle goes on to write config and manifest: every worker returned
      without error, the loop was not interrupted, and there was at least one progress writer. */
  predicate Built(job: Job, s: State) {
    P.Succeeded(Keys(job), s.pool) && Over(true) in s.stages
  }

  // ----- the pool behind the stages

  predicate StatusOf(st: Stage, status: P.Status) {
    match status
    case Pending => st.Idle?
    case Running => !st.Idle? && !st.Over?
    case Finished => st == Over(true)
    case Failed => st == Over(false)
  }

  ghost predicate PoolInv(job: Job, s: State) {
    && P.Inv(Keys(job), job.limit, s.pool)
    && |s.stages| == |job.contents| == |s.pool.status|
    && forall i :: 0 <= i < |s.stages| ==> StatusOf(s.stages[i], s.pool.status[i])
  }

  /** The dispatch move inside an event, if there is one. */
  function MoveOf(e: Event): Option<P.Move> {
    match e
    case Skip => Some(P.Skip)
    case Launch => Some(P.Launch)
    case Interrupt => Some(P.Interrupt)
    case SetKey(i) => Some(P.Finish(i))
    case Fails(i) => Some(P.Fail(i))
    case _ => None
  }

  lemma StepPool(job: Job, s: State, e: Event)
    requires Step(job, s, e).Some?
    ensures var t := Step(job, s, e).value;
            && (MoveOf(e).Some? ==> P.Step(Keys(job), job.limit, s.pool, MoveOf(e).value) == Some(t.pool))
            && (MoveOf(e).None? ==> t.pool == s.pool)
  {
  }

  lemma PoolStepInv(job: Job, s: State, e: Event)
    requires PoolInv(job, s) && Step(job, s, e).Some?
    ensures PoolInv(job, Step(job, s, e).value)
  {
    StepPool(job, s, e);
    StagesFollow(job, s, e);
    if MoveOf(e).Some? {
      P.StepInv(Keys(job), job.limit, s.pool, MoveOf(e).value);
    }
  }

  lemma StagesFollow(job: Job, s: State, e: Event)
    requires Step(job, s, e).Some? && |s.stages| == |job.contents| == |s.pool.status|
    requires forall i :: 0 <= i < |s.stages| ==> StatusOf(s.stages[i], s.pool.status[i])
    ensures var t := Step(job, s, e).value;
            && |t.stages| == |s.stages| == |t.pool.status|
            && forall i :: 0 <= i < |t.stages| ==> StatusOf(t.stages[i], t.pool.status[i])
  {
  }

  lemma StartPool(job: Job, fs: Fs)
    ensures PoolInv(job, Start(job, fs))
  {
    P.StartInv(Keys(job), job.limit);
  }

  // ----- what the lists hold

  /** `i` has appended its layer for good, or is between its two appends. */
  predicate InLists(st: Stage) {
    st == Locked(1) || st == Locked(2) || st.Appended? || st == Over(true)
  }

  /** How many of the appended layers already have their diff id beside them. */
  function Paired(s: State): int {
    if s.lock.Some? && s.lock.value < |s.stages| && s.stages[s.lock.value] == Locked(1) then |s.order| - 1
    else |s.order|
  }

  ghost predicate LockInv(s: State) {
    && (forall i :: 0 <= i < |s.stages| && s.stages[i].Locked? ==> s.lock == Some(i) && s.stages[i].n <= 2)
    && (s.lock.Some? ==> s.lock.value < |s.stages| && s.stages[s.lock.value].Locked?)
    && (Paired(s) < |s.order| ==> |s.order| > 0 && s.order[|s.order| - 1] == s.lock.value)
  }

  /** Entry `k` of either list comes from content `order[k]`. */
  ghost predicate Aligned(job: Job, order: seq<nat>, layers: seq<Descriptor>, diffIds: seq<string>) {
    && |diffIds| <= |layers| == |order|
    && (forall k :: 0 <= k < |order| ==>
          order[k] < |job.contents| && layers[k] == Layer(job.codec, job.contents[order[k]]))
    && (forall k :: 0 <= k < |diffIds| ==> diffIds[k] == DiffId(job.codec, job.contents[order[k]]))
  }

  /** The lists hold every content whose worker got that far, once; a content whose worker failed
      after appending stays in them. */
  ghost predicate OrderInv(stages: seq<Stage>, order: seq<nat>) {
    && Distinct(order)
    && (forall i: nat :: i < |stages| && InLists(stages[i]) ==> i in order)
    && (forall i :: i in order ==> i < |stages| && (InLists(stages[i]) || stages[i] == Over(false)))
  }

  ghost predicate ListInv(job: Job, s: State) {
    && |s.stages| == |job.contents|
    && LockInv(s) && Aligned(job, s.order, s.layers, s.diffIds) && OrderInv(s.stages, s.order)
    && 0 <= Paired(s) == |s.diffIds|
  }

  /** A worker moves between stages on the same side of its append. */
  lemma OrderStays(stages: seq<Stage>, order: seq<nat>, i: nat, st: Stage)
    requires OrderInv(stages, order) && i < |stages|
    requires InLists(st) == InLists(stages[i]) || (InLists(stages[i]) && st == Over(false))
    requires stages[i] != Over(false) || st == Over(false)
    ensures OrderInv(stages[i := st], order)
  {
  }

  lemma OrderGrows(stages: seq<Stage>, order: seq<nat>, i: nat)
    requires OrderInv(stages, order) && i < |stages| && stages[i] == Locked(0)
    ensures OrderInv(stages[i := Locked(1)], order + [i])
  {
    assert forall j :: j in order + [i] <==> j in order || j == i;
  }

  /** Steps outside the mutex. */
  lemma OutsideKeepsLists(job: Job, s: State, t: State, i: nat, st: Stage)
    requires ListInv(job, s) && i < |s.stages| && !s.stages[i].Locked? && !st.Locked?
    requires InLists(st) == InLists(s.stages[i]) || (InLists(s.stages[i]) && st == Over(false))
    requires s.stages[i] != Over(false)
    requires t.stages == s.stages[i := st]
    requires t.lock == s.lock && t.layers == s.layers && t.diffIds == s.diffIds && t.order == s.order
    ensures ListInv(job, t)
  {
    OrderStays(s.stages, s.order, i, st);
    assert Paired(t) == Paired(s);
  }

  lemma LockKeepsLists(job: Job, s: State, i: nat)
    requires ListInv(job, s) && Step(job, s, Lock(i)).Some?
    ensures ListInv(job, Step(job, s, Lock(i)).value)
  {
    OrderStays(s.stages, s.order, i, Locked(0));
  }

  lemma FirstAppend(job: Job, s: State, t: State, i: nat)
    requires ListInv(job, s) && i < |s.stages| && s.stages[i] == Locked(0)
    requires t == s.(layers := s.layers + [Layer(job.codec, job.contents[i])], order := s.order + [i],
                     stages := s.stages[i := Locked(1)])
    ensures ListInv(job, t)
  {
    OrderGrows(s.stages, s.order, i);
    assert Paired(s) == |s.order| == Paired(t);
  }

  lemma SecondAppend(job: Job, s: State, t: State, i: nat)
    requires ListInv(job, s) && i < |s.stages| && s.stages[i] == Locked(1)
    requires t == s.(diffIds := s.diffIds + [DiffId(job.codec, job.contents[i])], stages := s.stages[i := Locked(2)])
    ensures ListInv(job, t)
  {
    OrderStays(s.stages, s.order, i, Locked(2));
    assert Paired(s) == |s.order| - 1 && Paired(t) == |s.order|;
  }

  lemma UnlockKeepsLists(job: Job, s: State, i: nat)
    requires ListInv(job, s) && Step(job, s, Unlock(i)).Some?
    ensures ListInv(job, Step(job, s, Unlock(i)).value)
  {
    OrderStays(s.stages, s.order, i, Appended);
  }

  /** What a step outside the mutex does to the stages. */
  lemma OutsideEffect(job: Job, s: State, e: Event) returns (i: nat, st: Stage)
    requires PoolInv(job, s) && Step(job, s, e).Some? && !e.Lock? && !e.Append? && !e.Unlock? && !e.Skip?
             && !e.Interrupt?
    ensures var t := Step(job, s, e).value;
            && i < |s.stages| && t.stages == s.stages[i := st] && !s.stages[i].Locked? && !st.Locked?
               && s.stages[i] != Over(false)
            && t.lock == s.lock && t.layers == s.layers && t.diffIds == s.diffIds && t.order == s.order
    ensures InLists(st) == InLists(s.stages[i]) || (InLists(s.stages[i]) && st == Over(false))
  {
    i := if e.Launch? then s.pool.next else e.i;
    st := Step(job, s, e).value.stages[i];
  }

  lemma ListStepInv(job: Job, s: State, e: Event)
    requires PoolInv(job, s) && ListInv(job, s) && Step(job, s, e).Some?
    ensures ListInv(job, Step(job, s, e).value)
  {
    var t := Step(job, s, e).value;
    match e
    case Lock(i) => LockKeepsLists(job, s, i);
    case Append(i) =>
      if s.stages[i] == Locked(0) {
        FirstAppend(job, s, t, i);
      } else {
        SecondAppend(job, s, t, i);
      }
    case Unlock(i) => UnlockKeepsLists(job, s, i);
    case Skip => assert t == s.(pool := t.pool);
    case Interrupt => assert t == s.(pool := t.pool);
    case _ =>
      var i, st := OutsideEffect(job, s, e);
      OutsideKeepsLists(job, s, t, i, st);
  }

  lemma {:induction false} ListRunInv(job: Job, s: State, es: seq<Event>)
    requires PoolInv(job, s) && ListInv(job, s) && Run(job, s, es).Some?
    ensures PoolInv(job, Run(job, s, es).value) && ListInv(job, Run(job, s, es).value)
    decreases |es|
  {
    if es != [] {
      PoolStepInv(job, s, es[0]);
      ListStepInv(job, s, es[0]);
      ListRunInv(job, Step(job, s, es[0]).value, es[1..]);
    }
  }

  /** Layers and diff ids stay aligned under every interleaving: outside the mutex the lists are equally
      long and entry `k` of both comes from the same content; at most `limit` workers are in flight; and
      when the build succeeds the lists hold every content with a path, exactly once. */
  lemma ListsAligned(job: Job, fs: Fs, es: seq<Event>)
    requires Run(job, Start(job, fs), es).Some?
    ensures var r := Run(job, Start(job, fs), es).value;
            && Aligned(job, r.order, r.layers, r.diffIds)
            && Distinct(r.order)
            && r.pool.active == P.Count(r.pool.status) <= job.limit
            && (r.lock.None? ==> |r.layers| == |r.diffIds|)
            && (Built(job, r) ==> r.lock.None?)
            && (Built(job, r) ==> forall i: nat :: i < |job.contents| ==>
                  (i in r.order <==> job.contents[i].path != ""))
  {
    StartPool(job, fs);
    ListRunInv(job, Start(job, fs), es);
    var r := Run(job, Start(job, fs), es).value;
    if Built(job, r) {
      forall i: nat | i < |job.contents|
        ensures !r.stages[i].Locked? && (i in r.order <==> job.contents[i].path != "")
      {
        AllOver(job, r, i);
      }
    }
  }

  /** After success every worker has returned, and those that ran are the contents with a path. */
  lemma AllOver(job: Job, r: State, i: nat)
    requires PoolInv(job, r) && Built(job, r) && i < |job.contents|
    ensures r.stages[i] == if job.contents[i].path != "" then Over(true) else Idle
  {
    KeysFirst(job, i);
    P.AllFinished(Keys(job), job.limit, r.pool, i);
    assert StatusOf(r.stages[i], r.pool.status[i]);
  }

  lemma KeysFirst(job: Job, i: nat)
    requires i < |job.contents|
    ensures P.First(Keys(job), i) <==> job.contents[i].path != ""
  {
  }
}
