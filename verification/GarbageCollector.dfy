/** Tri-colour marking over shared layers, and the collection built on it
    (pkg/layerdb/layerdb.go). */
module GarbageCollector {
  import opened Basics
  import opened Oci
  import opened LayerIndex

  datatype Policy = OnlyDelete | ReserveRunning | CleanOut

  datatype Color = White | Gray | Black

  /** Whether a policy keeps an index entry. */
  predicate Live(policy: Policy, d: Descriptor) {
    match policy
    case OnlyDelete => DELETED !in d.annotations
    case ReserveRunning => SNAPSHOT_REF in d.annotations
    case CleanOut => false
  }

  // ----- mark and sweep

  /** The first occurrence of every candidate key that is not live, in order. */
  function Whites(live: set<string>, candidates: seq<Descriptor>): seq<Descriptor> {
    if candidates == [] then []
    else
      var front, last := candidates[..|candidates| - 1], candidates[|candidates| - 1];
      if last.digest in live || last.digest in KeysOf(front) then Whites(live, front) else Whites(live, front) + [last]
  }

  /** The swept list has exactly the candidate keys that no live node uses, each once. */
  lemma {:induction false} WhitesAreTheUnused(live: set<string>, candidates: seq<Descriptor>)
    ensures KeysOf(Whites(live, candidates)) == KeysOf(candidates) - live
    ensures forall i, j :: 0 <= i < j < |Whites(live, candidates)| ==>
              Whites(live, candidates)[i].digest != Whites(live, candidates)[j].digest
    ensures forall d :: d in Whites(live, candidates) ==> d in candidates
  {
    if candidates != [] {
      var front, last := candidates[..|candidates| - 1], candidates[|candidates| - 1];
      WhitesAreTheUnused(live, front);
      assert candidates == front + [last];
      assert KeysOf(candidates) == KeysOf(front) + {last.digest};
      var w := Whites(live, front);
      forall i | 0 <= i < |w| ensures w[i].digest in KeysOf(front) && w[i].digest in KeysOf(w) {
      }
      assert KeysOf(w + [last]) == KeysOf(w) + {last.digest};
    }
  }

  /** The colour a sweep leaves on a key. */
  function FinalColor(key: string, live: seq<Descriptor>, candidates: seq<Descriptor>): Option<Color> {
    if key in KeysOf(live) then Some(if key in KeysOf(candidates) then Gray else Black)
    else if CountOf(key, candidates) == 0 then None
    else Some(if CountOf(key, candidates) == 1 then White else Gray)
  }

  function PoolAt(pool: map<string, Color>, key: string): Option<Color> {
    if key in pool then Some(pool[key]) else None
  }

  /** One candidate more: its key goes from unknown to White, and from anything else to Gray. */
  lemma FinalColorStep(key: string, live: seq<Descriptor>, seen: seq<Descriptor>, next: Descriptor)
    ensures FinalColor(key, live, seen + [next]) ==
            if key != next.digest then FinalColor(key, live, seen)
            else if FinalColor(key, live, seen).None? then Some(White) else Some(Gray)
    ensures FinalColor(key, live, seen).Some? <==> key in KeysOf(live) || key in KeysOf(seen)
  {
    assert (seen + [next])[..|seen|] == seen;
    CountPositive(key, seen);
    KeysJoin(seen, [next]);
  }

  lemma BlackStep(key: string, live: seq<Descriptor>, next: Descriptor)
    ensures FinalColor(key, live + [next], []) == if key == next.digest then Some(Black) else FinalColor(key, live, [])
  {
    KeysJoin(live, [next]);
  }

  class TriMark {
    var pool: map<string, Color>
    var nodes: seq<Descriptor>

    constructor (nodes: seq<Descriptor>)
      ensures pool == map[] && this.nodes == nodes
    {
      pool, this.nodes := map[], nodes;
    }

    /** Sweep on a fresh mark: the node list becomes the unused candidates, and the pool
        holds the final colour of every key. */
    method Sweep(candidates: seq<Descriptor>)
      requires pool == map[]
      modifies this
      ensures nodes == Whites(KeysOf(old(nodes)), candidates)
      ensures forall key :: PoolAt(pool, key) == FinalColor(key, old(nodes), candidates)
    {
      for i := 0 to |nodes|
        invariant nodes == old(nodes)
        invariant forall key :: PoolAt(pool, key) == FinalColor(key, nodes[..i], [])
      {
        assert nodes[..i + 1] == nodes[..i] + [nodes[i]];
        ghost var before := pool;
        pool := pool[nodes[i].digest := Black];
        forall key ensures PoolAt(pool, key) == FinalColor(key, nodes[..i + 1], []) {
          assert PoolAt(before, key) == FinalColor(key, nodes[..i], []);
          BlackStep(key, nodes[..i], nodes[i]);
        }
      }
      assert nodes[..|nodes|] == nodes;
      var white: seq<Descriptor> := [];
      for i := 0 to |candidates|
        invariant nodes == old(nodes)
        invariant white == Whites(KeysOf(nodes), candidates[..i])
        invariant forall key :: PoolAt(pool, key) == FinalColor(key, nodes, candidates[..i])
      {
        ghost var seen, before := candidates[..i], pool;
        var calculate := candidates[i];
        assert candidates[..i + 1] == seen + [calculate] && candidates[..i + 1][..i] == seen;
        FinalColorStep(calculate.digest, nodes, seen, calculate);
        assert PoolAt(pool, calculate.digest) == FinalColor(calculate.digest, nodes, seen);
        if calculate.digest in pool {
          pool := pool[calculate.digest := Gray];
        } else {
          pool := pool[calculate.digest := White];
          white := white + [calculate];
        }
        forall key ensures PoolAt(pool, key) == FinalColor(key, nodes, candidates[..i + 1]) {
          assert PoolAt(before, key) == FinalColor(key, nodes, seen);
          FinalColorStep(key, nodes, seen, calculate);
        }
      }
      assert candidates[..|candidates|] == candidates;
      nodes := white;
    }
  }

  /** A live key is never White, and White means a single candidate that no live node shares. */
  lemma WhiteMeansUnused(key: string, live: seq<Descriptor>, candidates: seq<Descriptor>)
    ensures FinalColor(key, live, candidates) == Some(White) ==> key in KeysOf(Whites(KeysOf(live), candidates))
    ensures key in KeysOf(live) ==> FinalColor(key, live, candidates) != Some(White)
    ensures key in KeysOf(Whites(KeysOf(live), candidates)) ==>
              FinalColor(key, live, candidates) == Some(if CountOf(key, candidates) == 1 then White else Gray)
  {
    WhitesAreTheUnused(KeysOf(live), candidates);
    CountPositive(key, candidates);
  }

  lemma KeysJoin(a: seq<Descriptor>, b: seq<Descriptor>)
    ensures KeysOf(a + b) == KeysOf(a) + KeysOf(b)
  {
    forall key ensures key in KeysOf(a + b) <==> key in KeysOf(a) + KeysOf(b) {
      assert forall d :: d in a + b <==> d in a || d in b;
    }
  }

  // ----- what a collection looks at

  datatype Plan = Plan(content: seq<Descriptor>, others: seq<Descriptor>, candidates: seq<Descriptor>,
                       refs: seq<string>)

  /** identifyDeletionCandidates over the first `n` entries, as written: config and manifest descriptors
      and names are collected for every entry that resolves, kept or not. */
  function Identify(kv: KV, idx: seq<Descriptor>, policy: Policy, n: nat): Plan
    requires n <= |idx|
  {
    if n == 0 then Plan([], [], [], [])
    else
      var p, d := Identify(kv, idx, policy, n - 1), idx[n - 1];
      if d.Ref().None? then p
      else
        var r := Lookup(kv, idx, d.Ref().value);
        if r.Err? then p
        else
          var m := r.value.manifest;
          Plan(if Live(policy, d) then p.content + m.layers else p.content,
               p.others + [m.config, d],
               if Live(policy, d) then p.candidates else p.candidates + m.layers,
               p.refs + [d.Ref().value])
  }

  /** What a collection should work from: layers, and config and manifest blobs, each apart by whether the policy
      keeps the entry, and the names of the others. */
  datatype Split = Split(liveLayers: seq<Descriptor>, deadLayers: seq<Descriptor>,
                         liveBlobs: seq<Descriptor>, deadBlobs: seq<Descriptor>, refs: seq<string>)

  /** The same walk, lookup and skipping included, with blobs and names told apart too. */
  function Intend(kv: KV, idx: seq<Descriptor>, policy: Policy, n: nat): Split
    requires n <= |idx|
  {
    if n == 0 then Split([], [], [], [], [])
    else
      var p, d := Intend(kv, idx, policy, n - 1), idx[n - 1];
      if d.Ref().None? then p
      else
        var r := Lookup(kv, idx, d.Ref().value);
        if r.Err? then p
        else
          var m := r.value.manifest;
          if Live(policy, d) then p.(liveLayers := p.liveLayers + m.layers, liveBlobs := p.liveBlobs + [m.config, d])
          else Split(p.liveLayers, p.deadLayers + m.layers, p.liveBlobs, p.deadBlobs + [m.config, d],
                     p.refs + [d.Ref().value])
  }

  /** The intended walk finds the layers the code finds; the code's blobs and names are the intended ones and
      those of the kept entries. */
  lemma {:induction false} IntendIsIdentify(kv: KV, idx: seq<Descriptor>, policy: Policy, n: nat)
    requires n <= |idx|
    ensures var p, q := Identify(kv, idx, policy, n), Intend(kv, idx, policy, n);
            && p.content == q.liveLayers && p.candidates == q.deadLayers
            && KeysOf(p.others) == KeysOf(q.liveBlobs) + KeysOf(q.deadBlobs)
            && (forall r :: r in q.refs ==> r in p.refs)
  {
    if n > 0 {
      IntendIsIdentify(kv, idx, policy, n - 1);
      var p, q, d := Identify(kv, idx, policy, n - 1), Intend(kv, idx, policy, n - 1), idx[n - 1];
      if d.Ref().Some? && Lookup(kv, idx, d.Ref().value).Ok? {
        var two := [Lookup(kv, idx, d.Ref().value).value.manifest.config, d];
        KeysJoin(p.others, two);
        KeysJoin(q.liveBlobs, two);
        KeysJoin(q.deadBlobs, two);
      }
    }
  }

  /** Two ways to sweep. Apart keeps layers and blobs apart, as the code's two lists do: swept layers are deleted
      from the object store, swept blobs from the key-value store. Joint marks all keys together, and hands the one
      swept list to both deletions. */
  datatype Wiring = Apart | Joint

  /** What goes to scaling: what to delete from the object store, and what from the key-value store. */
  function Swept(p: Split, w: Wiring): (seq<Descriptor>, seq<Descriptor>) {
    match w
    case Apart => (Whites(KeysOf(p.liveLayers), p.deadLayers), Whites(KeysOf(p.liveBlobs), p.deadBlobs))
    case Joint =>
      var white := Whites(KeysOf(p.liveLayers + p.liveBlobs), p.deadLayers + p.deadBlobs);
      (white, white)
  }

  // ----- one collection

  /** What a store holds. */
  datatype Store = Store(kv: KV, objects: set<string>, idx: seq<Descriptor>)

  /** Deleting in order, up to the deletion that fails: layers, then blobs, and the names only after all. */
  function Scaled(s: Store, content: seq<Descriptor>, others: seq<Descriptor>, refs: set<string>,
                  fault: Option<nat>): Store {
    if fault.Some? && fault.value < |content| then s.(objects := s.objects - KeysOf(content[..fault.value]))
    else if fault.Some? && fault.value < |content| + |others| then
      s.(kv := s.kv - KeysOf(others[..fault.value - |content|]), objects := s.objects - KeysOf(content))
    else Store(s.kv - KeysOf(others), s.objects - KeysOf(content), Unlinked(s.idx, refs))
  }

  /** RunGC as written, once it has its store: the unswept lists go to scaling. */
  function AsWritten(s: Store, policy: Policy, fault: Option<nat>): Store {
    var p := Identify(s.kv, s.idx, policy, |s.idx|);
    Scaled(s, p.content, p.others, (set r | r in p.refs), fault)
  }

  /** The intended collection: the swept lists, and the names of the dropped entries. */
  function Collected(s: Store, policy: Policy, w: Wiring, fault: Option<nat>): Store {
    var p := Intend(s.kv, s.idx, policy, |s.idx|);
    Scaled(s, Swept(p, w).0, Swept(p, w).1, (set r | r in p.refs), fault)
  }

  datatype Outcome = Finished | Halted | Panicked

  class Collector {
    const db: Db?
    const policy: Policy

    /** NewGC, which keeps the policy and forgets the store. */
    constructor NewGC(db: Db, policy: Policy)
      ensures this.db == null && this.policy == policy
    {
      this.db, this.policy := null, policy;
    }

    /** A collector with its store. */
    constructor (db: Db, policy: Policy)
      ensures this.db == db && this.policy == policy
    {
      this.db, this.policy := db, policy;
    }

    ghost function View(): Store
      requires db != null
      reads db
    {
      Store(db.kv, db.objects, db.idx)
    }

    method IdentifyDeletionCandidates() returns (p: Plan)
      requires db != null
      ensures p == Identify(db.kv, db.idx, policy, |db.idx|)
    {
      var content: seq<Descriptor>, others: seq<Descriptor> := [], [];
      var candidates: seq<Descriptor>, refs: seq<string> := [], [];
      for i := 0 to |db.idx|
        invariant Plan(content, others, candidates, refs) == Identify(db.kv, db.idx, policy, i)
      {
        var manifestDesc := db.idx[i];
        if manifestDesc.Ref().Some? {
          var r := db.Manifest(manifestDesc.Ref().value);
          if r.Err? {
            continue;
          }
          var manifest := r.value.manifest;
          match policy {
            case OnlyDelete =>
              if DELETED !in manifestDesc.annotations {
                content := content + manifest.layers;
              } else {
                candidates := candidates + manifest.layers;
              }
            case ReserveRunning =>
              if SNAPSHOT_REF in manifestDesc.annotations {
                content := content + manifest.layers;
              } else {
                candidates := candidates + manifest.layers;
              }
            case CleanOut =>
              candidates := candidates + manifest.layers;
          }
          others := others + [manifest.config, manifestDesc];
          refs := refs + [manifestDesc.Ref().value];
        }
      }
      return Plan(content, others, candidates, refs);
    }

    /** Deletes the given layers and other blobs and then unlinks the given names. `fault` is the number of the
        deletion that fails, which ends it there. */
    method Scaling(content: seq<Descriptor>, others: seq<Descriptor>, refs: seq<string>, fault: Option<nat>)
      returns (ok: bool)
      requires db != null
      modifies db
      ensures View() == Scaled(old(View()), content, others, (set r | r in refs), fault)
      ensures ok <==> fault.None? || fault.value >= |content| + |others|
    {
      for i := 0 to |content|
        invariant fault.Some? ==> i <= fault.value
        invariant db.objects == old(db.objects) - KeysOf(content[..i])
        invariant db.kv == old(db.kv) && db.idx == old(db.idx)
      {
        if fault == Some(i) {
          return false;
        }
        assert content[..i + 1] == content[..i] + [content[i]];
        db.objects := db.objects - {content[i].digest};
      }
      assert content[..|content|] == content;
      for i := 0 to |others|
        invariant fault.Some? ==> |content| + i <= fault.value
        invariant db.objects == old(db.objects) - KeysOf(content)
        invariant db.kv == old(db.kv) - KeysOf(others[..i]) && db.idx == old(db.idx)
      {
        if fault == Some(|content| + i) {
          return false;
        }
        assert others[..i + 1] == others[..i] + [others[i]];
        if others[i].digest in db.kv {
          db.kv := db.kv - {others[i].digest};
        }
      }
      assert others[..|others|] == others;
      db.Unlink(refs);
      return true;
    }

    /** RunGC as written: the swept list stays inside the mark and the unswept lists go to scaling. A collector
        that NewGC made stops at the missing store. */
    method RunAsWritten(fault: Option<nat>) returns (outcome: Outcome)
      modifies db
      ensures outcome == Panicked <==> db == null
      ensures db != null ==>
                var p := Identify(old(db.kv), old(db.idx), policy, |old(db.idx)|);
                && View() == AsWritten(old(View()), policy, fault)
                && (outcome == Halted <==> fault.Some? && fault.value < |p.content| + |p.others|)
    {
      if db == null {
        return Panicked;
      }
      var p := IdentifyDeletionCandidates();
      var tm := new TriMark(p.content);
      tm.Sweep(p.candidates);
      var ok := Scaling(p.content, p.others, p.refs, fault);
      return if ok then Finished else Halted;
    }

    /** The intended composition: only entries the policy drops contribute names and blobs, blobs are
        protected like layers, and the swept lists go to scaling. */
    method RunIntended(w: Wiring, fault: Option<nat>) returns (ok: bool)
      requires db != null
      modifies db
      ensures View() == Collected(old(View()), policy, w, fault)
      ensures var swept := Swept(Intend(old(db.kv), old(db.idx), policy, |old(db.idx)|), w);
              ok <==> fault.None? || fault.value >= |swept.0| + |swept.1|
    {
      var liveLayers: seq<Descriptor>, deadLayers: seq<Descriptor> := [], [];
      var liveBlobs: seq<Descriptor>, deadBlobs: seq<Descriptor> := [], [];
      var refs: seq<string> := [];
      for i := 0 to |db.idx|
        invariant View() == old(View())
        invariant Split(liveLayers, deadLayers, liveBlobs, deadBlobs, refs) == Intend(db.kv, db.idx, policy, i)
      {
        var d := db.idx[i];
        if d.Ref().Some? {
          var r := db.Manifest(d.Ref().value);
          if r.Err? {
            continue;
          }
          var manifest := r.value.manifest;
          if Live(policy, d) {
            liveLayers, liveBlobs := liveLayers + manifest.layers, liveBlobs + [manifest.config, d];
          } else {
            deadLayers, deadBlobs := deadLayers + manifest.layers, deadBlobs + [manifest.config, d];
            refs := refs + [d.Ref().value];
          }
        }
      }
      if w.Joint? {
        var all := new TriMark(liveLayers + liveBlobs);
        all.Sweep(deadLayers + deadBlobs);
        ok := Scaling(all.nodes, all.nodes, refs, fault);
      } else {
        var layers := new TriMark(liveLayers);
        layers.Sweep(deadLayers);
        var blobs := new TriMark(liveBlobs);
        blobs.Sweep(deadBlobs);
        ok := Scaling(layers.nodes, blobs.nodes, refs, fault);
      }
    }
  }
}
