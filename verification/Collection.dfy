/** What a collection keeps and what it takes, on any index: repeated names, entries that dangle, and layers that
    the store only has a record of (pkg/layerdb/layerdb.go). */
module Collection {
  import opened Basics
  import opened Oci
  import opened LayerIndex
  import opened GarbageCollector
  import Jobs = Store

  // ----- what the walk finds

  /** The manifest the walk finds for an entry: what the entry's name resolves to. With a repeated name that is
      the first entry's. */
  function ImageOf(s: Store, d: Descriptor): Option<Manifest> {
    if d.Ref().None? then None
    else
      var r := Lookup(s.kv, s.idx, d.Ref().value);
      if r.Err? then None else Some(r.value.manifest)
  }

  /** An entry of the stretch that is kept (or dropped) and resolves. */
  predicate SeenIn(s: Store, pre: seq<Descriptor>, policy: Policy, live: bool, d: Descriptor) {
    d in pre && Live(policy, d) == live && ImageOf(s, d).Some?
  }

  predicate HasLayer(s: Store, d: Descriptor, key: string) {
    ImageOf(s, d).Some? && key in KeysOf(ImageOf(s, d).value.layers)
  }

  predicate HasBlob(s: Store, d: Descriptor, key: string) {
    ImageOf(s, d).Some? && (key == ImageOf(s, d).value.config.digest || key == d.digest)
  }

  ghost predicate LayerUsedIn(s: Store, pre: seq<Descriptor>, policy: Policy, live: bool, key: string) {
    exists d :: SeenIn(s, pre, policy, live, d) && HasLayer(s, d, key)
  }

  ghost predicate BlobUsedIn(s: Store, pre: seq<Descriptor>, policy: Policy, live: bool, key: string) {
    exists d :: SeenIn(s, pre, policy, live, d) && HasBlob(s, d, key)
  }

  ghost predicate DroppedIn(s: Store, pre: seq<Descriptor>, policy: Policy, r: string) {
    exists d :: SeenIn(s, pre, policy, false, d) && Carries(d, r)
  }

  /** The lists of a walk, by what is in them. */
  ghost predicate LayerList(s: Store, pre: seq<Descriptor>, policy: Policy, live: bool, ds: seq<Descriptor>) {
    forall key :: key in KeysOf(ds) <==> LayerUsedIn(s, pre, policy, live, key)
  }

  ghost predicate BlobList(s: Store, pre: seq<Descriptor>, policy: Policy, live: bool, ds: seq<Descriptor>) {
    forall key :: key in KeysOf(ds) <==> BlobUsedIn(s, pre, policy, live, key)
  }

  ghost predicate NameList(s: Store, pre: seq<Descriptor>, policy: Policy, refs: seq<string>) {
    forall r :: r in refs <==> DroppedIn(s, pre, policy, r)
  }

  ghost predicate Finds(s: Store, pre: seq<Descriptor>, policy: Policy, p: Split) {
    && LayerList(s, pre, policy, true, p.liveLayers) && LayerList(s, pre, policy, false, p.deadLayers)
    && BlobList(s, pre, policy, true, p.liveBlobs) && BlobList(s, pre, policy, false, p.deadBlobs)
    && NameList(s, pre, policy, p.refs)
  }

  lemma SeenGrows(s: Store, pre: seq<Descriptor>, policy: Policy, live: bool, d: Descriptor, e: Descriptor)
    ensures SeenIn(s, pre + [d], policy, live, e) <==>
              SeenIn(s, pre, policy, live, e) || (e == d && Live(policy, d) == live && ImageOf(s, d).Some?)
  {
    hide ImageOf, Live;
  }

  lemma LayersGrow(s: Store, pre: seq<Descriptor>, policy: Policy, live: bool, ds: seq<Descriptor>, d: Descriptor)
    requires LayerList(s, pre, policy, live, ds)
    ensures LayerList(s, pre + [d], policy, live,
                      if Live(policy, d) == live && ImageOf(s, d).Some? then ds + ImageOf(s, d).value.layers else ds)
  {
    hide ImageOf, Live, SeenIn, KeysOf;
    var more := if Live(policy, d) == live && ImageOf(s, d).Some? then ds + ImageOf(s, d).value.layers else ds;
    if Live(policy, d) == live && ImageOf(s, d).Some? {
      KeysJoin(ds, ImageOf(s, d).value.layers);
    }
    forall key ensures key in KeysOf(more) <==> LayerUsedIn(s, pre + [d], policy, live, key) {
      forall e ensures SeenIn(s, pre + [d], policy, live, e) <==>
                         SeenIn(s, pre, policy, live, e) || (e == d && Live(policy, d) == live && ImageOf(s, d).Some?) {
        SeenGrows(s, pre, policy, live, d, e);
      }
      assert LayerUsedIn(s, pre + [d], policy, live, key) <==>
               LayerUsedIn(s, pre, policy, live, key) || (SeenIn(s, pre + [d], policy, live, d) && HasLayer(s, d, key));
    }
  }

  lemma BlobsGrow(s: Store, pre: seq<Descriptor>, policy: Policy, live: bool, ds: seq<Descriptor>, d: Descriptor)
    requires BlobList(s, pre, policy, live, ds)
    ensures BlobList(s, pre + [d], policy, live,
                     if Live(policy, d) == live && ImageOf(s, d).Some? then ds + [ImageOf(s, d).value.config, d]
                     else ds)
  {
    hide ImageOf, Live, SeenIn, KeysOf;
    var more := if Live(policy, d) == live && ImageOf(s, d).Some? then ds + [ImageOf(s, d).value.config, d] else ds;
    if Live(policy, d) == live && ImageOf(s, d).Some? {
      KeysJoin(ds, [ImageOf(s, d).value.config, d]);
      PairKeys(ImageOf(s, d).value.config, d);
    }
    forall key ensures key in KeysOf(more) <==> BlobUsedIn(s, pre + [d], policy, live, key) {
      forall e ensures SeenIn(s, pre + [d], policy, live, e) <==>
                         SeenIn(s, pre, policy, live, e) || (e == d && Live(policy, d) == live && ImageOf(s, d).Some?) {
        SeenGrows(s, pre, policy, live, d, e);
      }
      assert BlobUsedIn(s, pre + [d], policy, live, key) <==>
               BlobUsedIn(s, pre, policy, live, key) || (SeenIn(s, pre + [d], policy, live, d) && HasBlob(s, d, key));
    }
  }

  lemma NamesGrow(s: Store, pre: seq<Descriptor>, policy: Policy, refs: seq<string>, d: Descriptor)
    requires NameList(s, pre, policy, refs)
    ensures ImageOf(s, d).Some? ==> d.Ref().Some?
    ensures NameList(s, pre + [d], policy,
                     if !Live(policy, d) && ImageOf(s, d).Some? then refs + [d.Ref().value] else refs)
  {
    assert ImageOf(s, d).Some? ==> d.Ref().Some?;
    hide ImageOf, Live, SeenIn;
    var more := if !Live(policy, d) && ImageOf(s, d).Some? then refs + [d.Ref().value] else refs;
    forall r ensures r in more <==> DroppedIn(s, pre + [d], policy, r) {
      forall e ensures SeenIn(s, pre + [d], policy, false, e) <==>
                         SeenIn(s, pre, policy, false, e) || (e == d && !Live(policy, d) && ImageOf(s, d).Some?) {
        SeenGrows(s, pre, policy, false, d, e);
      }
      assert DroppedIn(s, pre + [d], policy, r) <==>
               DroppedIn(s, pre, policy, r) || (SeenIn(s, pre + [d], policy, false, d) && Carries(d, r));
    }
  }

  lemma PairKeys(a: Descriptor, b: Descriptor)
    ensures KeysOf([a, b]) == {a.digest, b.digest}
  {
    assert [a, b][0] == a && [a, b][1] == b;
  }

  /** The walk over the first `n` entries, on any list. */
  lemma {:induction false} IntendFinds(s: Store, policy: Policy, n: nat)
    requires n <= |s.idx|
    ensures Finds(s, s.idx[..n], policy, Intend(s.kv, s.idx, policy, n))
  {
    if n > 0 {
      IntendFinds(s, policy, n - 1);
      var p, d, pre := Intend(s.kv, s.idx, policy, n - 1), s.idx[n - 1], s.idx[..n - 1];
      hide Lookup, LayerList, BlobList, NameList;
      LayersGrow(s, pre, policy, true, p.liveLayers, d);
      LayersGrow(s, pre, policy, false, p.deadLayers, d);
      BlobsGrow(s, pre, policy, true, p.liveBlobs, d);
      BlobsGrow(s, pre, policy, false, p.deadBlobs, d);
      NamesGrow(s, pre, policy, p.refs, d);
      assert s.idx[..n] == pre + [d];
    }
  }

  ghost predicate LayerUsed(s: Store, policy: Policy, live: bool, key: string) {
    LayerUsedIn(s, s.idx, policy, live, key)
  }

  ghost predicate BlobUsed(s: Store, policy: Policy, live: bool, key: string) {
    BlobUsedIn(s, s.idx, policy, live, key)
  }

  /** Some kept (or some dropped) image that resolves has a layer, its config or its manifest under this key. */
  ghost predicate Used(s: Store, policy: Policy, live: bool, key: string) {
    LayerUsed(s, policy, live, key) || BlobUsed(s, policy, live, key)
  }

  lemma WholeWalk(s: Store, policy: Policy)
    ensures Finds(s, s.idx, policy, Intend(s.kv, s.idx, policy, |s.idx|))
  {
    IntendFinds(s, policy, |s.idx|);
    assert s.idx[..|s.idx|] == s.idx;
  }

  // ----- what a collection takes

  /** Which keys a sweep condemns in the object store ... */
  ghost predicate ObjectAtRisk(s: Store, policy: Policy, w: Wiring, key: string) {
    match w
    case Apart => LayerUsed(s, policy, false, key) && !LayerUsed(s, policy, true, key)
    case Joint => Used(s, policy, false, key) && !Used(s, policy, true, key)
  }

  /** ... and which in the key-value store. */
  ghost predicate BlobAtRisk(s: Store, policy: Policy, w: Wiring, key: string) {
    match w
    case Apart => BlobUsed(s, policy, false, key) && !BlobUsed(s, policy, true, key)
    case Joint => Used(s, policy, false, key) && !Used(s, policy, true, key)
  }

  lemma SweptAtRisk(s: Store, policy: Policy, w: Wiring, key: string)
    ensures var swept := Swept(Intend(s.kv, s.idx, policy, |s.idx|), w);
            && (key in KeysOf(swept.0) <==> ObjectAtRisk(s, policy, w, key))
            && (key in KeysOf(swept.1) <==> BlobAtRisk(s, policy, w, key))
  {
    WholeWalk(s, policy);
    var p := Intend(s.kv, s.idx, policy, |s.idx|);
    hide Intend, Whites, KeysOf, LayerUsedIn, BlobUsedIn, NameList;
    if w.Apart? {
      WhitesAreTheUnused(KeysOf(p.liveLayers), p.deadLayers);
      WhitesAreTheUnused(KeysOf(p.liveBlobs), p.deadBlobs);
    } else {
      WhitesAreTheUnused(KeysOf(p.liveLayers + p.liveBlobs), p.deadLayers + p.deadBlobs);
      KeysJoin(p.liveLayers, p.liveBlobs);
      KeysJoin(p.deadLayers, p.deadBlobs);
    }
  }

  lemma TakeKeys(ds: seq<Descriptor>, n: nat)
    requires n <= |ds|
    ensures KeysOf(ds[..n]) <= KeysOf(ds)
  {
  }

  /** A deletion that fails part-way takes some of what a finished collection takes. */
  lemma ScaledTakes(s: Store, content: seq<Descriptor>, others: seq<Descriptor>, refs: set<string>, fault: Option<nat>)
    ensures var t := Scaled(s, content, others, refs, fault);
            && s.objects - KeysOf(content) <= t.objects <= s.objects
            && s.kv.Keys - KeysOf(others) <= t.kv.Keys <= s.kv.Keys
            && (forall key :: key in t.kv ==> t.kv[key] == s.kv[key])
            && (fault.None? ==> t.objects == s.objects - KeysOf(content) && t.kv.Keys == s.kv.Keys - KeysOf(others))
  {
    if fault.Some? && fault.value < |content| {
      TakeKeys(content, fault.value);
    } else if fault.Some? && fault.value < |content| + |others| {
      TakeKeys(others, fault.value - |content|);
    }
  }

  /** A finished collection takes from each store exactly the keys at risk there, on any list; one that a fault
      ended takes some of them. */
  lemma CollectionTakesWhatIsAtRisk(s: Store, policy: Policy, w: Wiring, fault: Option<nat>, key: string)
    ensures var t := Collected(s, policy, w, fault);
            && (key in t.objects ==> key in s.objects)
            && (key in s.objects && !ObjectAtRisk(s, policy, w, key) ==> key in t.objects)
            && (key in t.kv ==> key in s.kv && t.kv[key] == s.kv[key])
            && (key in s.kv && !BlobAtRisk(s, policy, w, key) ==> key in t.kv)
    ensures fault.None? ==>
              var t := Collected(s, policy, w, fault);
              && (key in t.objects <==> key in s.objects && !ObjectAtRisk(s, policy, w, key))
              && (key in t.kv <==> key in s.kv && !BlobAtRisk(s, policy, w, key))
  {
    var p := Intend(s.kv, s.idx, policy, |s.idx|);
    SweptAtRisk(s, policy, w, key);
    ScaledTakes(s, Swept(p, w).0, Swept(p, w).1, (set r | r in p.refs), fault);
    hide Scaled, Swept, Intend, ObjectAtRisk, BlobAtRisk, KeysOf;
  }

  // ----- safety

  /** Nothing changes about a key, in either store. */
  predicate Spared(s: Store, t: Store, key: string) {
    && (key in t.objects <==> key in s.objects)
    && (key in t.kv <==> key in s.kv)
    && (key in s.kv && key in t.kv ==> t.kv[key] == s.kv[key])
  }

  /** Safety of the joint sweep, on any list and under any fault: whatever a kept name resolves to, none of its
      keys is touched: not the manifest, not the config, and no layer, whether the store has the layer itself, a
      record of it, or neither, and whatever else the key is used for. */
  lemma JointSparesTheKept(s: Store, policy: Policy, fault: Option<nat>, d: Descriptor, key: string)
    requires d in s.idx && Live(policy, d) && (HasLayer(s, d, key) || HasBlob(s, d, key))
    ensures Spared(s, Collected(s, policy, Joint, fault), key)
  {
    assert SeenIn(s, s.idx, policy, true, d);
    assert Used(s, policy, true, key);
    CollectionTakesWhatIsAtRisk(s, policy, Joint, fault, key);
  }

  /** Where Exists finds a key. */
  predicate Present(s: Store, key: string) {
    key in s.kv || key in s.objects
  }

  /** With the lists swept apart a kept image's manifest and config are safe in the key-value store and its layers
      in the object store. A layer that only the key-value store has a record of, as for every built image, stays
      exactly when it is not also the config or manifest of dropped images only. */
  lemma ApartSparesExactly(s: Store, policy: Policy, d: Descriptor, key: string)
    requires d in s.idx && Live(policy, d)
    ensures HasBlob(s, d, key) && key in s.kv ==> key in Collected(s, policy, Apart, None).kv
    ensures HasLayer(s, d, key) && key in s.objects ==> key in Collected(s, policy, Apart, None).objects
    ensures HasLayer(s, d, key) && Present(s, key) ==>
              (Present(Collected(s, policy, Apart, None), key) <==>
                 key in s.objects || !BlobUsed(s, policy, false, key) || BlobUsed(s, policy, true, key))
  {
    CollectionTakesWhatIsAtRisk(s, policy, Apart, None, key);
    if ImageOf(s, d).Some? {
      assert SeenIn(s, s.idx, policy, true, d);
    }
    hide Collected;
  }

  // ----- completeness

  /** Completeness of the joint sweep: a key that dropped images use and no kept one does is gone from both stores;
      any other key is untouched. */
  lemma JointTakesTheDead(s: Store, policy: Policy, key: string)
    ensures var t := Collected(s, policy, Joint, None);
            if Used(s, policy, false, key) && !Used(s, policy, true, key) then !Present(t, key) else Spared(s, t, key)
  {
    CollectionTakesWhatIsAtRisk(s, policy, Joint, None, key);
    hide Collected, Used;
  }

  /** With the lists swept apart a key that only dropped images use stays exactly where nothing looks for it: in the
      key-value store unless one has it as config or manifest, in the object store unless one has it as a layer. So
      the record of a dropped layer, which is all a build leaves of it, is never taken as a layer. */
  lemma ApartLeavesExactly(s: Store, policy: Policy, key: string)
    requires Used(s, policy, false, key) && !Used(s, policy, true, key)
    ensures Present(Collected(s, policy, Apart, None), key) <==>
              || (key in s.kv && !BlobUsed(s, policy, false, key))
              || (key in s.objects && !LayerUsed(s, policy, false, key))
  {
    CollectionTakesWhatIsAtRisk(s, policy, Apart, None, key);
    hide Collected, LayerUsed, BlobUsed;
  }

  /** What that means for the images the code makes. From a store without objects, whatever else it holds, and after
      any run of builds, pulls and tags, a finished collection that sweeps the lists apart leaves the record of a
      dropped layer for good unless the layer is the config or manifest of a dropped image too; and takes the record
      of a kept layer exactly when it is the config or manifest of dropped images only. */
  lemma RecordsExactly(w: Jobs.World, s0: Jobs.State, es: seq<Jobs.Event>, policy: Policy, key: string)
    requires s0.objects == {} && Jobs.Run(w, s0, es).Some?
    ensures var r := Jobs.Run(w, s0, es).value;
            var s := Store(r.kv, r.objects, r.idx);
            var t := Collected(s, policy, Apart, None);
            && (Used(s, policy, false, key) && !Used(s, policy, true, key) ==>
                  (Present(t, key) <==> key in s.kv && !BlobUsed(s, policy, false, key)))
            && (LayerUsed(s, policy, true, key) && Present(s, key) ==>
                  (Present(t, key) <==> !BlobUsed(s, policy, false, key) || BlobUsed(s, policy, true, key)))
  {
    Jobs.ObjectsStay(w, s0, es);
    var r := Jobs.Run(w, s0, es).value;
    CollectionTakesWhatIsAtRisk(Store(r.kv, r.objects, r.idx), policy, Apart, None, key);
    hide Collected, LayerUsed, BlobUsed, Jobs.Run;
  }

  // ----- the index

  /** Which entries a finished collection leaves, on any list: those without a name, those whose name does not
      resolve, and those whose name no entry carries that the policy drops. */
  lemma SurvivesExactly(s: Store, policy: Policy, w: Wiring, d: Descriptor)
    ensures d in Collected(s, policy, w, None).idx <==>
              d in s.idx && (ImageOf(s, d).None? || forall e :: e in s.idx && e.Ref() == d.Ref() ==> Live(policy, e))
  {
    WholeWalk(s, policy);
    var refs := set r | r in Intend(s.kv, s.idx, policy, |s.idx|).refs;
    UnlinkedKeeps(s.idx, refs);
    hide Intend, Swept, Unlinked, LayerUsedIn, BlobUsedIn;
    assert Collected(s, policy, w, None).idx == Unlinked(s.idx, refs);
    assert d in Unlinked(s.idx, refs) <==> d in s.idx && !Dropped(d, refs);
    if d.Ref().Some? {
      NameDropped(s, policy, d);
    }
  }

  lemma NameDropped(s: Store, policy: Policy, d: Descriptor)
    requires d.Ref().Some?
    ensures DroppedIn(s, s.idx, policy, d.Ref().value) <==>
              ImageOf(s, d).Some? && exists e :: e in s.idx && e.Ref() == d.Ref() && !Live(policy, e)
  {
    hide Lookup;
    if e :| e in s.idx && e.Ref() == d.Ref() && !Live(policy, e) && ImageOf(s, d).Some? {
      assert ImageOf(s, e) == ImageOf(s, d);
      assert SeenIn(s, s.idx, policy, false, e);
    }
    if e :| SeenIn(s, s.idx, policy, false, e) && Carries(e, d.Ref().value) {
      assert ImageOf(s, e) == ImageOf(s, d);
    }
  }

  /** Copy can bring about the case: a name that was removed is given to another image. The collection then drops
      the new entry with the old one. */
  lemma TaggedOverIsLost(s: Store, policy: Policy, w: Wiring, a: Descriptor, b: Descriptor)
    requires s.idx == [a, b] && a.Ref().Some? && b.Ref() == a.Ref() && Resolves(s.kv, a)
    requires !Live(policy, a) && Live(policy, b)
    ensures Collected(s, policy, w, None).idx == []
  {
    hide Collected;
    LookupReaches(s.kv, s.idx, 0, a.Ref().value);
    assert a in s.idx;
    var left := Collected(s, policy, w, None).idx;
    assert left != [] ==> left[0] in left;
    forall d ensures d !in left {
      SurvivesExactly(s, policy, w, d);
    }
  }

  // ----- entries behind one that dangles

  /** How many leading entries have their manifest. Every lookup walks the list, so none gets further. */
  function Reach(kv: KV, idx: seq<Descriptor>): (n: nat)
    ensures n <= |idx|
  {
    if idx == [] || !Resolves(kv, idx[0]) then 0 else 1 + Reach(kv, idx[1..])
  }

  lemma {:induction false} ReachMeans(kv: KV, idx: seq<Descriptor>)
    ensures forall i :: 0 <= i < Reach(kv, idx) ==> Resolves(kv, idx[i])
    ensures Reach(kv, idx) < |idx| ==> !Resolves(kv, idx[Reach(kv, idx)])
    ensures Reach(kv, idx) == |idx| <==> AllResolve(kv, idx)
  {
    if idx != [] && Resolves(kv, idx[0]) {
      ReachMeans(kv, idx[1..]);
      assert forall d :: d in idx <==> d == idx[0] || d in idx[1..];
    } else if idx != [] {
      assert idx[0] in idx;
    }
  }

  lemma {:induction false} ScanReaches(kv: KV, idx: seq<Descriptor>, i: nat, r: string, acc: seq<Found>)
    requires i < |idx| && Carries(idx[i], r) && forall j :: 0 <= j < i ==> !Carries(idx[j], r)
    ensures if i < Reach(kv, idx) then
              Resolves(kv, idx[i]) && Scan(kv, idx, r, acc) == Ok([Found(kv[idx[i].digest].manifest, idx[i], r)])
            else Scan(kv, idx, r, acc).Err?
  {
    if i > 0 && Resolves(kv, idx[0]) {
      var acc' := if idx[0].Ref().None? then acc
                  else acc + [Found(kv[idx[0].digest].manifest, idx[0], idx[0].Ref().value)];
      ScanReaches(kv, idx[1..], i - 1, r, acc');
    }
  }

  /** A name resolves exactly when no entry up to the first that carries it dangles, and then to that entry. */
  lemma LookupReaches(kv: KV, idx: seq<Descriptor>, i: nat, r: string)
    requires i < |idx| && Carries(idx[i], r) && forall j :: 0 <= j < i ==> !Carries(idx[j], r)
    ensures Lookup(kv, idx, r).Ok? <==> i < Reach(kv, idx)
    ensures i < Reach(kv, idx) ==>
              Resolves(kv, idx[i]) && Lookup(kv, idx, r) == Ok(Found(kv[idx[i].digest].manifest, idx[i], r))
  {
    ScanReaches(kv, idx, i, r, []);
  }

  /** An entry is skipped exactly when some entry up to the first of its name dangles; a kept image that is skipped
      loses what it shares only with dropped ones that are not. Here one does: a dropped image, an entry that dangles,
      and a kept one behind it with a layer of the first. */
  lemma DanglingCostsAKeptLayer(s: Store, policy: Policy, w: Wiring, a: Descriptor, x: Descriptor, b: Descriptor,
                                l: Descriptor)
    requires s.idx == [a, x, b] && WellFormed(s.idx) && Resolves(s.kv, a) && !Resolves(s.kv, x)
    requires !Live(policy, a) && l in s.kv[a.digest].manifest.layers
    ensures l.digest !in Collected(s, policy, w, None).objects
    ensures w.Joint? ==> !Present(Collected(s, policy, w, None), l.digest)
    ensures b in Collected(s, policy, w, None).idx
  {
    hide Collected;
    assert s.idx[0] == a && s.idx[1] == x && s.idx[2] == b;
    assert s.idx[1..] == [x, b] && Reach(s.kv, s.idx) == 1;
    LookupReaches(s.kv, s.idx, 0, a.Ref().value);
    LookupReaches(s.kv, s.idx, 1, x.Ref().value);
    LookupReaches(s.kv, s.idx, 2, b.Ref().value);
    hide Lookup, Reach;
    assert SeenIn(s, s.idx, policy, false, a) && HasLayer(s, a, l.digest);
    assert forall d :: !SeenIn(s, s.idx, policy, true, d);
    CollectionTakesWhatIsAtRisk(s, policy, w, None, l.digest);
    SurvivesExactly(s, policy, w, b);
  }

  // ----- lookups afterwards

  lemma {:induction false} FirstAfterUnlink(idx: seq<Descriptor>, refs: set<string>, r: string)
    requires r !in refs
    ensures FirstOf(Unlinked(idx, refs), r) == FirstOf(idx, r)
  {
    if idx != [] {
      var front, last := idx[..|idx| - 1], idx[|idx| - 1];
      FirstAfterUnlink(front, refs, r);
      assert idx == front + [last];
      FirstOfSnoc(front, last, r);
      FirstOfSnoc(Unlinked(front, refs), last, r);
    }
  }

  /** While nothing dangles, a name resolves to the first entry that carries it. */
  lemma IntactLookup(kv: KV, idx: seq<Descriptor>, r: string)
    requires AllResolve(kv, idx) && FirstOf(idx, r).Some?
    ensures var d := FirstOf(idx, r).value;
            d in idx && Carries(d, r) && Resolves(kv, d) && Lookup(kv, idx, r) == Ok(Found(kv[d.digest].manifest, d, r))
  {
    FirstOfIn(idx, r);
    ScanPresent(kv, idx, r, []);
  }

  /** On a store where nothing dangles, a name that no dropped entry carries resolves to the same image before and
      after, however often names repeat. */
  lemma CollectionKeepsLookups(s: Store, policy: Policy, w: Wiring, r: string)
    requires AllResolve(s.kv, s.idx) && forall e :: e in s.idx ==> e.Ref().Some?
    requires HasRef(s.idx, r) && forall e :: e in s.idx && Carries(e, r) ==> Live(policy, e)
    ensures var t := Collected(s, policy, w, None);
            Lookup(s.kv, s.idx, r).Ok? && Lookup(t.kv, t.idx, r) == Lookup(s.kv, s.idx, r)
  {
    var t := Collected(s, policy, w, None);
    FirstOfIn(s.idx, r);
    IntactLookup(s.kv, s.idx, r);
    StillResolves(s, policy, w);
    WholeWalk(s, policy);
    var refs := set x | x in Intend(s.kv, s.idx, policy, |s.idx|).refs;
    assert t.idx == Unlinked(s.idx, refs);
    hide Collected, Intend, Unlinked, LayerUsedIn, BlobUsedIn, Lookup;
    assert r !in refs;
    FirstAfterUnlink(s.idx, refs, r);
    IntactLookup(t.kv, t.idx, r);
    CollectionTakesWhatIsAtRisk(s, policy, w, None, FirstOf(s.idx, r).value.digest);
  }

  lemma StillResolves(s: Store, policy: Policy, w: Wiring)
    requires AllResolve(s.kv, s.idx) && forall e :: e in s.idx ==> e.Ref().Some?
    ensures var t := Collected(s, policy, w, None);
            AllResolve(t.kv, t.idx)
  {
    var t := Collected(s, policy, w, None);
    hide Collected;
    forall d | d in t.idx ensures Resolves(t.kv, d) {
      SurvivesExactly(s, policy, w, d);
      NamedResolves(s, d);
      hide Lookup;
      assert SeenIn(s, s.idx, policy, true, d) && HasBlob(s, d, d.digest);
      CollectionTakesWhatIsAtRisk(s, policy, w, None, d.digest);
    }
  }

  lemma NamedResolves(s: Store, d: Descriptor)
    requires AllResolve(s.kv, s.idx) && d in s.idx && d.Ref().Some?
    ensures ImageOf(s, d).Some?
  {
    var i :| 0 <= i < |s.idx| && s.idx[i] == d;
    HasRefAt(s.idx, i, d.Ref().value);
    FirstOfIn(s.idx, d.Ref().value);
    IntactLookup(s.kv, s.idx, d.Ref().value);
  }

  // ----- collections that fail

  /** One of the first `n` descriptors has this key. */
  ghost predicate AmongFirst(ds: seq<Descriptor>, n: int, key: string) {
    exists i :: 0 <= i < n && i < |ds| && ds[i].digest == key
  }

  lemma FirstKeys(ds: seq<Descriptor>, n: nat, key: string)
    requires n <= |ds|
    ensures key in KeysOf(ds[..n]) <==> AmongFirst(ds, n, key)
    ensures n == |ds| ==> ds[..n] == ds
  {
    if AmongFirst(ds, n, key) {
      var i :| 0 <= i < n && i < |ds| && ds[i].digest == key;
      assert ds[..n][i] in ds[..n];
    }
  }

  /** What the failing deletion finds gone: deletions go in order, the object store first, so exactly the swept keys
      before it; and it has not touched the names. */
  lemma HaltedTakesExactly(s: Store, policy: Policy, w: Wiring, fault: nat, key: string)
    requires var swept := Swept(Intend(s.kv, s.idx, policy, |s.idx|), w); fault < |swept.0| + |swept.1|
    ensures var swept := Swept(Intend(s.kv, s.idx, policy, |s.idx|), w);
            var t := Collected(s, policy, w, Some(fault));
            && (key in t.objects <==> key in s.objects && !AmongFirst(swept.0, fault, key))
            && (key in t.kv <==> key in s.kv && !AmongFirst(swept.1, fault - |swept.0|, key))
            && t.idx == s.idx
  {
    var swept := Swept(Intend(s.kv, s.idx, policy, |s.idx|), w);
    FirstKeys(swept.0, Min(fault, |swept.0|), key);
    if fault >= |swept.0| {
      FirstKeys(swept.1, fault - |swept.0|, key);
    }
    hide Intend, Swept, KeysOf;
  }

  /** Collections one after the other, whatever policy, wiring and faults each has. */
  function Later(s: Store, runs: seq<(Policy, Wiring, Option<nat>)>): Store
    decreases |runs|
  {
    if runs == [] then s else Later(Collected(s, runs[0].0, runs[0].1, runs[0].2), runs[1..])
  }

  /** An entry without its manifest, first of its name, as a failed collection leaves one, is out of reach of every
      collection after that: it stays, however many there are. */
  lemma {:induction false} DanglingStays(s: Store, runs: seq<(Policy, Wiring, Option<nat>)>, d: Descriptor)
    requires d.Ref().Some? && FirstOf(s.idx, d.Ref().value) == Some(d) && d.digest !in s.kv
    ensures var t := Later(s, runs);
            d in t.idx && d.digest !in t.kv && FirstOf(t.idx, d.Ref().value) == Some(d)
    decreases |runs|
  {
    FirstOfIn(s.idx, d.Ref().value);
    if runs != [] {
      OneMoreCollection(s, runs[0].0, runs[0].1, runs[0].2, d);
      hide Collected;
      DanglingStays(Collected(s, runs[0].0, runs[0].1, runs[0].2), runs[1..], d);
    }
  }

  lemma {:induction false} FirstAt(idx: seq<Descriptor>, r: string) returns (i: nat)
    requires FirstOf(idx, r).Some?
    ensures i < |idx| && idx[i] == FirstOf(idx, r).value && Carries(idx[i], r)
    ensures forall j :: 0 <= j < i ==> !Carries(idx[j], r)
  {
    if Carries(idx[0], r) {
      i := 0;
    } else {
      i := FirstAt(idx[1..], r);
      i := i + 1;
    }
  }

  lemma OneMoreCollection(s: Store, policy: Policy, w: Wiring, fault: Option<nat>, d: Descriptor)
    requires d.Ref().Some? && FirstOf(s.idx, d.Ref().value) == Some(d) && d.digest !in s.kv
    ensures var t := Collected(s, policy, w, fault);
            d.digest !in t.kv && FirstOf(t.idx, d.Ref().value) == Some(d)
  {
    var t, r := Collected(s, policy, w, fault), d.Ref().value;
    CollectionTakesWhatIsAtRisk(s, policy, w, fault, d.digest);
    WholeWalk(s, policy);
    var refs := set x | x in Intend(s.kv, s.idx, policy, |s.idx|).refs;
    assert t.idx == s.idx || t.idx == Unlinked(s.idx, refs);
    var i := FirstAt(s.idx, r);
    LookupReaches(s.kv, s.idx, i, r);
    ReachMeans(s.kv, s.idx);
    hide Collected, Intend, Unlinked, LayerUsedIn, BlobUsedIn, Lookup, Reach;
    NameDropped(s, policy, d);
    assert r !in refs;
    FirstAfterUnlink(s.idx, refs, r);
  }

  // ----- the composition as written

  /** RunGC as written, with its store and no failing deletion, on any list. It leaves exactly the entries that do
      not resolve, kept or not: so on an intact store the index ends empty. */
  lemma AsWrittenKeepsOnlyTheDangling(s: Store, policy: Policy, d: Descriptor)
    ensures d in AsWritten(s, policy, None).idx <==> d in s.idx && ImageOf(s, d).None?
  {
    var p := Identify(s.kv, s.idx, policy, |s.idx|);
    var refs := set r | r in p.refs;
    IdentifyNames(s, policy, |s.idx|);
    assert s.idx[..|s.idx|] == s.idx;
    UnlinkedKeeps(s.idx, refs);
    hide Identify, Unlinked, Lookup;
    if d.Ref().Some? && d.Ref().value in refs {
      var e :| e in s.idx && ImageOf(s, e).Some? && Carries(e, d.Ref().value);
      assert ImageOf(s, e) == ImageOf(s, d);
    }
    if d in s.idx && ImageOf(s, d).Some? {
      assert Carries(d, d.Ref().value);
    }
  }

  lemma {:induction false} IdentifyNames(s: Store, policy: Policy, n: nat)
    requires n <= |s.idx|
    ensures forall r :: r in Identify(s.kv, s.idx, policy, n).refs <==> NamedIn(s, s.idx[..n], r)
  {
    if n > 0 {
      IdentifyNames(s, policy, n - 1);
      var d, pre := s.idx[n - 1], s.idx[..n - 1];
      assert s.idx[..n] == pre + [d];
      hide Lookup;
      var before, after := Identify(s.kv, s.idx, policy, n - 1).refs, Identify(s.kv, s.idx, policy, n).refs;
      assert after == if ImageOf(s, d).Some? then before + [d.Ref().value] else before;
      hide Identify;
      forall r ensures r in after <==> NamedIn(s, pre + [d], r) {
        NamedGrows(s, pre, d, r);
      }
    }
  }

  /** Some entry of the stretch resolves and has this name. */
  ghost predicate NamedIn(s: Store, pre: seq<Descriptor>, r: string) {
    exists d :: d in pre && ImageOf(s, d).Some? && Carries(d, r)
  }

  lemma NamedGrows(s: Store, pre: seq<Descriptor>, d: Descriptor, r: string)
    ensures NamedIn(s, pre + [d], r) <==> NamedIn(s, pre, r) || (ImageOf(s, d).Some? && Carries(d, r))
  {
    hide ImageOf;
    assert forall e :: e in pre + [d] <==> e in pre || e == d;
    if ImageOf(s, d).Some? && Carries(d, r) {
      assert d in pre + [d];
    }
  }

  /** And it takes exactly the manifest and config of every image that resolves, and from the object store the layers
      of the kept ones. Of a built image, whose layers are records in the key-value store, the records are left. */
  lemma AsWrittenTakesExactly(s: Store, policy: Policy, key: string)
    ensures var t := AsWritten(s, policy, None);
            && (key in t.kv <==> key in s.kv && !BlobUsed(s, policy, true, key) && !BlobUsed(s, policy, false, key))
            && (key in t.objects <==> key in s.objects && !LayerUsed(s, policy, true, key))
  {
    var p := Identify(s.kv, s.idx, policy, |s.idx|);
    IntendIsIdentify(s.kv, s.idx, policy, |s.idx|);
    WholeWalk(s, policy);
    ScaledTakes(s, p.content, p.others, (set r | r in p.refs), None);
    hide Identify, Intend, Scaled, KeysOf, LayerUsedIn, BlobUsedIn;
  }
}
