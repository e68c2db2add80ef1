/** What the three collection policies mean in terms of the marks that Delete, Snap and Purge leave on index entries
    (pkg/layerdb/layerdb.go). */
module Policies {
  import opened Basics
  import opened Oci
  import opened LayerIndex
  import opened GarbageCollector
  import opened Collection

  /** The names a finished collection leaves, with their entries. */
  function Left(s: Store, policy: Policy, w: Wiring): map<string, Descriptor> {
    AsMap(Collected(s, policy, w, None).idx)
  }

  /** A store with unique names where nothing dangles. */
  ghost predicate Intact(s: Store) {
    WellFormed(s.idx) && AllResolve(s.kv, s.idx)
  }

  lemma LeftIs(s: Store, policy: Policy, w: Wiring)
    requires Intact(s)
    ensures Left(s, policy, w) == map r | r in AsMap(s.idx) && Live(policy, AsMap(s.idx)[r]) :: AsMap(s.idx)[r]
  {
    var refs := set x | x in Intend(s.kv, s.idx, policy, |s.idx|).refs;
    WholeWalk(s, policy);
    assert Collected(s, policy, w, None).idx == Unlinked(s.idx, refs);
    UnlinkRefines(s.idx, refs);
    hide Intend, Unlinked, Collected, Swept, LayerUsedIn, BlobUsedIn;
    forall r | r in AsMap(s.idx) ensures r in refs <==> !Live(policy, AsMap(s.idx)[r]) {
      NamedEntry(s, policy, r);
    }
  }

  lemma NamedEntry(s: Store, policy: Policy, r: string)
    requires Intact(s) && r in AsMap(s.idx)
    ensures DroppedIn(s, s.idx, policy, r) <==> !Live(policy, AsMap(s.idx)[r])
  {
    AsMapHas(s.idx, r);
    var d := AsMap(s.idx)[r];
    NamedResolves(s, d);
    NameDropped(s, policy, d);
    hide Live, ImageOf;
    forall e | e in s.idx && e.Ref() == d.Ref() ensures e == d {
      var i :| 0 <= i < |s.idx| && s.idx[i] == e;
      var j :| 0 <= j < |s.idx| && s.idx[j] == d;
    }
  }

  /** Which names each policy leaves, by the marks on their entries: deletion leaves what is not marked deleted,
      reservation what has a snapshot, and a clean-out nothing. What is left is as it was. */
  lemma LeftByMarks(s: Store, w: Wiring)
    requires Intact(s)
    ensures var m := AsMap(s.idx);
            && Left(s, OnlyDelete, w) == (map r | r in m && DELETED !in m[r].annotations :: m[r])
            && Left(s, ReserveRunning, w) == (map r | r in m && SNAPSHOT_REF in m[r].annotations :: m[r])
            && Left(s, CleanOut, w) == map[] && Collected(s, CleanOut, w, None).idx == []
  {
    LeftIs(s, OnlyDelete, w);
    LeftIs(s, ReserveRunning, w);
    LeftIs(s, CleanOut, w);
    hide Left, AsMap, Collected;
    var left := Collected(s, CleanOut, w, None).idx;
    assert left != [] ==> left[0] in left;
    forall d ensures d !in left {
      SurvivesExactly(s, CleanOut, w, d);
      if d in s.idx {
        var i :| 0 <= i < |s.idx| && s.idx[i] == d;
        NamedResolves(s, d);
      }
    }
  }

  // ----- what one command changes

  function WithMark(s: Store, r: string, key: string, action: Action): Store {
    s.(idx := Annotated(s.idx, r, key, action))
  }

  lemma MarkKeepsIntact(s: Store, r: string, key: string, action: Action)
    requires Intact(s) && key != REF_NAME
    ensures Intact(WithMark(s, r, key, action))
    ensures AsMap(WithMark(s, r, key, action).idx) == MapApply(AsMap(s.idx), OpAnnotate(r, key, action))
  {
    AnnotateRefines(s.idx, r, key, action);
    AnnotatedAt(s.idx, r, key, action);
    var idx := WithMark(s, r, key, action).idx;
    forall d | d in idx ensures Resolves(s.kv, d) {
      var i :| 0 <= i < |idx| && idx[i] == d;
      assert s.idx[i] in s.idx;
    }
  }

  /** One name before and after a command. */
  lemma OneMark(s: Store, w: Wiring, r: string, key: string, action: Action, x: string)
    requires Intact(s) && key != REF_NAME
    ensures var t, m := WithMark(s, r, key, action), AsMap(s.idx);
            && (x in Left(t, OnlyDelete, w) <==>
                  x in m && if x == r && key == DELETED then action.Del? else x in Left(s, OnlyDelete, w))
            && (x in Left(t, ReserveRunning, w) <==>
                  x in m && if x == r && key == SNAPSHOT_REF then action.Add? else x in Left(s, ReserveRunning, w))
            && (x in Left(t, OnlyDelete, w) && x != r ==> Left(t, OnlyDelete, w)[x] == m[x])
            && (x in Left(t, ReserveRunning, w) && x != r ==> Left(t, ReserveRunning, w)[x] == m[x])
            && (x in Left(s, OnlyDelete, w) ==> x in m && Left(s, OnlyDelete, w)[x] == m[x])
            && (x in Left(s, ReserveRunning, w) ==> x in m && Left(s, ReserveRunning, w)[x] == m[x])
  {
    MarkKeepsIntact(s, r, key, action);
    LeftByMarks(s, w);
    LeftByMarks(WithMark(s, r, key, action), w);
    hide Left, AsMap, Intact, WithMark;
  }

  /** Delete gives up a name for OnlyDelete, and says nothing to ReserveRunning. */
  lemma DeletedGo(s: Store, w: Wiring, r: string)
    requires Intact(s)
    ensures var t := WithMark(s, r, DELETED, Add(r));
            && Left(t, OnlyDelete, w) == Left(s, OnlyDelete, w) - {r}
            && Left(t, ReserveRunning, w).Keys == Left(s, ReserveRunning, w).Keys
  {
    hide Left, AsMap, Intact, WithMark;
    forall x {
      OneMark(s, w, r, DELETED, Add(r), x);
    }
  }

  /** Snap keeps a name for ReserveRunning, Purge gives it up, and neither says anything to OnlyDelete. */
  lemma SnappedStay(s: Store, w: Wiring, r: string)
    requires Intact(s)
    ensures var t := WithMark(s, r, SNAPSHOT_REF, Add(r));
            && Left(t, ReserveRunning, w).Keys == Left(s, ReserveRunning, w).Keys + (AsMap(s.idx).Keys * {r})
            && Left(t, OnlyDelete, w).Keys == Left(s, OnlyDelete, w).Keys
  {
    hide Left, AsMap, Intact, WithMark;
    forall x {
      OneMark(s, w, r, SNAPSHOT_REF, Add(r), x);
    }
  }

  lemma PurgedGo(s: Store, w: Wiring, r: string)
    requires Intact(s)
    ensures var t := WithMark(s, r, SNAPSHOT_REF, Del);
            && Left(t, ReserveRunning, w) == Left(s, ReserveRunning, w) - {r}
            && Left(t, OnlyDelete, w).Keys == Left(s, OnlyDelete, w).Keys
  {
    hide Left, AsMap, Intact, WithMark;
    forall x {
      OneMark(s, w, r, SNAPSHOT_REF, Del, x);
    }
  }

  // ----- the same, told from the commands that made the index

  /** Whether the name is in the index after these operations. */
  predicate Has(ops: seq<Op>, r: string) {
    if ops == [] then false
    else
      var front := ops[..|ops| - 1];
      match ops[|ops| - 1]
      case OpIndex(x, _) => x == r || Has(front, r)
      case OpCopy(a, b) => (b == r && Has(front, a)) || Has(front, r)
      case OpAnnotate(_, _, _) => Has(front, r)
      case OpUnlink(refs) => r !in refs && Has(front, r)
  }

  /** Whether its entry bears the mark: indexing wipes marks, a copy inherits those of its source. */
  predicate Bears(ops: seq<Op>, r: string, key: string) {
    if ops == [] then false
    else
      var front := ops[..|ops| - 1];
      match ops[|ops| - 1]
      case OpIndex(x, _) => x != r && Bears(front, r, key)
      case OpCopy(a, b) => if b == r && Has(front, a) then Bears(front, a, key) else Bears(front, r, key)
      case OpAnnotate(x, k, action) =>
        if x == r && k == key && Has(front, r) then action.Add? else Bears(front, r, key)
      case OpUnlink(refs) => r !in refs && Bears(front, r, key)
  }

  lemma {:induction false} HistoryMeans(ops: seq<Op>, r: string, key: string)
    requires key != REF_NAME
    ensures r in MapExec(map[], ops) <==> Has(ops, r)
    ensures Bears(ops, r, key) <==> r in MapExec(map[], ops) && key in MapExec(map[], ops)[r].annotations
  {
    if ops != [] {
      var front, last := ops[..|ops| - 1], ops[|ops| - 1];
      HistoryMeans(front, r, key);
      if last.OpCopy? {
        HistoryMeans(front, last.ref1, key);
      }
    }
  }

  /** Over every run from the empty index whose copies go to free names, and as long as nothing dangles: OnlyDelete
      leaves exactly the names that were not given up, ReserveRunning exactly those with a snapshot. */
  lemma LeftByHistory(ops: seq<Op>, s: Store, w: Wiring, r: string)
    requires CleanRun(ops) && s.idx == Exec([], ops) && AllResolve(s.kv, s.idx)
    ensures r in Left(s, OnlyDelete, w) <==> Has(ops, r) && !Bears(ops, r, DELETED)
    ensures r in Left(s, ReserveRunning, w) <==> Has(ops, r) && Bears(ops, r, SNAPSHOT_REF)
    ensures r !in Left(s, CleanOut, w)
  {
    IndexIsAMap(ops);
    LeftByMarks(s, w);
    HistoryMeans(ops, r, DELETED);
    HistoryMeans(ops, r, SNAPSHOT_REF);
    hide Left, Exec, MapExec, Has, Bears;
  }

  /** A tag of an image that is given up is given up with it: copying takes the mark along. */
  lemma TagOfDeletedGoes(s: Store, w: Wiring, r1: string, r2: string)
    requires Intact(s) && HasRef(s.idx, r1) && !HasRef(s.idx, r2)
    ensures var c := Copied(s.idx, r1, r2);
            c.Some? && (r2 in Left(s.(idx := c.value), OnlyDelete, w) <==> r1 in Left(s, OnlyDelete, w))
  {
    CopyRefines(s.idx, r1, r2);
    LastOfIn(s.idx, r1);
    var t := s.(idx := Copied(s.idx, r1, r2).value);
    AsMapHas(s.idx, r1);
    LeftByMarks(s, w);
    LeftByMarks(t, w);
    hide Left, AsMap;
  }

  // ----- as written

  /** The key is a layer of an entry that resolves and has (or has not) this mark. */
  ghost predicate LayerWhere(s: Store, mark: string, has: bool, key: string) {
    exists d :: d in s.idx && (mark in d.annotations) == has && HasLayer(s, d, key)
  }

  /** What the code's walk hands to marking, by the marks: on any store, the layers of the entries that resolve and
      that the policy keeps, and as candidates those of the others. */
  lemma IdentifyByMarks(s: Store, key: string)
    ensures var p := Identify(s.kv, s.idx, OnlyDelete, |s.idx|);
            && (key in KeysOf(p.content) <==> LayerWhere(s, DELETED, false, key))
            && (key in KeysOf(p.candidates) <==> LayerWhere(s, DELETED, true, key))
    ensures var p := Identify(s.kv, s.idx, ReserveRunning, |s.idx|);
            && (key in KeysOf(p.content) <==> LayerWhere(s, SNAPSHOT_REF, true, key))
            && (key in KeysOf(p.candidates) <==> LayerWhere(s, SNAPSHOT_REF, false, key))
    ensures var p := Identify(s.kv, s.idx, CleanOut, |s.idx|);
            && key !in KeysOf(p.content)
            && (key in KeysOf(p.candidates) <==> exists d :: d in s.idx && HasLayer(s, d, key))
  {
    IdentifyFinds(s, OnlyDelete, key);
    IdentifyFinds(s, ReserveRunning, key);
    IdentifyFinds(s, CleanOut, key);
    hide Identify, HasLayer, KeysOf;
  }

  ghost predicate LayerIn(s: Store, policy: Policy, live: bool, key: string) {
    exists d :: d in s.idx && Live(policy, d) == live && HasLayer(s, d, key)
  }

  lemma IdentifyFinds(s: Store, policy: Policy, key: string)
    ensures var p := Identify(s.kv, s.idx, policy, |s.idx|);
            && (key in KeysOf(p.content) <==> LayerIn(s, policy, true, key))
            && (key in KeysOf(p.candidates) <==> LayerIn(s, policy, false, key))
  {
    IntendIsIdentify(s.kv, s.idx, policy, |s.idx|);
    WholeWalk(s, policy);
    hide Identify, Intend, KeysOf, ImageOf, Live;
    UsedIsIn(s, policy, true, key);
    UsedIsIn(s, policy, false, key);
  }

  lemma UsedIsIn(s: Store, policy: Policy, live: bool, key: string)
    ensures LayerUsedIn(s, s.idx, policy, live, key) <==> LayerIn(s, policy, live, key)
  {
    hide ImageOf, Live;
    if d :| d in s.idx && Live(policy, d) == live && HasLayer(s, d, key) {
      assert SeenIn(s, s.idx, policy, live, d);
    }
  }
}
