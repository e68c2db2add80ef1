/** The image index: an ordered list of descriptors that has to act as a map from
    reference names to descriptors (pkg/layerdb/layerdb.go). */
module LayerIndex {
  import opened Basics
  import opened Oci

  // ----- the operations on the list

  predicate Carries(d: Descriptor, reference: string) {
    d.Ref() == Some(reference)
  }

  function Entry(reference: string, desc: Descriptor): Descriptor {
    desc.(annotations := map[REF_NAME := reference])
  }

  predicate HasRef(idx: seq<Descriptor>, reference: string) {
    idx != [] && (Carries(idx[0], reference) || HasRef(idx[1..], reference))
  }

  lemma {:induction false} HasRefAt(idx: seq<Descriptor>, i: nat, reference: string)
    requires i < |idx| && Carries(idx[i], reference)
    ensures HasRef(idx, reference)
  {
    if i > 0 {
      HasRefAt(idx[1..], i - 1, reference);
    }
  }

  lemma {:induction false} WhereRef(idx: seq<Descriptor>, reference: string) returns (i: nat)
    requires HasRef(idx, reference)
    ensures i < |idx| && Carries(idx[i], reference)
  {
    if Carries(idx[0], reference) {
      i := 0;
    } else {
      i := WhereRef(idx[1..], reference);
      i := i + 1;
    }
  }

  /** index: every entry with the name is replaced; without one, an entry is appended. */
  function Indexed(idx: seq<Descriptor>, reference: string, desc: Descriptor): (r: seq<Descriptor>) {
    if HasRef(idx, reference) then
      seq(|idx|, i requires 0 <= i < |idx| => if Carries(idx[i], reference) then Entry(reference, desc) else idx[i])
    else idx + [Entry(reference, desc)]
  }

  /** The value the last entry with the name holds, which is what Copy reads. */
  function LastOf(idx: seq<Descriptor>, reference: string): Option<Descriptor> {
    if idx == [] then None
    else if Carries(idx[|idx| - 1], reference) then Some(idx[|idx| - 1])
    else LastOf(idx[..|idx| - 1], reference)
  }

  /** The value the first entry with the name holds, which is what lookups read. */
  function FirstOf(idx: seq<Descriptor>, reference: string): Option<Descriptor> {
    if idx == [] then None
    else if Carries(idx[0], reference) then Some(idx[0])
    else FirstOf(idx[1..], reference)
  }

  function Copied(idx: seq<Descriptor>, ref1: string, ref2: string): Option<seq<Descriptor>> {
    var source := LastOf(idx, ref1);
    if source.None? then None
    else Some(idx + [source.value.(annotations := source.value.annotations[REF_NAME := ref2])])
  }

  datatype Action = Add(value: string) | Del

  function Marked(d: Descriptor, key: string, action: Action): Descriptor {
    match action
    case Add(value) => d.(annotations := d.annotations[key := value])
    case Del => d.(annotations := d.annotations - {key})
  }

  /** How annotation compares names: an entry without one counts as named "". */
  predicate Matches(d: Descriptor, reference: string) {
    (if d.Ref().Some? then d.Ref().value else "") == reference
  }

  /** annotation: only the first entry with the name changes. */
  function Annotated(idx: seq<Descriptor>, reference: string, key: string, action: Action): seq<Descriptor> {
    if idx == [] then []
    else if Matches(idx[0], reference) then [Marked(idx[0], key, action)] + idx[1..]
    else [idx[0]] + Annotated(idx[1..], reference, key, action)
  }

  lemma {:induction false} AnnotatedAtFirst(idx: seq<Descriptor>, i: nat, reference: string, key: string,
                                            action: Action)
    requires i < |idx| && Matches(idx[i], reference)
    requires forall j :: 0 <= j < i ==> !Matches(idx[j], reference)
    ensures Annotated(idx, reference, key, action) == idx[i := Marked(idx[i], key, action)]
  {
    if i > 0 {
      AnnotatedAtFirst(idx[1..], i - 1, reference, key, action);
      assert [idx[0]] + idx[1..][i - 1 := Marked(idx[i], key, action)] == idx[i := Marked(idx[i], key, action)];
    } else {
      assert [Marked(idx[0], key, action)] + idx[1..] == idx[0 := Marked(idx[0], key, action)];
    }
  }

  lemma {:induction false} AnnotatedAbsent(idx: seq<Descriptor>, reference: string, key: string, action: Action)
    requires forall j :: 0 <= j < |idx| ==> !Matches(idx[j], reference)
    ensures Annotated(idx, reference, key, action) == idx
  {
    if idx != [] {
      AnnotatedAbsent(idx[1..], reference, key, action);
    }
  }

  predicate Dropped(d: Descriptor, refs: set<string>) {
    d.Ref().Some? && d.Ref().value in refs
  }

  /** unlink: the entries whose name is not listed, in their order. */
  function Unlinked(idx: seq<Descriptor>, refs: set<string>): (r: seq<Descriptor>) {
    if idx == [] then []
    else if Dropped(idx[|idx| - 1], refs) then Unlinked(idx[..|idx| - 1], refs)
    else Unlinked(idx[..|idx| - 1], refs) + [idx[|idx| - 1]]
  }

  datatype Found = Found(manifest: Manifest, desc: Descriptor, reference: string)

  /** manifests: collects every named entry, stops at the first match, and fails on the first
      entry before it whose blob is not a manifest. */
  function Scan(kv: KV, idx: seq<Descriptor>, reference: string, acc: seq<Found>): Result<seq<Found>> {
    if idx == [] then Ok(acc)
    else if !Resolves(kv, idx[0]) then Err("manifest blob")
    else if idx[0].Ref().None? then Scan(kv, idx[1..], reference, acc)
    else
      var f := Found(kv[idx[0].digest].manifest, idx[0], idx[0].Ref().value);
      if f.reference == reference then Ok([f]) else Scan(kv, idx[1..], reference, acc + [f])
  }

  function Lookup(kv: KV, idx: seq<Descriptor>, reference: string): Result<Found> {
    var r := Scan(kv, idx, reference, []);
    if r.Err? then Err(r.reason)
    else if |r.value| == 0 then Err("no manifest")
    else if |r.value| > 1 && reference != "" then Err("multiple manifests")
    else Ok(r.value[0])
  }

  // ----- the same, as the code runs it

  class Db {
    var idx: seq<Descriptor>
    var kv: KV
    var objects: set<string>

    constructor ()
      ensures idx == [] && kv == map[] && objects == {}
    {
      idx, kv, objects := [], map[], {};
    }

    method Index(reference: string, desc: Descriptor)
      modifies this`idx
      ensures idx == Indexed(old(idx), reference, desc)
    {
      var manifests := idx;
      var found := false;
      for i := 0 to |manifests|
        invariant |manifests| == |idx|
        invariant found <==> exists j :: 0 <= j < i && Carries(idx[j], reference)
        invariant forall j :: 0 <= j < |idx| ==>
                    manifests[j] == if j < i && Carries(idx[j], reference) then Entry(reference, desc) else idx[j]
      {
        if Carries(idx[i], reference) {
          found := true;
          manifests := manifests[i := Entry(reference, desc)];
        }
      }
      if !found {
        manifests := manifests + [Entry(reference, desc)];
      }
      if HasRef(idx, reference) {
        var k := WhereRef(idx, reference);
      } else if found {
        var k :| 0 <= k < |idx| && Carries(idx[k], reference);
        HasRefAt(idx, k, reference);
      }
      assert manifests == Indexed(idx, reference, desc);
      idx := manifests;
    }

    method Copy(ref1: string, ref2: string) returns (ok: bool)
      modifies this`idx
      ensures ok <==> HasRef(old(idx), ref1)
      ensures if ok then Copied(old(idx), ref1, ref2) == Some(idx) else idx == old(idx)
    {
      var manifest := None;
      for i := 0 to |idx|
        invariant manifest == LastOf(idx[..i], ref1)
      {
        assert idx[..i + 1][..i] == idx[..i];
        if Carries(idx[i], ref1) {
          manifest := Some(idx[i]);
        }
      }
      assert idx[..|idx|] == idx;
      LastOfIn(idx, ref1);
      if manifest.None? {
        return false;
      }
      idx := idx + [manifest.value.(annotations := manifest.value.annotations[REF_NAME := ref2])];
      return true;
    }

    method Annotation(reference: string, key: string, action: Action)
      modifies this`idx
      ensures idx == Annotated(old(idx), reference, key, action)
    {
      for i := 0 to |idx|
        invariant idx == old(idx)
        invariant forall j :: 0 <= j < i ==> !Matches(idx[j], reference)
      {
        if Matches(idx[i], reference) {
          AnnotatedAtFirst(idx, i, reference, key, action);
          idx := idx[i := Marked(idx[i], key, action)];
          return;
        }
      }
      AnnotatedAbsent(idx, reference, key, action);
    }

    method Delete(reference: string)
      modifies this`idx
      ensures idx == Annotated(old(idx), reference, DELETED, Add(reference))
    {
      Annotation(reference, DELETED, Add(reference));
    }

    method Snap(reference: string)
      modifies this`idx
      ensures idx == Annotated(old(idx), reference, SNAPSHOT_REF, Add(reference))
    {
      Annotation(reference, SNAPSHOT_REF, Add(reference));
    }

    method Purge(reference: string)
      modifies this`idx
      ensures idx == Annotated(old(idx), reference, SNAPSHOT_REF, Del)
    {
      Annotation(reference, SNAPSHOT_REF, Del);
    }

    method Unlink(refs: seq<string>)
      modifies this`idx
      ensures idx == Unlinked(old(idx), set r | r in refs)
    {
      var refsDict: set<string> := {};
      for k := 0 to |refs|
        invariant refsDict == set r | r in refs[..k]
      {
        assert refs[..k + 1] == refs[..k] + [refs[k]];
        refsDict := refsDict + {refs[k]};
      }
      assert refs[..|refs|] == refs;
      var manifests := new Descriptor[|idx|](i requires 0 <= i < |idx| reads this => idx[i]);
      assert manifests[..] == idx;
      var j := Compact(manifests, refsDict);
      idx := manifests[..j];
    }

    method Manifest(reference: string) returns (r: Result<Found>)
      ensures r == Lookup(kv, idx, reference)
    {
      var manifests: seq<Found> := [];
      var i := 0;
      while i < |idx|
        invariant 0 <= i <= |idx|
        invariant Scan(kv, idx, reference, []) == Scan(kv, idx[i..], reference, manifests)
      {
        assert idx[i..][1..] == idx[i + 1..];
        var desc := idx[i];
        if !Resolves(kv, desc) {
          return Err("manifest blob");
        }
        if desc.Ref().Some? {
          var f := Found(kv[desc.digest].manifest, desc, desc.Ref().value);
          manifests := manifests + [f];
          if f.reference == reference {
            return Ok(f);
          }
        }
        i := i + 1;
      }
      if |manifests| == 0 {
        return Err("no manifest");
      }
      if |manifests| > 1 && reference != "" {
        return Err("multiple manifests");
      }
      return Ok(manifests[0]);
    }
  }

  /** The in-place compaction of unlink: `j` trails `i`, kept entries slide down. */
  method Compact(a: array<Descriptor>, refs: set<string>) returns (j: nat)
    modifies a
    ensures j <= a.Length
    ensures a[..j] == Unlinked(old(a[..]), refs)
  {
    j := 0;
    for i := 0 to a.Length
      invariant 0 <= j <= i
      invariant a[..j] == Unlinked(old(a[..])[..i], refs)
      invariant forall k :: i <= k < a.Length ==> a[k] == old(a[k])
    {
      assert old(a[..])[..i + 1][..i] == old(a[..])[..i];
      if !Dropped(a[i], refs) {
        a[j] := a[i];
        j := j + 1;
        assert a[..j] == a[..j - 1] + [a[j - 1]];
      }
    }
    assert old(a[..])[..a.Length] == old(a[..]);
  }

  // ----- the map the list stands for

  /** Every entry is named and no name occurs twice. */
  ghost predicate WellFormed(idx: seq<Descriptor>) {
    && (forall i :: 0 <= i < |idx| ==> idx[i].Ref().Some?)
    && (forall i, j :: 0 <= i < j < |idx| ==> idx[i].Ref() != idx[j].Ref())
  }

  /** First match, as a map. */
  function AsMap(idx: seq<Descriptor>): map<string, Descriptor> {
    if idx == [] then map[]
    else if idx[0].Ref().Some? then AsMap(idx[1..])[idx[0].Ref().value := idx[0]]
    else AsMap(idx[1..])
  }

  datatype Op =
    | OpIndex(reference: string, desc: Descriptor)
    | OpCopy(ref1: string, ref2: string)
    | OpAnnotate(reference: string, key: string, action: Action)
    | OpUnlink(refs: set<string>)

  function Apply(idx: seq<Descriptor>, op: Op): seq<Descriptor> {
    match op
    case OpIndex(r, d) => Indexed(idx, r, d)
    case OpCopy(r1, r2) => var c := Copied(idx, r1, r2); if c.Some? then c.value else idx
    case OpAnnotate(r, key, action) => Annotated(idx, r, key, action)
    case OpUnlink(refs) => Unlinked(idx, refs)
  }

  /** What each operation means on the map. */
  function MapApply(m: map<string, Descriptor>, op: Op): map<string, Descriptor> {
    match op
    case OpIndex(r, d) => m[r := Entry(r, d)]
    case OpCopy(r1, r2) => if r1 in m then m[r2 := m[r1].(annotations := m[r1].annotations[REF_NAME := r2])] else m
    case OpAnnotate(r, key, action) => if r in m then m[r := Marked(m[r], key, action)] else m
    case OpUnlink(refs) => m - refs
  }

  /** Copy has to go to a name that is not taken; annotations never touch the name itself. */
  predicate Clean(m: map<string, Descriptor>, op: Op) {
    && (op.OpCopy? && op.ref1 in m ==> op.ref2 !in m)
    && (op.OpAnnotate? ==> op.key != REF_NAME)
  }

  function Exec(idx: seq<Descriptor>, ops: seq<Op>): seq<Descriptor> {
    if ops == [] then idx else Apply(Exec(idx, ops[..|ops| - 1]), ops[|ops| - 1])
  }

  function MapExec(m: map<string, Descriptor>, ops: seq<Op>): map<string, Descriptor> {
    if ops == [] then m else MapApply(MapExec(m, ops[..|ops| - 1]), ops[|ops| - 1])
  }

  ghost predicate CleanRun(ops: seq<Op>) {
    forall k :: 0 <= k < |ops| ==> Clean(MapExec(map[], ops[..k]), ops[k])
  }

  // ----- each list operation is its map operation

  lemma {:induction false} AsMapHas(idx: seq<Descriptor>, r: string)
    ensures r in AsMap(idx) <==> HasRef(idx, r)
    ensures r in AsMap(idx) ==> Carries(AsMap(idx)[r], r) && AsMap(idx)[r] in idx
  {
    if idx != [] {
      AsMapHas(idx[1..], r);
    }
  }

  lemma AsMapValue(idx: seq<Descriptor>, i: nat, r: string)
    requires WellFormed(idx) && i < |idx| && Carries(idx[i], r)
    ensures r in AsMap(idx) && AsMap(idx)[r] == idx[i]
  {
    HasRefAt(idx, i, r);
    AsMapHas(idx, r);
  }

  /** A list with unique names is the map `m` once `m` has its names and its values. */
  lemma AsMapIs(idx: seq<Descriptor>, m: map<string, Descriptor>)
    requires WellFormed(idx) && m.Keys == AsMap(idx).Keys
    requires forall i, r :: 0 <= i < |idx| && Carries(idx[i], r) && r in m ==> m[r] == idx[i]
    ensures AsMap(idx) == m
  {
    hide AsMap, HasRef;
    forall r | r in m.Keys ensures AsMap(idx)[r] == m[r] {
      AsMapHas(idx, r);
      var i := WhereRef(idx, r);
      AsMapValue(idx, i, r);
    }
  }

  lemma {:induction false} HasRefSame(a: seq<Descriptor>, b: seq<Descriptor>, r: string)
    requires |a| == |b| && forall i :: 0 <= i < |a| ==> a[i].Ref() == b[i].Ref()
    ensures HasRef(a, r) <==> HasRef(b, r)
  {
    if a != [] {
      HasRefSame(a[1..], b[1..], r);
    }
  }

  lemma {:induction false} HasRefAppend(a: seq<Descriptor>, d: Descriptor, r: string)
    ensures HasRef(a + [d], r) <==> HasRef(a, r) || Carries(d, r)
  {
    if a != [] {
      assert (a + [d])[1..] == a[1..] + [d];
      HasRefAppend(a[1..], d, r);
    } else {
      assert [d][1..] == [];
    }
  }

  /** Appending an entry under a new name adds one binding. */
  lemma AppendRefines(idx: seq<Descriptor>, d: Descriptor, r: string)
    requires WellFormed(idx) && Carries(d, r) && !HasRef(idx, r)
    ensures WellFormed(idx + [d]) && AsMap(idx + [d]) == AsMap(idx)[r := d]
  {
    forall i: nat | i < |idx| ensures idx[i].Ref() != d.Ref() {
      if Carries(idx[i], r) {
        HasRefAt(idx, i, r);
      }
    }
    var m' := AsMap(idx)[r := d];
    forall s ensures s in m' <==> s in AsMap(idx + [d]) {
      HasRefAppend(idx, d, s);
      AsMapHas(idx, s);
      AsMapHas(idx + [d], s);
    }
    forall i: nat, s | i < |idx + [d]| && Carries((idx + [d])[i], s) && s in m' ensures m'[s] == (idx + [d])[i] {
      if i < |idx| {
        AsMapValue(idx, i, s);
      }
    }
    AsMapIs(idx + [d], m');
  }

  /** Rewriting in place, names untouched, rewrites the values of the map. */
  lemma RewriteRefines(idx: seq<Descriptor>, idx': seq<Descriptor>, m': map<string, Descriptor>)
    requires WellFormed(idx) && |idx'| == |idx| && forall i :: 0 <= i < |idx| ==> idx'[i].Ref() == idx[i].Ref()
    requires m'.Keys == AsMap(idx).Keys
    requires forall i, r :: 0 <= i < |idx'| && Carries(idx'[i], r) && r in m' ==> m'[r] == idx'[i]
    ensures WellFormed(idx') && AsMap(idx') == m'
  {
    forall s ensures s in m'.Keys <==> s in AsMap(idx').Keys {
      HasRefSame(idx, idx', s);
      AsMapHas(idx, s);
      AsMapHas(idx', s);
      assert s in m'.Keys <==> s in AsMap(idx).Keys;
    }
    AsMapIs(idx', m');
  }

  lemma IndexRefines(idx: seq<Descriptor>, r: string, d: Descriptor)
    requires WellFormed(idx)
    ensures WellFormed(Indexed(idx, r, d)) && AsMap(Indexed(idx, r, d)) == AsMap(idx)[r := Entry(r, d)]
  {
    if HasRef(idx, r) {
      var idx', m' := Indexed(idx, r, d), AsMap(idx)[r := Entry(r, d)];
      AsMapHas(idx, r);
      forall i: nat, s | i < |idx'| && Carries(idx'[i], s) && s in m' ensures m'[s] == idx'[i] {
        AsMapValue(idx, i, s);
      }
      RewriteRefines(idx, idx', m');
    } else {
      AppendRefines(idx, Entry(r, d), r);
    }
  }

  lemma {:induction false} LastOfIn(idx: seq<Descriptor>, r: string)
    ensures LastOf(idx, r).Some? <==> HasRef(idx, r)
    ensures LastOf(idx, r).Some? ==> LastOf(idx, r).value in idx && Carries(LastOf(idx, r).value, r)
  {
    if idx != [] {
      LastOfIn(idx[..|idx| - 1], r);
      HasRefAppend(idx[..|idx| - 1], idx[|idx| - 1], r);
      assert idx == idx[..|idx| - 1] + [idx[|idx| - 1]];
    }
  }

  lemma CopyRefines(idx: seq<Descriptor>, r1: string, r2: string)
    requires WellFormed(idx) && HasRef(idx, r1) && !HasRef(idx, r2)
    ensures var c := Copied(idx, r1, r2);
            c.Some? && WellFormed(c.value) && AsMap(c.value) == MapApply(AsMap(idx), OpCopy(r1, r2))
  {
    LastOfIn(idx, r1);
    var source := LastOf(idx, r1).value;
    var k :| 0 <= k < |idx| && idx[k] == source;
    AsMapValue(idx, k, r1);
    AppendRefines(idx, source.(annotations := source.annotations[REF_NAME := r2]), r2);
  }

  /** Copy keeps names unique exactly when its target name is free. */
  lemma CopyKeepsUnique(idx: seq<Descriptor>, r1: string, r2: string)
    requires WellFormed(idx) && HasRef(idx, r1)
    ensures Copied(idx, r1, r2).Some?
    ensures WellFormed(Copied(idx, r1, r2).value) <==> !HasRef(idx, r2)
  {
    LastOfIn(idx, r1);
    if HasRef(idx, r2) {
      var i := WhereRef(idx, r2);
      var idx' := Copied(idx, r1, r2).value;
      assert idx'[i].Ref() == idx'[|idx|].Ref();
    } else {
      CopyRefines(idx, r1, r2);
    }
  }

  lemma {:induction false} AnnotatedAt(idx: seq<Descriptor>, r: string, key: string, action: Action)
    requires WellFormed(idx)
    ensures |Annotated(idx, r, key, action)| == |idx|
    ensures forall i :: 0 <= i < |idx| ==>
              Annotated(idx, r, key, action)[i] == if Carries(idx[i], r) then Marked(idx[i], key, action) else idx[i]
  {
    if idx != [] {
      AnnotatedAt(idx[1..], r, key, action);
    }
  }

  lemma AnnotateRefines(idx: seq<Descriptor>, r: string, key: string, action: Action)
    requires WellFormed(idx) && key != REF_NAME
    ensures var idx' := Annotated(idx, r, key, action);
            WellFormed(idx') && AsMap(idx') == MapApply(AsMap(idx), OpAnnotate(r, key, action))
  {
    AnnotatedAt(idx, r, key, action);
    var idx', m' := Annotated(idx, r, key, action), MapApply(AsMap(idx), OpAnnotate(r, key, action));
    forall i: nat, s | i < |idx'| && Carries(idx'[i], s) && s in m' ensures m'[s] == idx'[i] {
      AsMapValue(idx, i, s);
    }
    RewriteRefines(idx, idx', m');
  }

  /** unlink is a filter: which entries stay ... */
  lemma {:induction false} UnlinkedKeeps(idx: seq<Descriptor>, refs: set<string>)
    ensures forall d :: d in Unlinked(idx, refs) <==> d in idx && !Dropped(d, refs)
  {
    if idx != [] {
      UnlinkedKeeps(idx[..|idx| - 1], refs);
      assert idx == idx[..|idx| - 1] + [idx[|idx| - 1]];
    }
  }

  /** ... and in which order: it filters any two stretches of the list separately. */
  lemma {:induction false} UnlinkedConcat(a: seq<Descriptor>, b: seq<Descriptor>, refs: set<string>)
    ensures Unlinked(a + b, refs) == Unlinked(a, refs) + Unlinked(b, refs)
  {
    if b == [] {
      assert a + b == a;
    } else {
      assert (a + b)[..|a + b| - 1] == a + b[..|b| - 1];
      UnlinkedConcat(a, b[..|b| - 1], refs);
    }
  }

  lemma {:induction false} UnlinkedWellFormed(idx: seq<Descriptor>, refs: set<string>)
    requires WellFormed(idx)
    ensures WellFormed(Unlinked(idx, refs))
  {
    if idx != [] {
      var front, last := idx[..|idx| - 1], idx[|idx| - 1];
      UnlinkedWellFormed(front, refs);
      UnlinkedKeeps(front, refs);
      var u := Unlinked(front, refs);
      forall i | 0 <= i < |u| ensures u[i].Ref() != last.Ref() {
        assert u[i] in front;
      }
    }
  }

  lemma UnlinkRefines(idx: seq<Descriptor>, refs: set<string>)
    requires WellFormed(idx)
    ensures WellFormed(Unlinked(idx, refs)) && AsMap(Unlinked(idx, refs)) == AsMap(idx) - refs
  {
    UnlinkedWellFormed(idx, refs);
    UnlinkedKeeps(idx, refs);
    var idx', m' := Unlinked(idx, refs), AsMap(idx) - refs;
    forall i: nat, s | i < |idx'| && Carries(idx'[i], s) && s in m' ensures m'[s] == idx'[i] {
      assert idx'[i] in idx;
      var k :| 0 <= k < |idx| && idx[k] == idx'[i];
      AsMapValue(idx, k, s);
    }
    forall s ensures s in m'.Keys <==> s in AsMap(idx').Keys {
      AsMapHas(idx, s);
      AsMapHas(idx', s);
      if s in m' {
        assert AsMap(idx)[s] in idx';
        var k :| 0 <= k < |idx'| && idx'[k] == AsMap(idx)[s];
        HasRefAt(idx', k, s);
      } else if HasRef(idx', s) {
        var k := WhereRef(idx', s);
        assert idx'[k] in idx;
        var j :| 0 <= j < |idx| && idx[j] == idx'[k];
        HasRefAt(idx, j, s);
      }
    }
    AsMapIs(idx', m');
  }

  lemma StepRefines(idx: seq<Descriptor>, op: Op)
    requires WellFormed(idx) && Clean(AsMap(idx), op)
    ensures WellFormed(Apply(idx, op)) && AsMap(Apply(idx, op)) == MapApply(AsMap(idx), op)
  {
    match op
    case OpIndex(r, d) => IndexRefines(idx, r, d);
    case OpCopy(r1, r2) =>
      LastOfIn(idx, r1);
      AsMapHas(idx, r1);
      AsMapHas(idx, r2);
      if r1 in AsMap(idx) {
        CopyRefines(idx, r1, r2);
      }
    case OpAnnotate(r, key, action) => AnnotateRefines(idx, r, key, action);
    case OpUnlink(refs) => UnlinkRefines(idx, refs);
  }

  /** Over every run from the empty index in which Copy only goes to free names, the list has unique
      names and is, operation by operation, the finite map it stands for. */
  lemma {:induction false} IndexIsAMap(ops: seq<Op>)
    requires CleanRun(ops)
    ensures WellFormed(Exec([], ops)) && AsMap(Exec([], ops)) == MapExec(map[], ops)
  {
    if ops != [] {
      var front := ops[..|ops| - 1];
      forall k | 0 <= k < |front| ensures Clean(MapExec(map[], front[..k]), front[k]) {
        assert front[..k] == ops[..k];
      }
      IndexIsAMap(front);
      StepRefines(Exec([], front), ops[|ops| - 1]);
    }
  }

  // ----- lookups

  ghost predicate AllResolve(kv: KV, idx: seq<Descriptor>) {
    forall d :: d in idx ==> Resolves(kv, d)
  }

  /** The named entries, in order, as lookups collect them. */
  function Named(kv: KV, idx: seq<Descriptor>): seq<Found> {
    if idx == [] then []
    else if idx[0].Ref().None? || !Resolves(kv, idx[0]) then Named(kv, idx[1..])
    else [Found(kv[idx[0].digest].manifest, idx[0], idx[0].Ref().value)] + Named(kv, idx[1..])
  }

  lemma {:induction false} ScanPresent(kv: KV, idx: seq<Descriptor>, r: string, acc: seq<Found>)
    requires AllResolve(kv, idx) && r in AsMap(idx)
    ensures AsMap(idx)[r] in idx
    ensures Scan(kv, idx, r, acc) == Ok([Found(kv[AsMap(idx)[r].digest].manifest, AsMap(idx)[r], r)])
  {
    AsMapHas(idx, r);
    assert idx[0] in idx;
    if !Carries(idx[0], r) {
      assert AsMap(idx)[r] == AsMap(idx[1..])[r];
      if idx[0].Ref().None? {
        ScanPresent(kv, idx[1..], r, acc);
      } else {
        ScanPresent(kv, idx[1..], r, acc + [Found(kv[idx[0].digest].manifest, idx[0], idx[0].Ref().value)]);
      }
    }
  }

  lemma {:induction false} ScanAbsent(kv: KV, idx: seq<Descriptor>, r: string, acc: seq<Found>)
    requires AllResolve(kv, idx) && !HasRef(idx, r)
    ensures Scan(kv, idx, r, acc) == Ok(acc + Named(kv, idx))
  {
    if idx != [] {
      assert idx[0] in idx;
      if idx[0].Ref().None? {
        ScanAbsent(kv, idx[1..], r, acc);
      } else {
        var f := Found(kv[idx[0].digest].manifest, idx[0], idx[0].Ref().value);
        ScanAbsent(kv, idx[1..], r, acc + [f]);
        assert acc + [f] + Named(kv, idx[1..]) == acc + Named(kv, idx);
      }
    } else {
      assert acc + [] == acc;
    }
  }

  /** While no blob is missing, a present name gets the map's value. An absent name is refused, except that in an
      index with exactly one named entry it gets that other entry, and the empty name gets the first named entry of
      any index that has one. */
  lemma LookupIsExact(kv: KV, idx: seq<Descriptor>, r: string)
    requires AllResolve(kv, idx)
    ensures r in AsMap(idx) ==> Resolves(kv, AsMap(idx)[r])
    ensures r in AsMap(idx) ==> Lookup(kv, idx, r) == Ok(Found(kv[AsMap(idx)[r].digest].manifest, AsMap(idx)[r], r))
    ensures r !in AsMap(idx) ==>
              (Lookup(kv, idx, r).Ok? <==> |Named(kv, idx)| == 1 || (r == "" && |Named(kv, idx)| >= 1))
    ensures r !in AsMap(idx) && Lookup(kv, idx, r).Ok? ==>
              Lookup(kv, idx, r) == Ok(Named(kv, idx)[0]) && Lookup(kv, idx, r).value.reference != r
  {
    AsMapHas(idx, r);
    if r in AsMap(idx) {
      ScanPresent(kv, idx, r, []);
    } else {
      ScanAbsent(kv, idx, r, []);
      NamedCarry(kv, idx);
      assert [] + Named(kv, idx) == Named(kv, idx);
    }
  }

  lemma {:induction false} NamedCarry(kv: KV, idx: seq<Descriptor>)
    ensures forall f :: f in Named(kv, idx) ==> HasRef(idx, f.reference)
  {
    if idx != [] {
      NamedCarry(kv, idx[1..]);
    }
  }

  /** One entry whose blob is missing fails every lookup that has to pass it. */
  lemma {:induction false} DanglingBlocksLookups(kv: KV, idx: seq<Descriptor>, k: nat, r: string, acc: seq<Found>)
    requires k < |idx| && !Resolves(kv, idx[k])
    requires forall i :: 0 <= i < k ==> !Carries(idx[i], r)
    ensures Scan(kv, idx, r, acc).Err?
  {
    if k > 0 && Resolves(kv, idx[0]) {
      var acc' := if idx[0].Ref().None? then acc
                  else acc + [Found(kv[idx[0].digest].manifest, idx[0], idx[0].Ref().value)];
      DanglingBlocksLookups(kv, idx[1..], k - 1, r, acc');
    }
  }

  /** Tagging onto a name that is taken reports success and changes no lookup: the name still leads to its old image,
      while the next copy of it takes the new one. */
  lemma TaggedOverDisagrees(idx: seq<Descriptor>, r1: string, r2: string)
    requires HasRef(idx, r1) && HasRef(idx, r2)
    ensures Copied(idx, r1, r2).Some?
    ensures var c := Copied(idx, r1, r2).value;
            && FirstOf(c, r2) == FirstOf(idx, r2)
            && LastOf(c, r2).Some? && LastOf(c, r2).value.digest == LastOf(idx, r1).value.digest
            && forall r :: r != r2 ==> FirstOf(c, r) == FirstOf(idx, r)
  {
    LastOfIn(idx, r1);
    FirstOfIn(idx, r2);
    var d := LastOf(idx, r1).value.(annotations := LastOf(idx, r1).value.annotations[REF_NAME := r2]);
    forall r ensures FirstOf(idx + [d], r) == if FirstOf(idx, r).Some? || r != r2 then FirstOf(idx, r) else Some(d) {
      FirstOfSnoc(idx, d, r);
    }
  }

  lemma {:induction false} FirstOfSnoc(idx: seq<Descriptor>, d: Descriptor, r: string)
    ensures FirstOf(idx + [d], r) ==
            if FirstOf(idx, r).Some? then FirstOf(idx, r) else if Carries(d, r) then Some(d) else None
  {
    if idx == [] {
      assert (idx + [d])[1..] == [];
    } else {
      assert (idx + [d])[1..] == idx[1..] + [d];
      FirstOfSnoc(idx[1..], d, r);
    }
  }

  // ----- indexing again repairs duplicates

  lemma {:induction false} FirstOfIn(idx: seq<Descriptor>, r: string)
    ensures FirstOf(idx, r).Some? <==> HasRef(idx, r)
    ensures FirstOf(idx, r).Some? ==> r in AsMap(idx) && FirstOf(idx, r) == Some(AsMap(idx)[r])
    ensures FirstOf(idx, r).Some? ==> FirstOf(idx, r).value in idx && Carries(FirstOf(idx, r).value, r)
  {
    if idx != [] {
      FirstOfIn(idx[1..], r);
    }
  }

  lemma {:induction false} SameFirst(a: seq<Descriptor>, b: seq<Descriptor>, r: string)
    requires |a| == |b|
    requires forall i :: 0 <= i < |a| ==> a[i] == b[i] || (!Carries(a[i], r) && !Carries(b[i], r))
    ensures FirstOf(a, r) == FirstOf(b, r)
  {
    if a != [] {
      SameFirst(a[1..], b[1..], r);
    }
  }

  /** From any list, duplicates included: after indexing a name, the first match (lookups) and the last
      match (Copy) of that name are both the new entry, and every other name looks up as before. */
  lemma ReindexRepairs(idx: seq<Descriptor>, r: string, d: Descriptor)
    ensures FirstOf(Indexed(idx, r, d), r) == LastOf(Indexed(idx, r, d), r) == Some(Entry(r, d))
    ensures forall s :: s != r ==> FirstOf(Indexed(idx, r, d), s) == FirstOf(idx, s)
  {
    var idx' := Indexed(idx, r, d);
    if HasRef(idx, r) {
      var i := WhereRef(idx, r);
      HasRefAt(idx', i, r);
    } else {
      HasRefAt(idx', |idx|, r);
      forall i: nat | i < |idx| ensures !Carries(idx[i], r) {
        if Carries(idx[i], r) {
          HasRefAt(idx, i, r);
        }
      }
    }
    FirstOfIn(idx', r);
    LastOfIn(idx', r);
    assert forall e :: e in idx' && Carries(e, r) ==> e == Entry(r, d);
    forall s | s != r ensures FirstOf(idx', s) == FirstOf(idx, s) {
      if HasRef(idx, r) {
        SameFirst(idx', idx, s);
      } else {
        FirstOfSnoc(idx, Entry(r, d), s);
      }
    }
  }
}
