/** Tags and the link files that lead them to a snapshot (internal/repo/local.go, internal/repo/utils.go). */
module TagLinks {
  import opened Basics
  import opened Oci
  import opened LayerIndex

  /** What can go wrong with a link file: reading or creating it fails, or writing it does and leaves it empty. */
  datatype LinkFault = NoFault | NoFile | EmptyFile

  /** Tag's treatment of the link files: an existing link of the target stays, a linked source passes its
      link on, an unlinked source becomes the link. */
  function Linked(links: map<string, string>, ref1: string, ref2: string, fault: LinkFault): map<string, string> {
    if ref2 in links then links
    else match fault
      case NoFault => links[ref2 := SnapOf(links, ref1)]
      case NoFile => links
      case EmptyFile => links[ref2 := ""]
  }

  function SnapOf(links: map<string, string>, reference: string): string {
    if reference in links then links[reference] else reference
  }

  /** The name a build is indexed under: its own, or the encoded manifest digest for a build without one. */
  function IndexName(reference: string, encoded: string): string {
    if reference == "" then encoded else reference
  }

  /** The local distribution, as far as names go. `apacks` is which build's Apackfile lies in the snapshot
      directory of a name. */
  class Local {
    const db: Db
    var links: map<string, string>
    var apacks: map<string, string>

    constructor (db: Db)
      ensures this.db == db && links == map[] && apacks == map[]
    {
      this.db, links, apacks := db, map[], map[];
    }

    /** The end of a successful build: the Apackfile in the snapshot directory of the reference as given, then
        the index. */
    method FinishBuild(reference: string, desc: Descriptor, encoded: string)
      modifies this`apacks, db`idx
      ensures apacks == old(apacks)[reference := desc.digest]
      ensures db.idx == Indexed(old(db.idx), IndexName(reference, encoded), desc)
    {
      apacks := apacks[reference := desc.digest];
      var name := reference;
      if name == "" {
        name := encoded;
      }
      db.Index(name, desc);
    }

    /** A link file that cannot be read or written makes the call fail after the index has changed. */
    method Tag(ref1: string, ref2: string, fault: LinkFault) returns (ok: bool)
      modifies this`links, db`idx
      ensures ok <==> HasRef(old(db.idx), ref1) && (ref2 in old(links) || fault.NoFault?)
      ensures if HasRef(old(db.idx), ref1) then Copied(old(db.idx), ref1, ref2) == Some(db.idx)
              else db.idx == old(db.idx)
      ensures links == if HasRef(old(db.idx), ref1) then Linked(old(links), ref1, ref2, fault) else old(links)
    {
      ok := db.Copy(ref1, ref2);
      if !ok {
        return;
      }
      if ref2 in links {
        return;
      }
      if fault.NoFile? {
        return false;
      }
      var target := ref1;
      if ref1 in links && ref2 !in links {
        target := links[ref1];
      }
      if fault.EmptyFile? {
        links := links[ref2 := ""];
        return false;
      }
      links := links[ref2 := target];
    }

    method Snaplink(reference: string) returns (path: string)
      ensures path == SnapOf(links, reference)
    {
      if reference !in links {
        return reference;
      }
      return links[reference];
    }
  }

  // ----- runs

  datatype State = State(idx: seq<Descriptor>, links: map<string, string>, apacks: map<string, string>)

  datatype Op = Build(reference: string, desc: Descriptor, encoded: string)
      | Tag(ref1: string, ref2: string, fault: LinkFault)
    | Annotate(reference: string, key: string, action: Action)

  function Apply(s: State, op: Op): State {
    match op
    case Build(r, d, encoded) => s.(idx := Indexed(s.idx, IndexName(r, encoded), d), apacks := s.apacks[r := d.digest])
    case Tag(r1, r2, fault) =>
      var c := Copied(s.idx, r1, r2);
      if c.Some? then s.(idx := c.value, links := Linked(s.links, r1, r2, fault)) else s
    case Annotate(r, key, action) => s.(idx := Annotated(s.idx, r, key, action))
  }

  function Exec(s: State, ops: seq<Op>): State {
    if ops == [] then s else Apply(Exec(s, ops[..|ops| - 1]), ops[|ops| - 1])
  }

  /** A build or a tag goes to a name that nothing has had before, and the link file gets written. */
  predicate Fresh(s: State, op: Op) {
    match op
    case Build(r, _, _) => r != "" && !HasRef(s.idx, r) && r !in s.links
    case Tag(r1, r2, fault) => HasRef(s.idx, r1) ==> !HasRef(s.idx, r2) && r2 !in s.links && fault.NoFault?
    case Annotate(_, key, _) => key != REF_NAME
  }

  ghost predicate FreshRun(ops: seq<Op>) {
    forall k :: 0 <= k < |ops| ==> Fresh(Exec(State([], map[], map[]), ops[..k]), ops[k])
  }

  /** The snapshot a name leads to belongs to the build whose manifest the index returns for it. */
  ghost predicate Agrees(s: State, r: string) {
    r in AsMap(s.idx) ==> SnapOf(s.links, r) in s.apacks && s.apacks[SnapOf(s.links, r)] == AsMap(s.idx)[r].digest
  }

  ghost predicate AllAgree(s: State) {
    forall r :: Agrees(s, r)
  }

  ghost predicate Inv(s: State) {
    && WellFormed(s.idx)
    && (forall t :: t in s.links ==> t in AsMap(s.idx) && s.links[t] !in s.links && s.links[t] in AsMap(s.idx))
    && AllAgree(s)
  }

  lemma FreshBuild(s: State, r: string, d: Descriptor, encoded: string)
    requires Inv(s) && Fresh(s, Build(r, d, encoded))
    ensures Inv(Apply(s, Build(r, d, encoded)))
  {
    var t := Apply(s, Build(r, d, encoded));
    IndexRefines(s.idx, r, d);
    AsMapHas(s.idx, r);
    forall q ensures Agrees(t, q) {
      assert Agrees(s, q);
    }
  }

  /** A tag leads where its source leads. */
  lemma FreshTag(s: State, r1: string, r2: string)
    requires Inv(s) && Fresh(s, Tag(r1, r2, NoFault))
    ensures Inv(Apply(s, Tag(r1, r2, NoFault)))
    ensures HasRef(s.idx, r1) ==> SnapOf(Apply(s, Tag(r1, r2, NoFault)).links, r2) == SnapOf(s.links, r1)
  {
    LastOfIn(s.idx, r1);
    if HasRef(s.idx, r1) {
      var t := Apply(s, Tag(r1, r2, NoFault));
      CopyRefines(s.idx, r1, r2);
      AsMapHas(s.idx, r1);
      AsMapHas(s.idx, r2);
      forall q ensures Agrees(t, q) {
        assert Agrees(s, if q == r2 then r1 else q);
      }
    }
  }

  lemma KeepsAnnotated(s: State, r: string, key: string, action: Action)
    requires Inv(s) && key != REF_NAME
    ensures Inv(Apply(s, Annotate(r, key, action)))
  {
    var t := Apply(s, Annotate(r, key, action));
    AnnotateRefines(s.idx, r, key, action);
    forall q ensures Agrees(t, q) {
      assert Agrees(s, q);
    }
  }

  /** Over every run in which names are built once and tagged once: links are one hop, and every name
      leads to the snapshot of the very build its manifest belongs to. */
  lemma {:induction false} LinksStayOneHop(ops: seq<Op>)
    requires FreshRun(ops)
    ensures var s := Exec(State([], map[], map[]), ops);
            && Inv(s)
            && forall t :: t in s.links ==> s.links[t] !in s.links
  {
    if ops != [] {
      var front := ops[..|ops| - 1];
      forall k | 0 <= k < |front| ensures Fresh(Exec(State([], map[], map[]), front[..k]), front[k]) {
        assert front[..k] == ops[..k];
      }
      LinksStayOneHop(front);
      var s := Exec(State([], map[], map[]), front);
      match ops[|ops| - 1]
      case Build(r, d, encoded) => FreshBuild(s, r, d, encoded);
      case Tag(r1, r2, fault) =>
        if HasRef(s.idx, r1) {
          FreshTag(s, r1, r2);
        } else {
          LastOfIn(s.idx, r1);
        }
      case Annotate(r, key, action) => KeepsAnnotated(s, r, key, action);
    }
  }

  /** Building a name again: every name still agrees exactly when the snapshot the name itself leads to,
      and all the tags that lead to it, have the manifest of the new build. */
  lemma RebuildExactly(s: State, r: string, d: Descriptor, encoded: string)
    requires Inv(s) && r != ""
    ensures AllAgree(Apply(s, Build(r, d, encoded))) <==>
              (r in s.links ==> s.links[r] in s.apacks && s.apacks[s.links[r]] == d.digest) &&
              (forall t :: t in s.links && s.links[t] == r ==> AsMap(s.idx)[t].digest == d.digest)
  {
    var t := Apply(s, Build(r, d, encoded));
    IndexRefines(s.idx, r, d);
    forall q ensures Agrees(t, q) <==>
                       (q == r && r in s.links ==> s.links[r] in s.apacks && s.apacks[s.links[r]] == d.digest) &&
                       (q in s.links && s.links[q] == r ==> AsMap(s.idx)[q].digest == d.digest)
    {
      assert Agrees(s, q);
    }
  }

  /** A build without a name leaves its Apackfile under the empty one and its index entry under the digest. The
      digest's name agrees exactly when an earlier build's Apackfile there has the same manifest. */
  lemma NamelessBuildExactly(s: State, d: Descriptor, encoded: string)
    requires Inv(s) && encoded != "" && encoded !in s.links
    ensures Agrees(Apply(s, Build("", d, encoded)), encoded) <==> encoded in s.apacks && s.apacks[encoded] == d.digest
  {
    IndexRefines(s.idx, encoded, d);
  }

  lemma {:induction false} AsMapAppendTaken(idx: seq<Descriptor>, d: Descriptor, r: string)
    requires Carries(d, r) && HasRef(idx, r)
    ensures AsMap(idx + [d]) == AsMap(idx)
  {
    assert (idx + [d])[1..] == idx[1..] + [d];
    if HasRef(idx[1..], r) {
      AsMapAppendTaken(idx[1..], d, r);
    } else {
      AsMapAppendShadowed(idx[1..], d, r);
    }
  }

  lemma {:induction false} AsMapAppendShadowed(idx: seq<Descriptor>, d: Descriptor, r: string)
    requires Carries(d, r) && !HasRef(idx, r)
    ensures AsMap(idx + [d]) == AsMap(idx)[r := d]
  {
    if idx == [] {
      assert (idx + [d])[1..] == [];
    } else {
      assert (idx + [d])[1..] == idx[1..] + [d];
      AsMapAppendShadowed(idx[1..], d, r);
    }
  }

  /** Tagging onto any name, taken or free: every name still agrees exactly when the target is free, has a link
      already, or is the name of the same manifest. In the remaining case, a built name tagged over, lookups go on
      finding the old image while the link leads to the other's snapshot. */
  lemma TagExactly(s: State, r1: string, r2: string)
    requires Inv(s) && HasRef(s.idx, r1)
    ensures HasRef(s.idx, r2) ==> r2 in AsMap(s.idx) && r1 in AsMap(s.idx)
    ensures AllAgree(Apply(s, Tag(r1, r2, NoFault))) <==>
              !HasRef(s.idx, r2) || r2 in s.links || AsMap(s.idx)[r1].digest == AsMap(s.idx)[r2].digest
  {
    AsMapHas(s.idx, r1);
    AsMapHas(s.idx, r2);
    if HasRef(s.idx, r2) {
      TakenTag(s, r1, r2);
    } else {
      FreshTag(s, r1, r2);
    }
    hide Apply, AllAgree;
  }

  lemma TakenTag(s: State, r1: string, r2: string)
    requires Inv(s) && HasRef(s.idx, r1) && HasRef(s.idx, r2) && r1 in AsMap(s.idx) && r2 in AsMap(s.idx)
    ensures AsMap(Apply(s, Tag(r1, r2, NoFault)).idx) == AsMap(s.idx)
    ensures AllAgree(Apply(s, Tag(r1, r2, NoFault))) <==>
              r2 in s.links || AsMap(s.idx)[r1].digest == AsMap(s.idx)[r2].digest
  {
    LastOfIn(s.idx, r1);
    var source := LastOf(s.idx, r1).value;
    AsMapAppendTaken(s.idx, source.(annotations := source.annotations[REF_NAME := r2]), r2);
    var t := Apply(s, Tag(r1, r2, NoFault));
    assert Agrees(s, r1);
    forall q ensures Agrees(t, q) <==>
          (q == r2 ==> r2 in s.links || AsMap(s.idx)[r1].digest == AsMap(s.idx)[r2].digest) {
      assert Agrees(s, q);
    }
    if AllAgree(t) {
      assert Agrees(t, r2);
    }
  }

  /** When the link file of a fresh tag cannot be created, the call fails but the index has the name: it agrees
      exactly when a build's Apackfile with that manifest happens to lie there. */
  lemma UnlinkedTagExactly(s: State, r1: string, r2: string)
    requires Inv(s) && HasRef(s.idx, r1) && !HasRef(s.idx, r2)
    ensures r1 in AsMap(s.idx)
    ensures Agrees(Apply(s, Tag(r1, r2, NoFile)), r2) <==> r2 in s.apacks && s.apacks[r2] == AsMap(s.idx)[r1].digest
  {
    LastOfIn(s.idx, r1);
    CopyRefines(s.idx, r1, r2);
    AsMapHas(s.idx, r1);
    AsMapHas(s.idx, r2);
  }
}
