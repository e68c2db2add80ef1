/** The build list of an artifact and the ids it assigns (internal/repo/makefile.go), and the lookup
    by path that finds them again (internal/spec/spec.go). */
module Makefile {
  import opened Basics
  import opened Bundle

  /** A model, dataset or doc entry of the package section. */
  datatype Item = Item(id: string, path: string, size: nat)

  datatype Package = Package(models: seq<Item>, dataSets: seq<Item>, docs: seq<Item>)

  const NIL := "nil"

  function Find(items: seq<Item>, filename: string): Option<string> {
    if items == [] then None
    else if items[0].path == filename then Some(items[0].id)
    else Find(items[1..], filename)
  }

  /** FindDiffid: models first, then datasets, then docs. */
  function FindDiffid(p: Package, filename: string): string {
    var m := Find(p.models, filename);
    if m.Some? then m.value
    else
      var d := Find(p.dataSets, filename);
      if d.Some? then d.value
      else
        var o := Find(p.docs, filename);
        if o.Some? then o.value else NIL
  }

  function Listed(p: Package): seq<Item> {
    p.models + p.dataSets + p.docs
  }

  /** An entry whose id and size describe its file. */
  predicate Described(item: Item, files: map<string, Bytes>, hash: Bytes -> string) {
    item.path in files && item.id == hash(files[item.path]) && item.size == |files[item.path]|
  }

  predicate AllDescribed(items: seq<Item>, files: map<string, Bytes>, hash: Bytes -> string) {
    forall i :: 0 <= i < |items| ==> Described(items[i], files, hash)
  }

  predicate InFiles(items: seq<Item>, files: map<string, Bytes>) {
    forall i :: 0 <= i < |items| ==> items[i].path in files
  }

  /** No entry's file fails to open or to be read. */
  predicate Readable(items: seq<Item>, broken: set<string>) {
    forall i :: 0 <= i < |items| ==> items[i].path !in broken
  }

  /** One content per entry, in order, with the bytes of its file. */
  function ContentsOf(items: seq<Item>, mediaType: string, files: map<string, Bytes>): seq<Content>
    requires InFiles(items, files)
  {
    seq(|items|, i requires 0 <= i < |items| => Content(items[i].path, mediaType, files[items[i].path]))
  }

  /** `after` is `before` with the entries filled in; paths stay. */
  predicate SamePaths(before: seq<Item>, after: seq<Item>) {
    |before| == |after| && forall i :: 0 <= i < |before| ==> after[i].path == before[i].path
  }

  class Builder {
    const files: map<string, Bytes>
    const broken: set<string>
    const hash: Bytes -> string
    const mediaType: string
    var package: Package

    constructor (files: map<string, Bytes>, broken: set<string>, hash: Bytes -> string, mediaType: string,
                 package: Package)
      ensures this.files == files && this.broken == broken && this.hash == hash && this.mediaType == mediaType
              && this.package == package
    {
      this.files, this.broken, this.hash, this.mediaType, this.package := files, broken, hash, mediaType, package;
    }

    /** One of the three loops: fills in a section and lists its contents; stops at a file that is missing or
        cannot be read. */
    method Section(items: seq<Item>) returns (filled: seq<Item>, contents: seq<Content>, ok: bool)
      ensures SamePaths(items, filled)
      ensures ok <==> InFiles(items, files) && Readable(items, broken)
      ensures ok ==> AllDescribed(filled, files, hash) && contents == ContentsOf(filled, mediaType, files)
    {
      filled, contents := items, [];
      for i := 0 to |items|
        invariant |filled| == |items| && |contents| == i
        invariant forall k :: 0 <= k < |items| ==> filled[k].path == items[k].path
        invariant forall k :: 0 <= k < i ==> Described(filled[k], files, hash) && filled[k].path !in broken
        invariant forall k :: 0 <= k < i ==> contents[k] == Content(items[k].path, mediaType, files[items[k].path])
      {
        var path := items[i].path;
        if path !in files || path in broken {
          return filled, contents, false;
        }
        var id := hash(files[path]);
        filled := filled[i := Item(id, path, |files[path]|)];
        contents := contents + [Content(path, mediaType, files[path])];
      }
      ok := true;
    }

    /** Fills in every entry and lists the contents, or fails because a listed file is missing or cannot be
        read. */
    method Contents() returns (r: Result<seq<Content>>)
      modifies this
      ensures r.Ok? <==> InFiles(Listed(old(package)), files) && Readable(Listed(old(package)), broken)
      ensures SamePaths(Listed(old(package)), Listed(package))
      ensures r.Ok? ==> AllDescribed(Listed(package), files, hash)
      ensures r.Ok? ==> r.value == ContentsOf(Listed(package), mediaType, files)
    {
      var models, dataSets, docs := package.models, package.dataSets, package.docs;
      ListedInFiles(package, files, broken);
      var m, mc, mok := Section(models);
      package := package.(models := m);
      ListedSame(Package(models, dataSets, docs), package);
      if !mok {
        return Err("missing or unreadable file");
      }
      var d, dc, dok := Section(dataSets);
      package := package.(dataSets := d);
      ListedSame(Package(models, dataSets, docs), package);
      if !dok {
        return Err("missing or unreadable file");
      }
      var o, oc, ook := Section(docs);
      package := package.(docs := o);
      ListedSame(Package(models, dataSets, docs), package);
      if !ook {
        return Err("missing or unreadable file");
      }
      ListedDescribed(package, mediaType, files, hash);
      return Ok(mc + dc + oc);
    }
  }

  lemma ListedInFiles(p: Package, files: map<string, Bytes>, broken: set<string>)
    ensures Readable(Listed(p), broken) <==>
              Readable(p.models, broken) && Readable(p.dataSets, broken) && Readable(p.docs, broken)
    ensures InFiles(Listed(p), files) <==>
              InFiles(p.models, files) && InFiles(p.dataSets, files) && InFiles(p.docs, files)
  {
    assert forall i :: 0 <= i < |p.models| ==> Listed(p)[i] == p.models[i];
    assert forall i :: 0 <= i < |p.dataSets| ==> Listed(p)[|p.models| + i] == p.dataSets[i];
    assert forall i :: 0 <= i < |p.docs| ==> Listed(p)[|p.models| + |p.dataSets| + i] == p.docs[i];
  }

  lemma ListedSame(p: Package, q: Package)
    requires SamePaths(p.models, q.models) && SamePaths(p.dataSets, q.dataSets) && SamePaths(p.docs, q.docs)
    ensures SamePaths(Listed(p), Listed(q))
  {
  }

  lemma ListedDescribed(p: Package, mediaType: string, files: map<string, Bytes>, hash: Bytes -> string)
    requires AllDescribed(p.models, files, hash) && AllDescribed(p.dataSets, files, hash)
             && AllDescribed(p.docs, files, hash)
    ensures AllDescribed(Listed(p), files, hash)
    ensures ContentsOf(Listed(p), mediaType, files) ==
            ContentsOf(p.models, mediaType, files) + ContentsOf(p.dataSets, mediaType, files)
            + ContentsOf(p.docs, mediaType, files)
  {
  }

  /** Some entry has this path. */
  ghost predicate Has(items: seq<Item>, filename: string) {
    exists i :: 0 <= i < |items| && items[i].path == filename
  }

  lemma {:induction false} FindDescribed(items: seq<Item>, files: map<string, Bytes>, hash: Bytes -> string,
                                         filename: string)
    requires AllDescribed(items, files, hash)
    ensures Find(items, filename).Some? <==> Has(items, filename)
    ensures Find(items, filename).Some? ==> filename in files && Find(items, filename).value == hash(files[filename])
  {
    if items != [] {
      FindDescribed(items[1..], files, hash, filename);
      if items[0].path != filename && Has(items, filename) {
        var i :| 0 <= i < |items| && items[i].path == filename;
        assert items[1..][i - 1].path == filename;
      }
    }
  }

  lemma HasJoined(a: seq<Item>, b: seq<Item>, filename: string)
    ensures Has(a + b, filename) <==> Has(a, filename) || Has(b, filename)
  {
    if Has(a, filename) {
      var i :| 0 <= i < |a| && a[i].path == filename;
      assert (a + b)[i].path == filename;
    }
    if Has(b, filename) {
      var i :| 0 <= i < |b| && b[i].path == filename;
      assert (a + b)[|a| + i].path == filename;
    }
  }

  lemma DescribedJoined(a: seq<Item>, b: seq<Item>, files: map<string, Bytes>, hash: Bytes -> string)
    requires AllDescribed(a + b, files, hash)
    ensures AllDescribed(a, files, hash) && AllDescribed(b, files, hash)
  {
    assert forall i :: 0 <= i < |a| ==> (a + b)[i] == a[i];
    assert forall i :: 0 <= i < |b| ==> (a + b)[|a| + i] == b[i];
  }

  /** The lookup returns the id that Contents assigned, whichever sections the path sits in, and "nil"
      for a path in none. */
  lemma FindDiffidIsTheId(p: Package, files: map<string, Bytes>, hash: Bytes -> string, filename: string)
    requires AllDescribed(Listed(p), files, hash)
    ensures Has(Listed(p), filename) ==> filename in files && FindDiffid(p, filename) == hash(files[filename])
    ensures !Has(Listed(p), filename) ==> FindDiffid(p, filename) == NIL
  {
    DescribedJoined(p.models + p.dataSets, p.docs, files, hash);
    DescribedJoined(p.models, p.dataSets, files, hash);
    HasJoined(p.models + p.dataSets, p.docs, filename);
    HasJoined(p.models, p.dataSets, filename);
    FindDescribed(p.models, files, hash, filename);
    FindDescribed(p.dataSets, files, hash, filename);
    FindDescribed(p.docs, files, hash, filename);
    hide AllDescribed, Has, Find;
  }
}
