/** From a generated artifact description to the image built from it: which files of the tree reach the image, and when
    the build fails (internal/spec/gen.go, internal/repo/makefile.go). */
module Packaging {
  import opened Basics
  import opened Gen
  import M = Makefile

  /** What the build reads of a package: ids and sizes are filled in by the build, and codes are not looked at. */
  function Entries(paths: seq<string>): seq<M.Item> {
    seq(|paths|, i requires 0 <= i < |paths| => M.Item("", paths[i], 0))
  }

  function ForBuild(p: Package): M.Package {
    M.Package(Entries(p.models), Entries(p.dataSets), Entries(p.docs))
  }

  /** The paths an image is made of. */
  ghost predicate InImage(p: Package, x: string) {
    M.Has(M.Listed(ForBuild(p)), x)
  }

  /** When `Contents` of this package succeeds. */
  predicate Builds(p: Package, files: map<string, Bytes>, broken: set<string>) {
    M.InFiles(M.Listed(ForBuild(p)), files) && M.Readable(M.Listed(ForBuild(p)), broken)
  }

  lemma InImageMeans(p: Package, x: string)
    ensures InImage(p, x) <==> x in p.models || x in p.dataSets || x in p.docs
  {
    var items := M.Listed(ForBuild(p));
    assert forall i :: 0 <= i < |p.models| ==> items[i].path == p.models[i];
    assert forall i :: 0 <= i < |p.dataSets| ==> items[|p.models| + i].path == p.dataSets[i];
    assert forall i :: 0 <= i < |p.docs| ==> items[|p.models| + |p.dataSets| + i].path == p.docs[i];
    if x in p.models || x in p.dataSets || x in p.docs {
      var k := if x in p.models then IndexOf(p.models, x)
               else if x in p.dataSets then |p.models| + IndexOf(p.dataSets, x)
               else |p.models| + |p.dataSets| + IndexOf(p.docs, x);
      assert items[k].path == x;
    }
  }

  ghost function IndexOf(s: seq<string>, x: string): (i: nat)
    requires x in s
    ensures i < |s| && s[i] == x
  {
    var i :| 0 <= i < |s| && s[i] == x;
    i
  }

  lemma BuildsMeans(p: Package, files: map<string, Bytes>, broken: set<string>)
    ensures Builds(p, files, broken) <==> forall x :: InImage(p, x) ==> x in files && x !in broken
  {
    var items := M.Listed(ForBuild(p));
    forall i | 0 <= i < |items| ensures InImage(p, items[i].path) {
    }
  }

  // ----- which files are packed

  /** A file that goes into the image: at the top, any but an Apackfile, if it is a notice or of a known type;
      directly in a sub-directory that is not special, the weights, and the configs too if there is nothing else. */
  ghost predicate Packed(dir: Directory, f: File) {
    || (f in dir.files && !IsArtifactName(f.name) && (IsNotice(f.name) || DetermineFileType(f.path) != Unknown))
    || (exists d :: d in dir.subdirs && PackedFrom(d, f))
  }

  predicate PackedFrom(d: Directory, f: File) {
    && !Special(d) && f in d.files
    && (DetermineFileType(f.name) == Weight || (DetermineFileType(f.name) == Config && Only(d, Weight)))
  }

  /** A sub-directory that is listed whole where the build expects a file. */
  predicate ListedWhole(d: Directory) {
    VerdictOn(d) == AsDocs || VerdictOn(d) == AsDataSet
  }

  lemma PackedFromMeans(d: Directory, f: File)
    ensures f in DirModels(d) <==> PackedFrom(d, f)
  {
    OfTypeHas(d.files, Weight, f);
    OfTypeHas(d.files, Config, f);
    hide DetermineFileType;
    if PackedFrom(d, f) {
      DirModelsHave(d, f);
    }
  }

  lemma ModelsAre(dir: Directory, a: Package, x: string)
    ensures x in Generated(dir, a).models <==>
              || x in a.models || (exists f :: f in Collected(dir) && f.path == x)
              || (Collected(dir) != [] && exists f :: f in Sorted(dir.files, Config) && f.path == x)
  {
    PathsHave(Collected(dir), x);
    PathsHave(Sorted(dir.files, Config), x);
  }

  lemma DataSetsAre(dir: Directory, a: Package, x: string)
    ensures x in Generated(dir, a).dataSets <==>
              || x in a.dataSets || (exists f :: f in Sorted(dir.files, Dataset) && f.path == x)
              || (exists d :: d in dir.subdirs && VerdictOn(d) == AsDataSet && d.path == x)
              || (Collected(dir) == [] && exists f :: f in Sorted(dir.files, Config) && f.path == x)
  {
    PathsHave(Sorted(dir.files, Dataset), x);
    PathsHave(Sorted(dir.files, Config), x);
    DirsWithHave(dir.subdirs, AsDataSet, x);
  }

  lemma DocsAre(dir: Directory, a: Package, x: string)
    ensures x in Generated(dir, a).docs <==>
              || x in a.docs || (exists f :: f in dir.files && IsTopDoc(f, x))
              || (exists d :: d in dir.subdirs && VerdictOn(d) == AsDocs && d.path == x)
  {
    TopDocsHave(dir.files, x);
    DirsWithHave(dir.subdirs, AsDocs, x);
  }

  /** A top-level file and the lists it can be in. */
  lemma TopListed(dir: Directory, f: File)
    requires f in dir.files && f.path == f.name
    ensures !IsArtifactName(f.name) && (IsNotice(f.name) || DetermineFileType(f.path) != Unknown) <==>
              || f in Sorted(dir.files, Weight) || f in Sorted(dir.files, Config) || f in Sorted(dir.files, Dataset)
              || IsTopDoc(f, f.path)
  {
    SortedHas(dir.files, Weight, f);
    SortedHas(dir.files, Config, f);
    SortedHas(dir.files, Dataset, f);
    hide AnySuffix, IsNotice, IsArtifactName, Sorted;
  }

  ghost predicate PackedAt(dir: Directory, x: string) {
    exists f :: Packed(dir, f) && f.path == x
  }

  ghost predicate WholeAt(dir: Directory, x: string) {
    exists d :: d in dir.subdirs && ListedWhole(d) && d.path == x
  }

  lemma TopPathIsName(dir: Directory, f: File)
    requires WellFormed(dir) && dir.path == "." && f in dir.files
    ensures f.path == f.name
  {
    var i :| 0 <= i < |dir.files| && dir.files[i] == f;
  }

  lemma PackedIsListed(dir: Directory, a: Package, f: File)
    requires WellFormed(dir) && dir.path == "." && Packed(dir, f)
    ensures InImage(Generated(dir, a), f.path)
  {
    var p, x := Generated(dir, a), f.path;
    InImageMeans(p, x);
    ModelsAre(dir, a, x);
    DataSetsAre(dir, a, x);
    DocsAre(dir, a, x);
    CollectedHas(dir, f);
    if d :| d in dir.subdirs && PackedFrom(d, f) {
      PackedFromMeans(d, f);
    } else {
      TopPathIsName(dir, f);
      TopListed(dir, f);
    }
    hide InImage, Generated, Sorted, IsTopDoc, PackedFrom, DirModels, Collected;
  }

  lemma ListedIsPacked(dir: Directory, a: Package, x: string)
    requires WellFormed(dir) && dir.path == "." && InImage(Generated(dir, a), x)
    ensures InImage(a, x) || PackedAt(dir, x) || WholeAt(dir, x)
  {
    InImageMeans(Generated(dir, a), x);
    InImageMeans(a, x);
    ModelsAre(dir, a, x);
    DataSetsAre(dir, a, x);
    DocsAre(dir, a, x);
    hide InImage, Generated, Sorted, IsTopDoc, DirModels, Collected, Packed;
    if f :| f in Collected(dir) && f.path == x {
      CollectedIsPacked(dir, f);
    } else if f :| f in Sorted(dir.files, Config) && f.path == x {
      SortedIsPacked(dir, Config, f);
    } else if f :| f in Sorted(dir.files, Dataset) && f.path == x {
      SortedIsPacked(dir, Dataset, f);
    } else if f :| f in dir.files && IsTopDoc(f, x) {
      DocIsPacked(dir, f, x);
    }
  }

  lemma CollectedIsPacked(dir: Directory, f: File)
    requires f in Collected(dir)
    ensures Packed(dir, f)
  {
    CollectedHas(dir, f);
    if f in Sorted(dir.files, Weight) {
      SortedIsPacked(dir, Weight, f);
    } else {
      var d :| d in dir.subdirs && f in DirModels(d);
      PackedFromMeans(d, f);
    }
  }

  lemma SortedIsPacked(dir: Directory, t: FileType, f: File)
    requires f in Sorted(dir.files, t) && t != Unknown
    ensures Packed(dir, f)
  {
    SortedHas(dir.files, t, f);
    hide DetermineFileType;
  }

  lemma DocIsPacked(dir: Directory, f: File, x: string)
    requires WellFormed(dir) && dir.path == "." && f in dir.files && IsTopDoc(f, x)
    ensures Packed(dir, f) && f.path == x
  {
    TopPathIsName(dir, f);
    hide DetermineFileType;
  }

  /** The image of a generated artifact, path by path: what was asked for before, the packed files, and the
      sub-directories listed whole. Codes are in none. */
  lemma ImageExactly(dir: Directory, a: Package, x: string)
    requires WellFormed(dir) && dir.path == "."
    ensures InImage(Generated(dir, a), x) <==> InImage(a, x) || PackedAt(dir, x) || WholeAt(dir, x)
  {
    InImageMeans(Generated(dir, a), x);
    InImageMeans(a, x);
    hide InImage;
    if InImage(Generated(dir, a), x) {
      ListedIsPacked(dir, a, x);
    }
    if f :| Packed(dir, f) && f.path == x {
      PackedIsListed(dir, a, f);
    }
    if d :| d in dir.subdirs && ListedWhole(d) && d.path == x {
      DataSetsAre(dir, a, x);
      DocsAre(dir, a, x);
    }
  }

  // ----- when the build fails

  /** The workspace the tree was read from: its files are there, and a directory is not a file. */
  ghost predicate ReadFrom(dir: Directory, files: map<string, Bytes>) {
    && (forall f :: Holds(dir, f) ==> f.path in files)
    && (forall d :: d in dir.subdirs ==> d.path !in files)
  }

  lemma PackedIsHeld(dir: Directory, f: File)
    requires Packed(dir, f)
    ensures Holds(dir, f)
  {
    if d :| d in dir.subdirs && PackedFrom(d, f) {
      var i :| 0 <= i < |dir.subdirs| && dir.subdirs[i] == d;
      assert Holds(dir.subdirs[i], f);
    }
  }

  /** The build of a generated artifact succeeds exactly when what was asked for before could be built, no
      sub-directory is listed whole, as documents or as a dataset, and every packed file can be read. */
  lemma GeneratedBuildsExactly(dir: Directory, a: Package, files: map<string, Bytes>, broken: set<string>)
    requires WellFormed(dir) && dir.path == "." && ReadFrom(dir, files)
    ensures Builds(Generated(dir, a), files, broken) <==>
              && Builds(a, files, broken)
              && (forall d :: d in dir.subdirs ==> !ListedWhole(d))
              && (forall f :: Packed(dir, f) ==> f.path !in broken)
  {
    var p := Generated(dir, a);
    BuildsMeans(p, files, broken);
    BuildsMeans(a, files, broken);
    hide Builds, InImage, Generated, WellFormed, ListedWhole, Packed;
    forall x ensures InImage(p, x) <==> InImage(a, x) || PackedAt(dir, x) || WholeAt(dir, x) {
      ImageExactly(dir, a, x);
    }
    forall f | Packed(dir, f) ensures f.path in files && PackedAt(dir, f.path) {
      PackedIsHeld(dir, f);
    }
    forall d | d in dir.subdirs && ListedWhole(d) ensures WholeAt(dir, d.path) && d.path !in files {
    }
  }

  // ----- which files are left behind

  /** Names as a file system has them. */
  ghost predicate SlashFree(d: Directory) {
    && (forall i :: 0 <= i < |d.files| ==> '/' !in d.files[i].name)
    && (forall i :: 0 <= i < |d.subdirs| ==> '/' !in d.subdirs[i].name && SlashFree(d.subdirs[i]))
  }

  lemma HeadOf(a: string, s: string)
    requires a + "/" <= s
    ensures |a| < |s| && s[|a|] == '/' && a == s[..|a|]
  {
    assert (a + "/")[|a|] == '/' && (a + "/")[..|a|] == a;
  }

  /** Two paths that begin with a name and a slash begin with the same name. */
  lemma SameHead(a: string, b: string, s: string)
    requires '/' !in a && '/' !in b && a + "/" <= s && b + "/" <= s
    ensures a == b
  {
    HeadOf(a, s);
    HeadOf(b, s);
    assert forall k :: 0 <= k < |a| ==> s[k] in a;
    assert forall k :: 0 <= k < |b| ==> s[k] in b;
  }

  lemma AfterHead(dir: string, a: string, b: string)
    requires dir + "/" + a + "/" <= dir + "/" + b
    ensures a + "/" <= b
  {
    var whole := dir + "/" + b;
    assert (dir + "/" + a + "/")[|dir| + 1..] == a + "/" && whole[|dir| + 1..] == b;
  }

  /** Where directory `d` would have file `g`, there is no other file. */
  lemma OnlyFileThere(d: Directory, f: File, g: File)
    requires WellFormed(d) && SlashFree(d) && Holds(d, f)
    requires '/' !in g.name && g.path == Join(d.path, g.name) && f.path == g.path
    ensures f == g
  {
    if f in d.files {
      var i :| 0 <= i < |d.files| && d.files[i] == f;
      assert d.path != "." ==> f.name == f.path[|d.path| + 1..] && g.name == g.path[|d.path| + 1..];
    } else {
      var i :| 0 <= i < |d.subdirs| && Holds(d.subdirs[i], f);
      var sub := d.subdirs[i];
      HeldIsUnder(sub, f);
      BelowIsSlashed(d, sub, g);
    }
  }

  lemma BelowIsSlashed(d: Directory, sub: Directory, g: File)
    requires sub.path == Join(d.path, sub.name) && sub.name != "." && '/' !in sub.name
    requires g.path == Join(d.path, g.name) && Under(g.path, sub.path)
    ensures '/' in g.name
  {
    if d.path == "." {
      HeadOf(sub.name, g.name);
    } else {
      assert sub.path != "." by {
        assert |sub.path| > 1 || sub.path[0] == '/';
      }
      AfterHead(d.path, sub.name, g.name);
      HeadOf(sub.name, g.name);
    }
  }

  lemma SubAt(dir: Directory, f: File) returns (i: nat)
    requires WellFormed(dir) && dir.path == "." && Holds(dir, f) && f !in dir.files
    ensures i < |dir.subdirs| && Holds(dir.subdirs[i], f)
    ensures dir.subdirs[i].path == dir.subdirs[i].name != "." && dir.subdirs[i].name + "/" <= f.path
  {
    i :| i < |dir.subdirs| && Holds(dir.subdirs[i], f);
    HeldIsUnder(dir.subdirs[i], f);
  }

  /** A path leads to one file as far as packing goes. */
  lemma SamePathSameFile(dir: Directory, f: File, g: File)
    requires WellFormed(dir) && SlashFree(dir) && dir.path == "."
    requires Holds(dir, f) && Packed(dir, g) && f.path == g.path
    ensures f == g
  {
    PackedIsHeld(dir, g);
    if f in dir.files || g in dir.files {
      var (top, other) := if f in dir.files then (f, g) else (g, f);
      var i :| 0 <= i < |dir.files| && dir.files[i] == top;
      OnlyFileThere(dir, other, top);
    } else {
      var d :| d in dir.subdirs && PackedFrom(d, g);
      var k :| 0 <= k < |dir.subdirs| && dir.subdirs[k] == d;
      var j :| 0 <= j < |d.files| && d.files[j] == g;
      var i := SubAt(dir, f);
      assert d.name + "/" <= f.path;
      SameHead(dir.subdirs[i].name, d.name, f.path);
      OnlyFileThere(dir.subdirs[i], f, g);
    }
  }

  /** A file of the tree reaches the image exactly when it is packed (or was asked for before). So code, a file of
      unknown type, and what lies in a sub-directory that could not be classified and is no weight file never do,
      although `Gen` lists every one of them. */
  lemma ReachesTheImageExactly(dir: Directory, a: Package, files: map<string, Bytes>, f: File)
    requires WellFormed(dir) && SlashFree(dir) && dir.path == "." && ReadFrom(dir, files) && Holds(dir, f)
    ensures InImage(Generated(dir, a), f.path) <==> InImage(a, f.path) || Packed(dir, f)
  {
    ImageExactly(dir, a, f.path);
    hide InImage, Generated, WellFormed, SlashFree, Packed;
    if PackedAt(dir, f.path) {
      var g :| Packed(dir, g) && g.path == f.path;
      SamePathSameFile(dir, f, g);
    }
  }

  /** Nothing below a directory named docs, src, pkg, lib or build is in the image of a generated artifact. */
  lemma SpecialStaysOut(dir: Directory, a: Package, files: map<string, Bytes>, d: Directory, f: File)
    requires WellFormed(dir) && SlashFree(dir) && dir.path == "." && ReadFrom(dir, files)
    requires d in dir.subdirs && Special(d) && Holds(d, f)
    ensures InImage(Generated(dir, a), f.path) <==> InImage(a, f.path)
  {
    var k :| 0 <= k < |dir.subdirs| && dir.subdirs[k] == d;
    assert Holds(dir.subdirs[k], f);
    HeldIsUnder(d, f);
    ReachesTheImageExactly(dir, a, files, f);
    if Packed(dir, f) {
      SpecialIsNotPacked(dir, d, f);
    }
  }

  lemma SpecialIsNotPacked(dir: Directory, d: Directory, f: File)
    requires WellFormed(dir) && SlashFree(dir) && dir.path == "." && d in dir.subdirs && Special(d)
    requires d.path == d.name && d.name + "/" <= f.path
    ensures !Packed(dir, f)
  {
    var k :| 0 <= k < |dir.subdirs| && dir.subdirs[k] == d;
    HeadOf(d.name, f.path);
    if e :| e in dir.subdirs && PackedFrom(e, f) {
      var j :| 0 <= j < |dir.subdirs| && dir.subdirs[j] == e;
      var i :| 0 <= i < |e.files| && e.files[i] == f;
      assert e.name + "/" <= f.path;
      SameHead(d.name, e.name, f.path);
    }
  }
}
