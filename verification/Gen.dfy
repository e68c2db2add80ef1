/** Generating an artifact description from a directory tree (internal/spec/gen.go). */
module Gen {
  import opened Basics

  datatype FileType = Weight | Dataset | Code | Docs | Config | Unknown

  datatype File = File(name: string, path: string)

  datatype Directory = Directory(name: string, path: string, files: seq<File>, subdirs: seq<Directory>)

  /** The package section, each entry by its path. */
  datatype Package = Package(models: seq<string>, dataSets: seq<string>, codes: seq<string>, docs: seq<string>)

  const WEIGHTS := [
    ".safetensors", ".pkl", ".joblib", ".bin", ".pth", ".pt", ".mar", ".pt2", ".ptl", ".pb", ".ckpt", ".tflite",
    ".tfrecords", ".npy", ".npz", ".keras", ".h5", ".caffemodel", ".pmml", ".coreml", ".gguf", ".ggml", ".ggmf",
    ".llamafile", ".onnx"]
  const DOCS := [".md", ".adoc", ".html", ".pdf"]
  const CONFIGS := [".json", ".yaml", ".xml", ".txt", "params"]
  const DATASETS := [".tar", ".zip", ".parquet", ".csv"]

  predicate HasSuffix(s: string, suffix: string) {
    |suffix| <= |s| && s[|s| - |suffix|..] == suffix
  }

  predicate AnySuffix(s: string, suffixes: seq<string>) {
    exists i :: 0 <= i < |suffixes| && HasSuffix(s, suffixes[i])
  }

  function DetermineFileType(filename: string): FileType {
    if AnySuffix(filename, WEIGHTS) then Weight
    else if AnySuffix(filename, CONFIGS) then Config
    else if AnySuffix(filename, DOCS) then Docs
    else if AnySuffix(filename, DATASETS) then Dataset
    else Unknown
  }

  function Lower(s: string): string {
    seq(|s|, i requires 0 <= i < |s| => if 'A' <= s[i] <= 'Z' then (s[i] as int + 32) as char else s[i])
  }

  predicate IsArtifactName(name: string) {
    name == "Apackfile" || name == "apackfile" || name == ".apackfile"
  }

  /** Readme and license files are documents whatever their suffix. */
  predicate IsNotice(name: string) {
    "readme" <= Lower(name) || "license" <= Lower(name)
  }

  predicate IsCodeName(name: string) {
    name == "src" || name == "pkg" || name == "lib" || name == "build"
  }

  // ----- trees

  function Join(dir: string, name: string): string {
    if dir == "." then name else dir + "/" + name
  }

  /** Paths as genDirFromPath builds them. */
  ghost predicate WellFormed(d: Directory) {
    && (forall i :: 0 <= i < |d.files| ==> d.files[i].path == Join(d.path, d.files[i].name))
    && (forall i :: 0 <= i < |d.subdirs| ==>
          d.subdirs[i].path == Join(d.path, d.subdirs[i].name) && d.subdirs[i].name != "." && WellFormed(d.subdirs[i]))
  }

  /** A file anywhere in the tree. */
  ghost predicate Holds(d: Directory, f: File) {
    f in d.files || exists i :: 0 <= i < |d.subdirs| && Holds(d.subdirs[i], f)
  }

  /** `path` lies below directory `dir`; everything lies below ".". */
  predicate Under(path: string, dir: string) {
    dir == "." || dir + "/" <= path
  }

  /** Every file of a tree lies under the tree's own path. */
  lemma {:induction false} HeldIsUnder(d: Directory, f: File)
    requires WellFormed(d) && Holds(d, f)
    ensures Under(f.path, d.path)
  {
    if f in d.files {
      var i :| 0 <= i < |d.files| && d.files[i] == f;
    } else {
      var i :| 0 <= i < |d.subdirs| && Holds(d.subdirs[i], f);
      var sub := d.subdirs[i];
      HeldIsUnder(sub, f);
      if d.path != "." {
        assert sub.path + "/" == d.path + "/" + (sub.name + "/");
        assert |sub.path| > 1 || sub.path[0] == '/';
      }
    }
  }

  /** Listed by its own path, or below a listed directory. */
  ghost predicate Covers(p: Package, path: string) {
    || path in p.models || path in p.dataSets || path in p.docs
    || (exists d :: d in p.docs && Under(path, d))
    || (exists d :: d in p.dataSets && Under(path, d))
    || (exists d :: d in p.codes && Under(path, d))
  }

  // ----- one sub-directory

  predicate Special(d: Directory) {
    d.name == "docs" || IsCodeName(d.name)
  }

  /** Nothing in the directory but files of type `t`, at least one, and config files. */
  predicate Only(d: Directory, t: FileType) {
    && d.subdirs == []
    && (exists i :: 0 <= i < |d.files| && DetermineFileType(d.files[i].name) == t)
    && (forall i :: 0 <= i < |d.files| ==>
          DetermineFileType(d.files[i].name) == t || DetermineFileType(d.files[i].name) == Config)
  }

  function OfType(files: seq<File>, t: FileType): seq<File> {
    if files == [] then []
    else
      var front, last := OfType(files[..|files| - 1], t), files[|files| - 1];
      if DetermineFileType(last.name) == t then front + [last] else front
  }

  lemma {:induction false} OfTypeHas(files: seq<File>, t: FileType, f: File)
    ensures f in OfType(files, t) <==> f in files && DetermineFileType(f.name) == t
  {
    if files != [] {
      OfTypeHas(files[..|files| - 1], t, f);
      assert files == files[..|files| - 1] + [files[|files| - 1]];
    }
  }

  const TYPES: seq<FileType> := [Weight, Dataset, Code, Docs, Config, Unknown]

  function Rank(t: FileType): (r: nat)
    ensures r < 6 && TYPES[r] == t
  {
    match t
    case Weight => 0
    case Dataset => 1
    case Code => 2
    case Docs => 3
    case Config => 4
    case Unknown => 5
  }

  /** Whether type `t` occurs in the directory; sub-directories count as unknown. */
  predicate Occurs(d: Directory, t: FileType) {
    (t == Unknown && d.subdirs != []) || exists i :: 0 <= i < |d.files| && DetermineFileType(d.files[i].name) == t
  }

  /** The one type other than config that occurs, if there is exactly one; also whether there are several. */
  method Overall(contents: seq<seq<string>>) returns (overall: FileType, mixed: bool)
    requires |contents| == 6
    ensures mixed <==> exists i, j :: 0 <= i < j < 6 && i != 4 && j != 4 && contents[i] != [] && contents[j] != []
    ensures !mixed ==> forall i :: 0 <= i < 6 && i != 4 && contents[i] != [] ==> overall == TYPES[i]
    ensures overall != Unknown ==> contents[Rank(overall)] != [] && overall != Config
  {
    overall, mixed := Unknown, false;
    for k := 0 to 6
      invariant mixed <==> exists i, j :: 0 <= i < j < k && i != 4 && j != 4 && contents[i] != [] && contents[j] != []
      invariant !mixed ==> forall i :: 0 <= i < k && i != 4 && contents[i] != [] ==> overall == TYPES[i]
      invariant overall != Unknown ==> Rank(overall) < k && contents[Rank(overall)] != [] && overall != Config
      invariant k <= 5 && overall == Unknown ==> forall i :: 0 <= i < k && i != 4 ==> contents[i] == []
    {
      if contents[k] != [] && k != 4 {
        if overall != Unknown {
          mixed := true;
        }
        overall := TYPES[k];
      }
    }
  }

  /** The files of a directory by type, sub-directories among the unknown. */
  method SortContents(d: Directory) returns (contents: seq<seq<string>>, modelFiles: seq<File>, configFiles: seq<File>)
    ensures |contents| == 6
    ensures forall t: FileType :: contents[Rank(t)] != [] <==> Occurs(d, t)
    ensures modelFiles == OfType(d.files, Weight) && configFiles == OfType(d.files, Config)
  {
    hide DetermineFileType, OccursBefore;
    contents := [[], [], [], [], [], []];
    for i := 0 to |d.subdirs|
      invariant |contents| == 6 && forall k :: 0 <= k < 5 ==> contents[k] == []
      invariant contents[5] != [] <==> i > 0
    {
      contents := contents[5 := contents[5] + [d.subdirs[i].path]];
    }
    configFiles, modelFiles := [], [];
    OccursAtFirst(d);
    for i := 0 to |d.files|
      invariant |contents| == 6
      invariant modelFiles == OfType(d.files[..i], Weight) && configFiles == OfType(d.files[..i], Config)
      invariant forall t: FileType :: contents[Rank(t)] != [] <==> OccursBefore(d, i, t)
    {
      assert d.files[..i + 1][..i] == d.files[..i];
      var fileType := DetermineFileType(d.files[i].name);
      if fileType == Weight {
        modelFiles := modelFiles + [d.files[i]];
      }
      if fileType == Config {
        configFiles := configFiles + [d.files[i]];
      }
      ghost var before := contents;
      contents := contents[Rank(fileType) := contents[Rank(fileType)] + [d.files[i].path]];
      forall t: FileType ensures contents[Rank(t)] != [] <==> OccursBefore(d, i + 1, t) {
        assert before[Rank(t)] != [] <==> OccursBefore(d, i, t);
        OccursNext(d, i, t);
        assert t != fileType ==> contents[Rank(t)] == before[Rank(t)];
      }
    }
    assert d.files[..|d.files|] == d.files;
    forall t: FileType ensures contents[Rank(t)] != [] <==> Occurs(d, t) {
      OccursAtLast(d, t);
    }
  }

  /** `Occurs` over the first `n` files. */
  predicate OccursBefore(d: Directory, n: nat, t: FileType)
    requires n <= |d.files|
  {
    (t == Unknown && d.subdirs != []) || exists i :: 0 <= i < n && DetermineFileType(d.files[i].name) == t
  }

  lemma OccursAtFirst(d: Directory)
    ensures forall t: FileType :: OccursBefore(d, 0, t) <==> t == Unknown && d.subdirs != []
  {
  }

  lemma OccursAtLast(d: Directory, t: FileType)
    ensures OccursBefore(d, |d.files|, t) <==> Occurs(d, t)
  {
  }

  lemma OccursNext(d: Directory, n: nat, t: FileType)
    requires n < |d.files|
    ensures OccursBefore(d, n + 1, t) <==> OccursBefore(d, n, t) || DetermineFileType(d.files[n].name) == t
  {
  }

  /** What a sub-directory counts as, from its name or from all it holds. */
  datatype Verdict = AsDocs | AsCode | AsModel | AsDataSet | Unclassified

  function VerdictOn(d: Directory): Verdict {
    if d.name == "docs" then AsDocs
    else if IsCodeName(d.name) then AsCode
    else if Only(d, Weight) then AsModel
    else if Only(d, Dataset) then AsDataSet
    else if Only(d, Docs) then AsDocs
    else Unclassified
  }

  /** The files a sub-directory hands on as model files. */
  function DirModels(d: Directory): seq<File> {
    match VerdictOn(d)
    case AsModel => OfType(d.files, Weight) + OfType(d.files, Config)
    case Unclassified => OfType(d.files, Weight)
    case _ => []
  }

  /** The package once the directory is listed where it belongs. */
  function WithDir(p: Package, d: Directory): Package {
    match VerdictOn(d)
    case AsDocs => p.(docs := p.docs + [d.path])
    case AsCode => p.(codes := p.codes + [d.path])
    case AsDataSet => p.(dataSets := p.dataSets + [d.path])
    case _ => p
  }

  method AddDirToArtifact(p: Package, d: Directory) returns (q: Package, modelFiles: seq<File>, ok: bool)
    ensures q == WithDir(p, d) && modelFiles == DirModels(d) && (ok <==> VerdictOn(d) != Unclassified)
  {
    if d.name == "docs" {
      return p.(docs := p.docs + [d.path]), [], true;
    }
    if IsCodeName(d.name) {
      return p.(codes := p.codes + [d.path]), [], true;
    }
    var contents, weights, configFiles := SortContents(d);
    var overall, mixed := Overall(contents);
    OverallMeans(d, contents, overall, mixed, Weight);
    OverallMeans(d, contents, overall, mixed, Dataset);
    OverallMeans(d, contents, overall, mixed, Docs);
    if mixed {
      return p, weights, false;
    }
    match overall {
      case Weight => return p, weights + configFiles, true;
      case Dataset =>
        NoneOfType(d.files, Weight);
        return p.(dataSets := p.dataSets + [d.path]), weights, true;
      case Docs =>
        NoneOfType(d.files, Weight);
        return p.(docs := p.docs + [d.path]), weights, true;
      case _ => return p, weights, false;
    }
  }

  lemma {:induction false} NoneOfType(files: seq<File>, t: FileType)
    requires forall i :: 0 <= i < |files| ==> DetermineFileType(files[i].name) != t
    ensures OfType(files, t) == []
  {
    if files != [] {
      NoneOfType(files[..|files| - 1], t);
    }
  }

  /** The scan over the six lists decides `Only`. */
  lemma OverallMeans(d: Directory, contents: seq<seq<string>>, overall: FileType, mixed: bool, t: FileType)
    requires |contents| == 6 && forall t: FileType :: contents[Rank(t)] != [] <==> Occurs(d, t)
    requires mixed <==> exists i, j :: 0 <= i < j < 6 && i != 4 && j != 4 && contents[i] != [] && contents[j] != []
    requires !mixed ==> forall i :: 0 <= i < 6 && i != 4 && contents[i] != [] ==> overall == TYPES[i]
    requires overall != Unknown ==> contents[Rank(overall)] != [] && overall != Config
    requires t == Weight || t == Dataset || t == Docs
    ensures Only(d, t) <==> !mixed && overall == t
  {
    assert contents[Rank(t)] != [] <==> Occurs(d, t);
    if !mixed && overall == t {
      assert contents[Rank(Unknown)] != [] <==> Occurs(d, Unknown);
      forall i | 0 <= i < |d.files|
        ensures DetermineFileType(d.files[i].name) == t || DetermineFileType(d.files[i].name) == Config {
        var u := DetermineFileType(d.files[i].name);
        assert contents[Rank(u)] != [] <==> Occurs(d, u);
      }
    }
    if Only(d, t) {
      forall k | 0 <= k < 6 && k != 4 && k != Rank(t) ensures contents[k] == [] {
        assert Rank(TYPES[k]) == k;
        assert contents[Rank(TYPES[k])] != [] <==> Occurs(d, TYPES[k]);
      }
    }
  }

  // ----- the whole tree

  /** The top-level files that are sorted by their suffix, of one type. */
  function Sorted(files: seq<File>, t: FileType): seq<File> {
    if files == [] then []
    else
      var front, last := Sorted(files[..|files| - 1], t), files[|files| - 1];
      if !IsArtifactName(last.name) && !IsNotice(last.name) && DetermineFileType(last.path) == t then front + [last]
      else front
  }

  lemma {:induction false} SortedHas(files: seq<File>, t: FileType, f: File)
    ensures f in Sorted(files, t) <==>
              f in files && !IsArtifactName(f.name) && !IsNotice(f.name) && DetermineFileType(f.path) == t
  {
    if files != [] {
      SortedHas(files[..|files| - 1], t, f);
      assert files == files[..|files| - 1] + [files[|files| - 1]];
    }
  }

  function Paths(files: seq<File>): seq<string> {
    if files == [] then [] else Paths(files[..|files| - 1]) + [files[|files| - 1].path]
  }

  lemma {:induction false} PathsHave(files: seq<File>, x: string)
    ensures x in Paths(files) <==> exists f :: f in files && f.path == x
  {
    if files != [] {
      PathsHave(files[..|files| - 1], x);
      assert files == files[..|files| - 1] + [files[|files| - 1]];
    }
  }

  lemma PathsAppend(files: seq<File>, f: File)
    ensures Paths(files + [f]) == Paths(files) + [f.path]
  {
    assert (files + [f])[..|files|] == files;
  }

  /** The top-level documents: notices by name, the rest by path. */
  function TopDocs(files: seq<File>): seq<string> {
    if files == [] then []
    else
      var front, last := TopDocs(files[..|files| - 1]), files[|files| - 1];
      if IsArtifactName(last.name) then front
      else if IsNotice(last.name) then front + [last.name]
      else if DetermineFileType(last.path) == Docs then front + [last.path]
      else front
  }

  predicate IsTopDoc(f: File, x: string) {
    && !IsArtifactName(f.name)
    && if IsNotice(f.name) then x == f.name else DetermineFileType(f.path) == Docs && x == f.path
  }

  lemma {:induction false} TopDocsHave(files: seq<File>, x: string)
    ensures x in TopDocs(files) <==> exists f :: f in files && IsTopDoc(f, x)
  {
    if files != [] {
      var front, last := files[..|files| - 1], files[|files| - 1];
      TopDocsHave(front, x);
      assert files == front + [last];
      assert x in TopDocs(files) <==> x in TopDocs(front) || IsTopDoc(last, x);
      hide IsTopDoc;
    }
  }

  /** The sub-directories with a verdict, by path. */
  function DirsWith(ds: seq<Directory>, v: Verdict): seq<string> {
    if ds == [] then []
    else
      var front, last := DirsWith(ds[..|ds| - 1], v), ds[|ds| - 1];
      if VerdictOn(last) == v then front + [last.path] else front
  }

  lemma {:induction false} DirsWithHave(ds: seq<Directory>, v: Verdict, x: string)
    ensures x in DirsWith(ds, v) <==> exists d :: d in ds && VerdictOn(d) == v && d.path == x
  {
    if ds != [] {
      DirsWithHave(ds[..|ds| - 1], v, x);
      assert ds == ds[..|ds| - 1] + [ds[|ds| - 1]];
    }
  }

  function SubModels(ds: seq<Directory>): seq<File> {
    if ds == [] then [] else SubModels(ds[..|ds| - 1]) + DirModels(ds[|ds| - 1])
  }

  lemma {:induction false} SubModelsHave(ds: seq<Directory>, f: File)
    ensures f in SubModels(ds) <==> exists d :: d in ds && f in DirModels(d)
  {
    if ds != [] {
      SubModelsHave(ds[..|ds| - 1], f);
      assert ds == ds[..|ds| - 1] + [ds[|ds| - 1]];
    }
  }

  /** All that Gen collects as model files. */
  function Collected(dir: Directory): seq<File> {
    Sorted(dir.files, Weight) + SubModels(dir.subdirs)
  }

  /** Whether everything goes under "." because something could not be placed. */
  predicate CatchesAll(dir: Directory) {
    Sorted(dir.files, Unknown) != [] || |DirsWith(dir.subdirs, Unclassified)| > 5
  }

  /** The generated package, list by list. */
  function Generated(dir: Directory, a: Package): Package {
    var configs, found := Paths(Sorted(dir.files, Config)), Collected(dir) != [];
    Package(
      a.models + if found then Paths(Collected(dir)) + configs else [],
      a.dataSets + Paths(Sorted(dir.files, Dataset)) + DirsWith(dir.subdirs, AsDataSet) + if found then [] else configs,
      a.codes + DirsWith(dir.subdirs, AsCode) + if CatchesAll(dir) then ["."] else DirsWith(dir.subdirs, Unclassified),
      a.docs + TopDocs(dir.files) + DirsWith(dir.subdirs, AsDocs))
  }

  method TopFiles(a: Package, files: seq<File>)
    returns (p: Package, modelFiles: seq<File>, configFiles: seq<File>, catchAll: bool)
    ensures modelFiles == Sorted(files, Weight) && configFiles == Sorted(files, Config)
    ensures p == a.(docs := a.docs + TopDocs(files), dataSets := a.dataSets + Paths(Sorted(files, Dataset)))
    ensures catchAll <==> Sorted(files, Unknown) != []
  {
    hide AnySuffix, IsArtifactName, IsNotice, Paths;
    p, modelFiles, configFiles, catchAll := a, [], [], false;
    ghost var dataSets: seq<File> := [];
    NoPaths();
    for i := 0 to |files|
      invariant modelFiles == Sorted(files[..i], Weight) && configFiles == Sorted(files[..i], Config)
      invariant dataSets == Sorted(files[..i], Dataset)
      invariant p == a.(docs := a.docs + TopDocs(files[..i]), dataSets := a.dataSets + Paths(dataSets))
      invariant catchAll <==> Sorted(files[..i], Unknown) != []
    {
      assert files[..i + 1][..i] == files[..i];
      var f := files[i];
      if IsArtifactName(f.name) {
        continue;
      }
      if IsNotice(f.name) {
        p := p.(docs := p.docs + [f.name]);
        continue;
      }
      match DetermineFileType(f.path) {
        case Weight => modelFiles := modelFiles + [f];
        case Config => configFiles := configFiles + [f];
        case Docs => p := p.(docs := p.docs + [f.path]);
        case Dataset =>
          PathsAppend(dataSets, f);
          dataSets := dataSets + [f];
          p := p.(dataSets := p.dataSets + [f.path]);
        case _ => catchAll := true;
      }
    }
    assert files[..|files|] == files;
  }

  lemma NoPaths()
    ensures Paths([]) == []
  {
  }

  /** The package after the sub-directories listed so far. */
  function WithDirs(a: Package, ds: seq<Directory>): Package {
    Package(a.models, a.dataSets + DirsWith(ds, AsDataSet), a.codes + DirsWith(ds, AsCode),
            a.docs + DirsWith(ds, AsDocs))
  }

  lemma OneMoreDir(a: Package, ds: seq<Directory>, d: Directory)
    ensures WithDirs(a, ds + [d]) == WithDir(WithDirs(a, ds), d)
    ensures SubModels(ds + [d]) == SubModels(ds) + DirModels(d)
    ensures DirsWith(ds + [d], Unclassified) ==
            DirsWith(ds, Unclassified) + if VerdictOn(d) == Unclassified then [d.path] else []
  {
    assert (ds + [d])[..|ds|] == ds;
  }

  method SubDirs(a: Package, ds: seq<Directory>) returns (p: Package, modelFiles: seq<File>, unprocessed: seq<string>)
    ensures p == WithDirs(a, ds) && modelFiles == SubModels(ds) && unprocessed == DirsWith(ds, Unclassified)
  {
    hide VerdictOn, DirModels, WithDir;
    p, modelFiles, unprocessed := a, [], [];
    for k := 0 to |ds|
      invariant p == WithDirs(a, ds[..k]) && modelFiles == SubModels(ds[..k])
                && unprocessed == DirsWith(ds[..k], Unclassified)
    {
      assert ds[..k + 1] == ds[..k] + [ds[k]];
      OneMoreDir(a, ds[..k], ds[k]);
      var q, dirModelFiles, ok := AddDirToArtifact(p, ds[k]);
      if !ok {
        unprocessed := unprocessed + [ds[k].path];
      }
      p := q;
      modelFiles := modelFiles + dirModelFiles;
    }
    assert ds[..|ds|] == ds;
  }

  /** Gen: sorts the top-level files, asks every sub-directory for its contribution, and then decides where
      config files and unclassified paths go. */
  method Gen(dir: Directory, a: Package) returns (p: Package)
    ensures p == Generated(dir, a)
  {
    hide Sorted, SubModels, DirsWith, TopDocs, Paths;
    var modelFiles, configFiles, catchAll;
    p, modelFiles, configFiles, catchAll := TopFiles(a, dir.files);
    var dirModelFiles, unprocessed;
    p, dirModelFiles, unprocessed := SubDirs(p, dir.subdirs);
    modelFiles := modelFiles + dirModelFiles;
    if |modelFiles| > 0 {
      p := p.(models := p.models + Paths(modelFiles) + Paths(configFiles));
    } else {
      p := p.(dataSets := p.dataSets + Paths(configFiles));
    }
    if catchAll || |unprocessed| > 5 {
      p := p.(codes := p.codes + ["."]);
    } else {
      p := p.(codes := p.codes + unprocessed);
    }
  }

  // ----- what the equations mean

  /** A weight file that Gen collects: at the top level, or directly in a sub-directory that is not taken
      whole as documents or code. */
  ghost predicate WeightFound(dir: Directory) {
    || (exists f ::
          f in dir.files && !IsArtifactName(f.name) && !IsNotice(f.name) && DetermineFileType(f.path) == Weight)
    || (exists d, f :: d in dir.subdirs && !Special(d) && f in d.files && DetermineFileType(f.name) == Weight)
  }

  lemma NotOnly(d: Directory, t: FileType, k: nat)
    requires k < |d.files| && DetermineFileType(d.files[k].name) == Weight && t != Weight
    ensures !Only(d, t)
  {
  }

  lemma DirModelsHave(d: Directory, f: File)
    ensures f in DirModels(d) ==> f in d.files
    ensures !Special(d) && f in d.files && DetermineFileType(f.name) == Weight ==> f in DirModels(d)
    ensures f in DirModels(d) ==> !Special(d) && exists g :: g in d.files && DetermineFileType(g.name) == Weight
    ensures VerdictOn(d) == AsModel && f in d.files ==> f in DirModels(d)
  {
    OfTypeHas(d.files, Weight, f);
    OfTypeHas(d.files, Config, f);
    hide AnySuffix;
    if !Special(d) && f in d.files && DetermineFileType(f.name) == Weight {
      var k :| 0 <= k < |d.files| && d.files[k] == f;
      NotOnly(d, Dataset, k);
      NotOnly(d, Docs, k);
    }
    if f in DirModels(d) && VerdictOn(d) == AsModel {
      var k :| 0 <= k < |d.files| && DetermineFileType(d.files[k].name) == Weight;
      assert d.files[k] in d.files;
    }
    if VerdictOn(d) == AsModel && f in d.files {
      var k :| 0 <= k < |d.files| && d.files[k] == f;
      assert DetermineFileType(d.files[k].name) == Weight || DetermineFileType(d.files[k].name) == Config;
    }
  }

  lemma CollectedHas(dir: Directory, f: File)
    ensures f in Collected(dir) <==> f in Sorted(dir.files, Weight) || exists d :: d in dir.subdirs && f in DirModels(d)
  {
    SubModelsHave(dir.subdirs, f);
  }

  /** Model files are found exactly when there is a weight file to find. */
  lemma ModelsFound(dir: Directory)
    ensures Collected(dir) != [] <==> WeightFound(dir)
  {
    hide DetermineFileType, IsNotice, IsArtifactName, VerdictOn, DirModels, Special, Sorted, SubModels;
    if Collected(dir) != [] {
      var f := Collected(dir)[0];
      CollectedHas(dir, f);
      SortedHas(dir.files, Weight, f);
      if d :| d in dir.subdirs && f in DirModels(d) {
        DirModelsHave(d, f);
      }
    }
    if f :| f in dir.files && !IsArtifactName(f.name) && !IsNotice(f.name) && DetermineFileType(f.path) == Weight {
      SortedHas(dir.files, Weight, f);
      CollectedHas(dir, f);
    } else if d, f :| d in dir.subdirs && !Special(d) && f in d.files && DetermineFileType(f.name) == Weight {
      DirModelsHave(d, f);
      CollectedHas(dir, f);
    }
  }

  /** Config files follow the models: with a weight file they are all models, without one the models stay as
      they were and they are all datasets. */
  lemma ConfigsFollowTheModels(dir: Directory, a: Package, f: File)
    requires f in dir.files && !IsArtifactName(f.name) && !IsNotice(f.name) && DetermineFileType(f.path) == Config
    ensures WeightFound(dir) ==> f.path in Generated(dir, a).models
    ensures !WeightFound(dir) ==> f.path in Generated(dir, a).dataSets && Generated(dir, a).models == a.models
  {
    ModelsFound(dir);
    SortedHas(dir.files, Config, f);
    PathsHave(Sorted(dir.files, Config), f.path);
  }

  /** Every collected weight file is a model under its own path. */
  lemma WeightsAreModels(dir: Directory, a: Package, d: Directory, f: File)
    requires (d in dir.subdirs && !Special(d) && f in d.files && DetermineFileType(f.name) == Weight)
             || f in Sorted(dir.files, Weight)
    ensures f.path in Generated(dir, a).models
  {
    hide DetermineFileType;
    if f !in Sorted(dir.files, Weight) {
      DirModelsHave(d, f);
    }
    CollectedHas(dir, f);
    PathsHave(Collected(dir), f.path);
  }

  /** The new entries of each list are real, and each kind is where it belongs: models are files of the tree,
      the others are top-level files, sub-directories with the fitting verdict, or the catch-all. */
  lemma NothingInvented(dir: Directory, a: Package, x: string)
    ensures x in Generated(dir, a).models ==> x in a.models || exists f :: Holds(dir, f) && f.path == x
    ensures x in Generated(dir, a).dataSets ==>
              || x in a.dataSets
              || (exists f ::
                    && f in dir.files && f.path == x
                    && (DetermineFileType(f.path) == Dataset || DetermineFileType(f.path) == Config))
              || (exists d :: d in dir.subdirs && d.path == x && VerdictOn(d) == AsDataSet)
    ensures x in Generated(dir, a).docs ==>
              || x in a.docs
              || (exists f :: f in dir.files && IsTopDoc(f, x))
              || (exists d :: d in dir.subdirs && d.path == x && VerdictOn(d) == AsDocs)
    ensures x in Generated(dir, a).codes ==>
              || x in a.codes
              || (CatchesAll(dir) && x == ".")
              || (exists d ::
                    && d in dir.subdirs && d.path == x
                    && (VerdictOn(d) == AsCode || (VerdictOn(d) == Unclassified && !CatchesAll(dir))))
  {
    hide DetermineFileType, VerdictOn, IsTopDoc, IsNotice, IsArtifactName;
    if x in Generated(dir, a).models && x !in a.models {
      ModelIsHeld(dir, a, x);
    }
    if x in Generated(dir, a).dataSets && x !in a.dataSets {
      DataSetIsReal(dir, a, x);
    }
    TopDocsHave(dir.files, x);
    DirsWithHave(dir.subdirs, AsDocs, x);
    DirsWithHave(dir.subdirs, AsCode, x);
    DirsWithHave(dir.subdirs, Unclassified, x);
  }

  lemma ModelIsHeld(dir: Directory, a: Package, x: string)
    requires x in Generated(dir, a).models && x !in a.models
    ensures exists f :: Holds(dir, f) && f.path == x
  {
    PathsHave(Collected(dir), x);
    PathsHave(Sorted(dir.files, Config), x);
    if f :| f in Collected(dir) && f.path == x {
      CollectedHas(dir, f);
      SortedHas(dir.files, Weight, f);
      if d :| d in dir.subdirs && f in DirModels(d) {
        DirModelsHave(d, f);
        var k :| 0 <= k < |dir.subdirs| && dir.subdirs[k] == d;
        assert Holds(dir.subdirs[k], f);
      }
      assert Holds(dir, f);
    } else {
      var f :| f in Sorted(dir.files, Config) && f.path == x;
      SortedHas(dir.files, Config, f);
      assert Holds(dir, f);
    }
  }

  lemma DataSetIsReal(dir: Directory, a: Package, x: string)
    requires x in Generated(dir, a).dataSets && x !in a.dataSets
    ensures || (exists f ::
                  && f in dir.files && f.path == x
                  && (DetermineFileType(f.path) == Dataset || DetermineFileType(f.path) == Config))
            || (exists d :: d in dir.subdirs && d.path == x && VerdictOn(d) == AsDataSet)
  {
    PathsHave(Sorted(dir.files, Dataset), x);
    PathsHave(Sorted(dir.files, Config), x);
    DirsWithHave(dir.subdirs, AsDataSet, x);
    if f :| f in Sorted(dir.files, Dataset) && f.path == x {
      SortedHas(dir.files, Dataset, f);
    } else if f :| f in Sorted(dir.files, Config) && f.path == x {
      SortedHas(dir.files, Config, f);
    }
  }

  /** The catch-all is there exactly when it was before, a top-level file has no known type, or more than five
      sub-directories could not be classified. */
  lemma CatchAllExactly(dir: Directory, a: Package)
    requires WellFormed(dir) && dir.path == "."
    ensures "." in Generated(dir, a).codes <==>
              || "." in a.codes
              || (exists f ::
                    && f in dir.files && !IsArtifactName(f.name) && !IsNotice(f.name)
                    && DetermineFileType(f.path) == Unknown)
              || |DirsWith(dir.subdirs, Unclassified)| > 5
  {
    hide DetermineFileType, VerdictOn, IsNotice, IsArtifactName;
    if Sorted(dir.files, Unknown) != [] {
      SortedHas(dir.files, Unknown, Sorted(dir.files, Unknown)[0]);
    } else if f :|
        f in dir.files && !IsArtifactName(f.name) && !IsNotice(f.name) && DetermineFileType(f.path) == Unknown {
      SortedHas(dir.files, Unknown, f);
    }
    DirsWithHave(dir.subdirs, AsCode, ".");
    DirsWithHave(dir.subdirs, Unclassified, ".");
    forall d | d in dir.subdirs ensures d.path != "." {
      var k :| 0 <= k < |dir.subdirs| && dir.subdirs[k] == d;
    }
  }

  /** Nothing is lost: every file of the tree but a top-level Apackfile is listed by its own path or lies under a
      listed directory. */
  lemma EveryFileIsCovered(dir: Directory, a: Package, f: File)
    requires WellFormed(dir) && dir.path == "."
    requires Holds(dir, f) && !(f in dir.files && IsArtifactName(f.name))
    ensures Covers(Generated(dir, a), f.path)
  {
    if f in dir.files {
      TopIsCovered(dir, a, f);
    } else {
      var i :| 0 <= i < |dir.subdirs| && Holds(dir.subdirs[i], f);
      SubIsCovered(dir, a, dir.subdirs[i], f);
    }
  }

  lemma TopIsCovered(dir: Directory, a: Package, f: File)
    requires WellFormed(dir) && dir.path == "." && f in dir.files && !IsArtifactName(f.name)
    ensures Covers(Generated(dir, a), f.path)
  {
    var i :| 0 <= i < |dir.files| && dir.files[i] == f;
    assert f.path == f.name;
    if IsNotice(f.name) || DetermineFileType(f.path) == Docs {
      assert IsTopDoc(f, f.path);
      TopDocsHave(dir.files, f.path);
    } else {
      SortedHas(dir.files, DetermineFileType(f.path), f);
      PathsHave(Sorted(dir.files, DetermineFileType(f.path)), f.path);
      if DetermineFileType(f.path) == Weight {
        WeightsAreModels(dir, a, dir, f);
      } else if DetermineFileType(f.path) == Config {
        ConfigsFollowTheModels(dir, a, f);
      } else if DetermineFileType(f.path) == Unknown {
        assert "." in Generated(dir, a).codes && Under(f.path, ".");
      }
    }
  }

  lemma SubIsCovered(dir: Directory, a: Package, d: Directory, f: File)
    requires WellFormed(dir) && d in dir.subdirs && Holds(d, f)
    ensures Covers(Generated(dir, a), f.path)
  {
    var k :| 0 <= k < |dir.subdirs| && dir.subdirs[k] == d;
    assert WellFormed(d);
    HeldIsUnder(d, f);
    DirsWithHave(dir.subdirs, VerdictOn(d), d.path);
    hide WellFormed;
    if VerdictOn(d) == AsModel {
      assert f in d.files;
      DirModelsHave(d, f);
      CollectedHas(dir, f);
      PathsHave(Collected(dir), f.path);
    } else if VerdictOn(d) == Unclassified && CatchesAll(dir) {
      assert "." in Generated(dir, a).codes && Under(f.path, ".");
    } else {
      assert DirListed(Generated(dir, a), d.path);
      ListedCovers(Generated(dir, a), d.path, f.path);
    }
  }

  predicate DirListed(p: Package, path: string) {
    path in p.docs || path in p.dataSets || path in p.codes
  }

  lemma ListedCovers(p: Package, d: string, path: string)
    requires DirListed(p, d) && Under(path, d)
    ensures Covers(p, path)
  {
  }
}
