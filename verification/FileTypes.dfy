/** What the suffix tables say about a file name (internal/spec/gen.go): no name has suffixes of two kinds, so the order
    in which the tables are tried does not matter. */
module FileTypes {
  import opened Basics
  import opened Gen

  /** A suffix that begins with a dot and has no other. */
  predicate Dotted(s: string) {
    |s| >= 2 && s[0] == '.' && '.' !in s[1..]
  }

  /** A dotted suffix begins at the last dot of the name. */
  lemma AtLastDot(name: string, a: string)
    requires Dotted(a) && HasSuffix(name, a)
    ensures var p := |name| - |a|;
            name[p] == '.' && (forall k :: p < k < |name| ==> name[k] != '.') && name[p..] == a
  {
    var p := |name| - |a|;
    forall k | p < k < |name| ensures name[k] != '.' {
      assert name[k] == a[1..][k - p - 1];
    }
  }

  /** So a name has at most one. */
  lemma OneDotted(name: string, a: string, b: string)
    requires Dotted(a) && Dotted(b) && HasSuffix(name, a) && HasSuffix(name, b)
    ensures a == b
  {
    AtLastDot(name, a);
    AtLastDot(name, b);
  }

  const PARAMS := "params"

  /** A name that ends in "params" has a dotted suffix only if that does too. */
  lemma NotParams(name: string, a: string)
    requires Dotted(a) && HasSuffix(name, a) && HasSuffix(name, PARAMS)
    ensures HasSuffix(a, PARAMS)
  {
    AtLastDot(name, a);
    var p := |name| - |PARAMS|;
    assert forall k :: p <= k < |name| ==> name[k] == PARAMS[k - p];
    assert '.' !in PARAMS;
    assert |a| > |PARAMS|;
    assert a[|a| - |PARAMS|..] == name[p..];
  }

  lemma AnyJoined(name: string, a: seq<string>, b: seq<string>)
    ensures AnySuffix(name, a + b) <==> AnySuffix(name, a) || AnySuffix(name, b)
  {
    if AnySuffix(name, a) {
      var i :| 0 <= i < |a| && HasSuffix(name, a[i]);
      assert (a + b)[i] == a[i];
    }
    if AnySuffix(name, b) {
      var i :| 0 <= i < |b| && HasSuffix(name, b[i]);
      assert (a + b)[|a| + i] == b[i];
    }
  }

  const DOTTED_CONFIGS := [".json", ".yaml", ".xml", ".txt"]

  lemma ConfigsAre(name: string)
    ensures AnySuffix(name, CONFIGS) <==> AnySuffix(name, DOTTED_CONFIGS) || HasSuffix(name, PARAMS)
  {
    AnyJoined(name, DOTTED_CONFIGS, [PARAMS]);
    assert CONFIGS == DOTTED_CONFIGS + [PARAMS];
    assert AnySuffix(name, [PARAMS]) <==> HasSuffix(name, PARAMS) by {
      assert [PARAMS][0] == PARAMS;
    }
  }

  // ----- the tables themselves

  /** A dotted suffix that does not end in "params". */
  predicate Plain(s: string) {
    Dotted(s) && !HasSuffix(s, PARAMS)
  }

  ghost predicate AllPlain(t: seq<string>) {
    forall i :: 0 <= i < |t| ==> Plain(t[i])
  }

  /** Two tables without a suffix in common. */
  predicate Apart(a: seq<string>, b: seq<string>) {
    forall i, j :: 0 <= i < |a| && 0 <= j < |b| ==> a[i] != b[j]
  }

  lemma ApartFlips(a: seq<string>, b: seq<string>)
    requires Apart(a, b)
    ensures Apart(b, a)
  {
  }

  lemma NoTwoPlain(name: string, a: seq<string>, b: seq<string>)
    requires AllPlain(a) && AllPlain(b) && Apart(a, b)
    ensures !(AnySuffix(name, a) && AnySuffix(name, b))
  {
    if AnySuffix(name, a) && AnySuffix(name, b) {
      var i :| 0 <= i < |a| && HasSuffix(name, a[i]);
      var j :| 0 <= j < |b| && HasSuffix(name, b[j]);
      OneDotted(name, a[i], b[j]);
    }
  }

  lemma SmallTablesArePlain()
    ensures AllPlain(DOCS) && AllPlain(DATASETS) && AllPlain(DOTTED_CONFIGS)
  {
  }

  /** A dotted suffix with another last character than "params" is plain. */
  lemma PlainByEnd(s: string)
    requires Dotted(s) && s[|s| - 1] != 's'
    ensures Plain(s)
  {
    assert |s| >= |PARAMS| ==> s[|s| - |PARAMS|..][|PARAMS| - 1] == s[|s| - 1];
    assert PARAMS[|PARAMS| - 1] == 's';
  }

  lemma LongWeights()
    ensures Plain(".safetensors") && Plain(".tfrecords") && Plain(".keras")
  {
  }

  lemma MiddleWeights()
    ensures Dotted(".caffemodel") && Dotted(".llamafile") && Dotted(".joblib") && Dotted(".tflite") && Dotted(".coreml")
  {
  }

  lemma WeightsArePlain()
    ensures AllPlain(WEIGHTS)
  {
    LongWeights();
    MiddleWeights();
    forall i | 0 <= i < |WEIGHTS| ensures Plain(WEIGHTS[i]) {
      var s := WEIGHTS[i];
      if s != ".safetensors" && s != ".tfrecords" && s != ".keras" {
        PlainByEnd(s);
      }
    }
  }

  lemma TablesAreApart()
    ensures Apart(WEIGHTS, DOCS) && Apart(WEIGHTS, DATASETS) && Apart(WEIGHTS, DOTTED_CONFIGS)
    ensures Apart(DOCS, DATASETS) && Apart(DOTTED_CONFIGS, DOCS) && Apart(DOTTED_CONFIGS, DATASETS)
  {
  }

  // ----- the type of a name

  lemma ConfigOrOther(name: string, t: seq<string>)
    requires AllPlain(t) && Apart(DOTTED_CONFIGS, t) && AllPlain(DOTTED_CONFIGS)
    ensures !(AnySuffix(name, CONFIGS) && AnySuffix(name, t))
  {
    ConfigsAre(name);
    NoTwoPlain(name, DOTTED_CONFIGS, t);
    if AnySuffix(name, t) && HasSuffix(name, PARAMS) {
      var i :| 0 <= i < |t| && HasSuffix(name, t[i]);
      NotParams(name, t[i]);
      assert false;
    }
  }

  function TableOf(t: FileType): seq<string> {
    match t
    case Weight => WEIGHTS
    case Config => CONFIGS
    case Docs => DOCS
    case Dataset => DATASETS
    case _ => []
  }

  /** The type of a name is the kind its suffix is listed under, whichever table is tried first: the tables never
      disagree. A name with no listed suffix is of unknown type, and none is taken for code. */
  lemma TypeExactly(name: string, t: FileType)
    ensures t == Weight || t == Config || t == Docs || t == Dataset ==>
              (DetermineFileType(name) == t <==> AnySuffix(name, TableOf(t)))
    ensures DetermineFileType(name) == Unknown <==>
              && !AnySuffix(name, WEIGHTS) && !AnySuffix(name, CONFIGS)
              && !AnySuffix(name, DOCS) && !AnySuffix(name, DATASETS)
    ensures DetermineFileType(name) != Code
  {
    WeightsArePlain();
    SmallTablesArePlain();
    TablesAreApart();
    ApartFlips(WEIGHTS, DOTTED_CONFIGS);
    hide Plain, AnySuffix, Apart;
    NoTwoPlain(name, WEIGHTS, DOCS);
    NoTwoPlain(name, WEIGHTS, DATASETS);
    NoTwoPlain(name, DOCS, DATASETS);
    ConfigOrOther(name, WEIGHTS);
    ConfigOrOther(name, DOCS);
    ConfigOrOther(name, DATASETS);
    hide AllPlain;
  }

  // ----- sub-directories by what is in them

  /** At least one file of this type, no sub-directory, and no file of another type but configs. */
  ghost predicate HoldsOnly(d: Directory, t: FileType) {
    && d.subdirs == [] && (exists f :: f in d.files && DetermineFileType(f.name) == t)
    && forall f :: f in d.files ==> DetermineFileType(f.name) == t || DetermineFileType(f.name) == Config
  }

  lemma OnlyIsHoldsOnly(d: Directory, t: FileType)
    ensures Only(d, t) <==> HoldsOnly(d, t)
  {
    hide DetermineFileType;
    if f :| f in d.files && DetermineFileType(f.name) == t {
      var i :| 0 <= i < |d.files| && d.files[i] == f;
    }
    if i :| 0 <= i < |d.files| && DetermineFileType(d.files[i].name) == t {
      assert d.files[i] in d.files;
    }
    if Only(d, t) {
      forall f | f in d.files ensures DetermineFileType(f.name) == t || DetermineFileType(f.name) == Config {
        var i :| 0 <= i < |d.files| && d.files[i] == f;
      }
    }
  }

  /** A directory of nothing but datasets joins the datasets, one of nothing but documents the documents, and one of
      nothing but weights hands on every file as a model; docs and the code directories go by their names, and any other
      directory to the codes. */
  lemma DirsByContents(dir: Directory, a: Package, d: Directory)
    requires d in dir.subdirs
    ensures d.name == "docs" ==> d.path in Generated(dir, a).docs
    ensures IsCodeName(d.name) ==> d.path in Generated(dir, a).codes
    ensures !Special(d) && HoldsOnly(d, Dataset) ==> d.path in Generated(dir, a).dataSets
    ensures !Special(d) && HoldsOnly(d, Docs) ==> d.path in Generated(dir, a).docs
    ensures !Special(d) && HoldsOnly(d, Weight) ==> forall f :: f in d.files ==> f.path in Generated(dir, a).models
    ensures !Special(d) && !HoldsOnly(d, Weight) && !HoldsOnly(d, Dataset) && !HoldsOnly(d, Docs) ==>
              d.path in Generated(dir, a).codes || "." in Generated(dir, a).codes
  {
    OnlyIsHoldsOnly(d, Dataset);
    OnlyIsHoldsOnly(d, Docs);
    OnlyIsHoldsOnly(d, Weight);
    DirsWithHave(dir.subdirs, VerdictOn(d), d.path);
    hide DetermineFileType, HoldsOnly;
    if !Special(d) && Only(d, Weight) {
      forall f | f in d.files ensures f.path in Generated(dir, a).models {
        DirModelsHave(d, f);
        CollectedHas(dir, f);
        PathsHave(Collected(dir), f.path);
      }
    }
    TypesDiffer(d);
  }

  lemma TypesDiffer(d: Directory)
    ensures !(Only(d, Weight) && Only(d, Dataset)) && !(Only(d, Weight) && Only(d, Docs))
    ensures !(Only(d, Dataset) && Only(d, Docs))
  {
    hide DetermineFileType;
  }
}
