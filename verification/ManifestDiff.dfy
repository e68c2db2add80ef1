/** Comparing two manifests (cmd/diff/util.go). */
module ManifestDiff {
  import opened Basics
  import opened Oci

  datatype DiffResult = DiffResult(sameConfig: bool, annotationsMatch: bool, shared: seq<Descriptor>,
                                   uniqueA: seq<Descriptor>, uniqueB: seq<Descriptor>)

  // ----- sorting by media type

  predicate LexLe(a: string, b: string) {
    a == [] || (b != [] && (a[0] < b[0] || (a[0] == b[0] && LexLe(a[1..], b[1..]))))
  }

  lemma {:induction false} LexTotal(a: string, b: string)
    ensures LexLe(a, b) || LexLe(b, a)
  {
    if a != [] && b != [] && a[0] == b[0] {
      LexTotal(a[1..], b[1..]);
    }
  }

  lemma {:induction false} LexTransitive(a: string, b: string, c: string)
    requires LexLe(a, b) && LexLe(b, c)
    ensures LexLe(a, c)
  {
    if a != [] && a[0] == b[0] && b[0] == c[0] {
      LexTransitive(a[1..], b[1..], c[1..]);
    }
  }

  /** The strings first differ at `k`, and there `a` has the smaller character. */
  predicate SmallerAt(a: string, b: string, k: nat) {
    k < |a| && k < |b| && a[..k] == b[..k] && a[k] < b[k]
  }

  lemma SmallerLater(a: string, b: string, k: nat)
    requires a != [] && b != [] && a[0] == b[0]
    ensures SmallerAt(a, b, k + 1) <==> SmallerAt(a[1..], b[1..], k)
    ensures !SmallerAt(a, b, 0)
  {
    if k < |a| - 1 && k < |b| - 1 {
      assert a[..k + 1] == [a[0]] + a[1..][..k] && b[..k + 1] == [b[0]] + b[1..][..k];
      assert a[1..][..k] == a[..k + 1][1..] && b[1..][..k] == b[..k + 1][1..];
    }
  }

  lemma SmallerFirst(a: string, b: string, k: nat)
    requires a != [] && b != [] && a[0] != b[0]
    ensures SmallerAt(a, b, k) <==> k == 0 && a[0] < b[0]
  {
    if 0 < k <= |a| && k <= |b| {
      assert a[..k][0] == a[0] && b[..k][0] == b[0];
    }
    assert a[..0] == b[..0];
  }

  /** The order of strings: the shorter of two that agree as far as it goes comes first, and otherwise the one with the
      smaller character where they first differ. */
  lemma {:induction false} LexExactly(a: string, b: string)
    ensures LexLe(a, b) <==> a <= b || exists k: nat :: SmallerAt(a, b, k)
  {
    if a != [] && b != [] {
      LexExactly(a[1..], b[1..]);
      if a[0] != b[0] {
        SmallerFirst(a, b, 0);
        forall k: nat ensures SmallerAt(a, b, k) <==> k == 0 && a[0] < b[0] {
          SmallerFirst(a, b, k);
        }
      } else {
        assert a <= b <==> a[1..] <= b[1..];
        hide SmallerAt;
        if k: nat :| SmallerAt(a[1..], b[1..], k) {
          SmallerLater(a, b, k);
        }
        if k: nat :| SmallerAt(a, b, k) {
          SmallerLater(a, b, if k > 0 then k - 1 else 0);
        }
      }
    }
  }

  ghost predicate ByMediaType(s: seq<Descriptor>) {
    forall i, j :: 0 <= i < j < |s| ==> LexLe(s[i].mediaType, s[j].mediaType)
  }

  function Insert(d: Descriptor, s: seq<Descriptor>): (r: seq<Descriptor>)
    requires ByMediaType(s)
    ensures ByMediaType(r) && multiset(r) == multiset{d} + multiset(s)
  {
    if s == [] then [d]
    else if LexLe(d.mediaType, s[0].mediaType) then
      assert forall i :: 0 <= i < |s| ==> LexLe(d.mediaType, s[i].mediaType) by {
        forall i | 0 < i < |s| ensures LexLe(d.mediaType, s[i].mediaType) {
          LexTransitive(d.mediaType, s[0].mediaType, s[i].mediaType);
        }
      }
      [d] + s
    else
      var rest := Insert(d, s[1..]);
      LexTotal(d.mediaType, s[0].mediaType);
      InsertBehind(d, s[0], s[1..], rest);
      assert s == [s[0]] + s[1..];
      [s[0]] + rest
  }

  lemma InsertBehind(d: Descriptor, first: Descriptor, tail: seq<Descriptor>, rest: seq<Descriptor>)
    requires ByMediaType([first] + tail) && LexLe(first.mediaType, d.mediaType)
    requires ByMediaType(rest) && multiset(rest) == multiset{d} + multiset(tail)
    ensures ByMediaType([first] + rest) && multiset([first] + rest) == multiset{d} + multiset([first] + tail)
  {
    hide LexLe;
    forall j | 0 <= j < |rest| ensures LexLe(first.mediaType, rest[j].mediaType) {
      assert rest[j] in multiset(rest);
      if rest[j] != d {
        var k :| 0 <= k < |tail| && tail[k] == rest[j];
        assert ([first] + tail)[0] == first && ([first] + tail)[k + 1] == rest[j];
      }
    }
  }

  /** sort.Slice: some permutation in media-type order. */
  function SortByMediaType(s: seq<Descriptor>): (r: seq<Descriptor>)
    ensures ByMediaType(r) && multiset(r) == multiset(s)
  {
    if s == [] then []
    else
      assert s == s[..|s| - 1] + [s[|s| - 1]];
      Insert(s[|s| - 1], SortByMediaType(s[..|s| - 1]))
  }

  // ----- what the three lists hold

  /** The two lists the loop over B builds: a layer is shared the first time its digest is met in A. */
  function Split(keys: set<string>, layers: seq<Descriptor>): (seq<Descriptor>, seq<Descriptor>) {
    if layers == [] then ([], [])
    else
      var front, last := layers[..|layers| - 1], layers[|layers| - 1];
      var (shared, unique) := Split(keys, front);
      if last.digest in keys && last.digest !in KeysOf(front) then (shared + [last], unique)
      else (shared, unique + [last])
  }

  /** The last layer of A with a digest. */
  function LastWith(layers: seq<Descriptor>, d: string): Option<Descriptor> {
    if layers == [] then None
    else if layers[|layers| - 1].digest == d then Some(layers[|layers| - 1])
    else LastWith(layers[..|layers| - 1], d)
  }

  lemma {:induction false} LastWithHas(layers: seq<Descriptor>, d: string)
    ensures LastWith(layers, d).Some? <==> d in KeysOf(layers)
    ensures LastWith(layers, d).Some? ==> LastWith(layers, d).value in layers && LastWith(layers, d).value.digest == d
  {
    if layers != [] {
      LastWithHas(layers[..|layers| - 1], d);
      assert layers == layers[..|layers| - 1] + [layers[|layers| - 1]];
    }
  }

  /** The loop over B partitions it: nothing is lost or made up ... */
  lemma {:induction false} SplitKeepsAll(keys: set<string>, layers: seq<Descriptor>)
    ensures multiset(Split(keys, layers).0) + multiset(Split(keys, layers).1) == multiset(layers)
  {
    if layers != [] {
      var front, last := layers[..|layers| - 1], layers[|layers| - 1];
      SplitKeepsAll(keys, front);
      assert layers == front + [last];
      assert multiset(layers) == multiset(front) + multiset{last};
    }
  }

  lemma CountAppend(d: string, layers: seq<Descriptor>, last: Descriptor)
    ensures CountOf(d, layers + [last]) == CountOf(d, layers) + if last.digest == d then 1 else 0
  {
    assert (layers + [last])[..|layers|] == layers;
  }

  /** ... and every digest of both manifests is shared exactly once, its repetitions in B counting as unique. */
  lemma {:induction false} SplitPartitions(keys: set<string>, layers: seq<Descriptor>, d: string)
    ensures CountOf(d, Split(keys, layers).0) == (if d in keys && d in KeysOf(layers) then 1 else 0)
    ensures CountOf(d, Split(keys, layers).1) == CountOf(d, layers) - CountOf(d, Split(keys, layers).0)
  {
    if layers != [] {
      var front, last := layers[..|layers| - 1], layers[|layers| - 1];
      var (shared, unique) := Split(keys, front);
      assert Split(keys, layers) ==
             if last.digest in keys && last.digest !in KeysOf(front) then (shared + [last], unique)
             else (shared, unique + [last]);
      assert CountOf(d, layers) == CountOf(d, front) + if last.digest == d then 1 else 0;
      assert layers == front + [last];
      KeysAppend(front, last);
      SplitPartitions(keys, front, d);
      CountAppend(d, shared, last);
      CountAppend(d, unique, last);
      hide KeysOf, Split, CountOf;
    }
  }

  lemma KeysAppend(layers: seq<Descriptor>, last: Descriptor)
    ensures KeysOf(layers + [last]) == KeysOf(layers) + {last.digest}
  {
  }

  /** The digests of A, each with its last layer. */
  method MapLayers(layers: seq<Descriptor>) returns (m: map<string, Descriptor>)
    ensures m.Keys == KeysOf(layers)
    ensures forall d :: d in m ==> m[d].digest == d && LastWith(layers, d) == Some(m[d])
  {
    m := map[];
    for i := 0 to |layers|
      invariant m.Keys == KeysOf(layers[..i])
      invariant forall d :: d in m ==> m[d].digest == d && LastWith(layers[..i], d) == Some(m[d])
    {
      assert layers[..i + 1][..i] == layers[..i] && layers[..i + 1] == layers[..i] + [layers[i]];
      KeysAppend(layers[..i], layers[i]);
      m := m[layers[i].digest := layers[i]];
    }
    assert layers[..|layers|] == layers;
  }

  /** The loop over B, taking a digest out of the map when it is met. */
  method SplitLayers(m: map<string, Descriptor>, layers: seq<Descriptor>)
    returns (shared: seq<Descriptor>, unique: seq<Descriptor>, rest: map<string, Descriptor>)
    ensures (shared, unique) == Split(m.Keys, layers)
    ensures rest == m - KeysOf(layers)
  {
    shared, unique, rest := [], [], m;
    for i := 0 to |layers|
      invariant (shared, unique) == Split(m.Keys, layers[..i])
      invariant rest == m - KeysOf(layers[..i])
    {
      var layer := layers[i];
      assert layers[..i + 1][..i] == layers[..i] && layers[..i + 1] == layers[..i] + [layer];
      KeysAppend(layers[..i], layer);
      if layer.digest in rest {
        shared := shared + [layer];
        rest := rest - {layer.digest};
      } else {
        unique := unique + [layer];
      }
    }
    assert layers[..|layers|] == layers;
  }

  /** The layers unique to A: of every digest that B lacks, A's last layer, once. */
  ghost predicate LastOfEach(a: seq<Descriptor>, b: seq<Descriptor>, unique: seq<Descriptor>) {
    forall l: Descriptor ::
      multiset(unique)[l] == if l.digest !in KeysOf(b) && LastWith(a, l.digest) == Some(l) then 1 else 0
  }

  /** What a comparison says, each list up to the order of layers with one media type. */
  ghost predicate IsDiff(a: Manifest, b: Manifest, r: DiffResult) {
    && (r.sameConfig <==> a.config.digest == b.config.digest)
    && (r.annotationsMatch <==> a.annotations == b.annotations)
    && multiset(r.shared) == multiset(Split(KeysOf(a.layers), b.layers).0)
    && multiset(r.uniqueB) == multiset(Split(KeysOf(a.layers), b.layers).1)
    && LastOfEach(a.layers, b.layers, r.uniqueA)
    && ByMediaType(r.shared) && ByMediaType(r.uniqueA) && ByMediaType(r.uniqueB)
  }

  method CompareManifests(a: Manifest, b: Manifest) returns (r: DiffResult)
    ensures IsDiff(a, b, r)
  {
    var annotationsMatch := CompareAnnotations(a.annotations, b.annotations);
    var layerMapA := MapLayers(a.layers);
    var shared, uniqueB, rest := SplitLayers(layerMapA, b.layers);
    var uniqueA := Collect(rest);
    forall l: Descriptor
      ensures multiset(uniqueA)[l] ==
              if l.digest !in KeysOf(b.layers) && LastWith(a.layers, l.digest) == Some(l) then 1 else 0
    {
      LastWithHas(a.layers, l.digest);
    }
    r := DiffResult(a.config.digest == b.config.digest, annotationsMatch,
                    SortByMediaType(shared), SortByMediaType(uniqueA), SortByMediaType(uniqueB));
  }

  /** Same size, then every entry of A looked up in B; the counter only has to reach zero. */
  method CompareAnnotations(a: map<string, string>, b: map<string, string>) returns (same: bool)
    ensures same <==> a == b
  {
    var numAnnotations: int := |a|;
    if numAnnotations != |b| {
      return false;
    }
    same := true;
    var left := a.Keys;
    while left != {}
      invariant left <= a.Keys && numAnnotations == |left|
      invariant same && forall k :: k in a && k !in left ==> k in b && b[k] == a[k]
      decreases left
    {
      var k :| k in left;
      if k !in b || b[k] != a[k] {
        same := false;
        break;
      }
      numAnnotations := numAnnotations - 1;
      left := left - {k};
    }
    if numAnnotations != 0 {
      same := false;
    }
    if same {
      SubmapOfSameSize(a, b);
    }
  }

  lemma SubmapOfSameSize(a: map<string, string>, b: map<string, string>)
    requires |a| == |b| && forall k :: k in a ==> k in b && b[k] == a[k]
    ensures a == b
  {
    if exists k :: k in b && k !in a {
      var k :| k in b && k !in a;
      SubsetSize(a.Keys, b.Keys - {k});
    }
  }

  lemma {:induction false} SubsetSize(x: set<string>, y: set<string>)
    requires x <= y
    ensures |x| <= |y|
  {
    if x != {} {
      var e :| e in x;
      SubsetSize(x - {e}, y - {e});
    }
  }

  /** Ranging over a map: its values, each key once, in some order. */
  method Collect(m: map<string, Descriptor>) returns (s: seq<Descriptor>)
    requires forall d :: d in m ==> m[d].digest == d
    ensures forall l: Descriptor :: multiset(s)[l] == if l.digest in m && m[l.digest] == l then 1 else 0
  {
    s := [];
    var left := m.Keys;
    while left != {}
      invariant left <= m.Keys
      invariant forall l: Descriptor ::
                  multiset(s)[l] == if l.digest in m && l.digest !in left && m[l.digest] == l then 1 else 0
      decreases left
    {
      var d :| d in left;
      s := s + [m[d]];
      left := left - {d};
    }
  }

  /** "Unique to B" means absent from A exactly when B repeats no digest it shares with A. */
  lemma UniqueBExactly(a: seq<Descriptor>, b: seq<Descriptor>)
    ensures (forall d :: d in KeysOf(Split(KeysOf(a), b).1) ==> d !in KeysOf(a)) <==>
              (forall d :: d in KeysOf(a) ==> CountOf(d, b) <= 1)
  {
    var unique := Split(KeysOf(a), b).1;
    forall d ensures d in KeysOf(unique) && d in KeysOf(a) <==> d in KeysOf(a) && CountOf(d, b) > 1 {
      SplitPartitions(KeysOf(a), b, d);
      CountPositive(d, unique);
      CountPositive(d, b);
    }
  }

  lemma SameKeys(a: seq<Descriptor>, b: seq<Descriptor>)
    requires multiset(a) == multiset(b)
    ensures KeysOf(a) == KeysOf(b)
  {
    forall l ensures l in a <==> l in b {
      assert l in a <==> l in multiset(a);
      assert l in b <==> l in multiset(b);
    }
  }

  lemma UniqueAKeys(a: seq<Descriptor>, b: seq<Descriptor>, unique: seq<Descriptor>)
    requires LastOfEach(a, b, unique)
    ensures KeysOf(unique) == KeysOf(a) - KeysOf(b)
  {
    forall d ensures d in KeysOf(unique) <==> d in KeysOf(a) && d !in KeysOf(b) {
      LastWithHas(a, d);
      if d in KeysOf(unique) {
        var l :| l in unique && l.digest == d;
        assert multiset(unique)[l] > 0;
      }
      if d in KeysOf(a) && d !in KeysOf(b) {
        var l := LastWith(a, d).value;
        assert multiset(unique)[l] == 1;
        assert l in unique;
      }
    }
  }

  lemma SplitKeys(keys: set<string>, layers: seq<Descriptor>, d: string)
    ensures d in KeysOf(Split(keys, layers).0) <==> d in keys && d in KeysOf(layers)
    ensures d in KeysOf(Split(keys, layers).1) <==> d in KeysOf(layers) && (d !in keys || CountOf(d, layers) > 1)
  {
    SplitPartitions(keys, layers, d);
    CountPositive(d, Split(keys, layers).0);
    CountPositive(d, Split(keys, layers).1);
    CountPositive(d, layers);
  }

  /** Comparing the other way round: the same digests are shared, and what is unique to a manifest as the first is
      unique to it as the second exactly when it repeats no digest it shares. */
  lemma SwapExactly(a: Manifest, b: Manifest, r: DiffResult, t: DiffResult)
    requires IsDiff(a, b, r) && IsDiff(b, a, t)
    ensures r.sameConfig == t.sameConfig && r.annotationsMatch == t.annotationsMatch
    ensures KeysOf(r.shared) == KeysOf(t.shared)
    ensures KeysOf(r.uniqueA) == KeysOf(t.uniqueB) <==>
              (forall d :: d in KeysOf(b.layers) ==> CountOf(d, a.layers) <= 1)
    ensures KeysOf(r.uniqueB) == KeysOf(t.uniqueA) <==>
              (forall d :: d in KeysOf(a.layers) ==> CountOf(d, b.layers) <= 1)
  {
    SharedSwap(a, b, r, t);
    UniqueSwap(a, b, r, t);
    UniqueSwap(b, a, t, r);
  }

  lemma SharedSwap(a: Manifest, b: Manifest, r: DiffResult, t: DiffResult)
    requires IsDiff(a, b, r) && IsDiff(b, a, t)
    ensures KeysOf(r.shared) == KeysOf(t.shared)
  {
    SameKeys(r.shared, Split(KeysOf(a.layers), b.layers).0);
    SameKeys(t.shared, Split(KeysOf(b.layers), a.layers).0);
    forall d ensures d in KeysOf(r.shared) <==> d in KeysOf(t.shared) {
      SplitKeys(KeysOf(a.layers), b.layers, d);
      SplitKeys(KeysOf(b.layers), a.layers, d);
    }
  }

  lemma UniqueSwap(a: Manifest, b: Manifest, r: DiffResult, t: DiffResult)
    requires IsDiff(a, b, r) && IsDiff(b, a, t)
    ensures KeysOf(r.uniqueA) == KeysOf(t.uniqueB) <==>
              (forall d :: d in KeysOf(b.layers) ==> CountOf(d, a.layers) <= 1)
  {
    var left, right := KeysOf(r.uniqueA), KeysOf(t.uniqueB);
    SameKeys(t.uniqueB, Split(KeysOf(b.layers), a.layers).1);
    UniqueAKeys(a.layers, b.layers, r.uniqueA);
    hide IsDiff, LastOfEach, Split;
    forall d
      ensures d in right <==> d in KeysOf(a.layers) && (d !in KeysOf(b.layers) || CountOf(d, a.layers) > 1)
      ensures CountOf(d, a.layers) > 0 <==> d in KeysOf(a.layers)
    {
      SplitKeys(KeysOf(b.layers), a.layers, d);
      CountPositive(d, a.layers);
    }
    hide CountOf, KeysOf;
    if left == right {
      forall d | d in KeysOf(b.layers) ensures CountOf(d, a.layers) <= 1 {
        assert d in right <==> d in left;
      }
    } else {
      var d :| (d in left) != (d in right);
      assert d in KeysOf(b.layers) && CountOf(d, a.layers) > 1;
    }
  }
}
