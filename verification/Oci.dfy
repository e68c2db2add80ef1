/** The OCI records the store keeps: descriptors, manifests and the key-value blobs
    (pkg/layerdb/layerdb.go, pkg/layerdb/layout.go). */
module Oci {
  import opened Basics

  const REF_NAME := "org.opencontainers.image.ref.name"
  const DELETED := "org.opencontainers.image.deleted"
  const SNAPSHOT_REF := "org.opencontainers.image.snapshot.ref.name"

  /** A descriptor. Its digest stands for the blob key derived from it. */
  datatype Descriptor = Descriptor(digest: string, mediaType: string, size: nat, annotations: map<string, string>)
  {
    function Ref(): Option<string> {
      if REF_NAME in annotations then Some(annotations[REF_NAME]) else None
    }
  }

  datatype Manifest = Manifest(config: Descriptor, layers: seq<Descriptor>, annotations: map<string, string>)

  /** A value of the key-value store: bytes that parse as a manifest, or bytes that do not. */
  datatype Blob = ManifestBlob(manifest: Manifest) | OtherBlob(bytes: Bytes)

  type KV = map<string, Blob>

  predicate Resolves(kv: KV, d: Descriptor) {
    d.digest in kv && kv[d.digest].ManifestBlob?
  }

  function KeysOf(ds: seq<Descriptor>): set<string> {
    set d | d in ds :: d.digest
  }

  /** How many of the descriptors carry a digest. */
  function CountOf(key: string, ds: seq<Descriptor>): nat {
    if ds == [] then 0 else CountOf(key, ds[..|ds| - 1]) + if ds[|ds| - 1].digest == key then 1 else 0
  }

  lemma {:induction false} CountPositive(key: string, ds: seq<Descriptor>)
    ensures CountOf(key, ds) > 0 <==> key in KeysOf(ds)
  {
    if ds != [] {
      CountPositive(key, ds[..|ds| - 1]);
      assert ds == ds[..|ds| - 1] + [ds[|ds| - 1]];
    }
  }
}
