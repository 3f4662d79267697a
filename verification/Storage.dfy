/** The two buckets: object keys as text, the functions that say how a bucket changes, and the
    storage services that change it in place. */
module Storage {
  import opened Basics
  import opened Bundles

  type Objects = map<string, Bytes>

  // ---------------------------------------------------------------- keys

  const PACKAGES := "archives/packages/"
  const CHAINS := "archives/chains/"

  function PackageZipKey(cid: string): string {
    PACKAGES + cid + "/" + cid + ".zip"
  }

  /** The asset name with its leading slashes removed. */
  function StripSlashes(name: string): string {
    if name != "" && name[0] == '/' then StripSlashes(name[1..]) else name
  }

  function PackageAssetKey(cid: string, name: string): string {
    PACKAGES + cid + "/" + StripSlashes(name)
  }

  function ChainKey(id: string): string {
    CHAINS + id + "/eventChain.json"
  }

  function ImmutableChainKey(id: string, digest: string): string {
    CHAINS + id + "/" + digest + ".json"
  }

  function UploadKey(digest: string): string {
    "quarantine/uploads/" + digest + ".zip"
  }

  lemma {:induction false} UploadKeyIsInjective(a: string, b: string)
    requires UploadKey(a) == UploadKey(b)
    ensures a == b
  {
    Unwrap("quarantine/uploads/", a, b, ".zip");
  }

  lemma {:induction false} ImmutableChainKeyIsInjective(id: string, digest: string, id': string, digest': string)
    requires NoSlash(id) && NoSlash(id')
    requires ImmutableChainKey(id, digest) == ImmutableChainKey(id', digest')
    ensures id == id' && digest == digest'
  {
    var a, b := id + "/" + digest, id' + "/" + digest';
    assert ImmutableChainKey(id, digest) == CHAINS + a + ".json";
    assert ImmutableChainKey(id', digest') == CHAINS + b + ".json";
    Unwrap(CHAINS, a, b, ".json");
    SplitAtSlash(id, digest, id', digest');
  }

  /** An asset key is a zip key only when it is stored under the same CID and its name is that CID's zip. */
  lemma {:induction false} AssetKeyMeetsZipKey(cid: string, name: string, other: string)
    requires NoSlash(cid) && NoSlash(other)
    requires PackageAssetKey(cid, name) == PackageZipKey(other)
    ensures cid == other && StripSlashes(name) == cid + ".zip"
  {
    var a, b := cid + "/" + StripSlashes(name), other + "/" + (other + ".zip");
    assert PackageAssetKey(cid, name) == PACKAGES + a + "";
    assert PackageZipKey(other) == PACKAGES + b + "";
    Unwrap(PACKAGES, a, b, "");
    SplitAtSlash(cid, StripSlashes(name), other, other + ".zip");
  }

  lemma {:induction false} ZipKeyIsInjective(cid: string, other: string)
    requires NoSlash(cid) && NoSlash(other)
    requires PackageZipKey(cid) == PackageZipKey(other)
    ensures cid == other
  {
    StripsToItself(cid + ".zip", cid);
    assert PackageZipKey(cid) == PackageAssetKey(cid, cid + ".zip");
    AssetKeyMeetsZipKey(cid, cid + ".zip", other);
  }

  lemma {:induction false} StripsToItself(name: string, cid: string)
    requires NoSlash(cid) && name == cid + ".zip"
    ensures StripSlashes(name) == name
  {
    assert name[0] == if cid == "" then '.' else cid[0];
  }

  lemma {:induction false} ChainsAreNotPackages(id: string, digest: string, cid: string, name: string)
    ensures ImmutableChainKey(id, digest) != PackageAssetKey(cid, name)
    ensures ImmutableChainKey(id, digest) != PackageZipKey(cid)
  {
    assert ImmutableChainKey(id, digest)[9] == 'c' && PackageAssetKey(cid, name)[9] == 'p'
      && PackageZipKey(cid)[9] == 'p';
  }

  // ---------------------------------------------------------------- how the archive changes

  /** The assets written, in the order the writes reached the bucket. */
  function PutAssets(objects: Objects, cid: string, files: Files, order: seq<string>): Objects {
    if order == [] then objects
    else
      var name := order[|order| - 1];
      var before := PutAssets(objects, cid, files, order[..|order| - 1]);
      if name in files then before[PackageAssetKey(cid, name) := files[name]] else before
  }

  function PutPackage(objects: Objects, cid: string, zip: Bytes, files: Files, order: seq<string>): Objects {
    PutAssets(objects[PackageZipKey(cid) := zip], cid, files, order)
  }

  function PutChain(objects: Objects, id: string, digest: string, chain: Bytes): Objects {
    var key := ImmutableChainKey(id, digest);
    if key in objects then objects else objects[key := chain]
  }

  function ReadEventChain(objects: Objects, id: string, legacyCid: string, storageKey: Option<string>): Option<Bytes> {
    var key := if storageKey.Some? then storageKey.value else ChainKey(id);
    if key in objects then Some(objects[key])
    else if legacyCid != "" && legacyCid != id && ChainKey(legacyCid) in objects then Some(objects[ChainKey(legacyCid)])
    else None
  }

  /** A package file that would be stored under the key of its own package's zip. */
  predicate ShadowsZip(cid: string, name: string) {
    StripSlashes(name) == cid + ".zip"
  }

  predicate KeepsZip(cid: string, files: Files) {
    forall name :: name in files ==> !ShadowsZip(cid, name)
  }

  /** Storing a package touches only package keys, and of those only its own zip and assets. */
  lemma {:induction false} AssetsTouchOnlyTheirPackage(objects: Objects, cid: string, files: Files, order: seq<string>,
          key: string)
    requires forall name :: name in files ==> PackageAssetKey(cid, name) != key
    ensures key in PutAssets(objects, cid, files, order) <==> key in objects
    ensures key in objects ==> PutAssets(objects, cid, files, order)[key] == objects[key]
  {
    if order != [] { AssetsTouchOnlyTheirPackage(objects, cid, files, order[..|order| - 1], key); }
  }

  /** However the asset writes are ordered, the zip is stored intact when no file shadows it. */
  lemma {:induction false} ZipIsStoredIntact(objects: Objects, cid: string, zip: Bytes, files: Files,
          order: seq<string>)
    requires NoSlash(cid) && KeepsZip(cid, files)
    ensures var after := PutPackage(objects, cid, zip, files, order);
      PackageZipKey(cid) in after && after[PackageZipKey(cid)] == zip
  {
    forall name | name in files ensures PackageAssetKey(cid, name) != PackageZipKey(cid) {
      if PackageAssetKey(cid, name) == PackageZipKey(cid) { AssetKeyMeetsZipKey(cid, name, cid); }
    }
    AssetsTouchOnlyTheirPackage(objects[PackageZipKey(cid) := zip], cid, files, order, PackageZipKey(cid));
  }

  /** The writes of a package complete in some order, each file once. */
  ghost predicate Completes(order: seq<string>, files: Files) {
    multiset(order) == multiset(files.Keys)
  }

  lemma {:induction false} SomeOrder(names: set<string>) returns (order: seq<string>)
    ensures multiset(order) == multiset(names)
  {
    if names == {} {
      order := [];
    } else {
      var name :| name in names;
      var rest := SomeOrder(names - {name});
      order := rest + [name];
      assert multiset(names) == multiset(names - {name}) + multiset{name};
    }
  }

  /** And only then: a file that shadows the zip and is written last replaces it. The zip therefore
      survives every order in which the writes can complete exactly when every shadowing file equals
      the zip. */
  lemma {:induction false} ZipSurvivesEveryOrder(objects: Objects, cid: string, zip: Bytes, files: Files)
    requires NoSlash(cid)
    ensures (forall order :: Completes(order, files) ==> ZipAfter(objects, cid, zip, files, order) == Some(zip)) <==>
      forall name :: name in files && ShadowsZip(cid, name) ==> files[name] == zip
  {
    if forall name :: name in files && ShadowsZip(cid, name) ==> files[name] == zip {
      forall order: seq<string> ensures ZipAfter(objects, cid, zip, files, order) == Some(zip) {
        EqualShadowsKeepZip(objects, cid, zip, files, order);
      }
    } else {
      var name :| name in files && ShadowsZip(cid, name) && files[name] != zip;
      assert PackageAssetKey(cid, name) == PackageZipKey(cid);
      var others := SomeOrder(files.Keys - {name});
      assert multiset(files.Keys) == multiset(files.Keys - {name}) + multiset{name};
      assert Completes(others + [name], files);
      assert (others + [name])[..|others|] == others;
      assert ZipAfter(objects, cid, zip, files, others + [name]) == Some(files[name]);
    }
  }

  /** What is left of a name without its leading slashes. */
  lemma {:induction false} StripsOnlyLeadingSlashes(name: string) returns (i: nat)
    ensures i <= |name| && StripSlashes(name) == name[i..] && forall k :: 0 <= k < i ==> name[k] == '/'
    ensures i < |name| ==> name[i] != '/'
  {
    if name != "" && name[0] == '/' {
      i := StripsOnlyLeadingSlashes(name[1..]);
      i := i + 1;
    } else {
      i := 0;
    }
  }

  /** No other file of the package is stored under this file's key. */
  predicate OwnKey(files: Files, name: string) {
    forall other :: other in files && StripSlashes(other) == StripSlashes(name) ==> other == name
  }

  lemma {:induction false} AssetIsStored(objects: Objects, cid: string, files: Files, order: seq<string>, name: string)
    requires name in files && name in order && OwnKey(files, name)
    ensures var key, after := "archives/packages/" + cid + "/" +
      StripSlashes(name), PutAssets(objects, cid, files, order);
      key in after && after[key] == files[name]
  {
    var n := |order| - 1;
    var key := "archives/packages/" + cid + "/" + StripSlashes(name);
    if order[n] == name {
      assert PackageAssetKey(cid, name) == key;
    } else {
      AssetIsStored(objects, cid, files, order[..n], name);
      if order[n] in files {
        assert StripSlashes(order[n]) != StripSlashes(name);
        var stripped := PackageAssetKey(cid, order[n])[|PACKAGES + cid + "/"|..];
        assert stripped == StripSlashes(order[n]) && key[|PACKAGES + cid + "/"|..] == StripSlashes(name);
      }
    }
  }

  function ZipAfter(objects: Objects, cid: string, zip: Bytes, files: Files, order: seq<string>): Option<Bytes> {
    var after := PutPackage(objects, cid, zip, files, order);
    if PackageZipKey(cid) in after then Some(after[PackageZipKey(cid)]) else None
  }

  lemma {:induction false} EqualShadowsKeepZip(objects: Objects, cid: string, zip: Bytes, files: Files,
          order: seq<string>)
    requires NoSlash(cid)
    requires forall name :: name in files && ShadowsZip(cid, name) ==> files[name] == zip
    ensures ZipAfter(objects, cid, zip, files, order) == Some(zip)
  {
    if order != [] {
      EqualShadowsKeepZip(objects, cid, zip, files, order[..|order| - 1]);
      var name := order[|order| - 1];
      if PackageAssetKey(cid, name) == PackageZipKey(cid) { AssetKeyMeetsZipKey(cid, name, cid); }
    }
  }

  // ---------------------------------------------------------------- the services

  class Bucket {
    var objects: Objects

    constructor ()
      ensures objects == map[]
    {
      objects := map[];
    }

    method Put(key: string, contents: Bytes)
      modifies this
      ensures objects == old(objects)[key := contents]
    {
      objects := objects[key := contents];
    }

    method Delete(key: string)
      modifies this
      ensures objects == old(objects) - {key}
    {
      objects := map k | k in objects && k != key :: objects[k];
    }
  }

  class QuarantineStorageService {
    const bucket: Bucket

    constructor (bucket: Bucket)
      ensures this.bucket == bucket
    {
      this.bucket := bucket;
    }

    /** An object already stored under the digest is left as it is. */
    method Store(digest: string, contents: Bytes) returns (key: string)
      modifies bucket
      ensures key == UploadKey(digest) == "quarantine/uploads/" + digest + ".zip"
      ensures key in old(bucket.objects) ==> bucket.objects == old(bucket.objects)
      ensures key !in old(bucket.objects) ==> bucket.objects == old(bucket.objects)[key := contents]
    {
      key := UploadKey(digest);
      if key !in bucket.objects {
        bucket.Put(key, contents);
      }
    }

    method Read(key: string) returns (contents: Option<Bytes>)
      ensures contents == if key in bucket.objects then Some(bucket.objects[key]) else None
    {
      contents := if key in bucket.objects then Some(bucket.objects[key]) else None;
    }

    method Remove(key: string)
      modifies bucket
      ensures bucket.objects == old(bucket.objects) - {key}
    {
      if key in bucket.objects {
        bucket.Delete(key);
      }
    }
  }

  /** The zip and each asset are stored under their keys, and no other object changes. */
  ghost predicate StoresPackage(before: Objects, after: Objects, cid: string, zip: Bytes, files: Files) {
    && (NoSlash(cid) && KeepsZip(cid, files) ==>
          var key := "archives/packages/" + cid + "/" + cid + ".zip"; key in after && after[key] == zip)
    && (forall name :: name in files && OwnKey(files, name) ==>
          var key := "archives/packages/" + cid + "/" + StripSlashes(name); key in after && after[key] == files[name])
    && (forall key :: key in before && key != PackageZipKey(cid) && !IsAssetKey(cid, files, key) ==>
          key in after && after[key] == before[key])
  }

  predicate IsAssetKey(cid: string, files: Files, key: string) {
    exists name :: name in files && PackageAssetKey(cid, name) == key
  }

  class ArchiveStorageService {
    const bucket: Bucket

    constructor (bucket: Bucket)
      ensures this.bucket == bucket
    {
      this.bucket := bucket;
    }

    /** order is the order in which the concurrent asset writes complete. */
    method StorePackageArtifacts(cid: string, zip: Bytes, files: Files, order: seq<string>)
      requires forall name :: name in order <==> name in files
      modifies bucket
      ensures bucket.objects == PutPackage(old(bucket.objects), cid, zip, files, order)
      ensures NoSlash(cid) && KeepsZip(cid, files) ==>
        PackageZipKey(cid) in bucket.objects && bucket.objects[PackageZipKey(cid)] == zip
      ensures StoresPackage(old(bucket.objects), bucket.objects, cid, zip, files)
    {
      bucket.Put(PackageZipKey(cid), zip);
      ghost var stored := bucket.objects;
      for i := 0 to |order|
        invariant bucket.objects == PutAssets(stored, cid, files, order[..i])
      {
        assert order[..i + 1][..i] == order[..i];
        bucket.Put(PackageAssetKey(cid, order[i]), files[order[i]]);
      }
      assert order[..|order|] == order;
      if NoSlash(cid) && KeepsZip(cid, files) {
        ZipIsStoredIntact(old(bucket.objects), cid, zip, files, order);
      }
      forall name | name in files && OwnKey(files, name)
        ensures var key := "archives/packages/" + cid + "/" + StripSlashes(name);
          key in bucket.objects && bucket.objects[key] == files[name]
      {
        AssetIsStored(stored, cid, files, order, name);
      }
      forall key | key in old(bucket.objects) && key != PackageZipKey(cid) && !IsAssetKey(cid, files, key)
        ensures key in bucket.objects && bucket.objects[key] == old(bucket.objects)[key]
      {
        AssetsTouchOnlyTheirPackage(stored, cid, files, order, key);
      }
    }

    method StoreImmutableEventChain(id: string, digest: string, chain: Bytes) returns (key: string)
      modifies bucket
      ensures key == ImmutableChainKey(id, digest) == "archives/chains/" + id + "/" + digest + ".json"
      ensures bucket.objects == PutChain(old(bucket.objects), id, digest, chain)
      ensures bucket.objects == if key in old(bucket.objects) then old(bucket.objects)
        else old(bucket.objects)[key := chain]
      ensures key in bucket.objects
    {
      key := ImmutableChainKey(id, digest);
      if key !in bucket.objects {
        bucket.Put(key, chain);
      }
    }

    method GetPackageZip(cid: string) returns (zip: Option<Bytes>)
      ensures zip == if PackageZipKey(cid) in bucket.objects then Some(bucket.objects[PackageZipKey(cid)]) else None
    {
      zip := if PackageZipKey(cid) in bucket.objects then Some(bucket.objects[PackageZipKey(cid)]) else None;
    }

    method GetEventChain(id: string, legacyCid: string, storageKey: Option<string>) returns (chain: Option<Bytes>)
      ensures chain == ReadEventChain(bucket.objects, id, legacyCid, storageKey)
      ensures var key := if storageKey.Some? then storageKey.value else "archives/chains/" + id + "/eventChain.json";
        var legacy := "archives/chains/" + legacyCid + "/eventChain.json";
        && (key in bucket.objects ==> chain == Some(bucket.objects[key]))
        && (key !in bucket.objects && legacyCid != "" && legacyCid != id && legacy in bucket.objects ==>
              chain == Some(bucket.objects[legacy]))
        && (chain.Some? ==> key in bucket.objects || (legacyCid != "" && legacyCid != id && legacy in bucket.objects))
    {
      var key := if storageKey.Some? then storageKey.value else ChainKey(id);
      if key in bucket.objects {
        return Some(bucket.objects[key]);
      }
      if legacyCid == "" || legacyCid == id || ChainKey(legacyCid) !in bucket.objects {
        return None;
      }
      chain := Some(bucket.objects[ChainKey(legacyCid)]);
    }
  }
}
