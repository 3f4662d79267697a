/** Reading an uploaded archive: choosing its chain file, normalising it, and identifying it; and
    putting a stored Ownable back together for download.

    Hashing, CID calculation, zip coding, chain parsing and WASM inspection are the fields of an
    Environment. Every theorem holds for all environments, with the laws it needs stated. */
module Bundles {
  import opened Basics

  const CANONICAL_CHAIN := "chain.json"
  const LEGACY_CHAIN := "eventChain.json"
  const RUNTIME := "ownable_bg.wasm"
  const MAX_UPLOAD_BYTES := 268435456

  datatype Entry = Entry(name: string, isFolder: bool, content: Bytes)

  /** A parsed chain; each event is its JSON text, which is how the Hub compares events. */
  datatype Chain = Chain(id: string, events: seq<string>)

  datatype Environment = Environment(
    maxExpandedBytes: nat,
    sha256: Bytes -> string,
    /** keccak256 of the identifier's bytes; None when it is not hexadecimal data. */
    subjectOf: string -> Option<string>,
    cidOf: Files -> string,
    unzip: Bytes -> Option<seq<Entry>>,
    /** The archive loaded from the given bytes, edited to hold exactly the given files. */
    repack: (Bytes, Files) -> Bytes,
    parseChain: Bytes -> Option<Chain>,
    signed: string -> bool,
    signerOf: string -> string,
    supportsRuntime: Bytes -> bool)

  datatype ChainFile = ChainFile(buffer: Bytes, aliases: set<string>)

  datatype Prepared = Prepared(
    ownableId: string,
    subjectId: string,
    cid: string,
    uploadDigest: string,
    eventChainDigest: string,
    eventChainBuffer: Bytes,
    packageContent: Bytes,
    packageFiles: Files,
    previousOwnerAddress: string,
    expandedBytes: nat)

  // ---------------------------------------------------------------- reading an archive

  function FilesOf(entries: seq<Entry>): Files {
    if entries == [] then map[]
    else
      var e := entries[|entries| - 1];
      var init := FilesOf(entries[..|entries| - 1]);
      if e.isFolder then init else init[e.name := e.content]
  }

  function ExpandedSize(entries: seq<Entry>): nat {
    if entries == [] then 0
    else
      var e := entries[|entries| - 1];
      ExpandedSize(entries[..|entries| - 1]) + if e.isFolder then 0 else |e.content|
  }

  lemma {:induction false} ExpandedSizeGrows(entries: seq<Entry>, k: nat)
    requires k <= |entries|
    ensures ExpandedSize(entries[..k]) <= ExpandedSize(entries)
  {
    if k == |entries| {
      assert entries[..k] == entries;
    } else {
      var init := entries[..|entries| - 1];
      assert init[..k] == entries[..k];
      ExpandedSizeGrows(init, k);
    }
  }

  /** The unpacking loop: it stops at the first entry that exceeds the budget. */
  method Unzip(entries: seq<Entry>, maxExpandedBytes: nat) returns (r: Result<Files>)
    ensures r == if ExpandedSize(entries) > maxExpandedBytes then Err("QUARANTINE_CAPACITY_EXHAUSTED")
      else Ok(FilesOf(entries))
  {
    var files: Files := map[];
    var expanded := 0;
    for i := 0 to |entries|
      invariant files == FilesOf(entries[..i])
      invariant expanded == ExpandedSize(entries[..i]) <= maxExpandedBytes
    {
      assert entries[..i + 1][..i] == entries[..i];
      if !entries[i].isFolder {
        expanded := expanded + |entries[i].content|;
        if expanded > maxExpandedBytes {
          ExpandedSizeGrows(entries, i + 1);
          return Err("QUARANTINE_CAPACITY_EXHAUSTED");
        }
        files := files[entries[i].name := entries[i].content];
      }
    }
    assert entries[..|entries|] == entries;
    r := Ok(files);
  }

  function ResolveChainFile(files: Files): Result<ChainFile> {
    if CANONICAL_CHAIN !in files && LEGACY_CHAIN !in files then
      Err("Invalid package: 'chain.json' or 'eventChain.json' is missing")
    else if CANONICAL_CHAIN in files && LEGACY_CHAIN in files && files[CANONICAL_CHAIN] != files[LEGACY_CHAIN] then
      Err("Invalid package: 'chain.json' and 'eventChain.json' differ")
    else
      Ok(ChainFile(
           if CANONICAL_CHAIN in files then files[CANONICAL_CHAIN] else files[LEGACY_CHAIN],
           set name | name in {CANONICAL_CHAIN, LEGACY_CHAIN} && name in files))
  }

  predicate ValidChain(env: Environment, chain: Chain) {
    chain.events != [] && forall e :: e in chain.events ==> env.signed(e)
  }

  function PrepareUpload(env: Environment, buffer: Bytes): Result<Prepared> {
    if |buffer| > MAX_UPLOAD_BYTES then Err("UPLOAD_TOO_LARGE")
    else if env.unzip(buffer).None? then Err("Corrupted zip")
    else if ExpandedSize(env.unzip(buffer).value) > env.maxExpandedBytes then Err("QUARANTINE_CAPACITY_EXHAUSTED")
    else PrepareFiles(env, buffer, FilesOf(env.unzip(buffer).value), ExpandedSize(env.unzip(buffer).value))
  }

  function PrepareFiles(env: Environment, buffer: Bytes, files: Files, expandedBytes: nat): Result<Prepared> {
    var resolved := ResolveChainFile(files);
    if resolved.Err? then Err(resolved.error)
    else
      var chainBuffer := resolved.value.buffer;
      if env.parseChain(chainBuffer).None? then Err("Unexpected token in JSON")
      else
        var chain := env.parseChain(chainBuffer).value;
        if chain.events == [] then Err("Empty event chain")
        else if !ValidChain(env, chain) then Err("Invalid event chain")
        else if RUNTIME !in files then Err("Invalid package: 'ownable_bg.wasm' is missing")
        else if !env.supportsRuntime(files[RUNTIME]) then Err("Invalid package: unsupported Ownable runtime")
        else
          var normalized := (files - resolved.value.aliases)[CANONICAL_CHAIN := chainBuffer];
          var packageFiles := normalized - {CANONICAL_CHAIN};
          if env.subjectOf(chain.id).None? then Err("invalid BytesLike value")
          else
            Ok(Prepared(
                 chain.id, Lower(env.subjectOf(chain.id).value), env.cidOf(normalized),
                 env.sha256(buffer), env.sha256(chainBuffer), chainBuffer,
                 env.repack(buffer, packageFiles), packageFiles,
                 Lower(env.signerOf(chain.events[|chain.events| - 1])), expandedBytes))
  }

  /** Preparation as the service runs it: size limit, unpacking loop, then the files. */
  method Prepare(env: Environment, buffer: Bytes) returns (r: Result<Prepared>)
    ensures r == PrepareUpload(env, buffer)
  {
    if |buffer| > MAX_UPLOAD_BYTES {
      return Err("UPLOAD_TOO_LARGE");
    }
    var entries := env.unzip(buffer);
    if entries.None? {
      return Err("Corrupted zip");
    }
    var files := Unzip(entries.value, env.maxExpandedBytes);
    if files.Err? {
      return Err(files.error);
    }
    r := PrepareFiles(env, buffer, files.value, ExpandedSize(entries.value));
  }

  /** The bundle served for a stored package and chain; None when the stored zip cannot be read. */
  function Download(env: Environment, packageZip: Bytes, chain: Bytes): Option<Bytes> {
    if env.unzip(packageZip).None? then None
    else Some(env.repack(packageZip, Reassemble(FilesOf(env.unzip(packageZip).value), chain)))
  }

  function Reassemble(packageFiles: Files, chain: Bytes): Files {
    (packageFiles - {LEGACY_CHAIN})[CANONICAL_CHAIN := chain]
  }

  // ---------------------------------------------------------------- laws of the environment

  predicate DistinctNames(entries: seq<Entry>) {
    forall i, j :: 0 <= i < j < |entries| && !entries[i].isFolder && !entries[j].isFolder ==>
      entries[i].name != entries[j].name
  }

  /** Zip coding: an archive lists each file once, and an edited archive reads back as edited. */
  ghost predicate ZipLaws(env: Environment) {
    && (forall b: Bytes :: env.unzip(b).Some? ==> DistinctNames(env.unzip(b).value))
    && (forall b: Bytes, f: Files ::
          env.unzip(env.repack(b, f)).Some? && FilesOf(env.unzip(env.repack(b, f)).value) == f)
  }

  ghost predicate Injective<A(!new), B(!new)>(f: A -> B) {
    forall a, b :: f(a) == f(b) ==> a == b
  }

  // ---------------------------------------------------------------- sizes

  ghost function TotalSize(files: Files): nat {
    if files == map[] then 0
    else
      var k :| k in files;
      |files[k]| + TotalSize(files - {k})
  }

  lemma {:induction false} TotalSizeWithout(files: Files, k: string)
    requires k in files
    ensures TotalSize(files) == |files[k]| + TotalSize(files - {k})
    decreases |files|
  {
    var j :| j in files && TotalSize(files) == |files[j]| + TotalSize(files - {j});
    if j != k {
      TotalSizeWithout(files - {j}, k);
      TotalSizeWithout(files - {k}, j);
      assert files - {j} - {k} == files - {k} - {j};
    }
  }

  lemma {:induction false} ExpandedSizeIsTotalSize(entries: seq<Entry>)
    requires DistinctNames(entries)
    ensures ExpandedSize(entries) == TotalSize(FilesOf(entries))
    ensures forall name :: name in FilesOf(entries) ==>
      exists i :: 0 <= i < |entries| && !entries[i].isFolder && entries[i].name == name
  {
    if entries != [] {
      var n := |entries| - 1;
      var init := entries[..n];
      ExpandedSizeIsTotalSize(init);
      if !entries[n].isFolder {
        var files := FilesOf(entries);
        TotalSizeWithout(files, entries[n].name);
        assert files - {entries[n].name} == FilesOf(init);
      }
    }
  }

  // ---------------------------------------------------------------- what preparation means

  /** Two archives hold the same Ownable: the same package files and the same chain text, under any alias. */
  predicate SameContent(files: Files, other: Files) {
    && ResolveChainFile(files).Ok? && ResolveChainFile(other).Ok?
    && ResolveChainFile(files).value.buffer == ResolveChainFile(other).value.buffer
    && files - {CANONICAL_CHAIN, LEGACY_CHAIN} == other - {CANONICAL_CHAIN, LEGACY_CHAIN}
  }

  predicate SameOwnable(p: Prepared, q: Prepared) {
    && p.ownableId == q.ownableId && p.subjectId == q.subjectId && p.cid == q.cid
    && p.eventChainDigest == q.eventChainDigest && p.eventChainBuffer == q.eventChainBuffer
    && p.packageFiles == q.packageFiles && p.previousOwnerAddress == q.previousOwnerAddress
  }

  lemma {:induction false} NormalisationDropsBothAliases(files: Files)
    requires ResolveChainFile(files).Ok?
    ensures var r := ResolveChainFile(files).value;
      && (files - r.aliases)[CANONICAL_CHAIN := r.buffer] ==
        (files - {CANONICAL_CHAIN, LEGACY_CHAIN})[CANONICAL_CHAIN := r.buffer]
      && (files - r.aliases)[CANONICAL_CHAIN := r.buffer] - {CANONICAL_CHAIN} == files - {CANONICAL_CHAIN, LEGACY_CHAIN}
  {
    var r := ResolveChainFile(files).value;
    assert (files - r.aliases)[CANONICAL_CHAIN := r.buffer] ==
      (files - {CANONICAL_CHAIN, LEGACY_CHAIN})[CANONICAL_CHAIN := r.buffer];
  }

  /** The chain may be filed as chain.json, as eventChain.json, or as both with equal contents: every
      layout of the same content is accepted alike and prepares to the same Ownable. */
  lemma {:induction false} AliasLayoutsPrepareAlike(env: Environment, a: Bytes, b: Bytes, files: Files, other: Files,
          m: nat, n: nat)
    requires SameContent(files, other)
    ensures PrepareFiles(env, a, files, m).Ok? == PrepareFiles(env, b, other, n).Ok?
    ensures PrepareFiles(env, a, files, m).Ok? ==>
      SameOwnable(PrepareFiles(env, a, files, m).value, PrepareFiles(env, b, other, n).value)
  {
    NormalisationDropsBothAliases(files);
    NormalisationDropsBothAliases(other);
    assert RUNTIME in files <==> RUNTIME in files - {CANONICAL_CHAIN, LEGACY_CHAIN};
    assert RUNTIME in other <==> RUNTIME in other - {CANONICAL_CHAIN, LEGACY_CHAIN};
    assert RUNTIME in files ==> files[RUNTIME] == (files - {CANONICAL_CHAIN, LEGACY_CHAIN})[RUNTIME];
    assert RUNTIME in other ==> other[RUNTIME] == (other - {CANONICAL_CHAIN, LEGACY_CHAIN})[RUNTIME];
  }

  /** The files of an archive are its entries that are no folders, each under its name. */
  lemma {:induction false} FilesAreTheEntries(entries: seq<Entry>)
    requires DistinctNames(entries)
    ensures forall name :: name in FilesOf(entries) <==> exists e :: e in entries && !e.isFolder && e.name == name
    ensures forall e :: e in entries && !e.isFolder ==>
      e.name in FilesOf(entries) && FilesOf(entries)[e.name] == e.content
  {
    if entries != [] {
      var n := |entries| - 1;
      var init, last := entries[..n], entries[n];
      FilesAreTheEntries(init);
      assert forall e :: e in entries <==> e in init || e == last;
      forall e | e in init && !e.isFolder && !last.isFolder ensures e.name != last.name {
        var i :| 0 <= i < n && init[i] == e;
        assert entries[i] == e;
      }
    }
  }

  /** The archive holds a chain, under either of its names or under both with equal contents. */
  predicate HoldsChain(files: Files, chain: Bytes) {
    && ("chain.json" in files || "eventChain.json" in files)
    && ("chain.json" in files ==> files["chain.json"] == chain)
    && ("eventChain.json" in files ==> files["eventChain.json"] == chain)
  }

  /** The chain parses and identifies an Ownable, has an event, and all its events are signed. */
  predicate AcceptableChain(env: Environment, chain: Bytes) {
    && env.parseChain(chain).Some?
    && var c := env.parseChain(chain).value;
      c.events != [] && (forall e :: e in c.events ==> env.signed(e)) && env.subjectOf(c.id).Some?
  }

  predicate HasRuntime(env: Environment, files: Files) {
    "ownable_bg.wasm" in files && env.supportsRuntime(files["ownable_bg.wasm"])
  }

  /** Preparation succeeds if and only if the upload is within the size limit, unpacks within the budget,
      holds one acceptable chain, and a supported runtime. */
  lemma {:induction false} PreparationSucceedsExactlyWhen(env: Environment, buffer: Bytes)
    ensures PrepareUpload(env, buffer).Ok? <==>
      && |buffer| <= 268435456 && env.unzip(buffer).Some?
      && ExpandedSize(env.unzip(buffer).value) <= env.maxExpandedBytes
      && HasRuntime(env, FilesOf(env.unzip(buffer).value))
      && exists chain :: HoldsChain(FilesOf(env.unzip(buffer).value), chain) && AcceptableChain(env, chain)
    ensures PrepareUpload(env, buffer) == Err("UPLOAD_TOO_LARGE") <==> |buffer| > 268435456
    ensures PrepareUpload(env, buffer) == Err("QUARANTINE_CAPACITY_EXHAUSTED") <==>
      |buffer| <= 268435456 && env.unzip(buffer).Some? && ExpandedSize(env.unzip(buffer).value) > env.maxExpandedBytes
  {
    hide FilesOf, ExpandedSize;
    if |buffer| <= MAX_UPLOAD_BYTES && env.unzip(buffer).Some? {
      var files := FilesOf(env.unzip(buffer).value);
      ChainIsResolved(files);
      if PrepareUpload(env, buffer).Ok? {
        assert AcceptableChain(env, ResolveChainFile(files).value.buffer);
      }
    }
  }

  lemma {:induction false} ChainIsResolved(files: Files)
    ensures ResolveChainFile(files).Ok? <==> exists chain :: HoldsChain(files, chain)
    ensures forall chain :: HoldsChain(files, chain) ==>
      ResolveChainFile(files).Ok? && ResolveChainFile(files).value.buffer == chain
    ensures ResolveChainFile(files).Ok? ==> HoldsChain(files, ResolveChainFile(files).value.buffer)
  {
    assert ResolveChainFile(files).Ok? ==> HoldsChain(files, ResolveChainFile(files).value.buffer);
  }

  /** Each part of a prepared upload, told from the archive: digests of the bytes and of the chain, the
      identifier and subject of the chain, its last signer, the files without the chain, and the CID of
      the files with the chain under its canonical name. */
  lemma {:induction false} PreparedFromTheArchive(env: Environment, buffer: Bytes)
    requires PrepareUpload(env, buffer).Ok?
    ensures var p, files := PrepareUpload(env, buffer).value, FilesOf(env.unzip(buffer).value);
      && HoldsChain(files, p.eventChainBuffer) && env.parseChain(p.eventChainBuffer).Some?
      && var chain := env.parseChain(p.eventChainBuffer).value;
        && chain.events != [] && p.ownableId == chain.id && env.subjectOf(chain.id).Some?
        && p.subjectId == Lower(env.subjectOf(chain.id).value)
        && p.previousOwnerAddress == Lower(env.signerOf(chain.events[|chain.events| - 1]))
        && p.uploadDigest == env.sha256(buffer) && p.eventChainDigest == env.sha256(p.eventChainBuffer)
        && p.packageFiles == files - {"chain.json", "eventChain.json"}
        && p.cid == env.cidOf(p.packageFiles["chain.json" := p.eventChainBuffer])
        && p.packageContent == env.repack(buffer, p.packageFiles)
        && p.expandedBytes == ExpandedSize(env.unzip(buffer).value)
  {
    hide FilesOf, ExpandedSize;
    var files := FilesOf(env.unzip(buffer).value);
    NormalisationDropsBothAliases(files);
    ChainIsResolved(files);
    var r := ResolveChainFile(files).value;
    assert (files - r.aliases)[CANONICAL_CHAIN := r.buffer] ==
      (files - {CANONICAL_CHAIN, LEGACY_CHAIN})[CANONICAL_CHAIN := r.buffer];
  }

  /** What every successful preparation guarantees about its own parts. */
  lemma {:induction false} PreparedPartsFitTogether(env: Environment, buffer: Bytes)
    requires PrepareUpload(env, buffer).Ok?
    ensures var p := PrepareUpload(env, buffer).value;
      && p.uploadDigest == env.sha256(buffer)
      && p.eventChainDigest == env.sha256(p.eventChainBuffer)
      && CANONICAL_CHAIN !in p.packageFiles && LEGACY_CHAIN !in p.packageFiles
      && p.cid == env.cidOf(Reassemble(p.packageFiles, p.eventChainBuffer))
      && p.packageContent == env.repack(buffer, p.packageFiles)
      && env.parseChain(p.eventChainBuffer).Some?
      && env.parseChain(p.eventChainBuffer).value.id == p.ownableId
      && env.subjectOf(p.ownableId).Some? && p.subjectId == Lower(env.subjectOf(p.ownableId).value)
  {
    var files := FilesOf(env.unzip(buffer).value);
    NormalisationDropsBothAliases(files);
    var p := PrepareUpload(env, buffer).value;
    assert p.packageFiles - {LEGACY_CHAIN} == p.packageFiles;
  }

  lemma {:induction false} PackageFilesAreTheRest(env: Environment, buffer: Bytes)
    requires PrepareUpload(env, buffer).Ok?
    ensures var p := PrepareUpload(env, buffer).value;
      var files := FilesOf(env.unzip(buffer).value);
      && ResolveChainFile(files).Ok? && ResolveChainFile(files).value.buffer == p.eventChainBuffer
      && p.packageFiles == files - {CANONICAL_CHAIN, LEGACY_CHAIN}
  {
    NormalisationDropsBothAliases(FilesOf(env.unzip(buffer).value));
  }

  lemma {:induction false} RepackedContentIsNoLarger(files: Files)
    requires ResolveChainFile(files).Ok?
    ensures var r := ResolveChainFile(files).value;
      TotalSize(Reassemble(files - {CANONICAL_CHAIN, LEGACY_CHAIN}, r.buffer)) <= TotalSize(files)
  {
    var r := ResolveChainFile(files).value;
    var rest := files - {CANONICAL_CHAIN, LEGACY_CHAIN};
    var whole := Reassemble(rest, r.buffer);
    TotalSizeWithout(whole, CANONICAL_CHAIN);
    assert whole - {CANONICAL_CHAIN} == rest;
    if CANONICAL_CHAIN in files {
      TotalSizeWithout(files, CANONICAL_CHAIN);
      if LEGACY_CHAIN in files {
        TotalSizeWithout(files - {CANONICAL_CHAIN}, LEGACY_CHAIN);
        assert files - {CANONICAL_CHAIN} - {LEGACY_CHAIN} == rest;
      } else {
        assert files - {CANONICAL_CHAIN} == rest;
      }
    } else {
      TotalSizeWithout(files, LEGACY_CHAIN);
      assert files - {LEGACY_CHAIN} == rest;
    }
  }

  /** Preparing a downloaded bundle gives back the Ownable that was uploaded. The only way this can
      fail is the size of the regenerated archive: the expanded budget can never be the reason. */
  lemma {:induction false} DownloadPreparesBack(env: Environment, buffer: Bytes)
    requires ZipLaws(env) && PrepareUpload(env, buffer).Ok?
    ensures var p := PrepareUpload(env, buffer).value;
      var d := Download(env, p.packageContent, p.eventChainBuffer);
      && d.Some?
      && (PrepareUpload(env, d.value).Ok? <==> |d.value| <= MAX_UPLOAD_BYTES)
      && (PrepareUpload(env, d.value).Ok? ==> SameOwnable(p, PrepareUpload(env, d.value).value))
  {
    hide PrepareFiles, TotalSize, ExpandedSize, FilesOf;
    PreparedPartsFitTogether(env, buffer);
    PackageFilesAreTheRest(env, buffer);
    var p := PrepareUpload(env, buffer).value;
    var files := FilesOf(env.unzip(buffer).value);
    var whole := Reassemble(p.packageFiles, p.eventChainBuffer);
    var d := Download(env, p.packageContent, p.eventChainBuffer).value;
    var entries := env.unzip(d).value;
    assert FilesOf(entries) == whole;
    RepackedContentIsNoLarger(files);
    ExpandedSizeIsTotalSize(entries);
    ExpandedSizeIsTotalSize(env.unzip(buffer).value);
    assert whole - {CANONICAL_CHAIN, LEGACY_CHAIN} == p.packageFiles;
    assert SameContent(files, whole);
    AliasLayoutsPrepareAlike(env, buffer, d, files, whole, ExpandedSize(env.unzip(buffer).value),
      ExpandedSize(entries));
  }

  /** Under an injective CID, the CID of an upload determines its package files and its chain. */
  lemma {:induction false} CidDeterminesContent(env: Environment, a: Bytes, b: Bytes)
    requires Injective(env.cidOf)
    requires PrepareUpload(env, a).Ok? && PrepareUpload(env, b).Ok?
    requires PrepareUpload(env, a).value.cid == PrepareUpload(env, b).value.cid
    ensures SameOwnable(PrepareUpload(env, a).value, PrepareUpload(env, b).value)
  {
    PreparedPartsFitTogether(env, a);
    PreparedPartsFitTogether(env, b);
    var p, q := PrepareUpload(env, a).value, PrepareUpload(env, b).value;
    var x, y := Reassemble(p.packageFiles, p.eventChainBuffer), Reassemble(q.packageFiles, q.eventChainBuffer);
    assert x == y;
    assert x[CANONICAL_CHAIN] == p.eventChainBuffer;
    assert x - {CANONICAL_CHAIN} == p.packageFiles && y - {CANONICAL_CHAIN} == q.packageFiles;
    PreparedOwner(env, a);
    PreparedOwner(env, b);
  }

  lemma {:induction false} PreparedOwner(env: Environment, buffer: Bytes)
    requires PrepareUpload(env, buffer).Ok?
    ensures var p := PrepareUpload(env, buffer).value;
      var chain := env.parseChain(p.eventChainBuffer);
      chain.Some? && ValidChain(env, chain.value) &&
      p.previousOwnerAddress == Lower(env.signerOf(chain.value.events[|chain.value.events| - 1]))
  {
  }
}
