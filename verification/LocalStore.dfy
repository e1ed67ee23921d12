/** Reading a local model store: one manifest and every blob it names, hashed as they are read. */
module LocalStore {
  import opened Text
  import opened Json
  import opened JsonObject
  import opened JsonWalk
  import ModelPath
  import Receipt

  type Bytes = seq<Byte>

  /** SHA-256 of bytes, in hexadecimal. */
  type ByteHash = Bytes -> Receipt.Digest

  const MAX_MANIFEST_BYTES: nat := 65_536
  const MAX_BLOB_BYTES: nat := 16_000_000_000
  const MAX_TOTAL_BLOB_BYTES: nat := 20_000_000_000
  const HASH_CHUNK_BYTES: nat := 1_048_576
  const MODEL_MEDIA := "application/vnd.ollama.image.model"

  const DIGEST_PREFIX := "sha256:"
  const MEDIA_PREFIX := "application/vnd."
  const MAX_LAYERS: nat := 32

  /** The JSON objects of a manifest that name files. */
  type Record = seq<Member>

  datatype Manifest = Manifest(config: Record, layers: seq<Record>) {
    function Records(): seq<Record> { [config] + layers }
  }

  datatype Descriptor = Descriptor(digest: Receipt.Digest, size: nat, mediaType: string)

  datatype Refusal =
    | ModelNameInvalid | FileUnavailable | SizeInvalid | SizeMismatch | Timeout | Changed
    | ManifestMismatch | ManifestInvalid | WeightPinMismatch | BlobMismatch

  datatype HashedFile = HashedFile(digest: Receipt.Digest, data: Bytes)

  // ----- one file -----

  /** What one open file gave: its length, the bytes read, and whether a read raised, the time ran out, or the
      file was not the same afterwards. */
  datatype Seen = Seen(size: int, data: Bytes, raised: bool, late: bool, touched: bool)

  /** An open file that others may be writing to: reads return what they return. */
  class Stream {
    const size: int
    ghost var read: Bytes
    ghost var raised: bool
    ghost var late: bool
    ghost var touched: bool

    constructor (size: int)
      ensures Fresh() && this.size == size
    {
      this.size, read, raised, late, touched := size, [], false, false, false;
    }

    ghost predicate Fresh()
      reads this
    {
      read == [] && !raised && !late && !touched
    }

    ghost function Snapshot(): Seen
      reads this
    {
      Seen(size, read, raised, late, touched)
    }

    /** At most `limit` bytes; None when the read raises. */
    method Read(limit: nat) returns (chunk: Option<Bytes>)
      modifies this`read, this`raised
      ensures chunk.Some? ==> |chunk.value| <= limit && read == old(read) + chunk.value && raised == old(raised)
      ensures chunk.None? ==> raised && read == old(read)
    {
      chunk := *;
      if chunk.Some? {
        chunk := Some(if |chunk.value| <= limit then chunk.value else chunk.value[..limit]);
        read := read + chunk.value;
      } else {
        raised := true;
      }
    }

    /** Told to stop, or past the deadline. */
    method Late() returns (b: bool)
      modifies this`late
      ensures late == (old(late) || b)
    {
      b := *;
      late := late || b;
    }

    /** Whether the file's identity, size or times changed while it was read. */
    method Touched() returns (b: bool)
      modifies this`touched
      ensures touched == (old(touched) || b)
    {
      b := *;
      touched := touched || b;
    }
  }

  /** A file passes: read whole, unchanged and in time, as long as it says, and as expected. */
  predicate Passes(s: Seen, maxBytes: nat, expectedSize: Option<nat>) {
    && 0 < s.size <= maxBytes && |s.data| == s.size && !s.raised && !s.late && !s.touched
    && (expectedSize.Some? ==> s.size == expectedSize.value)
  }

  /** What each refusal of a file means. */
  predicate Refused(s: Seen, maxBytes: nat, expectedSize: Option<nat>, why: Refusal) {
    match why
    case SizeInvalid => s.size <= 0 || s.size > maxBytes || |s.data| > maxBytes
    case SizeMismatch => expectedSize.Some? && s.size != expectedSize.value
    case Timeout => s.late
    case FileUnavailable => s.raised
    case Changed => |s.data| != s.size || s.touched
    case _ => false
  }

  /** `_hash_file`: the digest is of exactly the bytes read, and they are as many as the file is long; every
      refusal has its reason, so a file that passes is never refused. At most one byte more than allowed is read. */
  method HashFile(h: ByteHash, file: Stream, maxBytes: nat, expectedSize: Option<nat>)
    returns (r: Option<HashedFile>, why: Refusal)
    requires file.Fresh()
    modifies file
    ensures r.Some? ==>
              && r.value.data == file.read && r.value.digest == h(file.read)
              && Passes(file.Snapshot(), maxBytes, expectedSize)
    ensures r.None? ==> Refused(file.Snapshot(), maxBytes, expectedSize, why)
    ensures r.None? ==> !Passes(file.Snapshot(), maxBytes, expectedSize)
    ensures |file.read| <= maxBytes + 1
    ensures !(0 < file.size <= maxBytes) || (expectedSize.Some? && file.size != expectedSize.value) ==> file.Fresh()
  {
    if file.size <= 0 || file.size > maxBytes {
      return None, SizeInvalid;
    }
    if expectedSize.Some? && file.size != expectedSize.value {
      return None, SizeMismatch;
    }
    var hashed: Bytes := [];
    while true
      invariant hashed == file.read && |hashed| <= maxBytes && !file.raised && !file.late && !file.touched
      decreases maxBytes - |hashed|
    {
      var late := file.Late();
      if late {
        return None, Timeout;
      }
      var room := maxBytes - |hashed| + 1;
      var chunk := file.Read(if HASH_CHUNK_BYTES <= room then HASH_CHUNK_BYTES else room);
      if chunk.None? {
        return None, FileUnavailable;
      }
      if chunk.value == [] {
        break;
      }
      if |hashed| + |chunk.value| > maxBytes {
        return None, SizeInvalid;
      }
      hashed := hashed + chunk.value;
    }
    var touched := file.Touched();
    if |hashed| != file.size || touched {
      return None, Changed;
    }
    if expectedSize.Some? && |hashed| != expectedSize.value {
      return None, SizeMismatch;
    }
    return Some(HashedFile(h(hashed), hashed)), Changed;
  }

  // ----- the manifest -----

  /** What decoding bytes and comparing numbers do, which is Python's: UTF-8, and whether a float's text
      denotes two. */
  datatype Reader = Reader(utf8: Bytes -> Option<string>, isTwo: string -> bool)

  predicate SchemaTwo(read: Reader, ms: seq<Member>) {
    match Get(ms, "schemaVersion")
    case Some(Int(n)) => n == 2
    case Some(Float(text)) => read.isTwo(text)
    case _ => false
  }

  /** The layers of a decoded manifest, if they are one to thirty-two objects. */
  function LayersOf(items: seq<Json>): Option<seq<Record>> {
    if 1 <= |items| <= MAX_LAYERS && forall i :: 0 <= i < |items| ==> items[i].Obj? then
      Some(seq(|items|, i requires 0 <= i < |items| && items[i].Obj? => items[i].members))
    else None
  }

  /** The manifest that `raw` holds: JSON without repeated keys, not too deep and not too large. */
  function ManifestOf(read: Reader, raw: Bytes): Option<Manifest> {
    var text :- read.utf8(raw);
    var value :- Parse(text);
    if !Valid(value) || !WithinLimits(value, MANIFEST_DEPTH, MANIFEST_NODES) || !value.Obj? then None
    else if !SchemaTwo(read, value.members) then None
    else match (Get(value.members, "config"), Get(value.members, "layers"))
      case (Some(Obj(config)), Some(Arr(items))) =>
        var layers :- LayersOf(items);
        Some(Manifest(config, layers))
      case _ => None
  }

  /** Exactly which bytes hold which manifest: UTF-8 JSON within depth 12 and 512 nodes, without repeated keys,
      of schema version two, with an object for a config and one to thirty-two objects for layers. */
  ghost predicate Holds(read: Reader, raw: Bytes, m: Manifest) {
    exists text, ms, items :: HoldsAs(read, raw, m, text, ms, items)
  }

  predicate HoldsAs(read: Reader, raw: Bytes, m: Manifest, text: string, ms: seq<Member>, items: seq<Json>) {
    && read.utf8(raw) == Some(text) && Parse(text) == Some(Obj(ms)) && Valid(Obj(ms)) && WithinLimits(Obj(ms), 12, 512)
    && (Get(ms, "schemaVersion") == Some(Int(2))
        || match Get(ms, "schemaVersion") case Some(Float(x)) => read.isTwo(x) case _ => false)
    && Get(ms, "config") == Some(Obj(m.config)) && Get(ms, "layers") == Some(Arr(items))
    && 1 <= |items| <= 32 && |m.layers| == |items| && forall i :: 0 <= i < |items| ==> items[i] == Obj(m.layers[i])
  }

  lemma ManifestExact(read: Reader, raw: Bytes, m: Manifest)
    ensures ManifestOf(read, raw) == Some(m) <==> Holds(read, raw, m)
  {
    hide WithinLimits, Valid, Get, Parse, LayersOf;
    if ManifestOf(read, raw) == Some(m) {
      var text := read.utf8(raw).value;
      var ms := Parse(text).value.members;
      var items := Get(ms, "layers").value.items;
      LayersExact(items, m.layers);
      assert HoldsAs(read, raw, m, text, ms, items);
    }
    if Holds(read, raw, m) {
      var text, ms, items :| HoldsAs(read, raw, m, text, ms, items);
      LayersExact(items, m.layers);
    }
  }

  lemma LayersExact(items: seq<Json>, layers: seq<Record>)
    ensures LayersOf(items) == Some(layers) <==>
            1 <= |items| <= 32 && |layers| == |items| && forall i :: 0 <= i < |items| ==> items[i] == Obj(layers[i])
  {
    if |layers| == |items| && forall i :: 0 <= i < |items| ==> items[i] == Obj(layers[i]) {
      assert seq(|items|, i requires 0 <= i < |items| && items[i].Obj? => items[i].members) == layers;
    }
  }

  /** `_parse_manifest` */
  method ParseManifest(read: Reader, raw: Bytes) returns (m: Option<Manifest>)
    ensures m == ManifestOf(read, raw)
  {
    hide WithinLimits, Valid, Get, LayersOf;
    var text := read.utf8(raw);
    if text.None? {
      return None;
    }
    var value := Parse(text.value);
    if value.None? || !Valid(value.value) {
      return None;
    }
    var bounded := Bounded(value.value, MANIFEST_DEPTH, MANIFEST_NODES);
    if !bounded || !value.value.Obj? || !SchemaTwo(read, value.value.members) {
      return None;
    }
    match (Get(value.value.members, "config"), Get(value.value.members, "layers")) {
      case (Some(Obj(config)), Some(Arr(items))) =>
        var layers := LayersOf(items);
        return if layers.None? then None else Some(Manifest(config, layers.value));
      case _ =>
        return None;
    }
  }

  /** `_descriptor` */
  function DescriptorOf(r: Record): Option<Descriptor> {
    match (Get(r, "digest"), Get(r, "size"), Get(r, "mediaType"))
    case (Some(Str(digest)), Some(Int(size)), Some(Str(media))) =>
      if DIGEST_PREFIX <= digest && Receipt.IsDigest(digest[|DIGEST_PREFIX|..]) && 0 < size <= MAX_BLOB_BYTES
         && MEDIA_PREFIX <= media
      then Some(Descriptor(digest[|DIGEST_PREFIX|..], size, media))
      else None
    case _ => None
  }

  /** A descriptor is a SHA-256 digest so marked, a positive size within 16 GB, and a vendor's media type. */
  lemma DescriptorExact(r: Record, d: Descriptor)
    ensures DescriptorOf(r) == Some(d) <==>
            && Get(r, "digest") == Some(Str("sha256:" + d.digest)) && Get(r, "size") == Some(Int(d.size))
            && 1 <= d.size <= 16_000_000_000
            && Get(r, "mediaType") == Some(Str(d.mediaType)) && "application/vnd." <= d.mediaType
  {
    hide Get;
    assert ("sha256:" + d.digest)[7..] == d.digest;
    match Get(r, "digest") {
      case Some(Str(s)) => assert "sha256:" <= s ==> s == "sha256:" + s[7..];
      case _ =>
    }
  }

  predicate IsModel(layer: Record) {
    Get(layer, "mediaType") == Some(Str("application/vnd.ollama.image.model"))
  }

  /** Layer `i` is the one layer with the model's media type. */
  predicate OnlyModel(layers: seq<Record>, i: nat) {
    i < |layers| && forall k :: 0 <= k < |layers| ==> (IsModel(layers[k]) <==> k == i)
  }

  predicate NoModel(layers: seq<Record>) { forall k :: 0 <= k < |layers| ==> !IsModel(layers[k]) }

  lemma OnlyModelOn(layers: seq<Record>, layer: Record, i: nat)
    ensures NoModel(layers + [layer]) <==> NoModel(layers) && !IsModel(layer)
    ensures OnlyModel(layers + [layer], i) <==>
            if i == |layers| then NoModel(layers) && IsModel(layer) else OnlyModel(layers, i) && !IsModel(layer)
  {
    hide IsModel;
    var all := layers + [layer];
    assert all[|layers|] == layer && forall k :: 0 <= k < |layers| ==> all[k] == layers[k];
  }

  lemma {:induction false} NoModelLayers(layers: seq<Record>)
    ensures ModelLayers(layers) == [] <==> NoModel(layers)
    decreases |layers|
  {
    if layers != [] {
      var n := |layers| - 1;
      NoModelLayers(layers[..n]);
      assert layers[..n] + [layers[n]] == layers;
      OnlyModelOn(layers[..n], layers[n], 0);
      assert IsModel(layers[n]) <==> Get(layers[n], "mediaType") == Some(Str(MODEL_MEDIA));
      hide IsModel, NoModel;
    }
  }

  /** The filter finds one layer exactly if there is only one, and it is that one. */
  lemma {:induction false} OneModelLayer(layers: seq<Record>, i: nat)
    ensures OnlyModel(layers, i) ==> i < |layers| && ModelLayers(layers) == [layers[i]]
    decreases |layers|
  {
    if layers != [] {
      var n := |layers| - 1;
      assert layers[..n] + [layers[n]] == layers;
      OnlyModelOn(layers[..n], layers[n], i);
      assert IsModel(layers[n]) <==> Get(layers[n], "mediaType") == Some(Str(MODEL_MEDIA));
      OneModelLayer(layers[..n], i);
      NoModelLayers(layers[..n]);
      hide IsModel, NoModel;
    }
  }

  lemma {:induction false} ModelLayerFound(layers: seq<Record>) returns (i: nat)
    ensures |ModelLayers(layers)| == 1 ==> OnlyModel(layers, i)
    decreases |layers|
  {
    i := 0;
    if layers != [] {
      var n := |layers| - 1;
      assert layers[..n] + [layers[n]] == layers;
      assert IsModel(layers[n]) <==> Get(layers[n], "mediaType") == Some(Str(MODEL_MEDIA));
      NoModelLayers(layers[..n]);
      i := ModelLayerFound(layers[..n]);
      i := if IsModel(layers[n]) then n else i;
      OnlyModelOn(layers[..n], layers[n], i);
      hide IsModel, NoModel;
      assert i < n || IsModel(layers[n]) || |ModelLayers(layers)| != 1;
    }
  }

  function ModelLayers(layers: seq<Record>): seq<Record> {
    if layers == [] then []
    else
      var layer := layers[|layers| - 1];
      ModelLayers(layers[..|layers| - 1]) + if Get(layer, "mediaType") == Some(Str(MODEL_MEDIA)) then [layer] else []
  }

  // ----- the whole store -----

  /** The sizes of the records, all of which must be descriptors. */
  function Sizes(rs: seq<Record>): Option<nat> {
    if rs == [] then Some(0)
    else
      var front :- Sizes(rs[..|rs| - 1]);
      var d :- DescriptorOf(rs[|rs| - 1]);
      Some(front + d.size)
  }

  /** The blobs read so far are the first records' bytes. */
  predicate Matches(h: ByteHash, records: seq<Record>, blobs: seq<Bytes>) {
    && |blobs| <= |records|
    && forall k :: 0 <= k < |blobs| ==>
         && DescriptorOf(records[k]).Some?
         && h(blobs[k]) == DescriptorOf(records[k]).value.digest
         && |blobs[k]| == DescriptorOf(records[k]).value.size
  }

  /** What a match means: the pinned manifest, its one model layer with the pinned weight, and every
      blob byte for byte as the manifest's digests and sizes say. */
  ghost predicate Verified(h: ByteHash, read: Reader, expectedManifest: string, expectedWeight: string,
                           manifest: Bytes, blobs: seq<Bytes>)
  {
    && h(manifest) == expectedManifest
    && exists m :: Holds(read, manifest, m) && Weighed(m, expectedWeight) && Backs(h, m, blobs)
  }

  /** The manifest's one model layer is a descriptor with the pinned weight. */
  ghost predicate Weighed(m: Manifest, expectedWeight: string) {
    exists i: nat :: OnlyModel(m.layers, i) && DescriptorOf(m.layers[i]).Some?
                     && DescriptorOf(m.layers[i]).value.digest == expectedWeight
  }

  /** The blobs are those of the config and the layers, and their sizes are within 20 GB in all. */
  predicate Backs(h: ByteHash, m: Manifest, blobs: seq<Bytes>) {
    && Sizes(m.Records()).Some? && Sizes(m.Records()).value <= 20_000_000_000
    && |blobs| == |m.Records()| && Matches(h, m.Records(), blobs)
  }

  /** What each refusal of a store means: of its manifest, or of the record after the blobs already matched,
      whose file gave `last`. */
  ghost predicate StoreRefused(h: ByteHash, read: Reader, model: string, expectedManifest: string,
                               expectedWeight: string, manifest: Seen, blobs: seq<Bytes>, last: Seen, why: Refusal)
  {
    || (why == ModelNameInvalid && ModelPath.ManifestPath(model).None?)
    || Refused(manifest, 65_536, None, why)
    || (why == ManifestMismatch && h(manifest.data) != expectedManifest)
    || (why == ManifestInvalid && forall m :: Holds(read, manifest.data, m) ==> !HasModel(m))
    || (why == WeightPinMismatch && exists m :: Holds(read, manifest.data, m) && !Weighed(m, expectedWeight))
    || exists m :: Holds(read, manifest.data, m) && BlobRefused(h, m.Records(), blobs, last, why)
  }

  /** There is one model layer, and it is a descriptor. */
  ghost predicate HasModel(m: Manifest) {
    exists i: nat :: OnlyModel(m.layers, i) && DescriptorOf(m.layers[i]).Some?
  }

  /** Why the record after those matched is refused. */
  predicate BlobRefused(h: ByteHash, records: seq<Record>, blobs: seq<Bytes>, last: Seen, why: Refusal) {
    && |blobs| < |records| && Matches(h, records, blobs)
    && var k := |blobs|;
    match DescriptorOf(records[k])
    case None => why == ManifestInvalid
    case Some(d) =>
      || (why == SizeInvalid && Sizes(records[..k + 1]).Some? && Sizes(records[..k + 1]).value > 20_000_000_000)
      || Refused(last, 16_000_000_000, Some(d.size), why)
      || (why == BlobMismatch && h(last.data) != d.digest)
  }

  /** `_verify_store_bytes` under an absolute root; `manifestFile` is the file at the model's path, `blobs` are
      the bytes read from each blob that matched, and `last` what the file after them gave. A store is accepted
      only as verified, and refused only for a reason. */
  method VerifyStore(h: ByteHash, read: Reader, model: string, expectedManifest: string, expectedWeight: string,
                     manifestFile: Stream)
    returns (ok: bool, why: Refusal, bytesHashed: nat, ghost blobs: seq<Bytes>, ghost last: Seen)
    requires manifestFile.Fresh()
    modifies manifestFile
    ensures ModelPath.ManifestPath(model).None? ==> !ok && why == ModelNameInvalid && manifestFile.Fresh()
    ensures ok ==> Verified(h, read, expectedManifest, expectedWeight, manifestFile.read, blobs)
    ensures ok ==> exists m :: Holds(read, manifestFile.read, m) && Sizes(m.Records()).Some?
                               && bytesHashed == |manifestFile.read| + Sizes(m.Records()).value
    ensures !ok ==> StoreRefused(h, read, model, expectedManifest, expectedWeight, manifestFile.Snapshot(), blobs,
                                 last, why)
  {
    hide Sizes, ModelLayers, DescriptorOf, Matches, ManifestOf, Holds, OnlyModel, BlobRefused, Refused, Passes;
    ok, bytesHashed, blobs, last := false, 0, [], Seen(0, [], false, false, false);
    var path := ModelPath.ManifestPath(model);
    if path.None? {
      why := ModelNameInvalid;
      return;
    }
    var file;
    file, why := HashFile(h, manifestFile, MAX_MANIFEST_BYTES, None);
    if file.None? {
      return;
    }
    if file.value.digest != expectedManifest {
      why := ManifestMismatch;
      return;
    }
    var m := ParseManifest(read, file.value.data);
    Manifests(read, file.value.data);
    if m.None? {
      why := ManifestInvalid;
      return;
    }
    ok, why, bytesHashed, blobs, last := VerifyManifest(h, m.value, expectedWeight);
    bytesHashed := |file.value.data| + bytesHashed;
  }

  /** Bytes hold at most one manifest. */
  lemma Manifests(read: Reader, raw: Bytes)
    ensures forall m :: Holds(read, raw, m) <==> ManifestOf(read, raw) == Some(m)
  {
    forall m ensures Holds(read, raw, m) <==> ManifestOf(read, raw) == Some(m) {
      ManifestExact(read, raw, m);
    }
  }

  /** The rest, once the manifest is parsed. */
  method VerifyManifest(h: ByteHash, m: Manifest, expectedWeight: string)
    returns (ok: bool, why: Refusal, total: nat, ghost blobs: seq<Bytes>, ghost last: Seen)
    ensures ok ==> Weighed(m, expectedWeight) && Backs(h, m, blobs) && Sizes(m.Records()) == Some(total)
    ensures !ok ==>
              || (why == ManifestInvalid && !HasModel(m))
              || (why == WeightPinMismatch && !Weighed(m, expectedWeight))
              || BlobRefused(h, m.Records(), blobs, last, why)
  {
    hide Sizes, ModelLayers, DescriptorOf, Matches, BlobRefused, OnlyModel;
    ok, total, blobs, last := false, 0, [], Seen(0, [], false, false, false);
    ghost var i := ModelLayerFound(m.layers);
    forall k: nat ensures OnlyModel(m.layers, k) ==> k < |m.layers| && ModelLayers(m.layers) == [m.layers[k]] {
      OneModelLayer(m.layers, k);
    }
    if |ModelLayers(m.layers)| != 1 {
      why := ManifestInvalid;
      return;
    }
    var weight := DescriptorOf(ModelLayers(m.layers)[0]);
    if weight.None? {
      why := ManifestInvalid;
      return;
    }
    if weight.value.digest != expectedWeight {
      why := WeightPinMismatch;
      return;
    }
    ok, why, total, blobs, last := VerifyBlobs(h, m.Records());
  }

  /** The loop over all records, within the total size. */
  method VerifyBlobs(h: ByteHash, records: seq<Record>)
    returns (ok: bool, why: Refusal, total: nat, ghost blobs: seq<Bytes>, ghost last: Seen)
    ensures ok ==> |blobs| == |records| && Matches(h, records, blobs)
    ensures ok ==> Sizes(records) == Some(total) && total <= 20_000_000_000
    ensures !ok ==> BlobRefused(h, records, blobs, last, why)
  {
    hide DescriptorOf, Refused;
    ok, why, total, blobs, last := false, Changed, 0, [], Seen(0, [], false, false, false);
    var declared := 0;
    var k := 0;
    while k < |records|
      invariant 0 <= k <= |records| && |blobs| == k && Matches(h, records, blobs)
      invariant total == declared <= MAX_TOTAL_BLOB_BYTES && Sizes(records[..k]) == Some(total)
    {
      assert records[..k + 1][..k] == records[..k];
      var d := DescriptorOf(records[k]);
      if d.None? {
        return false, ManifestInvalid, total, blobs, last;
      }
      declared := declared + d.value.size;
      if declared > MAX_TOTAL_BLOB_BYTES {
        return false, SizeInvalid, total, blobs, last;
      }
      var size: int := *;
      var stream := new Stream(size);
      var file;
      file, why := HashFile(h, stream, MAX_BLOB_BYTES, Some(d.value.size));
      last := stream.Snapshot();
      if file.None? {
        return false, why, total, blobs, last;
      }
      if file.value.digest != d.value.digest {
        return false, BlobMismatch, total, blobs, last;
      }
      blobs := blobs + [stream.read];
      total := total + |file.value.data|;
      k := k + 1;
    }
    assert records[..k] == records;
    ok := true;
  }

  ghost predicate CollideBytes(h: ByteHash, x: Bytes, y: Bytes) { x != y && h(x) == h(y) }

  /** One manifest pin fixes the whole store: two stores that verify against it hold the same manifest and
      the same blobs, byte for byte, unless two files read from them collide. */
  lemma PinBindsStore(h: ByteHash, read: Reader, pin: string, w1: string, w2: string, m1: Bytes, m2: Bytes,
                      b1: seq<Bytes>, b2: seq<Bytes>)
    requires Verified(h, read, pin, w1, m1, b1) && Verified(h, read, pin, w2, m2, b2)
    ensures || (m1 == m2 && b1 == b2 && w1 == w2)
            || CollideBytes(h, m1, m2)
            || exists k :: 0 <= k < |b1| && k < |b2| && CollideBytes(h, b1[k], b2[k])
  {
    hide Sizes, ModelLayers, DescriptorOf, ManifestOf;
    if m1 == m2 && b1 != b2 {
      var k :| 0 <= k < |b1| && b1[k] != b2[k];
      assert CollideBytes(h, b1[k], b2[k]);
    }
  }
}
