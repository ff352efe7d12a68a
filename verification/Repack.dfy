/** Rewriting a manifest into the bundle-major layout: the look-ahead copy pipeline, and why
    the store reads the same bytes from the new layout with one device read per expert. */
module Repack {
  import L = LruPolicy
  import S = ExpertStore

  type Manifest = map<L.Key, S.Bundle>

  /** What the tool has written: the blob and the edited copy of the manifest. */
  datatype Copy = Copy(blob: S.Bytes, manifest: Manifest)
  datatype Pending = Pending(key: L.Key, chunks: S.Option<seq<S.Bytes>>)

  predicate Less(a: L.Key, b: L.Key) {
    a.layer < b.layer || (a.layer == b.layer && a.expert < b.expert)
  }

  /** The keys of the manifest in `_bundle_sort_key` order. */
  ghost predicate IsKeyOrder(keys: seq<L.Key>, bundles: Manifest) {
    && (forall i, j :: 0 <= i < j < |keys| ==> Less(keys[i], keys[j]))
    && (forall k :: k in keys <==> k in bundles)
  }

  /** The blob is a file of its own: opening it for writing truncates no source. */
  ghost predicate BlobIsNew(bundles: Manifest, blobPath: string) {
    forall k, s :: k in bundles && s in bundles[k].tensors ==> s.file != blobPath
  }

  method Pick<T(==)>(s: set<T>) returns (x: T)
    requires s != {}
    ensures x in s
  {
    x :| x in s;
  }

  ghost predicate Ascending(keys: seq<L.Key>) {
    forall i, j :: 0 <= i < j < |keys| ==> Less(keys[i], keys[j])
  }

  /** `sorted` by layer and expert. */
  method SortKeys(bundles: Manifest) returns (keys: seq<L.Key>)
    ensures IsKeyOrder(keys, bundles)
  {
    hide Ascending; hide Less;
    keys := [];
    var left := bundles.Keys;
    NoneAscend();
    while left != {}
      invariant left <= bundles.Keys && Ascending(keys)
      invariant forall k :: k in keys <==> k in bundles.Keys - left
      decreases |left|
    {
      var key := Pick(left);
      keys := PlaceKey(keys, key);
      left := left - {key};
    }
    AscendingIsOrder(keys, bundles);
  }

  lemma NoneAscend()
    ensures Ascending([])
  {
  }

  lemma AscendingIsOrder(keys: seq<L.Key>, bundles: Manifest)
    requires Ascending(keys) && forall k :: k in keys <==> k in bundles
    ensures IsKeyOrder(keys, bundles)
  {
  }

  method PlaceKey(keys: seq<L.Key>, key: L.Key) returns (after: seq<L.Key>)
    requires Ascending(keys) && key !in keys
    ensures Ascending(after) && forall k :: k in after <==> k in keys || k == key
  {
    var i := 0;
    while i < |keys| && Less(keys[i], key)
      invariant i <= |keys| && forall j :: 0 <= j < i ==> Less(keys[j], key)
    {
      i := i + 1;
    }
    after := keys[..i] + [key] + keys[i..];
    assert keys == keys[..i] + keys[i..];
    forall j | i <= j < |keys| ensures Less(key, keys[j]) {
      assert keys[j] in keys && (i < j ==> Less(keys[i], keys[j]));
    }
  }

  // ----- reading a source bundle -----

  /** One `os.pread`; None is an OS error or a short read. */
  function Chunk(files: S.Files, s: S.Span): S.Option<S.Bytes> {
    if s.file !in files || s.offset < 0 || s.nbytes < 0 then S.None
    else
      var data := S.PySlice(files[s.file], s.offset, s.offset + s.nbytes);
      if |data| != s.nbytes then S.None else S.Some(data)
  }

  function ReadChunks(files: S.Files, spans: seq<S.Span>): S.Option<seq<S.Bytes>> {
    if spans == [] then S.Some([])
    else
      var first, rest := Chunk(files, spans[0]), ReadChunks(files, spans[1..]);
      if first.Some? && rest.Some? then S.Some([first.value] + rest.value) else S.None
  }

  function Join(chunks: seq<S.Bytes>): S.Bytes {
    if chunks == [] then [] else chunks[0] + Join(chunks[1..])
  }

  // ----- the new layout -----

  /** The spans laid back to back in the blob from `pos` on. */
  function Rebased(spans: seq<S.Span>, blobPath: string, pos: int): (r: seq<S.Span>)
    ensures |r| == |spans|
  {
    if spans == [] then []
    else [spans[0].(file := blobPath, offset := pos)] + Rebased(spans[1..], blobPath, pos + spans[0].nbytes)
  }

  function CopyOne(out: Copy, key: L.Key, spans: seq<S.Span>, chunks: seq<S.Bytes>, blobPath: string): Copy
    requires key in out.manifest
  {
    Copy(out.blob + Join(chunks),
         out.manifest[key := out.manifest[key].(tensors := Rebased(spans, blobPath, |out.blob|))])
  }

  /** Copying whole bundles one after the other. */
  function CopyAll(files: S.Files, bundles: Manifest, out: Copy, keys: seq<L.Key>, blobPath: string): S.Option<Copy>
    requires AllIn(keys, bundles) && out.manifest.Keys == bundles.Keys
    decreases |keys|
  {
    if keys == [] then S.Some(out)
    else
      var spans := bundles[keys[0]].tensors;
      var chunks := ReadChunks(files, spans);
      if chunks.None? then S.None
      else CopyAll(files, bundles, CopyOne(out, keys[0], spans, chunks.value, blobPath), keys[1..], blobPath)
  }

  /** The outcome of the tool: without look-ahead nothing is ever submitted. */
  function Repacked(files: S.Files, bundles: Manifest, keys: seq<L.Key>, lookahead: int,
                    blobPath: string): S.Option<Copy>
    requires AllIn(keys, bundles)
  {
    CopyAll(files, bundles, Copy([], bundles), if lookahead >= 1 then keys else [], blobPath)
  }

  // ----- the pipeline -----

  function KeysOf(pending: seq<Pending>): seq<L.Key> {
    if pending == [] then [] else [pending[0].key] + KeysOf(pending[1..])
  }

  ghost predicate AreReads(files: S.Files, bundles: Manifest, pending: seq<Pending>) {
    forall p :: p in pending ==> p.key in bundles && p.chunks == ReadChunks(files, bundles[p.key].tensors)
  }

  method SubmitNext(files: S.Files, bundles: Manifest, pending: seq<Pending>, remaining: seq<L.Key>)
    returns (pending': seq<Pending>, remaining': seq<L.Key>)
    requires AllIn(remaining, bundles) && AreReads(files, bundles, pending)
    ensures AreReads(files, bundles, pending')
    ensures KeysOf(pending') + remaining' == KeysOf(pending) + remaining
    ensures |pending'| == |pending| + (if remaining == [] then 0 else 1)
    ensures AllIn(remaining', bundles) && pending <= pending'
  {
    if remaining == [] {
      return pending, remaining;
    }
    var key := remaining[0];
    pending' := pending + [Pending(key, ReadChunks(files, bundles[key].tensors))];
    remaining' := remaining[1..];
    KeysOfSnoc(pending, Pending(key, ReadChunks(files, bundles[key].tensors)));
    Regroup(KeysOf(pending), [key], remaining');
    assert [key] + remaining' == remaining;
  }

  /** The copy loop of the tool: `lookahead` bundles are read ahead of the writer. */
  method CopyBundles(files: S.Files, bundles: Manifest, keys: seq<L.Key>, lookahead: int, blobPath: string)
    returns (r: S.Option<Copy>)
    requires IsKeyOrder(keys, bundles) && BlobIsNew(bundles, blobPath)
    ensures AllIn(keys, bundles) && r == Repacked(files, bundles, keys, lookahead, blobPath)
  {
    hide ReadChunks; hide Rebased; hide Join; hide CopyAll; hide KeysOf; hide CopyOne;
    hide AreReads; hide Untouched; hide AllIn; hide IsKeyOrder; hide SameElsewhere;
    NothingPending(keys);
    AllInKeys(files, bundles, keys);
    var pending: seq<Pending>, remaining := [], keys;
    var i := 0;
    while i < lookahead
      invariant AreReads(files, bundles, pending)
      invariant KeysOf(pending) + remaining == keys
      invariant i >= 0 && (i > 0 ==> pending != [] || remaining == [])
      invariant lookahead >= 1 || pending == []
    {
      pending, remaining := SubmitNext(files, bundles, pending, remaining);
      i := i + 1;
    }
    var blob: S.Bytes, manifest, pos := [], bundles, 0;
    ghost var written: seq<L.Key>, all := [], if lookahead >= 1 then keys else [];
    ghost var todo, result := all, CopyAll(files, bundles, Copy([], bundles), all, blobPath);
    NothingPending(remaining);
    while pending != []
      invariant lookahead < 1 ==> pending == [] && todo == []
      invariant lookahead >= 1 ==> todo == KeysOf(pending) + remaining && (pending == [] ==> remaining == [])
      invariant written + todo == all && AllIn(todo, bundles)
      invariant AreReads(files, bundles, pending) && manifest.Keys == bundles.Keys && pos == |blob|
      invariant Untouched(bundles, manifest, written)
      invariant result == CopyAll(files, bundles, Copy(blob, manifest), todo, blobPath)
      decreases |todo|
    {
      var job := pending[0];
      KeysOfTail(pending, remaining);
      ghost var rest := todo[1..];
      HeadIsNew(bundles, written, job.key, rest, keys);
      TailIsRead(files, bundles, pending, remaining);
      pending, remaining := SubmitNext(files, bundles, pending[1..], remaining);
      CopyAllStep(files, bundles, Copy(blob, manifest), job.key, rest, blobPath);
      if job.chunks.None? {
        return S.None;
      }
      ghost var before := manifest;
      assert manifest[job.key] == bundles[job.key] by { UntouchedAt(bundles, manifest, written, job.key); }
      blob, manifest, pos :=
        WriteBundle(files, blob, manifest, job.key, bundles[job.key].tensors, job.chunks.value, pos, blobPath);
      UntouchedNext(bundles, before, manifest, written, job.key);
      written, todo := written + [job.key], rest;
    }
    NothingPending(remaining);
    NothingToCopy(files, bundles, Copy(blob, manifest), blobPath);
    r := S.Some(Copy(blob, manifest));
  }

  /** The tool from manifest to blob: sort the keys, then copy. */
  method RepackBundles(files: S.Files, bundles: Manifest, lookahead: int, blobPath: string)
    returns (keys: seq<L.Key>, r: S.Option<Copy>)
    requires BlobIsNew(bundles, blobPath)
    ensures IsKeyOrder(keys, bundles) && AllIn(keys, bundles)
    ensures r == Repacked(files, bundles, keys, lookahead, blobPath)
  {
    keys := SortKeys(bundles);
    r := CopyBundles(files, bundles, keys, lookahead, blobPath);
  }

  lemma NothingPending(remaining: seq<L.Key>)
    ensures KeysOf([]) + remaining == remaining
  {
  }

  /** The inner loop: edit each span of the copied manifest in place and append its bytes. */
  method WriteBundle(files: S.Files, blob: S.Bytes, manifest: Manifest, key: L.Key, spans: seq<S.Span>,
                     chunks: seq<S.Bytes>, pos: nat, blobPath: string)
    returns (blob': S.Bytes, manifest': Manifest, pos': nat)
    requires key in manifest && manifest[key].tensors == spans && pos == |blob|
    requires ReadChunks(files, spans) == S.Some(chunks)
    ensures Copy(blob', manifest') == CopyOne(Copy(blob, manifest), key, spans, chunks, blobPath)
    ensures pos' == |blob'| && manifest'.Keys == manifest.Keys
    ensures SameElsewhere(manifest, manifest', key)
  {
    ChunksMatch(files, spans);
    hide ReadChunks; hide Rebased; hide Join; hide Chunk;
    var tensors := manifest[key].tensors;
    blob', pos' := blob, pos;
    assert spans[0..] == spans && chunks[0..] == chunks;
    assert tensors[..0] + Rebased(spans, blobPath, pos) == Rebased(spans, blobPath, pos);
    for j := 0 to |spans|
      invariant pos' == |blob'| && |tensors| == |spans| && tensors[j..] == spans[j..]
      invariant tensors[..j] + Rebased(spans[j..], blobPath, pos') == Rebased(spans, blobPath, pos)
      invariant blob' + Join(chunks[j..]) == blob + Join(chunks)
    {
      RebasedStep(spans, j, blobPath, pos');
      JoinStep(chunks, j);
      ghost var before := tensors;
      tensors := tensors[j := tensors[j].(file := blobPath, offset := pos')];
      assert tensors[..j + 1] == before[..j] + [tensors[j]] && tensors[j + 1..] == before[j..][1..];
      Regroup(before[..j], [tensors[j]], Rebased(spans[j + 1..], blobPath, pos' + |chunks[j]|));
      Regroup(blob', chunks[j], Join(chunks[j + 1..]));
      pos' := pos' + |chunks[j]|;
      blob' := blob' + chunks[j];
    }
    assert tensors[..|spans|] == tensors;
    RebasedEnd(spans, blobPath, pos');
    JoinEnd(chunks);
    manifest' := manifest[key := manifest[key].(tensors := tensors)];
  }

  lemma Regroup<T>(a: seq<T>, b: seq<T>, c: seq<T>)
    ensures a + (b + c) == (a + b) + c
  {
  }

  lemma RebasedStep(spans: seq<S.Span>, j: nat, blobPath: string, pos: int)
    requires j < |spans|
    ensures Rebased(spans[j..], blobPath, pos) ==
            [spans[j].(file := blobPath, offset := pos)] + Rebased(spans[j + 1..], blobPath, pos + spans[j].nbytes)
  {
    assert spans[j..][0] == spans[j] && spans[j..][1..] == spans[j + 1..];
  }

  lemma RebasedEnd(spans: seq<S.Span>, blobPath: string, pos: int)
    ensures forall a: seq<S.Span> :: a + Rebased(spans[|spans|..], blobPath, pos) == a
  {
  }

  lemma JoinStep(chunks: seq<S.Bytes>, j: nat)
    requires j < |chunks|
    ensures Join(chunks[j..]) == chunks[j] + Join(chunks[j + 1..])
  {
    assert chunks[j..][0] == chunks[j] && chunks[j..][1..] == chunks[j + 1..];
  }

  lemma JoinEnd(chunks: seq<S.Bytes>)
    ensures forall a: S.Bytes :: a + Join(chunks[|chunks|..]) == a
  {
  }

  lemma KeysOfTail(pending: seq<Pending>, remaining: seq<L.Key>)
    requires pending != []
    ensures KeysOf(pending) + remaining == [pending[0].key] + (KeysOf(pending[1..]) + remaining)
  {
    Regroup([pending[0].key], KeysOf(pending[1..]), remaining);
  }

  lemma {:induction false} KeysOfSnoc(pending: seq<Pending>, last: Pending)
    ensures KeysOf(pending + [last]) == KeysOf(pending) + [last.key]
  {
    if pending == [] {
      assert [last][1..] == [] && pending + [last] == [last];
    } else {
      assert (pending + [last])[1..] == pending[1..] + [last];
      KeysOfSnoc(pending[1..], last);
      Regroup([pending[0].key], KeysOf(pending[1..]), [last.key]);
    }
  }

  ghost predicate AllIn(keys: seq<L.Key>, bundles: Manifest) {
    forall k :: k in keys ==> k in bundles
  }

  ghost predicate Untouched(bundles: Manifest, manifest: Manifest, written: seq<L.Key>) {
    manifest.Keys == bundles.Keys && forall k :: k in bundles && k !in written ==> manifest[k] == bundles[k]
  }

  ghost predicate SameElsewhere(before: Manifest, after: Manifest, key: L.Key) {
    after.Keys == before.Keys && forall k :: k in before && k != key ==> after[k] == before[k]
  }

  lemma AllInKeys(files: S.Files, bundles: Manifest, keys: seq<L.Key>)
    requires IsKeyOrder(keys, bundles)
    ensures AllIn(keys, bundles) && AllIn([], bundles) && AreReads(files, bundles, []) && Untouched(bundles, bundles, [])
  {
  }

  lemma UntouchedAt(bundles: Manifest, manifest: Manifest, written: seq<L.Key>, key: L.Key)
    requires Untouched(bundles, manifest, written) && key in bundles && key !in written
    ensures key in manifest && manifest[key] == bundles[key]
  {
  }

  lemma UntouchedNext(bundles: Manifest, before: Manifest, after: Manifest, written: seq<L.Key>, key: L.Key)
    requires Untouched(bundles, before, written) && SameElsewhere(before, after, key)
    ensures Untouched(bundles, after, written + [key])
  {
  }

  lemma TailIsRead(files: S.Files, bundles: Manifest, pending: seq<Pending>, remaining: seq<L.Key>)
    requires AreReads(files, bundles, pending) && pending != [] && AllIn(KeysOf(pending) + remaining, bundles)
    ensures AreReads(files, bundles, pending[1..]) && AllIn(remaining, bundles) && pending[0].key in bundles
    ensures pending[0].chunks == ReadChunks(files, bundles[pending[0].key].tensors)
  {
    assert pending[0] in pending;
    assert forall k :: k in remaining ==> k in KeysOf(pending) + remaining;
  }

  lemma HeadIsNew(bundles: Manifest, written: seq<L.Key>, key: L.Key, rest: seq<L.Key>, keys: seq<L.Key>)
    requires written + ([key] + rest) == keys && IsKeyOrder(keys, bundles)
    ensures key in bundles && key !in written && AllIn(rest, bundles)
    ensures (written + [key]) + rest == keys
  {
    Regroup(written, [key], rest);
    KeysAreDistinct(keys, bundles);
    assert AllIn(keys, bundles);
    hide IsKeyOrder; hide Less;
    assert keys[|written|] == key;
    forall i | 0 <= i < |written| ensures written[i] != key {
      assert keys[i] == written[i];
    }
    forall k | k in rest ensures k in bundles {
      assert k in keys;
    }
  }

  lemma CopyAllStep(files: S.Files, bundles: Manifest, out: Copy, key: L.Key, rest: seq<L.Key>, blobPath: string)
    requires key in bundles && AllIn(rest, bundles) && out.manifest.Keys == bundles.Keys
    ensures var chunks := ReadChunks(files, bundles[key].tensors);
            CopyAll(files, bundles, out, [key] + rest, blobPath) ==
            if chunks.None? then S.None
            else CopyAll(files, bundles, CopyOne(out, key, bundles[key].tensors, chunks.value, blobPath), rest, blobPath)
  {
    assert ([key] + rest)[1..] == rest;
  }

  lemma NothingToCopy(files: S.Files, bundles: Manifest, out: Copy, blobPath: string)
    requires out.manifest.Keys == bundles.Keys
    ensures CopyAll(files, bundles, out, [], blobPath) == S.Some(out)
  {
  }

  lemma {:induction false} ChunksMatch(files: S.Files, spans: seq<S.Span>)
    ensures var chunks := ReadChunks(files, spans);
            chunks.Some? ==> |chunks.value| == |spans| &&
                             forall i :: 0 <= i < |spans| ==> Chunk(files, spans[i]) == S.Some(chunks.value[i]) &&
                                                              |chunks.value[i]| == spans[i].nbytes
  {
    if spans != [] { ChunksMatch(files, spans[1..]); }
  }

  // ----- the blob is the concatenation of all spans -----

  /** What `ModelManifest.validate` accepts. */
  ghost predicate ValidManifest(files: S.Files, bundles: Manifest) {
    forall k :: k in bundles ==>
      && bundles[k].key == k && bundles[k].tensors != [] && S.UniqueRoles(multiset(bundles[k].tensors))
      && S.AllInFile(files, bundles[k].tensors) && S.SumBytes(bundles[k].tensors) == bundles[k].totalBytes
  }

  function BundleBytes(files: S.Files, spans: seq<S.Span>): S.Bytes
    requires forall s :: s in spans ==> S.InFile(files, s)
  {
    if spans == [] then [] else S.Slice(files, spans[0]) + BundleBytes(files, spans[1..])
  }

  ghost function BlobOf(files: S.Files, bundles: Manifest, keys: seq<L.Key>): S.Bytes
    requires ValidManifest(files, bundles) && AllIn(keys, bundles)
  {
    if keys == [] then [] else BundleBytes(files, bundles[keys[0]].tensors) + BlobOf(files, bundles, keys[1..])
  }

  lemma {:induction false} ChunksAreBytes(files: S.Files, spans: seq<S.Span>)
    requires S.AllInFile(files, spans)
    ensures ReadChunks(files, spans).Some? && Join(ReadChunks(files, spans).value) == BundleBytes(files, spans)
    ensures |BundleBytes(files, spans)| == S.SumBytes(spans)
  {
    if spans != [] {
      assert S.InFile(files, spans[0]);
      assert Chunk(files, spans[0]) == S.Some(S.Slice(files, spans[0]));
      ChunksAreBytes(files, spans[1..]);
      var rest := ReadChunks(files, spans[1..]).value;
      assert ([S.Slice(files, spans[0])] + rest)[1..] == rest;
    }
  }

  /** Bundle `k` of the copy lies back to back in the blob from `pos` on. */
  ghost predicate LaidOut(files: S.Files, bundles: Manifest, copy: Copy, k: L.Key, blobPath: string, pos: nat)
    requires ValidManifest(files, bundles) && k in bundles
  {
    var bytes := BundleBytes(files, bundles[k].tensors);
    && k in copy.manifest
    && copy.manifest[k] == bundles[k].(tensors := Rebased(bundles[k].tensors, blobPath, pos))
    && pos + |bytes| <= |copy.blob| && copy.blob[pos..pos + |bytes|] == bytes
  }

  ghost predicate DistinctKeys(keys: seq<L.Key>) {
    forall i, j :: 0 <= i < j < |keys| ==> keys[i] != keys[j]
  }

  ghost function PosOf(files: S.Files, bundles: Manifest, keys: seq<L.Key>, i: nat): nat
    requires ValidManifest(files, bundles) && AllIn(keys, bundles) && i <= |keys|
  {
    |BlobOf(files, bundles, keys[..i])|
  }

  lemma PosOfNext(files: S.Files, bundles: Manifest, keys: seq<L.Key>, i: nat)
    requires ValidManifest(files, bundles) && AllIn(keys, bundles) && 0 < i <= |keys|
    ensures PosOf(files, bundles, keys, i) ==
            |BundleBytes(files, bundles[keys[0]].tensors)| + PosOf(files, bundles, keys[1..], i - 1)
  {
    assert keys[..i][1..] == keys[1..][..i - 1];
  }

  lemma CopyOneIs(files: S.Files, bundles: Manifest, out: Copy, key: L.Key, blobPath: string)
    requires ValidManifest(files, bundles) && key in bundles
    requires key in out.manifest && out.manifest[key] == bundles[key]
    ensures ReadChunks(files, bundles[key].tensors).Some?
    ensures var next := CopyOne(out, key, bundles[key].tensors, ReadChunks(files, bundles[key].tensors).value, blobPath);
            && next.blob == out.blob + BundleBytes(files, bundles[key].tensors)
            && SameElsewhere(out.manifest, next.manifest, key)
            && LaidOut(files, bundles, next, key, blobPath, |out.blob|)
  {
    ChunksAreBytes(files, bundles[key].tensors);
  }

  lemma HeadIsCopied(files: S.Files, bundles: Manifest, out: Copy, keys: seq<L.Key>, blobPath: string)
    returns (next: Copy)
    requires ValidManifest(files, bundles) && AllIn(keys, bundles) && DistinctKeys(keys) && keys != []
    requires out.manifest.Keys == bundles.Keys && forall k :: k in keys ==> out.manifest[k] == bundles[k]
    ensures keys[0] in bundles && AllIn(keys[1..], bundles) && DistinctKeys(keys[1..]) && keys[0] !in keys[1..]
    ensures next.manifest.Keys == bundles.Keys && forall k :: k in keys[1..] ==> next.manifest[k] == bundles[k]
    ensures CopyAll(files, bundles, out, keys, blobPath) == CopyAll(files, bundles, next, keys[1..], blobPath)
    ensures next.blob == out.blob + BundleBytes(files, bundles[keys[0]].tensors)
    ensures SameElsewhere(out.manifest, next.manifest, keys[0])
    ensures LaidOut(files, bundles, next, keys[0], blobPath, |out.blob|)
  {
    hide ValidManifest; hide CopyOne; hide LaidOut; hide ReadChunks;
    var key, rest := keys[0], keys[1..];
    assert keys == [key] + rest && key in keys;
    CopyOneIs(files, bundles, out, key, blobPath);
    next := CopyOne(out, key, bundles[key].tensors, ReadChunks(files, bundles[key].tensors).value, blobPath);
    assert forall i :: 0 <= i < |rest| ==> rest[i] == keys[i + 1];
  }

  /** Copying appends the bundles in order and leaves the other entries alone. */
  lemma {:induction false} CopyAllIs(files: S.Files, bundles: Manifest, out: Copy, keys: seq<L.Key>, blobPath: string)
    requires ValidManifest(files, bundles) && AllIn(keys, bundles) && DistinctKeys(keys)
    requires out.manifest.Keys == bundles.Keys && forall k :: k in keys ==> out.manifest[k] == bundles[k]
    ensures CopyAll(files, bundles, out, keys, blobPath).Some?
    ensures var copy := CopyAll(files, bundles, out, keys, blobPath).value;
            && copy.blob == out.blob + BlobOf(files, bundles, keys)
            && copy.manifest.Keys == bundles.Keys
            && (forall k :: k in bundles && k !in keys ==> copy.manifest[k] == out.manifest[k])
    decreases |keys|
  {
    hide LaidOut; hide CopyAll; hide DistinctKeys; hide AllIn;
    if keys == [] {
      NothingToCopy(files, bundles, out, blobPath);
    } else {
      var next := HeadIsCopied(files, bundles, out, keys, blobPath);
      CopyAllIs(files, bundles, next, keys[1..], blobPath);
      Regroup(out.blob, BundleBytes(files, bundles[keys[0]].tensors), BlobOf(files, bundles, keys[1..]));
      assert forall k :: k in keys[1..] ==> k in keys;
    }
  }

  /** The bundle of the i-th key lies right behind those of the keys before it. */
  lemma {:induction false} CopyAllLaysOut(files: S.Files, bundles: Manifest, out: Copy, keys: seq<L.Key>,
                                          blobPath: string, i: nat)
    requires ValidManifest(files, bundles) && AllIn(keys, bundles) && DistinctKeys(keys) && i < |keys|
    requires out.manifest.Keys == bundles.Keys && forall k :: k in keys ==> out.manifest[k] == bundles[k]
    ensures CopyAll(files, bundles, out, keys, blobPath).Some? && keys[i] in bundles
    ensures LaidOut(files, bundles, CopyAll(files, bundles, out, keys, blobPath).value, keys[i], blobPath,
                    |out.blob| + PosOf(files, bundles, keys, i))
    decreases |keys|
  {
    hide ValidManifest; hide LaidOut; hide CopyAll; hide DistinctKeys; hide AllIn; hide PosOf; hide BlobOf;
    var next := HeadIsCopied(files, bundles, out, keys, blobPath);
    if i == 0 {
      CopyAllIs(files, bundles, next, keys[1..], blobPath);
      PosOfNone(files, bundles, keys);
      StaysLaidOut(files, bundles, next, CopyAll(files, bundles, out, keys, blobPath).value, keys[0], blobPath, |out.blob|);
    } else {
      CopyAllLaysOut(files, bundles, next, keys[1..], blobPath, i - 1);
      PosOfNext(files, bundles, keys, i);
    }
  }

  lemma PosOfNone(files: S.Files, bundles: Manifest, keys: seq<L.Key>)
    requires ValidManifest(files, bundles) && AllIn(keys, bundles)
    ensures PosOf(files, bundles, keys, 0) == 0
  {
  }

  lemma StaysLaidOut(files: S.Files, bundles: Manifest, a: Copy, b: Copy, k: L.Key, blobPath: string, pos: nat)
    requires ValidManifest(files, bundles) && k in bundles && LaidOut(files, bundles, a, k, blobPath, pos)
    requires a.blob <= b.blob && k in b.manifest && b.manifest[k] == a.manifest[k]
    ensures LaidOut(files, bundles, b, k, blobPath, pos)
  {
  }

  // ----- reading the new layout -----

  /** The same roles with the same bytes, position by position. */
  ghost predicate SameReads(filesA: S.Files, a: seq<S.Span>, filesB: S.Files, b: seq<S.Span>) {
    && S.AllInFile(filesA, a) && S.AllInFile(filesB, b) && |a| == |b|
    && forall i :: 0 <= i < |a| ==>
         a[i].role == b[i].role && a[i].nbytes == b[i].nbytes && S.Slice(filesA, a[i]) == S.Slice(filesB, b[i])
  }

  lemma {:induction false} UniqueRolesByIndex(spans: seq<S.Span>)
    ensures S.UniqueRoles(multiset(spans)) <==> forall i, j :: 0 <= i < j < |spans| ==> spans[i].role != spans[j].role
  {
    hide S.UniqueRoles;
    if spans == [] {
      S.NoRoles();
    } else {
      var rest := spans[1..];
      assert spans == [spans[0]] + rest;
      S.UniqueCons(spans[0], rest);
      UniqueRolesByIndex(rest);
      assert forall i :: 0 <= i < |rest| ==> rest[i] == spans[i + 1] && rest[i] in rest;
      assert forall i :: 0 < i < |spans| ==> spans[i] == rest[i - 1];
    }
  }

  lemma {:induction false} SameSum(a: seq<S.Span>, b: seq<S.Span>)
    requires |a| == |b| && forall i :: 0 <= i < |a| ==> a[i].nbytes == b[i].nbytes
    ensures S.SumBytes(a) == S.SumBytes(b)
  {
    if a != [] { SameSum(a[1..], b[1..]); }
  }

  lemma SameSlices(filesA: S.Files, a: seq<S.Span>, filesB: S.Files, b: seq<S.Span>, x: map<string, S.Bytes>,
                   y: map<string, S.Bytes>)
    requires SameReads(filesA, a, filesB, b) && S.IsSlices(filesA, a, x) && S.IsSlices(filesB, b, y)
    ensures x == y
  {
    forall role | role in x ensures role in y && x[role] == y[role] {
      var s :| s in a && s.role == role;
      var i :| 0 <= i < |a| && a[i] == s;
      assert b[i] in b;
    }
    forall role | role in y ensures role in x {
      var s :| s in b && s.role == role;
      var i :| 0 <= i < |b| && b[i] == s;
      assert a[i] in a;
    }
  }

  /** Bundles with the same reads give the store the same result. */
  lemma SameResult(filesA: S.Files, a: S.Bundle, filesB: S.Files, b: S.Bundle, c: S.Counters, d: S.Counters)
    requires SameReads(filesA, a.tensors, filesB, b.tensors) && a.totalBytes == b.totalBytes
    requires S.UniqueRoles(multiset(a.tensors)) && S.SumBytes(a.tensors) == a.totalBytes
    ensures S.ReadBundle(filesA, c, a).result.Ok? && S.ReadBundle(filesA, c, a).result == S.ReadBundle(filesB, d, b).result
  {
    hide S.ReadBundle; hide S.UniqueRoles; hide S.IsSlices;
    UniqueRolesByIndex(a.tensors);
    UniqueRolesByIndex(b.tensors);
    SameSum(a.tensors, b.tensors);
    S.CoalescedReadsAreExact(filesA, c, a);
    S.CoalescedReadsAreExact(filesB, d, b);
    SameSlices(filesA, a.tensors, filesB, b.tensors,
               S.ReadBundle(filesA, c, a).result.value, S.ReadBundle(filesB, d, b).result.value);
  }

  lemma CutAt(blob: S.Bytes, pos: nat, first: S.Bytes, rest: S.Bytes)
    requires pos + |first + rest| <= |blob| && blob[pos..pos + |first + rest|] == first + rest
    ensures blob[pos..pos + |first|] == first
    ensures blob[pos + |first|..pos + |first| + |rest|] == rest
  {
    var both := blob[pos..pos + |first + rest|];
    assert both[..|first|] == first && both[|first|..] == rest;
  }

  lemma SameReadsCons(filesA: S.Files, s: S.Span, a: seq<S.Span>, filesB: S.Files, t: S.Span, b: seq<S.Span>)
    requires SameReads(filesA, a, filesB, b) && S.InFile(filesA, s) && S.InFile(filesB, t)
    requires s.role == t.role && s.nbytes == t.nbytes && S.Slice(filesA, s) == S.Slice(filesB, t)
    requires S.Chained(b) && (b != [] ==> S.Adjacent(t, b[0]))
    ensures SameReads(filesA, [s] + a, filesB, [t] + b) && S.Chained([t] + b)
  {
    hide S.Slice; hide S.InFile; hide S.Adjacent;
    var x, y := [s] + a, [t] + b;
    assert forall i :: 0 < i < |x| ==> x[i] == a[i - 1] && y[i] == b[i - 1];
    assert x[0] == s && y[0] == t;
  }

  lemma NothingRebased(files: S.Files, after: S.Files, blobPath: string, pos: nat)
    ensures Rebased([], blobPath, pos) == [] && SameReads(files, [], after, []) && S.Chained([])
  {
  }

  lemma HeadIsPlaced(files: S.Files, spans: seq<S.Span>, after: S.Files, blobPath: string, pos: nat)
    requires S.AllInFile(files, spans) && spans != [] && blobPath in after
    requires var bytes := BundleBytes(files, spans);
             pos + |bytes| <= |after[blobPath]| && after[blobPath][pos..pos + |bytes|] == bytes
    ensures S.InFile(files, spans[0]) && S.AllInFile(files, spans[1..]) && pos + spans[0].nbytes >= 0
    ensures var next, rest, head := pos + spans[0].nbytes, BundleBytes(files, spans[1..]), Rebased(spans, blobPath, pos)[0];
            && next + |rest| <= |after[blobPath]| && after[blobPath][next..next + |rest|] == rest
            && head == spans[0].(file := blobPath, offset := pos)
            && S.InFile(after, head) && S.Slice(after, head) == S.Slice(files, spans[0])
            && Rebased(spans, blobPath, pos) == [head] + Rebased(spans[1..], blobPath, next)
  {
    assert S.InFile(files, spans[0]);
    CutAt(after[blobPath], pos, S.Slice(files, spans[0]), BundleBytes(files, spans[1..]));
  }

  lemma {:induction false} RebasedIsSame(files: S.Files, spans: seq<S.Span>, after: S.Files, blobPath: string, pos: nat)
    requires S.AllInFile(files, spans) && blobPath in after
    requires var bytes := BundleBytes(files, spans);
             pos + |bytes| <= |after[blobPath]| && after[blobPath][pos..pos + |bytes|] == bytes
    ensures SameReads(files, spans, after, Rebased(spans, blobPath, pos))
    ensures forall s :: s in Rebased(spans, blobPath, pos) ==> s.file == blobPath
    ensures S.Chained(Rebased(spans, blobPath, pos))
    ensures spans != [] ==> Rebased(spans, blobPath, pos)[0].offset == pos
  {
    hide BundleBytes; hide Rebased; hide SameReads; hide S.Chained; hide S.Slice; hide S.InFile; hide S.AllInFile;
    if spans == [] {
      NothingRebased(files, after, blobPath, pos);
    } else {
      HeadIsPlaced(files, spans, after, blobPath, pos);
      var next, head := pos + spans[0].nbytes, Rebased(spans, blobPath, pos)[0];
      RebasedIsSame(files, spans[1..], after, blobPath, next);
      SameReadsCons(files, spans[0], spans[1..], after, head, Rebased(spans[1..], blobPath, next));
      assert [spans[0]] + spans[1..] == spans;
    }
  }

  lemma OldReadsStay(files: S.Files, after: S.Files, spans: seq<S.Span>, blobPath: string)
    requires S.AllInFile(files, spans) && (forall s :: s in spans ==> s.file != blobPath)
    requires forall f :: f in files && f != blobPath ==> f in after && after[f] == files[f]
    ensures SameReads(files, spans, after, spans)
  {
    assert forall i :: 0 <= i < |spans| ==> spans[i] in spans;
  }

  lemma NewLayoutReads(files: S.Files, bundles: Manifest, copy: Copy, k: L.Key, blobPath: string, pos: nat,
                       c: S.Counters, d: S.Counters)
    requires ValidManifest(files, bundles) && k in bundles && LaidOut(files, bundles, copy, k, blobPath, pos)
    ensures k in copy.manifest
    ensures var was, now := S.ReadBundle(files, c, bundles[k]), S.ReadBundle(files[blobPath := copy.blob], d, copy.manifest[k]);
            && was.result.Ok? && now.result == was.result
            && now.counters == S.Counters(d.bytesRead + |BundleBytes(files, bundles[k].tensors)|, d.readCount + 1)
  {
    hide S.ReadBundle; hide S.IsSlices; hide S.UniqueRoles; hide SameReads; hide S.SumBytes; hide Rebased;
    hide S.Plan; hide S.Proper;
    var after, spans := files[blobPath := copy.blob], bundles[k].tensors;
    var laid := Rebased(spans, blobPath, pos);
    RebasedIsSame(files, spans, after, blobPath, pos);
    SameResult(files, bundles[k], after, copy.manifest[k], c, d);
    S.CoalescedReadsAreExact(after, d, copy.manifest[k]);
    ChunksAreBytes(files, spans);
    LaidIsProper(files, spans, after, laid);
    S.ContiguousIsOneRead(laid);
  }

  lemma OldLayoutReads(files: S.Files, bundles: Manifest, blob: S.Bytes, k: L.Key, blobPath: string, c: S.Counters)
    requires ValidManifest(files, bundles) && k in bundles && forall s :: s in bundles[k].tensors ==> s.file != blobPath
    ensures S.ReadBundle(files[blobPath := blob], c, bundles[k]).result == S.ReadBundle(files, c, bundles[k]).result
  {
    hide S.ReadBundle; hide S.UniqueRoles; hide SameReads; hide S.SumBytes;
    OldReadsStay(files, files[blobPath := blob], bundles[k].tensors, blobPath);
    SameResult(files, bundles[k], files[blobPath := blob], bundles[k], c, c);
  }

  /** For every valid manifest and every look-ahead of at least one, the tool succeeds, the
      blob is the concatenation of all spans in key order, and each expert read through the
      new manifest gives the same role-to-bytes map as before, in exactly one device read.
      The old manifest still reads the same. */
  lemma RepackKeepsMeaning(files: S.Files, bundles: Manifest, keys: seq<L.Key>, lookahead: int, blobPath: string,
                           k: L.Key, c: S.Counters, d: S.Counters)
    requires ValidManifest(files, bundles) && IsKeyOrder(keys, bundles) && lookahead >= 1
    requires BlobIsNew(bundles, blobPath) && k in bundles && AllIn(keys, bundles)
    ensures var r := Repacked(files, bundles, keys, lookahead, blobPath);
            && r.Some? && r.value.blob == BlobOf(files, bundles, keys) && r.value.manifest.Keys == bundles.Keys
            && (var after := files[blobPath := r.value.blob];
                var was, now := S.ReadBundle(files, c, bundles[k]), S.ReadBundle(after, d, r.value.manifest[k]);
                && was.result.Ok? && now.result == was.result
                && now.counters == S.Counters(d.bytesRead + |BundleBytes(files, bundles[k].tensors)|, d.readCount + 1)
                && S.ReadBundle(after, c, bundles[k]).result == was.result)
  {
    hide S.ReadBundle; hide CopyAll; hide BlobOf; hide ValidManifest; hide LaidOut; hide PosOf; hide BundleBytes;
    KeysAreDistinct(keys, bundles);
    CopyAllIs(files, bundles, Copy([], bundles), keys, blobPath);
    var copy := Repacked(files, bundles, keys, lookahead, blobPath).value;
    assert [] + BlobOf(files, bundles, keys) == BlobOf(files, bundles, keys);
    var i :| 0 <= i < |keys| && keys[i] == k;
    CopyAllLaysOut(files, bundles, Copy([], bundles), keys, blobPath, i);
    NewLayoutReads(files, bundles, copy, k, blobPath, PosOf(files, bundles, keys, i), c, d);
    OldLayoutReads(files, bundles, copy.blob, k, blobPath, c);
  }

  lemma LaidOutIsValid(files: S.Files, bundles: Manifest, copy: Copy, k: L.Key, blobPath: string, pos: nat)
    requires ValidManifest(files, bundles) && k in bundles && LaidOut(files, bundles, copy, k, blobPath, pos)
    ensures var laid, after := copy.manifest[k], files[blobPath := copy.blob];
            && laid.key == k && laid.tensors != [] && S.UniqueRoles(multiset(laid.tensors))
            && S.AllInFile(after, laid.tensors) && S.SumBytes(laid.tensors) == laid.totalBytes
  {
    hide S.UniqueRoles; hide S.SumBytes; hide Rebased; hide S.InFile;
    var spans, after := bundles[k].tensors, files[blobPath := copy.blob];
    var laid := Rebased(spans, blobPath, pos);
    RebasedIsSame(files, spans, after, blobPath, pos);
    UniqueRolesByIndex(spans);
    UniqueRolesByIndex(laid);
    SameSum(spans, laid);
  }

  /** The new manifest is again one that validation accepts: it can be served, or repacked
      once more. */
  lemma RepackedIsValid(files: S.Files, bundles: Manifest, keys: seq<L.Key>, lookahead: int, blobPath: string)
    requires ValidManifest(files, bundles) && IsKeyOrder(keys, bundles) && lookahead >= 1 && AllIn(keys, bundles)
    requires BlobIsNew(bundles, blobPath)
    ensures var r := Repacked(files, bundles, keys, lookahead, blobPath);
            r.Some? && ValidManifest(files[blobPath := r.value.blob], r.value.manifest)
  {
    hide CopyAll; hide BlobOf; hide LaidOut; hide PosOf; hide S.UniqueRoles; hide S.SumBytes; hide S.AllInFile;
    hide IsKeyOrder;
    KeysAreDistinct(keys, bundles);
    CopyAllIs(files, bundles, Copy([], bundles), keys, blobPath);
    var copy := Repacked(files, bundles, keys, lookahead, blobPath).value;
    forall k | k in copy.manifest
      ensures var laid, after := copy.manifest[k], files[blobPath := copy.blob];
              && laid.key == k && laid.tensors != [] && S.UniqueRoles(multiset(laid.tensors))
              && S.AllInFile(after, laid.tensors) && S.SumBytes(laid.tensors) == laid.totalBytes {
      var i :| 0 <= i < |keys| && keys[i] == k;
      CopyAllLaysOut(files, bundles, Copy([], bundles), keys, blobPath, i);
      LaidOutIsValid(files, bundles, copy, k, blobPath, PosOf(files, bundles, keys, i));
    }
  }

  lemma KeysAreDistinct(keys: seq<L.Key>, bundles: Manifest)
    requires IsKeyOrder(keys, bundles)
    ensures DistinctKeys(keys) && forall k :: k in bundles ==> exists i :: 0 <= i < |keys| && keys[i] == k
  {
    assert forall i, j :: 0 <= i < j < |keys| ==> Less(keys[i], keys[j]);
    forall k | k in bundles ensures exists i :: 0 <= i < |keys| && keys[i] == k {
      assert k in keys;
    }
  }

  lemma LaidIsProper(files: S.Files, spans: seq<S.Span>, after: S.Files, laid: seq<S.Span>)
    requires spans != [] && SameReads(files, spans, after, laid) && S.Chained(laid)
    requires forall s :: s in laid ==> s.file == laid[0].file
    ensures S.Proper(laid)
  {
    assert forall s :: s in laid ==> S.InFile(after, s);
  }

  /** The blob is complete exactly when something was read ahead or there is nothing to copy. */
  lemma CompleteIffLookahead(files: S.Files, bundles: Manifest, keys: seq<L.Key>, lookahead: int, blobPath: string)
    requires ValidManifest(files, bundles) && IsKeyOrder(keys, bundles) && AllIn(keys, bundles)
    requires BlobIsNew(bundles, blobPath)
    ensures var r := Repacked(files, bundles, keys, lookahead, blobPath);
            r.Some? && (r.value.blob == BlobOf(files, bundles, keys) <==> lookahead >= 1 || keys == [])
  {
    assert DistinctKeys([]) && BlobOf(files, bundles, []) == [];
    KeysAreDistinct(keys, bundles);
    hide CopyAll; hide LaidOut; hide IsKeyOrder; hide DistinctKeys; hide ValidManifest; hide BlobOf; hide Less;
    CopyAllIs(files, bundles, Copy([], bundles), keys, blobPath);
    CopyAllIs(files, bundles, Copy([], bundles), [], blobPath);
    if keys != [] { BlobIsNotEmpty(files, bundles, keys); }
  }

  lemma BlobIsNotEmpty(files: S.Files, bundles: Manifest, keys: seq<L.Key>)
    requires ValidManifest(files, bundles) && AllIn(keys, bundles) && keys != []
    ensures BlobOf(files, bundles, keys) != []
  {
    var spans := bundles[keys[0]].tensors;
    assert S.InFile(files, spans[0]) && |S.Slice(files, spans[0])| > 0;
    assert |BundleBytes(files, spans)| > 0;
  }
}
