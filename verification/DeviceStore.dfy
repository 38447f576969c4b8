/** Loading the device store: which records are kept, when the store is rewritten in v3 form, and when a
    second load returns the same entries. */
module DeviceStore {
  import opened Basics
  import opened DeviceRecords

  datatype Result = Ok | InvalidArg | NotFound | DuplicateId | DuplicateIdentity | Full | Persistence | Corrupt
                  | SchemaTooNew | CapacityExceeded

  // ----- loading

  /** The readable records below n, in order. */
  function Readable(nvs: Nvs, version: nat, n: nat): (r: seq<Entry>)
    ensures |r| <= n
  {
    if n == 0 then []
    else
      var e := LoadEntry(nvs, version, n - 1);
      var rest := Readable(nvs, version, n - 1);
      if e.Some? then rest + [e.value] else rest
  }

  function StoredVersion(nvs: Nvs): Option<nat> {
    if SchemaVer !in nvs then Some(1) else if nvs[SchemaVer].U8? then Some(nvs[SchemaVer].n) else None
  }

  function StoredCount(nvs: Nvs): Option<nat> {
    if Count !in nvs then Some(0) else if nvs[Count].U8? then Some(nvs[Count].n) else None
  }

  /** The outcome of device_store_nvs_load. */
  function LoadResult(nvs: Nvs): Result {
    var v, n := StoredVersion(nvs), StoredCount(nvs);
    if v.None? then Corrupt
    else if v.value > SCHEMA_VERSION then SchemaTooNew
    else if n.None? then Corrupt
    else if n.value > MAX_DEVICES then CapacityExceeded
    else if v.value == 0 && n.value > 0 then SchemaTooNew
    else Ok
  }

  function Loaded(nvs: Nvs): (r: seq<Entry>)
    requires LoadResult(nvs).Ok?
    ensures |r| <= StoredCount(nvs).value <= MAX_DEVICES
  {
    Readable(nvs, StoredVersion(nvs).value, StoredCount(nvs).value)
  }

  predicate NeedsRewrite(nvs: Nvs)
    requires LoadResult(nvs).Ok?
  {
    StoredVersion(nvs).value != SCHEMA_VERSION || |Loaded(nvs)| != StoredCount(nvs).value
  }

  /** NVS after a load: rewritten in v3 form when older or when corrupt records were skipped. */
  function AfterLoad(nvs: Nvs): Nvs {
    if !LoadResult(nvs).Ok? || !NeedsRewrite(nvs) then nvs
    else
      var es := Loaded(nvs);
      EraseRange(SaveRange(SaveMeta(nvs, |es|), es, 0, |es|), |es|, StoredCount(nvs).value)
  }

  // ----- the agreement between cache and NVS

  ghost predicate Agrees(nvs: Nvs, cache: seq<Entry>) {
    && |cache| <= MAX_DEVICES
    && StoredCount(nvs) == Some(|cache|) && StoredVersion(nvs) == Some(SCHEMA_VERSION)
    && forall i :: 0 <= i < |cache| ==> LoadV3(nvs, i) == Some(cache[i])
  }

  lemma {:induction false} ReadsBack(nvs: Nvs, cache: seq<Entry>, n: nat)
    requires n <= |cache| && forall i :: 0 <= i < |cache| ==> LoadV3(nvs, i) == Some(cache[i])
    ensures Readable(nvs, SCHEMA_VERSION, n) == cache[..n]
  {
    if n > 0 {
      ReadsBack(nvs, cache, n - 1);
      assert LoadV3(nvs, n - 1) == Some(cache[n - 1]);
      assert cache[..n] == cache[..n - 1] + [cache[n - 1]];
    }
  }

  /** Agreement means a reboot loads exactly the cache, in order, and rewrites nothing. */
  lemma {:induction false} AgreesReloads(nvs: Nvs, cache: seq<Entry>)
    requires Agrees(nvs, cache)
    ensures LoadResult(nvs).Ok? && Loaded(nvs) == cache && AfterLoad(nvs) == nvs
  {
    ReadsBack(nvs, cache, |cache|);
    assert cache[..|cache|] == cache;
  }

  /** Every loaded entry has a usable id and a name that fits; only a v1 name can be empty. */
  lemma {:induction false} ReadableOk(nvs: Nvs, version: nat, n: nat, k: nat)
    requires k < |Readable(nvs, version, n)|
    ensures var e := Readable(nvs, version, n)[k];
            TextOk(e.id, ID_LEN) && |e.name| < NAME_LEN && (e.ble.Some? ==> |e.ble.value.addr| == 6)
    ensures version != 1 ==> Readable(nvs, version, n)[k].name != ""
  {
    if k < |Readable(nvs, version, n - 1)| { ReadableOk(nvs, version, n - 1, k); }
  }

  // ----- migration

  /** A v1 record that loads but whose stored name is the empty string. */
  ghost predicate EmptyNamed(nvs: Nvs, i: nat) {
    LoadV1(nvs, i).Some? && Name(i) in nvs && nvs[Name(i)] == Str("")
  }

  /** The stores that a second load reads differently. */
  ghost predicate Lossy(nvs: Nvs) {
    StoredVersion(nvs) == Some(1) && StoredCount(nvs).Some? && SomeEmptyNamed(nvs, StoredCount(nvs).value)
  }

  ghost predicate HasEmptyName(es: seq<Entry>) { exists k :: 0 <= k < |es| && es[k].name == "" }
  ghost predicate SomeEmptyNamed(nvs: Nvs, n: nat) { exists i :: 0 <= i < n && EmptyNamed(nvs, i) }

  lemma {:induction false} EmptyNameLoaded(nvs: Nvs, n: nat)
    ensures SomeEmptyNamed(nvs, n) <==> HasEmptyName(Readable(nvs, 1, n))
  {
    if n > 0 {
      EmptyNameLoaded(nvs, n - 1);
      var r, q, e := Readable(nvs, 1, n), Readable(nvs, 1, n - 1), LoadV1(nvs, n - 1);
      assert EmptyNamed(nvs, n - 1) <==> e.Some? && e.value.name == "";
      assert SomeEmptyNamed(nvs, n) <==> SomeEmptyNamed(nvs, n - 1) || EmptyNamed(nvs, n - 1);
      assert r == if e.Some? then q + [e.value] else q;
      if e.Some? { assert HasEmptyName(q + [e.value]) <==> HasEmptyName(q) || e.value.name == "" by { EmptyNameAppend(q, e.value); } }
    }
  }

  lemma {:induction false} EmptyNameAppend(q: seq<Entry>, e: Entry)
    ensures HasEmptyName(q + [e]) <==> HasEmptyName(q) || e.name == ""
  {
    var r := q + [e];
    assert r[|q|] == e;
    if HasEmptyName(q) {
      var k :| 0 <= k < |q| && q[k].name == "";
      assert r[k].name == "";
    }
  }

  /** After a rewrite, record j reads back as the j-th loaded entry unless its name is empty. */
  lemma {:induction false} RewriteReads(nvs: Nvs, j: nat)
    requires LoadResult(nvs).Ok? && NeedsRewrite(nvs) && j < |Loaded(nvs)|
    ensures LoadV3(AfterLoad(nvs), j) == if Loaded(nvs)[j].name == "" then None else Some(Loaded(nvs)[j])
  {
    var es := Loaded(nvs);
    ReadableOk(nvs, StoredVersion(nvs).value, StoredCount(nvs).value, j);
    var a := SaveMeta(nvs, |es|);
    SaveRangeReads(a, es, 0, |es|, j);
    EraseRangeReads(SaveRange(a, es, 0, |es|), |es|, StoredCount(nvs).value, j);
  }

  lemma {:induction false} RewriteMeta(nvs: Nvs)
    requires LoadResult(nvs).Ok? && NeedsRewrite(nvs)
    ensures var t := AfterLoad(nvs); Count in t && t[Count] == U8(|Loaded(nvs)|) && SchemaVer in t && t[SchemaVer] == U8(SCHEMA_VERSION)
  {
    var es := Loaded(nvs);
    var a := SaveMeta(nvs, |es|);
    RangesKeepMeta(a, es, 0, |es|, Count);
    RangesKeepMeta(a, es, 0, |es|, SchemaVer);
    EraseKeepsMeta(SaveRange(a, es, 0, |es|), |es|, StoredCount(nvs).value, Count);
    EraseKeepsMeta(SaveRange(a, es, 0, |es|), |es|, StoredCount(nvs).value, SchemaVer);
  }

  /** One unreadable record makes the readable list shorter. */
  lemma {:induction false} SkippedShortens(nvs: Nvs, n: nat, j: nat)
    requires j < n && LoadV3(nvs, j).None?
    ensures |Readable(nvs, SCHEMA_VERSION, n)| < n
  {
    if j < n - 1 { SkippedShortens(nvs, n - 1, j); }
  }

  /** Loading is idempotent exactly when no v1 record with an empty stored name is kept: then the second load returns
      the same entries in the same order and writes nothing. Corrupt records are gone after the first. */
  lemma {:induction false} LoadIdempotentIff(nvs: Nvs)
    requires LoadResult(nvs).Ok?
    ensures LoadResult(AfterLoad(nvs)).Ok?
    ensures (Loaded(AfterLoad(nvs)) == Loaded(nvs) && AfterLoad(AfterLoad(nvs)) == AfterLoad(nvs)) <==> !Lossy(nvs)
    ensures !Lossy(nvs) ==> Agrees(AfterLoad(nvs), Loaded(nvs))
  {
    var es, t := Loaded(nvs), AfterLoad(nvs);
    EmptyNameLoaded(nvs, StoredCount(nvs).value);
    if !NeedsRewrite(nvs) {
      FullyReadable(nvs, StoredCount(nvs).value);
    } else {
      RewriteMeta(nvs);
      forall j: nat | j < |es| ensures LoadV3(t, j) == if es[j].name == "" then None else Some(es[j]) {
        RewriteReads(nvs, j);
        ReadableOk(nvs, StoredVersion(nvs).value, StoredCount(nvs).value, j);
      }
      if Lossy(nvs) {
        var k :| 0 <= k < |es| && es[k].name == "";
        SkippedShortens(t, |es|, k);
      } else {
        forall j: nat | j < |es| ensures es[j].name != "" { ReadableOk(nvs, StoredVersion(nvs).value, StoredCount(nvs).value, j); }
        AgreesReloads(t, es);
      }
    }
  }

  /** If nothing was skipped, record i is the i-th loaded entry. */
  lemma {:induction false} FullyReadable(nvs: Nvs, n: nat)
    requires |Readable(nvs, SCHEMA_VERSION, n)| == n
    ensures forall i :: 0 <= i < n ==> LoadV3(nvs, i) == Some(Readable(nvs, SCHEMA_VERSION, n)[i])
  {
    if n > 0 { FullyReadable(nvs, n - 1); }
  }

  /** A store where the second load loses a device: one v1 record named by the empty string. */
  lemma {:induction false} EmptyNameIsLost() returns (nvs: Nvs)
    ensures LoadResult(nvs).Ok? && |Loaded(nvs)| == 1 && LoadResult(AfterLoad(nvs)).Ok? && Loaded(AfterLoad(nvs)) == []
  {
    nvs := map[Count := U8(1), Id(0) := Str("lamp"), Name(0) := Str("")];
    assert LoadV1(nvs, 0) == Some(Entry("lamp", "", None)) by { assert |"lamp"| == 4; }
    assert Readable(nvs, 1, 1) == Readable(nvs, 1, 0) + [Entry("lamp", "", None)];
    RewriteReads(nvs, 0);
    RewriteMeta(nvs);
    var t := AfterLoad(nvs);
    assert Readable(t, SCHEMA_VERSION, 1) == Readable(t, SCHEMA_VERSION, 0);
  }
}
