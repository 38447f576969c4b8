/** The public calls of the device store, over values and in place, and what every run of them keeps. */
module DeviceRegistry {
  import opened Basics
  import opened Search
  import opened DeviceRecords
  import opened DeviceMigration
  import opened DeviceStore

  datatype Store = Store(nvs: Nvs, cache: seq<Entry>)

  /** `open` is whether NVS could be opened for writing; later writes succeed. */
  datatype Op = Add(id: string, name: string, open: bool) | Delete(id: string, open: bool)
              | Edit(id: string, name: string, open: bool) | SetIdentity(id: string, ble: Identity, open: bool) | Reboot

  function EntryNamed(id: string): Entry -> bool { (e: Entry) => e.id == id }
  function OwnedByOther(id: string, ble: Identity): Entry -> bool { (e: Entry) => e.ble == Some(ble) && e.id != id }

  function Removed(cache: seq<Entry>, k: nat): (r: seq<Entry>)
    requires k < |cache|
    ensures |r| == |cache| - 1 && forall i :: 0 <= i < |r| ==> r[i] == cache[if i < k then i else i + 1]
  {
    cache[..k] + cache[k + 1..]
  }

  function ResultOf(s: Store, op: Op): Result {
    if op.Reboot? then LoadResult(s.nvs)
    else
      var k := FirstIndex(s.cache, EntryNamed(op.id));
      match op
      case Add(id, name, open) =>
        if !TextOk(id, ID_LEN) || !TextOk(name, NAME_LEN) then InvalidArg
        else if k >= 0 then DuplicateId else if |s.cache| >= MAX_DEVICES then Full
        else if !open then Persistence else Ok
      case Delete(_, open) => if k < 0 then NotFound else if !open then Persistence else Ok
      case Edit(_, name, open) =>
        if k < 0 then NotFound else if !TextOk(name, NAME_LEN) then InvalidArg else if !open then Persistence else Ok
      case SetIdentity(id, ble, open) =>
        if ble.kind > ADDR_TYPE_MAX then InvalidArg
        else if k < 0 then NotFound
        else if s.cache[k].ble == Some(ble) then Ok
        else if FirstIndex(s.cache, OwnedByOther(id, ble)) >= 0 then DuplicateIdentity
        else if !open then Persistence else Ok
      case Reboot => Ok
  }

  function Apply(s: Store, op: Op): Store {
    if !ResultOf(s, op).Ok? then s
    else if op.Reboot? then Store(AfterLoad(s.nvs), Loaded(s.nvs))
    else
      var k, n := FirstIndex(s.cache, EntryNamed(op.id)), |s.cache|;
      match op
      case Add(id, name, _) =>
        var e := Entry(id, name, None);
        Store(SaveMeta(Save(s.nvs, n, e), n + 1), s.cache + [e])
      case Delete(_, _) =>
        var rest := Removed(s.cache, k);
        Store(AfterDelete(s.nvs, rest, k), rest)
      case Edit(_, name, _) =>
        var e := s.cache[k].(name := name);
        Store(Save(s.nvs, k, e), s.cache[k := e])
      case SetIdentity(_, ble, _) =>
        var e := s.cache[k].(ble := Some(ble));
        if s.cache[k].ble == Some(ble) then s else Store(Save(s.nvs, k, e), s.cache[k := e])
      case Reboot => s
  }

  // ----- what every call keeps

  ghost predicate Unique(cache: seq<Entry>) {
    forall i, j :: 0 <= i < j < |cache| ==>
      cache[i].id != cache[j].id && (cache[i].ble.Some? ==> cache[i].ble != cache[j].ble)
  }

  ghost predicate Inv(s: Store) {
    Agrees(s.nvs, s.cache) && Unique(s.cache) && forall i :: 0 <= i < |s.cache| ==> EntryOk(s.cache[i])
  }

  predicate OpTyped(op: Op) { op.SetIdentity? ==> |op.ble.addr| == 6 }

  /** Writing one record of an agreeing store. */
  lemma {:induction false} SaveAgrees(nvs: Nvs, cache: seq<Entry>, k: nat, e: Entry)
    requires Agrees(nvs, cache) && k < |cache| && EntryOk(e)
    ensures Agrees(Save(nvs, k, e), cache[k := e])
  {
    var t := Save(nvs, k, e);
    SaveThenLoad(nvs, k, e);
    forall i | 0 <= i < |cache| ensures LoadV3(t, i) == Some(cache[k := e][i]) {
      if i != k {
        SaveElsewhere(nvs, k, e, i);
        SameLoads(nvs, t, i);
      }
    }
  }

  lemma {:induction false} AddInv(s: Store, op: Op)
    requires Inv(s) && op.Add? && ResultOf(s, op).Ok?
    ensures Inv(Apply(s, op))
  {
    var n, e := |s.cache|, Entry(op.id, op.name, None);
    var t := Apply(s, op);
    SaveThenLoad(s.nvs, n, e);
    forall i | 0 <= i < |t.cache| ensures LoadV3(t.nvs, i) == Some(t.cache[i]) {
      SameLoads(Save(s.nvs, n, e), t.nvs, i);
      if i < n {
        SaveElsewhere(s.nvs, n, e, i);
        SameLoads(s.nvs, Save(s.nvs, n, e), i);
      }
    }
  }

  /** NVS after a shifting delete: records above the hole rewritten one place down, the last one erased. */
  function AfterDelete(nvs: Nvs, rest: seq<Entry>, k: nat): Nvs
    requires k <= |rest|
  {
    SaveMeta(Erase(SaveRange(nvs, rest, k, |rest|), |rest|), |rest|)
  }

  lemma {:induction false} DeleteReads(nvs: Nvs, rest: seq<Entry>, k: nat, i: nat)
    requires k <= |rest| && i < |rest| && EntryOk(rest[i]) && (i < k ==> LoadV3(nvs, i) == Some(rest[i]))
    ensures LoadV3(AfterDelete(nvs, rest, k), i) == Some(rest[i])
  {
    var a := SaveRange(nvs, rest, k, |rest|);
    SaveRangeReads(nvs, rest, k, |rest|, i);
    EraseLoads(a, |rest|, i);
    MetaLoads(Erase(a, |rest|), |rest|, i);
  }

  lemma {:induction false} RemovedKeeps(cache: seq<Entry>, k: nat)
    requires k < |cache| && Unique(cache) && forall i :: 0 <= i < |cache| ==> EntryOk(cache[i])
    ensures Unique(Removed(cache, k)) && forall i :: 0 <= i < |cache| - 1 ==> EntryOk(Removed(cache, k)[i])
  {
  }

  lemma {:induction false} DeleteInv(s: Store, op: Op)
    requires Inv(s) && op.Delete? && ResultOf(s, op).Ok?
    ensures Inv(Apply(s, op))
  {
    var k := FirstIndex(s.cache, EntryNamed(op.id));
    var rest := Removed(s.cache, k);
    RemovedKeeps(s.cache, k);
    assert Apply(s, op) == Store(AfterDelete(s.nvs, rest, k), rest);
    forall i: nat | i < |rest| ensures LoadV3(AfterDelete(s.nvs, rest, k), i) == Some(rest[i]) {
      DeleteReads(s.nvs, rest, k, i);
    }
  }

  lemma {:induction false} EditInv(s: Store, op: Op)
    requires Inv(s) && op.Edit? && ResultOf(s, op).Ok?
    ensures Inv(Apply(s, op))
  {
    var k := FirstIndex(s.cache, EntryNamed(op.id));
    assert EntryOk(s.cache[k]);
    SaveAgrees(s.nvs, s.cache, k, s.cache[k].(name := op.name));
  }

  lemma {:induction false} SetIdentityInv(s: Store, op: Op)
    requires Inv(s) && op.SetIdentity? && OpTyped(op) && ResultOf(s, op).Ok?
    ensures Inv(Apply(s, op))
  {
    var k := FirstIndex(s.cache, EntryNamed(op.id));
    if s.cache[k].ble != Some(op.ble) {
      assert EntryOk(s.cache[k]);
      SaveAgrees(s.nvs, s.cache, k, s.cache[k].(ble := Some(op.ble)));
      assert forall i :: 0 <= i < |s.cache| && i != k ==> !OwnedByOther(op.id, op.ble)(s.cache[i]) && s.cache[i].id != op.id;
    }
  }

  lemma {:induction false} StepInv(s: Store, op: Op)
    requires Inv(s) && OpTyped(op)
    ensures Inv(Apply(s, op))
  {
    if ResultOf(s, op).Ok? {
      match op
      case Add(_, _, _) => AddInv(s, op);
      case Delete(_, _) => DeleteInv(s, op);
      case Edit(_, _, _) => EditInv(s, op);
      case SetIdentity(_, _, _) => SetIdentityInv(s, op);
      case Reboot => AgreesReloads(s.nvs, s.cache);
    }
  }

  function Run(s: Store, ops: seq<Op>): Store {
    if |ops| == 0 then s else Apply(Run(s, ops[..|ops| - 1]), ops[|ops| - 1])
  }

  lemma {:induction false} RunInv(s: Store, ops: seq<Op>)
    requires Inv(s) && forall i :: 0 <= i < |ops| ==> OpTyped(ops[i])
    ensures Inv(Run(s, ops))
  {
    if |ops| > 0 {
      RunInv(s, ops[..|ops| - 1]);
      StepInv(Run(s, ops[..|ops| - 1]), ops[|ops| - 1]);
    }
  }

  /** First boot on an empty flash. */
  function FirstBoot(): Store { Store(AfterLoad(map[]), []) }

  lemma {:induction false} FirstBootInv()
    ensures Inv(FirstBoot())
  {
    RewriteMeta(map[]);
  }

  /** After any sequence of calls and reboots on a new device, loading NVS rebuilds exactly the cache in order without
      rewriting anything, and device ids and BLE identities are pairwise distinct. */
  lemma {:induction false} ReloadRebuildsCache(ops: seq<Op>)
    requires forall i :: 0 <= i < |ops| ==> OpTyped(ops[i])
    ensures var s := Run(FirstBoot(), ops);
            && LoadResult(s.nvs).Ok? && Loaded(s.nvs) == s.cache && AfterLoad(s.nvs) == s.nvs
            && Unique(s.cache)
  {
    FirstBootInv();
    RunInv(FirstBoot(), ops);
    AgreesReloads(Run(FirstBoot(), ops).nvs, Run(FirstBoot(), ops).cache);
  }

  /** A migrated store with unique entries enters the same regime. */
  lemma {:induction false} MigratedStoreInv(nvs: Nvs)
    requires LoadResult(nvs).Ok? && !Lossy(nvs) && Unique(Loaded(nvs))
    ensures Inv(Store(AfterLoad(nvs), Loaded(nvs)))
  {
    LoadIdempotentIff(nvs);
    var es := Loaded(nvs);
    forall i: nat | i < |es| ensures EntryOk(es[i]) {
      ReadableOk(nvs, StoredVersion(nvs).value, StoredCount(nvs).value, i);
      assert LoadV3(AfterLoad(nvs), i) == Some(es[i]);
    }
  }

  // ----- the store in place

  class Registry {
    var nvs: Nvs
    const cache: array<Entry>
    var count: nat

    ghost predicate Valid()
      reads this
    {
      cache.Length == MAX_DEVICES && count <= MAX_DEVICES
    }

    ghost function View(): Store
      requires Valid()
      reads this, cache
    {
      Store(nvs, cache[..count])
    }

    /** device_store_init on the given flash contents. */
    constructor (flash: Nvs)
      ensures Valid() && fresh(cache)
      ensures LoadResult(flash).Ok? ==> View() == Store(AfterLoad(flash), Loaded(flash))
      ensures !LoadResult(flash).Ok? ==> View() == Store(flash, [])
    {
      nvs := flash;
      cache := new Entry[MAX_DEVICES](i => Entry("", "", None));
      count := 0;
      new;
      var r := LoadAll();
      assert !LoadResult(flash).Ok? ==> cache[..0] == [];
    }

    /** device_store_nvs_load into the cache. */
    method LoadAll() returns (r: Result)
      requires Valid()
      modifies this, cache
      ensures Valid()
      ensures r == LoadResult(old(nvs))
      ensures r.Ok? ==> View() == Store(AfterLoad(old(nvs)), Loaded(old(nvs)))
      ensures !r.Ok? ==> nvs == old(nvs) && count == old(count) && cache[..] == old(cache[..])
    {
      var version, raw := StoredVersion(nvs), StoredCount(nvs);
      r := LoadResult(nvs);
      if !r.Ok? { return; }
      var loaded := 0;
      for i := 0 to raw.value
        invariant loaded <= i && nvs == old(nvs)
        invariant cache[..loaded] == Readable(nvs, version.value, i)
      {
        var e := LoadAny(nvs, version.value, i);
        if e.Some? {
          cache[loaded] := e.value;
          loaded := loaded + 1;
        }
      }
      count := loaded;
      if version.value != SCHEMA_VERSION || loaded != raw.value { Rewrite(raw.value); }
    }

    /** Write the cache back in v3 form and erase the records beyond it. */
    method Rewrite(raw: nat)
      requires Valid() && count <= raw
      modifies this`nvs
      ensures nvs == EraseRange(SaveRange(SaveMeta(old(nvs), count), cache[..count], 0, count), count, raw)
    {
      nvs := SaveMeta(nvs, count);
      ghost var meta := nvs;
      for i := 0 to count
        invariant nvs == SaveRange(meta, cache[..count], 0, i)
      {
        nvs := SaveEntry(nvs, i, cache[i]);
      }
      ghost var saved := nvs;
      for i := count to raw
        invariant nvs == EraseRange(saved, count, i)
      {
        nvs := EraseEntry(nvs, i);
      }
    }

    method FindId(id: string) returns (k: int)
      requires Valid()
      ensures k == FirstIndex(cache[..count], EntryNamed(id))
    {
      k := -1;
      for i := 0 to count
        invariant k == -1 && forall j :: 0 <= j < i ==> !EntryNamed(id)(cache[j])
      {
        if cache[i].id == id { k := i; break; }
      }
      FirstIndexUnique(cache[..count], EntryNamed(id), k);
    }

    /** device_store_add. */
    method AddDevice(id: string, name: string, open: bool) returns (r: Result)
      requires Valid()
      modifies this, cache
      ensures Valid() && View() == Apply(old(View()), Add(id, name, open)) && r == ResultOf(old(View()), Add(id, name, open))
    {
      if !TextOk(id, ID_LEN) || !TextOk(name, NAME_LEN) { return InvalidArg; }
      var k := FindId(id);
      if k >= 0 { return DuplicateId; }
      if count >= MAX_DEVICES { return Full; }
      if !open { return Persistence; }
      var e := Entry(id, name, None);
      nvs := SaveEntry(nvs, count, e);
      nvs := SaveMeta(nvs, count + 1);
      ghost var was := cache[..count];
      cache[count] := e;
      count := count + 1;
      assert cache[..count] == was + [e];
      return Ok;
    }

    /** A copy of the cache with entry k shifted out. */
    method Compacted(k: nat) returns (c: array<Entry>)
      requires Valid() && k < count
      ensures fresh(c) && c.Length == MAX_DEVICES && c[..count - 1] == Removed(cache[..count], k)
    {
      ghost var rest := Removed(cache[..count], k);
      c := new Entry[MAX_DEVICES](i requires 0 <= i < MAX_DEVICES reads this, cache => if i < cache.Length then cache[i] else Entry("", "", None));
      for i := k to count - 1
        invariant forall j :: 0 <= j < i ==> c[j] == rest[j]
        invariant forall j :: i <= j < count ==> c[j] == cache[j]
      {
        c[i] := c[i + 1];
      }
      assert c[..count - 1] == rest;
    }

    /** device_store_nvs_delete. */
    method PersistDelete(k: nat, c: array<Entry>)
      requires Valid() && k < count && c.Length == MAX_DEVICES
      modifies this`nvs
      ensures nvs == AfterDelete(old(nvs), c[..count - 1], k)
    {
      for i := k to count - 1
        invariant nvs == SaveRange(old(nvs), c[..count - 1], k, i)
      {
        assert c[i] == c[..count - 1][i];
        nvs := SaveEntry(nvs, i, c[i]);
      }
      nvs := EraseEntry(nvs, count - 1);
      nvs := SaveMeta(nvs, count - 1);
    }

    /** device_store_delete: the compacted copy is persisted first, then becomes the cache. */
    method DeleteDevice(id: string, open: bool) returns (r: Result)
      requires Valid()
      modifies this, cache
      ensures Valid() && View() == Apply(old(View()), Delete(id, open)) && r == ResultOf(old(View()), Delete(id, open))
    {
      var k := FindId(id);
      if k < 0 { return NotFound; }
      if !open { return Persistence; }
      ghost var was := View();
      var c := Compacted(k);
      PersistDelete(k, c);
      forall i | 0 <= i < MAX_DEVICES { cache[i] := c[i]; }
      count := count - 1;
      assert cache[..count] == c[..count];
      assert View() == Apply(was, Delete(id, open));
      return Ok;
    }

    /** device_store_edit. */
    method EditDevice(id: string, name: string, open: bool) returns (r: Result)
      requires Valid()
      modifies this, cache
      ensures Valid() && View() == Apply(old(View()), Edit(id, name, open)) && r == ResultOf(old(View()), Edit(id, name, open))
    {
      var k := FindId(id);
      if k < 0 { return NotFound; }
      if !TextOk(name, NAME_LEN) { return InvalidArg; }
      if !open { return Persistence; }
      var e := cache[k].(name := name);
      nvs := SaveEntry(nvs, k, e);
      cache[k] := e;
      return Ok;
    }

    /** device_store_set_ble_identity. */
    method SetBleIdentity(id: string, ble: Identity, open: bool) returns (r: Result)
      requires Valid()
      modifies this, cache
      ensures Valid() && View() == Apply(old(View()), SetIdentity(id, ble, open)) && r == ResultOf(old(View()), SetIdentity(id, ble, open))
    {
      if ble.kind > ADDR_TYPE_MAX { return InvalidArg; }
      var k := FindId(id);
      if k < 0 { return NotFound; }
      if cache[k].ble == Some(ble) { return Ok; }
      var u := -1;
      for i := 0 to count
        invariant u == -1 && forall j :: 0 <= j < i ==> !OwnedByOther(id, ble)(cache[j])
      {
        if cache[i].ble == Some(ble) && cache[i].id != id { u := i; break; }
      }
      assert forall j :: 0 <= j < count ==> cache[..count][j] == cache[j];
      FirstIndexUnique(cache[..count], OwnedByOther(id, ble), u);
      if u >= 0 { return DuplicateIdentity; }
      if !open { return Persistence; }
      var e := cache[k].(ble := Some(ble));
      nvs := SaveEntry(nvs, k, e);
      cache[k] := e;
      return Ok;
    }
  }
}
