/** The NVS record loaders and the v3 writer, key read by key read as the store makes them. */
module DeviceMigration {
  import opened Basics
  import opened DeviceRecords

  /** How an NVS read fails. */
  datatype ReadError = Absent | TypeMismatch | InvalidLength
  datatype Read<T> = Got(value: T) | Failed(error: ReadError)

  function ReadStr(nvs: Nvs, key: Key, size: nat): Read<string> {
    if key !in nvs then Failed(Absent)
    else if !nvs[key].Str? then Failed(TypeMismatch)
    else if |nvs[key].s| >= size then Failed(InvalidLength)
    else Got(nvs[key].s)
  }

  function ReadBlob(nvs: Nvs, key: Key, size: nat): Read<seq<nat>> {
    if key !in nvs then Failed(Absent)
    else if !nvs[key].Blob? then Failed(TypeMismatch)
    else if |nvs[key].b| > size then Failed(InvalidLength)
    else Got(nvs[key].b)
  }

  function ReadU8(nvs: Nvs, key: Key): Read<nat> {
    if key !in nvs then Failed(Absent) else if !nvs[key].U8? then Failed(TypeMismatch) else Got(nvs[key].n)
  }

  /** load_required_str_v2. */
  method LoadRequired(nvs: Nvs, key: Key, size: nat) returns (r: Option<string>)
    ensures r == RequiredStr(nvs, key, size)
  {
    var s := ReadStr(nvs, key, size);
    if s.Failed? || s.value == "" { return None; }
    return Some(s.value);
  }

  /** device_store_entry_parse_ble_addr: one cursor over the text, bytes reversed at the end. */
  method ParseBleAddr(text: string) returns (r: Option<seq<nat>>)
    ensures r == ParseAddr(text)
  {
    var shown: seq<nat>, at := [], 0;
    for i := 0 to 6
      invariant |shown| == i && at == (if i < 6 then 3 * i else 17) && at <= |text|
      invariant forall j :: 0 <= j < i ==> 3 * j + 1 < |text| && shown[j] == PairAt(text, j)
      invariant forall j :: 0 <= j < i && j < 5 ==> 3 * j + 2 < |text| && SeparatorAt(text, j)
    {
      if at >= |text| || HexValue(text[at]) < 0 { return None; }
      if at + 1 >= |text| || HexValue(text[at + 1]) < 0 {
        assert |text| == 17 ==> PairAt(text, i) < 0;
        return None;
      }
      shown := shown + [HexValue(text[at]) * 16 + HexValue(text[at + 1])];
      assert shown[i] == PairAt(text, i);
      at := at + 2;
      if i < 5 {
        if at >= |text| || (text[at] != ':' && text[at] != '-') {
          assert |text| == 17 ==> !SeparatorAt(text, i);
          return None;
        }
        at := at + 1;
      }
    }
    if at < |text| { return None; }
    return Some([shown[5], shown[4], shown[3], shown[2], shown[1], shown[0]]);
  }

  /** The identity part shared by the v2 and v3 loaders; None is a corrupt record. */
  method LoadIdentity(nvs: Nvs, i: nat) returns (r: Option<Option<Identity>>)
    ensures r == IdentityPair(nvs, i)
  {
    var addr, kind := ReadBlob(nvs, Addr(i), 6), ReadU8(nvs, AType(i));
    if addr.Got? && kind.Got? {
      if |addr.value| != 6 { return None; }
      return Some(Some(Identity(addr.value, kind.value)));
    }
    if addr != Failed(Absent) || kind != Failed(Absent) { return None; }
    return Some(None);
  }

  /** load_entry_v1. */
  method LoadEntryV1(nvs: Nvs, i: nat) returns (r: Option<Entry>)
    ensures r == LoadV1(nvs, i)
  {
    var id := LoadRequired(nvs, Id(i), ID_LEN);
    if id.None? { return None; }
    var entry := Entry(id.value, "", None);
    var name := ReadStr(nvs, Name(i), NAME_LEN);
    entry := entry.(name := if name.Got? then name.value else entry.id);
    var addr := ReadBlob(nvs, Addr(i), 6);
    if addr.Got? && |addr.value| == 6 {
      var kind := ReadU8(nvs, AType(i));
      entry := entry.(ble := Some(Identity(addr.value, if kind.Got? then kind.value else 0)));
    } else {
      var parsed := ParseBleAddr(entry.id);
      if parsed.Some? { entry := entry.(ble := Some(Identity(parsed.value, 0))); }
    }
    return Some(entry);
  }

  /** load_entry_v2. */
  method LoadEntryV2(nvs: Nvs, i: nat) returns (r: Option<Entry>)
    ensures r == LoadV2(nvs, i)
  {
    var id := LoadRequired(nvs, Id(i), ID_LEN);
    if id.None? { return None; }
    var name := LoadRequired(nvs, Name(i), NAME_LEN);
    if name.None? { return None; }
    var kind := LoadRequired(nvs, Type(i), TYPE_LEN);
    if kind.None? { return None; }
    var ble := LoadIdentity(nvs, i);
    if ble.None? { return None; }
    return Some(Entry(id.value, name.value, ble.value));
  }

  /** load_entry_v3. */
  method LoadEntryV3(nvs: Nvs, i: nat) returns (r: Option<Entry>)
    ensures r == LoadV3(nvs, i)
  {
    var id := LoadRequired(nvs, Id(i), ID_LEN);
    if id.None? { return None; }
    var name := LoadRequired(nvs, Name(i), NAME_LEN);
    if name.None? { return None; }
    var ble := LoadIdentity(nvs, i);
    if ble.None? { return None; }
    return Some(Entry(id.value, name.value, ble.value));
  }

  /** device_store_migration_load_entry for the versions the caller lets through. */
  method LoadAny(nvs: Nvs, version: nat, i: nat) returns (r: Option<Entry>)
    requires 1 <= version <= SCHEMA_VERSION
    ensures r == LoadEntry(nvs, version, i)
  {
    if version == 1 { r := LoadEntryV1(nvs, i); }
    else if version == 2 { r := LoadEntryV2(nvs, i); }
    else { r := LoadEntryV3(nvs, i); }
  }

  /** save_entry: key by key, the legacy type key and an absent identity erased. */
  method SaveEntry(nvs: Nvs, i: nat, e: Entry) returns (t: Nvs)
    ensures t == Save(nvs, i, e)
  {
    t := nvs[Id(i) := Str(e.id)];
    t := t[Name(i) := Str(e.name)];
    t := t - {Type(i)};
    if e.ble.Some? {
      t := t[Addr(i) := Blob(e.ble.value.addr)];
      t := t[AType(i) := U8(e.ble.value.kind)];
      return;
    }
    t := t - {Addr(i)};
    t := t - {AType(i)};
  }

  /** erase_entry: the loop over the five key prefixes. */
  method EraseEntry(nvs: Nvs, i: nat) returns (t: Nvs)
    ensures t == Erase(nvs, i)
  {
    var keys := [Id(i), Name(i), Type(i), Addr(i), AType(i)];
    t := nvs;
    for j := 0 to 5
      invariant t == nvs - (set k | 0 <= k < j :: keys[k])
    {
      t := t - {keys[j]};
    }
    assert (set k | 0 <= k < 5 :: keys[k]) == {keys[0], keys[1], keys[2], keys[3], keys[4]};
  }
}
