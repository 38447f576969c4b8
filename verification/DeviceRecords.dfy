/** Device records in NVS: indexed keys, one loader per schema version, and the v3 writer. */
module DeviceRecords {
  import opened Basics

  const MAX_DEVICES: nat := 16
  const SCHEMA_VERSION: nat := 3
  const ID_LEN: nat := 32
  const NAME_LEN: nat := 32
  const TYPE_LEN: nat := 16
  const ADDR_TYPE_MAX: nat := 3

  /** Keys are "count", "schema_ver" and the five per-record prefixes with an index. */
  datatype Key = Count | SchemaVer | Id(i: nat) | Name(i: nat) | Type(i: nat) | Addr(i: nat) | AType(i: nat)
  datatype Value = U8(n: nat) | Str(s: string) | Blob(b: seq<nat>)
  type Nvs = map<Key, Value>

  datatype Identity = Identity(addr: seq<nat>, kind: nat)
  datatype Entry = Entry(id: string, name: string, ble: Option<Identity>)

  predicate TextOk(s: string, size: nat) { 0 < |s| < size }

  predicate EntryOk(e: Entry) {
    TextOk(e.id, ID_LEN) && TextOk(e.name, NAME_LEN) && (e.ble.Some? ==> |e.ble.value.addr| == 6)
  }

  // ----- reads

  /** nvs_get_str into a buffer of `size` bytes. */
  function GetStr(nvs: Nvs, key: Key, size: nat): Option<string> {
    if key in nvs && nvs[key].Str? && |nvs[key].s| < size then Some(nvs[key].s) else None
  }

  /** A string whose absence, wrong type, excess length or emptiness makes the record corrupt. */
  function RequiredStr(nvs: Nvs, key: Key, size: nat): Option<string> {
    var s := GetStr(nvs, key, size);
    if s.Some? && s.value != "" then s else None
  }

  /** Both identity keys or neither; None is a corrupt record. */
  function IdentityPair(nvs: Nvs, i: nat): Option<Option<Identity>> {
    var a, t := Addr(i), AType(i);
    if a in nvs && nvs[a].Blob? && |nvs[a].b| <= 6 && t in nvs && nvs[t].U8? then
      if |nvs[a].b| == 6 then Some(Some(Identity(nvs[a].b, nvs[t].n))) else None
    else if a !in nvs && t !in nvs then Some(None) else None
  }

  function HexValue(c: char): int {
    if '0' <= c <= '9' then c as int - '0' as int
    else if 'a' <= c <= 'f' then c as int - 'a' as int + 10
    else if 'A' <= c <= 'F' then c as int - 'A' as int + 10
    else -1
  }

  /** Byte i of a MAC written as six hex pairs. */
  function PairAt(s: string, i: nat): int
    requires 3 * i + 1 < |s|
  {
    var h, l := HexValue(s[3 * i]), HexValue(s[3 * i + 1]);
    if h < 0 || l < 0 then -1 else h * 16 + l
  }

  predicate SeparatorAt(s: string, i: nat)
    requires 3 * i + 2 < |s|
  {
    s[3 * i + 2] == ':' || s[3 * i + 2] == '-'
  }

  /** "AA:BB:CC:DD:EE:FF" (or '-') to six bytes, least significant first. */
  function ParseAddr(s: string): (r: Option<seq<nat>>)
    ensures r.Some? ==> |r.value| == 6
  {
    if |s| == 17 && (forall i :: 0 <= i < 6 ==> PairAt(s, i) >= 0)
       && (forall i :: 0 <= i < 5 ==> SeparatorAt(s, i))
    then Some([PairAt(s, 5), PairAt(s, 4), PairAt(s, 3), PairAt(s, 2), PairAt(s, 1), PairAt(s, 0)]) else None
  }

  /** v1: the name falls back to the id, and a MAC-shaped id stands in for a missing address. */
  function LoadV1(nvs: Nvs, i: nat): Option<Entry> {
    var id := RequiredStr(nvs, Id(i), ID_LEN);
    if id.None? then None
    else
      var stored := GetStr(nvs, Name(i), NAME_LEN);
      var name := if stored.Some? then stored.value else id.value;
      var a, t := Addr(i), AType(i);
      var parsed := ParseAddr(id.value);
      var ble := if a in nvs && nvs[a].Blob? && |nvs[a].b| == 6
                 then Some(Identity(nvs[a].b, if t in nvs && nvs[t].U8? then nvs[t].n else 0))
                 else if parsed.Some? then Some(Identity(parsed.value, 0)) else None;
      Some(Entry(id.value, name, ble))
  }

  /** v2: id, name and type are required, the type is discarded. */
  function LoadV2(nvs: Nvs, i: nat): Option<Entry> {
    if RequiredStr(nvs, Type(i), TYPE_LEN).None? then None else LoadV3(nvs, i)
  }

  function LoadV3(nvs: Nvs, i: nat): Option<Entry> {
    var id := RequiredStr(nvs, Id(i), ID_LEN);
    var name := RequiredStr(nvs, Name(i), NAME_LEN);
    var ble := IdentityPair(nvs, i);
    if id.None? || name.None? || ble.None? then None else Some(Entry(id.value, name.value, ble.value))
  }

  function LoadEntry(nvs: Nvs, version: nat, i: nat): Option<Entry> {
    if version == 1 then LoadV1(nvs, i) else if version == 2 then LoadV2(nvs, i) else LoadV3(nvs, i)
  }

  // ----- writes

  function Save(nvs: Nvs, i: nat, e: Entry): Nvs {
    var t := nvs[Id(i) := Str(e.id)][Name(i) := Str(e.name)] - {Type(i)};
    if e.ble.Some? then t[Addr(i) := Blob(e.ble.value.addr)][AType(i) := U8(e.ble.value.kind)] else t - {Addr(i), AType(i)}
  }

  function SaveMeta(nvs: Nvs, n: nat): Nvs { nvs[Count := U8(n)][SchemaVer := U8(SCHEMA_VERSION)] }

  function Erase(nvs: Nvs, i: nat): Nvs { nvs - {Id(i), Name(i), Type(i), Addr(i), AType(i)} }

  /** Records lo .. hi - 1 written from the same positions of es. */
  function SaveRange(nvs: Nvs, es: seq<Entry>, lo: nat, hi: nat): Nvs
    requires lo <= hi <= |es|
    decreases hi - lo
  {
    if lo == hi then nvs else Save(SaveRange(nvs, es, lo, hi - 1), hi - 1, es[hi - 1])
  }

  function EraseRange(nvs: Nvs, lo: nat, hi: nat): Nvs
    requires lo <= hi
    decreases hi - lo
  {
    if lo == hi then nvs else Erase(EraseRange(nvs, lo, hi - 1), hi - 1)
  }

  // ----- what a write does to reads

  /** Keys of record i read the same in both stores. */
  predicate SameRecord(a: Nvs, b: Nvs, i: nat) {
    && (Id(i) in a <==> Id(i) in b) && (Id(i) in a ==> a[Id(i)] == b[Id(i)])
    && (Name(i) in a <==> Name(i) in b) && (Name(i) in a ==> a[Name(i)] == b[Name(i)])
    && (Addr(i) in a <==> Addr(i) in b) && (Addr(i) in a ==> a[Addr(i)] == b[Addr(i)])
    && (AType(i) in a <==> AType(i) in b) && (AType(i) in a ==> a[AType(i)] == b[AType(i)])
  }

  lemma {:induction false} SameLoads(a: Nvs, b: Nvs, i: nat)
    requires SameRecord(a, b, i)
    ensures LoadV3(a, i) == LoadV3(b, i)
  {
  }

  /** Write then read gives the entry back, whatever was stored before; it fails only for an empty name. */
  lemma {:induction false} SaveThenLoad(nvs: Nvs, i: nat, e: Entry)
    requires TextOk(e.id, ID_LEN) && |e.name| < NAME_LEN && (e.ble.Some? ==> |e.ble.value.addr| == 6)
    ensures LoadV3(Save(nvs, i, e), i) == if e.name == "" then None else Some(e)
  {
  }

  lemma {:induction false} SaveElsewhere(nvs: Nvs, i: nat, e: Entry, j: nat)
    requires i != j
    ensures SameRecord(nvs, Save(nvs, i, e), j) && SameRecord(nvs, Erase(nvs, i), j)
  {
  }

  lemma {:induction false} EraseLoads(nvs: Nvs, i: nat, j: nat)
    requires i != j
    ensures LoadV3(Erase(nvs, i), j) == LoadV3(nvs, j)
  {
    SameLoads(nvs, Erase(nvs, i), j);
  }

  lemma {:induction false} MetaLoads(nvs: Nvs, n: nat, j: nat)
    ensures LoadV3(SaveMeta(nvs, n), j) == LoadV3(nvs, j)
  {
    SameLoads(nvs, SaveMeta(nvs, n), j);
  }

  lemma {:induction false} SaveRangeReads(nvs: Nvs, es: seq<Entry>, lo: nat, hi: nat, j: nat)
    requires lo <= hi <= |es|
    requires lo <= j < hi ==> TextOk(es[j].id, ID_LEN) && |es[j].name| < NAME_LEN && (es[j].ble.Some? ==> |es[j].ble.value.addr| == 6)
    ensures LoadV3(SaveRange(nvs, es, lo, hi), j)
            == if lo <= j < hi then (if es[j].name == "" then None else Some(es[j])) else LoadV3(nvs, j)
    decreases hi - lo
  {
    if lo < hi {
      SaveRangeReads(nvs, es, lo, hi - 1, j);
      SaveReads(SaveRange(nvs, es, lo, hi - 1), hi - 1, es[hi - 1], j);
    }
  }

  lemma {:induction false} SaveReads(nvs: Nvs, i: nat, e: Entry, j: nat)
    requires j == i ==> TextOk(e.id, ID_LEN) && |e.name| < NAME_LEN && (e.ble.Some? ==> |e.ble.value.addr| == 6)
    ensures LoadV3(Save(nvs, i, e), j) == if j == i then (if e.name == "" then None else Some(e)) else LoadV3(nvs, j)
  {
    if j == i {
      SaveThenLoad(nvs, i, e);
    } else {
      SaveElsewhere(nvs, i, e, j);
      SameLoads(nvs, Save(nvs, i, e), j);
    }
  }

  lemma {:induction false} EraseRangeReads(nvs: Nvs, lo: nat, hi: nat, j: nat)
    requires lo <= hi && j < lo
    ensures LoadV3(EraseRange(nvs, lo, hi), j) == LoadV3(nvs, j)
    decreases hi - lo
  {
    if lo < hi {
      var t := EraseRange(nvs, lo, hi - 1);
      EraseRangeReads(nvs, lo, hi - 1, j);
      SaveElsewhere(t, hi - 1, Entry("", "", None), j);
      SameLoads(t, Erase(t, hi - 1), j);
    }
  }

  lemma {:induction false} RangesKeepMeta(nvs: Nvs, es: seq<Entry>, lo: nat, hi: nat, k: Key)
    requires lo <= hi <= |es| && (k.Count? || k.SchemaVer?)
    ensures var t := SaveRange(nvs, es, lo, hi); (k in t <==> k in nvs) && (k in nvs ==> t[k] == nvs[k])
    decreases hi - lo
  {
    if lo < hi { RangesKeepMeta(nvs, es, lo, hi - 1, k); }
  }

  lemma {:induction false} EraseKeepsMeta(nvs: Nvs, lo: nat, hi: nat, k: Key)
    requires lo <= hi && (k.Count? || k.SchemaVer?)
    ensures var t := EraseRange(nvs, lo, hi); (k in t <==> k in nvs) && (k in nvs ==> t[k] == nvs[k])
    decreases hi - lo
  {
    if lo < hi { EraseKeepsMeta(nvs, lo, hi - 1, k); }
  }
}
