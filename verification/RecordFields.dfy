/** Which stored keys make which device: the rules of the three record versions, the spelling of an address, and the
    place every kept record gets. */
module RecordFields {
  import opened Basics
  import opened DeviceRecords
  import opened DeviceStore

  // ----- addresses

  /** c is the hexadecimal digit of value v, in either case. */
  predicate Digit(c: char, v: nat) { v < 16 && (c == "0123456789abcdef"[v] || c == "0123456789ABCDEF"[v]) }

  /** The i-th pair of s spells the byte x. */
  predicate Pair(s: string, i: nat, x: nat) {
    3 * i + 1 < |s| && x < 256 && Digit(s[3 * i], x / 16) && Digit(s[3 * i + 1], x % 16)
  }

  predicate Byte(s: string, b: seq<nat>, i: nat) { i < 6 && |b| == 6 && Pair(s, i, b[5 - i]) }

  predicate Separated(s: string, i: nat) { 3 * i + 2 < |s| && s[3 * i + 2] in {':', '-'} }

  /** s spells the bytes of b, the last one first, as hex pairs with a colon or a dash between them. */
  ghost predicate Spells(s: string, b: seq<nat>) {
    && |s| == 17 && |b| == 6
    && (forall i :: 0 <= i < 6 ==> Byte(s, b, i))
    && (forall i :: 0 <= i < 5 ==> Separated(s, i))
  }

  lemma {:induction false} DigitIff(c: char, v: nat)
    ensures HexValue(c) == v <==> Digit(c, v)
  {
    if v < 10 {
      assert "0123456789abcdef"[v] == "0123456789ABCDEF"[v] == ('0' as int + v) as char by { DigitChar(v); }
    } else if v < 16 {
      assert "0123456789abcdef"[v] == ('a' as int + v - 10) as char && "0123456789ABCDEF"[v] == ('A' as int + v - 10) as char by { DigitChar(v); }
    }
  }

  lemma {:induction false} DigitChar(v: nat)
    requires v < 16
    ensures v < 10 ==> "0123456789abcdef"[v] == "0123456789ABCDEF"[v] == ('0' as int + v) as char
    ensures v >= 10 ==> "0123456789abcdef"[v] == ('a' as int + v - 10) as char && "0123456789ABCDEF"[v] == ('A' as int + v - 10) as char
  {
    var lower, upper := "0123456789abcdef", "0123456789ABCDEF";
    if v < 4 { assert v in {0, 1, 2, 3}; }
    else if v < 8 { assert v in {4, 5, 6, 7}; }
    else if v < 12 { assert v in {8, 9, 10, 11}; }
    else { assert v in {12, 13, 14, 15}; }
  }

  lemma {:induction false} PairIff(s: string, i: nat, x: nat)
    requires 3 * i + 1 < |s|
    ensures PairAt(s, i) == x <==> Pair(s, i, x)
  {
    DigitIff(s[3 * i], x / 16);
    DigitIff(s[3 * i + 1], x % 16);
    var h, l := HexValue(s[3 * i]), HexValue(s[3 * i + 1]);
    assert h < 16 && l < 16;
    if h >= 0 && l >= 0 && x == h * 16 + l { assert x / 16 == h && x % 16 == l; }
  }

  /** A text is taken for an address if and only if it spells one, and then for the one it spells. */
  lemma {:induction false} AddressIff(s: string, b: seq<nat>)
    ensures ParseAddr(s) == Some(b) <==> Spells(s, b)
  {
    if |s| == 17 && |b| == 6 {
      SeparatorsIff(s);
      BytesIff(s, b);
      if Spells(s, b) { SpelledParses(s, b); }
      if ParseAddr(s) == Some(b) { ParsedBytes(s, b); }
    }
  }

  lemma {:induction false} SpelledParses(s: string, b: seq<nat>)
    requires |s| == 17 && |b| == 6 && (forall i :: 0 <= i < 5 ==> SeparatorAt(s, i))
    requires forall i :: 0 <= i < 6 ==> Byte(s, b, i) && PairAt(s, i) == b[5 - i]
    ensures ParseAddr(s) == Some(b)
  {
    SixNumbers(b, PairAt(s, 5), PairAt(s, 4), PairAt(s, 3), PairAt(s, 2), PairAt(s, 1), PairAt(s, 0));
  }

  lemma {:induction false} ParsedBytes(s: string, b: seq<nat>)
    requires |s| == 17 && |b| == 6 && ParseAddr(s) == Some(b)
    ensures forall i :: 0 <= i < 6 ==> PairAt(s, i) == b[5 - i]
  {
    SixNumbers(b, PairAt(s, 5), PairAt(s, 4), PairAt(s, 3), PairAt(s, 2), PairAt(s, 1), PairAt(s, 0));
  }

  lemma {:induction false} SeparatorsIff(s: string)
    requires |s| == 17
    ensures (forall i :: 0 <= i < 5 ==> Separated(s, i)) <==> (forall i :: 0 <= i < 5 ==> SeparatorAt(s, i))
  {
    assert forall i :: 0 <= i < 5 ==> (Separated(s, i) <==> SeparatorAt(s, i));
  }

  lemma {:induction false} BytesIff(s: string, b: seq<nat>)
    requires |s| == 17 && |b| == 6
    ensures forall i :: 0 <= i < 6 ==> (Byte(s, b, i) <==> PairAt(s, i) == b[5 - i])
  {
    forall i | 0 <= i < 6 ensures Byte(s, b, i) <==> PairAt(s, i) == b[5 - i] { PairIff(s, i, b[5 - i]); }
  }

  lemma {:induction false} SixNumbers(b: seq<int>, p: int, q: int, r: int, x: int, y: int, z: int)
    requires |b| == 6
    ensures [p, q, r, x, y, z] == b <==> b[0] == p && b[1] == q && b[2] == r && b[3] == x && b[4] == y && b[5] == z
  {
    var a := [p, q, r, x, y, z];
    assert a[0] == p && a[1] == q && a[2] == r && a[3] == x && a[4] == y && a[5] == z;
    if b[0] == p && b[1] == q && b[2] == r && b[3] == x && b[4] == y && b[5] == z { assert a == b; }
  }

  // ----- records

  /** A non-empty text shorter than its buffer is stored under the key. */
  predicate Holds(nvs: Nvs, key: Key, size: nat, s: string) { key in nvs && nvs[key] == Str(s) && 0 < |s| < size }

  /** Both identity keys are stored and well formed, or neither is stored at all. */
  predicate PairIs(nvs: Nvs, i: nat, ble: Option<Identity>) {
    match ble
    case None => Addr(i) !in nvs && AType(i) !in nvs
    case Some(x) => Addr(i) in nvs && nvs[Addr(i)] == Blob(x.addr) && |x.addr| == 6 && AType(i) in nvs && nvs[AType(i)] == U8(x.kind)
  }

  /** A version 1 name is the stored text that fits, or else the id. */
  predicate OldName(nvs: Nvs, i: nat, e: Entry) {
    if Name(i) in nvs && nvs[Name(i)].Str? && |nvs[Name(i)].s| < 32 then e.name == nvs[Name(i)].s else e.name == e.id
  }

  /** A version 1 identity is the stored address of six bytes, of the stored kind or kind 0; or else the address that the id
      spells; or else none. */
  ghost predicate OldIdentity(nvs: Nvs, i: nat, e: Entry) {
    if Addr(i) in nvs && nvs[Addr(i)].Blob? && |nvs[Addr(i)].b| == 6 then
      e.ble.Some? && e.ble.value.addr == nvs[Addr(i)].b
      && e.ble.value.kind == if AType(i) in nvs && nvs[AType(i)].U8? then nvs[AType(i)].n else 0
    else if e.ble.Some? then Spells(e.id, e.ble.value.addr) && e.ble.value.kind == 0
    else forall b :: !Spells(e.id, b)
  }

  /** Record i of a store of this version describes device e. */
  ghost predicate Describes(nvs: Nvs, version: nat, i: nat, e: Entry) {
    && Holds(nvs, Id(i), 32, e.id)
    && match version
       case 1 => OldName(nvs, i, e) && OldIdentity(nvs, i, e)
       case 2 => Holds(nvs, Name(i), 32, e.name) && PairIs(nvs, i, e.ble) && exists kind :: Holds(nvs, Type(i), 16, kind)
       case _ => Holds(nvs, Name(i), 32, e.name) && PairIs(nvs, i, e.ble)
  }

  /** A record loads if and only if its keys describe a device, and it loads as that device. */
  lemma {:induction false} RecordIff(nvs: Nvs, version: nat, i: nat, e: Entry)
    ensures LoadEntry(nvs, version, i) == Some(e) <==> Describes(nvs, version, i, e)
  {
    if version == 1 { OldRecordIff(nvs, i, e); }
    else if version == 2 {
      assert RequiredStr(nvs, Type(i), 16).Some? <==> exists kind :: Holds(nvs, Type(i), 16, kind) by {
        var r := RequiredStr(nvs, Type(i), 16);
        if r.Some? { assert Holds(nvs, Type(i), 16, r.value); }
      }
    }
  }

  lemma {:induction false} OldRecordIff(nvs: Nvs, i: nat, e: Entry)
    ensures LoadV1(nvs, i) == Some(e) <==> Describes(nvs, 1, i, e)
  {
    OldIdentityIff(nvs, i, e);
  }

  lemma {:induction false} OldIdentityIff(nvs: Nvs, i: nat, e: Entry)
    ensures OldIdentity(nvs, i, e) <==>
              e.ble == if Addr(i) in nvs && nvs[Addr(i)].Blob? && |nvs[Addr(i)].b| == 6
                       then Some(Identity(nvs[Addr(i)].b, if AType(i) in nvs && nvs[AType(i)].U8? then nvs[AType(i)].n else 0))
                       else if ParseAddr(e.id).Some? then Some(Identity(ParseAddr(e.id).value, 0)) else None
  {
    forall b ensures ParseAddr(e.id) == Some(b) <==> Spells(e.id, b) { AddressIff(e.id, b); }
  }

  // ----- the load

  /** The stored version is v, 1 when none is stored; the number of records is n, 0 when none is stored. */
  predicate VersionIs(nvs: Nvs, v: nat) { if SchemaVer in nvs then nvs[SchemaVer] == U8(v) else v == 1 }
  predicate CountIs(nvs: Nvs, n: nat) { if Count in nvs then nvs[Count] == U8(n) else n == 0 }

  /** A load succeeds if and only if the store has a version up to 3 and up to 16 records; version 0 only without records. A
      newer version and too many records are refused as such. */
  lemma {:induction false} LoadSucceedsIff(nvs: Nvs, v: nat, n: nat)
    requires VersionIs(nvs, v) && CountIs(nvs, n)
    ensures LoadResult(nvs).Ok? <==> v <= 3 && n <= 16 && (v == 0 ==> n == 0)
    ensures v > 3 ==> LoadResult(nvs) == SchemaTooNew
    ensures v <= 3 && n > 16 ==> LoadResult(nvs) == CapacityExceeded
    ensures v == 0 && 0 < n <= 16 ==> LoadResult(nvs) == SchemaTooNew
    ensures AfterLoad(nvs) != nvs ==> LoadResult(nvs).Ok? && (v != 3 || |Loaded(nvs)| != n)
  {
  }

  /** A version of another type is corrupt, and so is a count of another type under a version up to 3. */
  lemma {:induction false} BadMetadata(nvs: Nvs, v: nat)
    ensures SchemaVer in nvs && !nvs[SchemaVer].U8? ==> LoadResult(nvs) == Corrupt
    ensures VersionIs(nvs, v) && v <= 3 && Count in nvs && !nvs[Count].U8? ==> LoadResult(nvs) == Corrupt
  {
  }

  ghost predicate Kept(nvs: Nvs, version: nat, i: nat) { exists e :: Describes(nvs, version, i, e) }

  /** The number of describing records below n. */
  ghost function KeptBelow(nvs: Nvs, version: nat, n: nat): nat {
    if n == 0 then 0 else KeptBelow(nvs, version, n - 1) + if Kept(nvs, version, n - 1) then 1 else 0
  }

  lemma {:induction false} KeptIff(nvs: Nvs, version: nat, i: nat)
    ensures Kept(nvs, version, i) <==> LoadEntry(nvs, version, i).Some?
  {
    var r := LoadEntry(nvs, version, i);
    if r.Some? { RecordIff(nvs, version, i, r.value); }
    if Kept(nvs, version, i) {
      var e :| Describes(nvs, version, i, e);
      RecordIff(nvs, version, i, e);
    }
  }

  lemma {:induction false} ReadableNext(nvs: Nvs, version: nat, n: nat, e: Entry)
    ensures var r, t := Readable(nvs, version, n), Readable(nvs, version, n + 1);
            && (Describes(nvs, version, n, e) ==> t == r + [e])
            && (!Kept(nvs, version, n) ==> t == r)
            && |t| == |r| + (if Kept(nvs, version, n) then 1 else 0) && r <= t
  {
    KeptIff(nvs, version, n);
    RecordIff(nvs, version, n, e);
  }

  lemma {:induction false} ReadableAt(nvs: Nvs, version: nat, n: nat, j: nat, e: Entry)
    ensures |Readable(nvs, version, n)| == KeptBelow(nvs, version, n)
    ensures j < n && Describes(nvs, version, j, e) ==>
              var k := KeptBelow(nvs, version, j); k < |Readable(nvs, version, n)| && Readable(nvs, version, n)[k] == e
  {
    if n > 0 {
      ReadableAt(nvs, version, n - 1, j, e);
      ReadableNext(nvs, version, n - 1, e);
    }
  }

  /** A successful load returns exactly the described devices in record order: as many as there are describing records, and
      the device of each record at the place given by the number of describing records before it. */
  lemma {:induction false} LoadedIsDescribed(nvs: Nvs, v: nat, n: nat, j: nat, e: Entry)
    requires LoadResult(nvs).Ok? && VersionIs(nvs, v) && CountIs(nvs, n)
    ensures |Loaded(nvs)| == KeptBelow(nvs, v, n)
    ensures j < n && Describes(nvs, v, j, e) ==>
              var k := KeptBelow(nvs, v, j); k < |Loaded(nvs)| && Loaded(nvs)[k] == e
  {
    ReadableAt(nvs, v, n, j, e);
  }

  // ----- the writer

  function RecordKeys(i: nat): set<Key> { {Id(i), Name(i), Type(i), Addr(i), AType(i)} }

  /** Writing a record leaves every other key alone and makes the record describe the entry, without a legacy type; erasing
      it removes its keys alone. */
  lemma {:induction false} WriteEffect(nvs: Nvs, i: nat, e: Entry, k: Key)
    requires EntryOk(e)
    ensures Describes(Save(nvs, i, e), 3, i, e) && Type(i) !in Save(nvs, i, e)
    ensures k !in RecordKeys(i) ==> (k in Save(nvs, i, e) <==> k in nvs) && (k in nvs ==> Save(nvs, i, e)[k] == nvs[k])
    ensures Erase(nvs, i).Keys == nvs.Keys - RecordKeys(i)
    ensures k in Erase(nvs, i) ==> Erase(nvs, i)[k] == nvs[k]
  {
  }
}
