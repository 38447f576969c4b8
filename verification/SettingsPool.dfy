/** The two shared pools of the settings schema builder: NUL-terminated strings packed at four-byte
    boundaries, and enum options kept contiguous per descriptor by shifting. */
module SettingsPool {

  // ----- strings

  /** The C string at an offset; offsets past the used part read as empty. */
  function CString(chars: seq<char>, off: nat): string
    decreases |chars| - off
  {
    if off >= |chars| || chars[off] == '\0' then "" else [chars[off]] + CString(chars, off + 1)
  }

  /** The string at `off` ends inside the pool. */
  ghost predicate Terminated(chars: seq<char>, off: nat) { exists e :: off <= e < |chars| && chars[e] == '\0' }

  /** Bytes a string takes: its NUL included, rounded up to a multiple of four. */
  function Footprint(s: string): (n: nat)
    ensures n % 4 == 0 && |s| + 1 <= n <= |s| + 4
  {
    (|s| + 4) / 4 * 4
  }

  lemma {:induction false} StringKept(chars: seq<char>, more: seq<char>, off: nat)
    requires Terminated(chars, off)
    ensures CString(chars + more, off) == CString(chars, off) && Terminated(chars + more, off)
    decreases |chars| - off
  {
    var e :| off <= e < |chars| && chars[e] == '\0';
    assert (chars + more)[e] == '\0';
    if chars[off] != '\0' {
      assert Terminated(chars, off + 1);
      StringKept(chars, more, off + 1);
    }
  }

  lemma {:induction false} StringAdded(chars: seq<char>, s: string, rest: seq<char>)
    requires '\0' !in s && |rest| > 0 && rest[0] == '\0'
    ensures CString(chars + s + rest, |chars|) == s && Terminated(chars + s + rest, |chars|)
    decreases |s|
  {
    assert (chars + s + rest)[|chars| + |s|] == '\0';
    if |s| > 0 {
      StringAdded(chars + [s[0]], s[1..], rest);
      assert chars + [s[0]] + s[1..] + rest == chars + s + rest;
      assert (chars + s + rest)[|chars|] == s[0];
    }
  }

  // ----- options

  datatype Desc = Desc(idOff: nat, titleOff: nat, groupOff: nat, unitOff: nat, kind: nat, optionCount: nat, optionIndex: nat)
  datatype EnumOption = EnumOption(value: nat, labelOff: nat)

  /** Descriptor d's options end inside the pool. */
  predicate Fits(d: Desc, pool: seq<EnumOption>) { d.optionIndex + d.optionCount <= |pool| }

  function Slice(d: Desc, pool: seq<EnumOption>): seq<EnumOption>
    requires Fits(d, pool)
  {
    pool[d.optionIndex..d.optionIndex + d.optionCount]
  }

  predicate Apart(d: Desc, e: Desc) {
    d.optionCount == 0 || e.optionCount == 0
    || d.optionIndex + d.optionCount <= e.optionIndex || e.optionIndex + e.optionCount <= d.optionIndex
  }

  predicate Holds(d: Desc, p: int) { d.optionIndex <= p < d.optionIndex + d.optionCount }

  ghost predicate Covered(descs: seq<Desc>, p: int) { exists i :: 0 <= i < |descs| && Holds(descs[i], p) }

  function Total(descs: seq<Desc>): nat { if |descs| == 0 then 0 else descs[0].optionCount + Total(descs[1..]) }

  /** Slices lie in the pool, are pairwise disjoint, cover the pool, and add up to it. */
  ghost predicate Layout(descs: seq<Desc>, pool: seq<EnumOption>) {
    && (forall i :: 0 <= i < |descs| ==> Fits(descs[i], pool))
    && (forall i, j :: 0 <= i < j < |descs| ==> Apart(descs[i], descs[j]))
    && (forall p :: 0 <= p < |pool| ==> Covered(descs, p))
    && Total(descs) == |pool|
  }

  /** Where a new option of descriptor k goes. */
  function InsertAt(descs: seq<Desc>, pool: seq<EnumOption>, k: nat): nat
    requires k < |descs|
  {
    if descs[k].optionCount == 0 then |pool| else descs[k].optionIndex + descs[k].optionCount
  }

  /** Descriptor i after an option of descriptor k was inserted at `at` in a pool of n options. */
  function Shifted(d: Desc, isParent: bool, at: nat, n: nat): Desc {
    if isParent then d.(optionIndex := if d.optionCount == 0 then at else d.optionIndex, optionCount := d.optionCount + 1)
    else if at < n && d.optionCount > 0 && d.optionIndex >= at then d.(optionIndex := d.optionIndex + 1)
    else d
  }

  function ShiftAll(descs: seq<Desc>, k: nat, at: nat, n: nat): (r: seq<Desc>)
    ensures |r| == |descs| && forall i :: 0 <= i < |r| ==> r[i] == Shifted(descs[i], i == k, at, n)
  {
    seq(|descs|, i requires 0 <= i < |descs| => Shifted(descs[i], i == k, at, n))
  }

  function Inserted(pool: seq<EnumOption>, at: nat, o: EnumOption): seq<EnumOption>
    requires at <= |pool|
  {
    pool[..at] + [o] + pool[at..]
  }

  lemma {:induction false} TotalUpdate(a: seq<Desc>, b: seq<Desc>, k: nat)
    requires k < |a| == |b|
    requires forall i :: 0 <= i < |a| ==> b[i].optionCount == a[i].optionCount + if i == k then 1 else 0
    ensures Total(b) == Total(a) + 1
  {
    if k > 0 {
      TotalUpdate(a[1..], b[1..], k - 1);
    } else {
      TotalSame(a[1..], b[1..]);
    }
  }

  lemma {:induction false} TotalSame(a: seq<Desc>, b: seq<Desc>)
    requires |a| == |b| && forall i :: 0 <= i < |a| ==> b[i].optionCount == a[i].optionCount
    ensures Total(b) == Total(a)
  {
    if |a| > 0 { TotalSame(a[1..], b[1..]); }
  }

  lemma {:induction false} TotalAppend(a: seq<Desc>, d: Desc)
    requires d.optionCount == 0
    ensures Total(a + [d]) == Total(a)
  {
    if |a| > 0 {
      assert (a + [d])[1..] == a[1..] + [d];
      TotalAppend(a[1..], d);
    }
  }

  lemma {:induction false} TotalBound(a: seq<Desc>, m: nat)
    requires forall i :: 0 <= i < |a| ==> a[i].optionCount <= m
    ensures Total(a) <= |a| * m
  {
    if |a| > 0 {
      TotalBound(a[1..], m);
      assert |a| * m == (|a| - 1) * m + m;
    }
  }

  /** The insertion point splits no other slice. */
  lemma {:induction false} NoneSplit(descs: seq<Desc>, pool: seq<EnumOption>, k: nat, i: nat)
    requires Layout(descs, pool) && k < |descs| && i < |descs| && i != k && descs[i].optionCount > 0
    ensures var at := InsertAt(descs, pool, k); at <= |pool| && (at <= descs[i].optionIndex || descs[i].optionIndex + descs[i].optionCount <= at)
  {
    assert Fits(descs[k], pool) && Fits(descs[i], pool);
    assert if i < k then Apart(descs[i], descs[k]) else Apart(descs[k], descs[i]);
  }

  /** The heart of the builder: inserting appends to the parent's slice and leaves every other slice as it was. */
  lemma {:induction false} InsertSlices(descs: seq<Desc>, pool: seq<EnumOption>, k: nat, o: EnumOption, i: nat)
    requires Layout(descs, pool) && k < |descs| && i < |descs|
    ensures var at := InsertAt(descs, pool, k);
            && at <= |pool|
            && var d, pool' := ShiftAll(descs, k, at, |pool|)[i], Inserted(pool, at, o);
               Fits(d, pool') && Slice(d, pool') == if i == k then Slice(descs[k], pool) + [o] else Slice(descs[i], pool)
  {
    var at := InsertAt(descs, pool, k);
    assert Fits(descs[k], pool) && Fits(descs[i], pool);
    var d, pool' := ShiftAll(descs, k, at, |pool|)[i], Inserted(pool, at, o);
    if i == k {
      assert Slice(d, pool') == Slice(descs[k], pool) + [o];
    } else {
      if descs[i].optionCount > 0 { NoneSplit(descs, pool, k, i); }
      assert |Slice(d, pool')| == |Slice(descs[i], pool)|;
      forall j | 0 <= j < |Slice(d, pool')| ensures Slice(d, pool')[j] == Slice(descs[i], pool)[j] {}
      assert Slice(d, pool') == Slice(descs[i], pool);
    }
  }

  lemma {:induction false} InsertApart(descs: seq<Desc>, pool: seq<EnumOption>, k: nat, i: nat, j: nat)
    requires Layout(descs, pool) && k < |descs| && i < j < |descs|
    ensures var r := ShiftAll(descs, k, InsertAt(descs, pool, k), |pool|); Apart(r[i], r[j])
  {
    assert Apart(descs[i], descs[j]) && Fits(descs[i], pool) && Fits(descs[j], pool);
    if i != k && descs[i].optionCount > 0 { NoneSplit(descs, pool, k, i); }
    if j != k && descs[j].optionCount > 0 { NoneSplit(descs, pool, k, j); }
  }

  lemma {:induction false} InsertCovers(descs: seq<Desc>, pool: seq<EnumOption>, k: nat, o: EnumOption, p: int)
    requires Layout(descs, pool) && k < |descs| && 0 <= p <= |pool|
    ensures var r := ShiftAll(descs, k, InsertAt(descs, pool, k), |pool|); Covered(r, p)
  {
    var at := InsertAt(descs, pool, k);
    var r := ShiftAll(descs, k, at, |pool|);
    assert Fits(descs[k], pool);
    if p == at {
      assert Holds(r[k], p);
    } else {
      var q := if p < at then p else p - 1;
      assert Covered(descs, q);
      var i :| 0 <= i < |descs| && Holds(descs[i], q);
      if i != k { NoneSplit(descs, pool, k, i); }
      assert Holds(r[i], p);
    }
  }

  lemma {:induction false} InsertLayout(descs: seq<Desc>, pool: seq<EnumOption>, k: nat, o: EnumOption)
    requires Layout(descs, pool) && k < |descs|
    ensures var at := InsertAt(descs, pool, k); at <= |pool| && Layout(ShiftAll(descs, k, at, |pool|), Inserted(pool, at, o))
  {
    var at := InsertAt(descs, pool, k);
    assert Fits(descs[k], pool);
    var r, pool' := ShiftAll(descs, k, at, |pool|), Inserted(pool, at, o);
    forall i | 0 <= i < |r| ensures Fits(r[i], pool') { InsertSlices(descs, pool, k, o, i); }
    forall i, j | 0 <= i < j < |r| ensures Apart(r[i], r[j]) { InsertApart(descs, pool, k, i, j); }
    forall p | 0 <= p < |pool'| ensures Covered(r, p) { InsertCovers(descs, pool, k, o, p); }
    TotalUpdate(descs, r, k);
  }

  /** A new descriptor starts with an empty slice at the pool's end. */
  lemma {:induction false} AppendLayout(descs: seq<Desc>, pool: seq<EnumOption>, d: Desc)
    requires Layout(descs, pool) && d.optionCount == 0 && d.optionIndex == |pool|
    ensures Layout(descs + [d], pool)
  {
    TotalAppend(descs, d);
    var r := descs + [d];
    forall p | 0 <= p < |pool| ensures Covered(r, p) {
      assert Covered(descs, p);
      var i :| 0 <= i < |descs| && Holds(descs[i], p);
      assert Holds(r[i], p);
    }
  }
}
