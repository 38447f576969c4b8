/** Fixed tables keyed by device id. The transaction table and the record table are searched, claimed and released by
    the same scans. */
module DeviceTables {
  import opened Basics
  import opened Search

  const MAX_DEVICES: nat := 16

  datatype Cell<T> = Free | Held(device: string, item: T)

  function HeldBy<T>(d: string): Cell<T> -> bool { (c: Cell<T>) => c.Held? && c.device == d }

  function IsFree<T>(): Cell<T> -> bool { (c: Cell<T>) => c.Free? }

  /** What the scan for a device finds. */
  function Lookup<T>(cells: seq<Cell<T>>, d: string): Option<T> {
    var k := FirstIndex(cells, HeldBy(d));
    if k < 0 then None else Some(cells[k].item)
  }

  /** Every held cell has a name, and no name holds two cells. */
  ghost predicate Keyed<T>(cells: seq<Cell<T>>) {
    && (forall i :: 0 <= i < |cells| && cells[i].Held? ==> cells[i].device != "")
    && (forall i, j :: 0 <= i < j < |cells| && cells[i].Held? && cells[j].Held? ==> cells[i].device != cells[j].device)
  }

  lemma {:induction false} LookupHeld<T>(cells: seq<Cell<T>>, k: nat)
    requires Keyed(cells) && k < |cells| && cells[k].Held?
    ensures Lookup(cells, cells[k].device) == Some(cells[k].item)
  {
    FirstIndexUnique(cells, HeldBy(cells[k].device), k);
  }

  /** Rewriting one cell is seen only by the devices that held it before or after. */
  lemma {:induction false} LookupOther<T>(cells: seq<Cell<T>>, k: nat, c: Cell<T>, o: string)
    requires Keyed(cells) && k < |cells|
    requires cells[k].Held? ==> o != cells[k].device
    requires c.Held? ==> o != c.device
    ensures Lookup(cells[k := c], o) == Lookup(cells, o)
  {
    var n := FirstIndex(cells, HeldBy(o));
    FirstIndexUnique(cells[k := c], HeldBy(o), n);
  }

  /** A released device is found no more. */
  lemma {:induction false} LookupReleased<T>(cells: seq<Cell<T>>, k: nat)
    requires Keyed(cells) && k < |cells| && cells[k].Held?
    ensures Lookup(cells[k := Free], cells[k].device) == None
  {
    FirstIndexUnique(cells[k := Free], HeldBy(cells[k].device), -1);
  }

  /** `items` is what the scans find: the item held under each device id. */
  class DeviceTable<T> {
    const cells: array<Cell<T>>
    ghost var items: map<string, T>

    ghost predicate Valid()
      reads this, cells
    {
      && cells.Length == MAX_DEVICES && Keyed(cells[..]) && "" !in items
      && (forall i :: 0 <= i < cells.Length && cells[i].Held? ==> cells[i].device in items && items[cells[i].device] == cells[i].item)
      && (forall d {:trigger Lookup(cells[..], d)} :: Lookup(cells[..], d) == if d in items then Some(items[d]) else None)
    }

    constructor ()
      ensures Valid() && fresh(cells) && items == map[]
    {
      cells, items := new Cell<T>[MAX_DEVICES](_ => Free), map[];
      new;
      forall d ensures Lookup(cells[..], d) == None { FirstIndexUnique(cells[..], HeldBy(d), -1); }
    }

    /** The lookup scan; no device has the empty id. */
    method Find(d: string) returns (k: int)
      requires Valid()
      ensures -1 <= k < cells.Length
      ensures k < 0 ==> d !in items
      ensures k >= 0 ==> cells[k].Held? && cells[k].device == d && d in items && items[d] == cells[k].item
    {
      k := 0;
      while k < cells.Length
        invariant 0 <= k <= cells.Length
        invariant forall j :: 0 <= j < k ==> !HeldBy(d)(cells[j])
      {
        if cells[k].Held? && cells[k].device == d { return; }
        k := k + 1;
      }
      FirstIndexUnique(cells[..], HeldBy(d), -1);
      assert Lookup(cells[..], d) == None;
      k := -1;
    }

    /** The allocation scan: the first free cell goes to the device. */
    method Claim(d: string, x: T) returns (k: int)
      requires Valid() && d != "" && d !in items
      modifies this, cells
      ensures Valid() && -1 <= k < cells.Length
      ensures k == old(FirstIndex(cells[..], IsFree()))
      ensures k < 0 ==> cells[..] == old(cells[..]) && items == old(items)
      ensures k >= 0 ==> cells[..] == old(cells[..])[k := Held(d, x)] && items == old(items)[d := x]
    {
      k := 0;
      while k < cells.Length && cells[k].Held?
        invariant 0 <= k <= cells.Length
        invariant forall j :: 0 <= j < k ==> cells[j].Held?
      {
        k := k + 1;
      }
      if k == cells.Length {
        FirstIndexUnique(cells[..], IsFree(), -1);
        k := -1;
        return;
      }
      FirstIndexUnique(cells[..], IsFree(), k);
      Store(k, Held(d, x));
    }

    /** Claim a cell, and give it back unless it is to be kept. */
    method ClaimIf(d: string, x: T, keep: bool) returns (ok: bool)
      requires Valid() && d != "" && d !in items
      modifies this, cells
      ensures Valid() && ok == (keep && old(FirstIndex(cells[..], IsFree()) >= 0))
      ensures !ok ==> cells[..] == old(cells[..]) && items == old(items)
      ensures ok ==> items == old(items)[d := x]
      ensures forall i :: 0 <= i < cells.Length && old(cells[i].Held?) ==> cells[i] == old(cells[i])
    {
      var k := Claim(d, x);
      if k >= 0 && !keep {
        Release(k);
        assert items == old(items);
      }
      return k >= 0 && keep;
    }

    /** Rewrite one cell, for the device that holds it or for a new one. */
    method Store(k: nat, c: Cell<T>)
      requires Valid() && k < cells.Length && c.Held? && c.device != ""
      requires if cells[k].Held? then cells[k].device == c.device else c.device !in items
      modifies this, cells
      ensures Valid() && cells[..] == old(cells[..])[k := c] && items == old(items)[c.device := c.item]
    {
      ghost var before := cells[..];
      cells[k] := c;
      items := items[c.device := c.item];
      assert cells[..] == before[k := c];
      LookupHeld(cells[..], k);
      forall o ensures Lookup(cells[..], o) == if o in items then Some(items[o]) else None {
        if o != c.device { LookupOther(before, k, c, o); }
      }
    }

    /** Release whatever device holds the cell. */
    method Release(k: nat)
      requires Valid() && k < cells.Length
      modifies this, cells
      ensures Valid() && cells[..] == old(cells[..])[k := Free]
      ensures items == if old(cells[k].Held?) then old(items) - {old(cells[k].device)} else old(items)
    {
      ghost var before := cells[..];
      if cells[k].Held? { items := items - {cells[k].device}; }
      cells[k] := Free;
      assert cells[..] == before[k := Free];
      forall o ensures Lookup(cells[..], o) == if o in items then Some(items[o]) else None {
        if before[k].Held? && o == before[k].device { LookupReleased(before, k); } else { LookupOther(before, k, Free, o); }
      }
    }
  }
}
