/** Deferred persistence of BLE identities: callbacks submit into a table, one worker takes a dirty entry,
    calls the device store outside the lock, and retires exactly the update it took. */
module IdentityPersister {
  import opened Search

  const MAX_DEVICES: nat := 16

  datatype Address = Address(bytes: seq<nat>, kind: nat)
  datatype Pending = Pending(device: string, addr: Address, generation: nat, dirty: bool)
  const UNUSED := Pending("", Address([], 0), 0, false)

  /** Between its critical sections the worker holds the copy it took; Stored means the store call ended terminally. */
  datatype Worker = Resting | Holding(snap: Pending) | Stored(snap: Pending)

  /** `latest`: last accepted address per device; `persisted`: address of the last terminal store call per device. */
  datatype Sys = Sys(table: seq<Pending>, worker: Worker, latest: map<string, Address>, persisted: map<string, Address>)

  function Boot(): Sys { Sys(Repeat(MAX_DEVICES, UNUSED), Resting, map[], map[]) }

  function Holds(device: string): Pending -> bool { (p: Pending) => (p.dirty || p.generation > 0) && p.device == device }
  function NeverUsed(): Pending -> bool { (p: Pending) => p.generation == 0 }
  function Dirty(): Pending -> bool { (p: Pending) => p.dirty }
  function Retires(s: Pending): Pending -> bool {
    (p: Pending) => p.dirty && p.generation == s.generation && p.device == s.device
  }

  /** The slot a submit uses: the device's own, else the first never used, else none. */
  function SlotFor(table: seq<Pending>, device: string): (k: int)
    ensures -1 <= k < |table|
  {
    var own := FirstIndex(table, Holds(device));
    if own >= 0 then own else FirstIndex(table, NeverUsed())
  }

  function Submitted(table: seq<Pending>, device: string, addr: Address): seq<Pending> {
    var k := SlotFor(table, device);
    if k < 0 then table
    else
      var p := table[k];
      table[k := Pending(if p.generation == 0 then device else p.device, addr, p.generation + 1, true)]
  }

  function Completed(table: seq<Pending>, snap: Pending): seq<Pending> {
    var k := FirstIndex(table, Retires(snap));
    if k < 0 then table else table[k := table[k].(dirty := false)]
  }

  /** Submits come from host callbacks at any time; the rest is the worker's loop. */
  datatype Action = Submit(device: string, addr: Address) | Take | StoreCall(terminal: bool) | Complete

  predicate Enabled(s: Sys, a: Action) {
    match a
    case Submit(_, _) => true
    case Take => s.worker.Resting?
    case StoreCall(_) => s.worker.Holding?
    case Complete => s.worker.Stored?
  }

  function Apply(s: Sys, a: Action): Sys
    requires Enabled(s, a)
  {
    match a
    case Submit(dev, addr) =>
      if SlotFor(s.table, dev) < 0 then s else s.(table := Submitted(s.table, dev, addr), latest := s.latest[dev := addr])
    case Take =>
      var k := FirstIndex(s.table, Dirty());
      if k < 0 then s else s.(worker := Holding(s.table[k]))
    case StoreCall(terminal) =>
      if terminal then s.(worker := Stored(s.worker.snap), persisted := s.persisted[s.worker.snap.device := s.worker.snap.addr])
      else s.(worker := Resting)
    case Complete => s.(table := Completed(s.table, s.worker.snap), worker := Resting)
  }

  /** Slot i carries the latest accepted address of its device, and once clean, so does the store. */
  ghost predicate SlotOk(s: Sys, p: Pending) {
    if p.generation == 0 then !p.dirty
    else p.device in s.latest && s.latest[p.device] == p.addr
         && (!p.dirty ==> p.device in s.persisted && s.persisted[p.device] == p.addr)
  }

  /** What the worker holds is the current update of a still-dirty slot, or an older one of it. */
  ghost predicate Backs(p: Pending, snap: Pending) {
    p.dirty && p.device == snap.device && 0 < snap.generation <= p.generation && (snap.generation == p.generation ==> snap.addr == p.addr)
  }

  predicate Owns(p: Pending, device: string) { p.generation > 0 && p.device == device }

  ghost predicate HasSlot(table: seq<Pending>, device: string) { exists i :: 0 <= i < |table| && Owns(table[i], device) }
  ghost predicate BackedBy(table: seq<Pending>, snap: Pending) { exists i :: 0 <= i < |table| && Backs(table[i], snap) }

  ghost predicate OneSlotEach(table: seq<Pending>) {
    forall i, j :: 0 <= i < j < |table| && table[i].generation > 0 && table[j].generation > 0 ==> table[i].device != table[j].device
  }

  ghost predicate Inv(s: Sys) {
    && |s.table| == MAX_DEVICES && OneSlotEach(s.table)
    && (forall i :: 0 <= i < MAX_DEVICES ==> SlotOk(s, s.table[i]))
    && (forall dev :: dev in s.latest ==> HasSlot(s.table, dev))
    && (!s.worker.Resting? ==> BackedBy(s.table, s.worker.snap))
    && (s.worker.Stored? ==> s.worker.snap.device in s.persisted && s.persisted[s.worker.snap.device] == s.worker.snap.addr)
  }

  /** A submit changes one slot, which then is the only one of its device. */
  lemma {:induction false} SubmitSlot(s: Sys, device: string, k: int)
    requires Inv(s) && k == SlotFor(s.table, device) >= 0
    ensures s.table[k].generation > 0 ==> s.table[k].device == device
    ensures forall i :: 0 <= i < MAX_DEVICES && i != k && s.table[i].generation > 0 ==> s.table[i].device != device
  {
    var own := FirstIndex(s.table, Holds(device));
    assert SlotOk(s, s.table[k]);
    forall i | 0 <= i < MAX_DEVICES && i != k && s.table[i].generation > 0 ensures s.table[i].device != device {
      assert own < 0 ==> !Holds(device)(s.table[i]);
    }
  }

  lemma {:induction false} SubmitKeeps(s: Sys, t: Sys, device: string, k: int)
    requires Inv(s) && k == SlotFor(s.table, device) >= 0
    requires |t.table| == MAX_DEVICES && t.table[k].device == device && t.table[k].generation == s.table[k].generation + 1 && t.table[k].dirty
    requires forall i :: 0 <= i < MAX_DEVICES && i != k ==> t.table[i] == s.table[i]
    ensures forall dev :: HasSlot(s.table, dev) ==> HasSlot(t.table, dev)
    ensures HasSlot(t.table, device)
    ensures forall snap :: BackedBy(s.table, snap) ==> BackedBy(t.table, snap)
  {
    SubmitSlot(s, device, k);
    assert Owns(t.table[k], device);
    forall dev | HasSlot(s.table, dev) ensures HasSlot(t.table, dev) {
      var i :| 0 <= i < |s.table| && Owns(s.table[i], dev);
      assert Owns(t.table[i], dev);
    }
    forall snap | BackedBy(s.table, snap) ensures BackedBy(t.table, snap) {
      var i :| 0 <= i < |s.table| && Backs(s.table[i], snap);
      assert Backs(t.table[i], snap);
    }
  }

  lemma {:induction false} SubmitTable(s: Sys, t: Sys, device: string, addr: Address, k: int)
    requires Inv(s) && 0 <= k < MAX_DEVICES && |t.table| == MAX_DEVICES && t.latest == s.latest[device := addr] && t.persisted == s.persisted
    requires t.table[k] == Pending(device, addr, s.table[k].generation + 1, true)
    requires forall i :: 0 <= i < MAX_DEVICES && i != k ==> t.table[i] == s.table[i]
    requires forall i :: 0 <= i < MAX_DEVICES && i != k && s.table[i].generation > 0 ==> s.table[i].device != device
    ensures OneSlotEach(t.table) && forall i :: 0 <= i < MAX_DEVICES ==> SlotOk(t, t.table[i])
  {
    forall i | 0 <= i < MAX_DEVICES ensures SlotOk(t, t.table[i]) { assert SlotOk(s, s.table[i]); }
  }

  lemma {:induction false} SubmitInv(s: Sys, device: string, addr: Address)
    requires Inv(s)
    ensures Inv(Apply(s, Submit(device, addr)))
  {
    var k := SlotFor(s.table, device);
    if k >= 0 {
      var t := Apply(s, Submit(device, addr));
      SubmitSlot(s, device, k);
      SubmitKeeps(s, t, device, k);
      SubmitTable(s, t, device, addr, k);
    }
  }

  lemma {:induction false} TakeInv(s: Sys)
    requires Inv(s) && s.worker.Resting?
    ensures Inv(Apply(s, Take))
  {
    var k := FirstIndex(s.table, Dirty());
    if k >= 0 {
      assert SlotOk(s, s.table[k]);
      assert Backs(s.table[k], Apply(s, Take).worker.snap);
    }
  }

  /** Storing an address, even an outdated one, cannot spoil a clean slot: the device's slot is dirty meanwhile. */
  lemma {:induction false} StoreInv(s: Sys, terminal: bool)
    requires Inv(s) && s.worker.Holding?
    ensures Inv(Apply(s, StoreCall(terminal)))
  {
    var k :| 0 <= k < |s.table| && Backs(s.table[k], s.worker.snap);
    var t := Apply(s, StoreCall(terminal));
    forall i | 0 <= i < MAX_DEVICES ensures SlotOk(t, t.table[i]) {
      assert SlotOk(s, s.table[i]);
      assert i != k && s.table[i].generation > 0 ==> s.table[i].device != s.table[k].device;
    }
    if terminal { assert Backs(t.table[k], t.worker.snap); }
  }

  lemma {:induction false} CompleteInv(s: Sys)
    requires Inv(s) && s.worker.Stored?
    ensures Inv(Apply(s, Complete))
  {
    var k := FirstIndex(s.table, Retires(s.worker.snap));
    RetiredSlot(s);
    if k >= 0 { CleanSlot(s, Apply(s, Complete), k); }
  }

  lemma {:induction false} CleanSlot(s: Sys, t: Sys, k: nat)
    requires Inv(s) && s.worker.Stored? && k < MAX_DEVICES && s.table[k].generation > 0
    requires s.table[k].device == s.worker.snap.device && s.table[k].addr == s.worker.snap.addr
    requires t == s.(table := s.table[k := s.table[k].(dirty := false)], worker := Resting)
    ensures Inv(t)
  {
    forall i | 0 <= i < MAX_DEVICES ensures SlotOk(t, t.table[i]) { assert SlotOk(s, s.table[i]); }
    forall dev | dev in t.latest ensures HasSlot(t.table, dev) {
      var i :| 0 <= i < |s.table| && Owns(s.table[i], dev);
      assert Owns(t.table[i], dev);
    }
  }

  /** The slot a completion cleans carries exactly the address that was stored. */
  lemma {:induction false} RetiredSlot(s: Sys)
    requires Inv(s) && s.worker.Stored?
    ensures var k := FirstIndex(s.table, Retires(s.worker.snap)); k >= 0 ==> s.table[k].addr == s.worker.snap.addr && s.table[k].generation > 0
  {
    var b :| 0 <= b < |s.table| && Backs(s.table[b], s.worker.snap);
    var k := FirstIndex(s.table, Retires(s.worker.snap));
    assert SlotOk(s, s.table[b]);
    if k >= 0 { assert k == b; }
  }

  lemma {:induction false} StepInv(s: Sys, a: Action)
    requires Inv(s) && Enabled(s, a)
    ensures Inv(Apply(s, a))
  {
    match a
    case Submit(dev, addr) => SubmitInv(s, dev, addr);
    case Take => TakeInv(s);
    case StoreCall(terminal) => StoreInv(s, terminal);
    case Complete => CompleteInv(s);
  }

  ghost predicate Fires(s: Sys, acts: seq<Action>)
    decreases |acts|
  {
    |acts| == 0 || (Enabled(s, acts[0]) && Fires(Apply(s, acts[0]), acts[1..]))
  }

  ghost function After(s: Sys, acts: seq<Action>): Sys
    requires Fires(s, acts)
    decreases |acts|
  {
    if |acts| == 0 then s else After(Apply(s, acts[0]), acts[1..])
  }

  lemma {:induction false} RunInv(s: Sys, acts: seq<Action>)
    requires Inv(s) && Fires(s, acts)
    ensures Inv(After(s, acts))
    decreases |acts|
  {
    if |acts| > 0 {
      StepInv(s, acts[0]);
      RunInv(Apply(s, acts[0]), acts[1..]);
    }
  }

  /** No update is lost under any interleaving: every device with an accepted update has a slot carrying the latest
      one, and if that slot is clean the last terminal store call for the device used it. */
  lemma {:induction false} CleanMeansPersisted(acts: seq<Action>, device: string)
    requires Fires(Boot(), acts) && device in After(Boot(), acts).latest
    ensures PersistedOrPending(After(Boot(), acts), device)
  {
    RunInv(Boot(), acts);
    var s := After(Boot(), acts);
    InvPersists(s, device);
  }

  lemma {:induction false} InvPersists(s: Sys, device: string)
    requires Inv(s) && device in s.latest
    ensures PersistedOrPending(s, device)
  {
    var i :| 0 <= i < |s.table| && Owns(s.table[i], device);
    assert SlotOk(s, s.table[i]);
  }

  /** The device's slot carries the latest accepted address, and when it is clean the store was last given that address. */
  ghost predicate PersistedOrPending(s: Sys, device: string)
    requires device in s.latest
  {
    exists i :: 0 <= i < |s.table| && Owns(s.table[i], device) && s.table[i].addr == s.latest[device]
                && (!s.table[i].dirty ==> device in s.persisted && s.persisted[device] == s.latest[device])
  }

  ghost predicate TakenByOthers(table: seq<Pending>, device: string) {
    forall i :: 0 <= i < |table| ==> table[i].generation > 0 && table[i].device != device
  }

  /** Slot k alone changed: it was the device's or unused, and it is dirty with the address under the next generation. */
  ghost predicate UpdatedAt(before: seq<Pending>, after: seq<Pending>, k: int, device: string, addr: Address) {
    && 0 <= k < |before| && |after| == |before| && (before[k].generation == 0 || before[k].device == device)
    && after == before[k := Pending(device, addr, before[k].generation + 1, true)]
    && forall i :: 0 <= i < |after| && i != k ==> !Owns(after[i], device)
  }

  /** In a reached state a submit is refused if and only if every slot belongs to another device. An accepted one marks the
      device's one slot dirty with the new address under the next generation, and leaves the other slots alone. */
  lemma {:induction false} SubmitEffect(s: Sys, device: string, addr: Address)
    requires Inv(s)
    ensures SlotFor(s.table, device) < 0 <==> TakenByOthers(s.table, device)
    ensures if TakenByOthers(s.table, device) then Submitted(s.table, device, addr) == s.table
            else UpdatedAt(s.table, Submitted(s.table, device, addr), SlotFor(s.table, device), device, addr)
  {
    var own, k := FirstIndex(s.table, Holds(device)), SlotFor(s.table, device);
    if own >= 0 { OwnSlot(s, device, own); }
    if k >= 0 {
      SubmitSlot(s, device, k);
      assert s.table[k].generation == 0 || s.table[k].device == device;
    } else {
      forall i | 0 <= i < MAX_DEVICES ensures s.table[i].generation > 0 && s.table[i].device != device {
        assert !NeverUsed()(s.table[i]) && !Holds(device)(s.table[i]);
      }
    }
  }

  lemma {:induction false} OwnSlot(s: Sys, device: string, k: nat)
    requires Inv(s) && k < MAX_DEVICES && Holds(device)(s.table[k])
    ensures s.table[k].generation > 0 && !TakenByOthers(s.table, device)
  {
    assert SlotOk(s, s.table[k]);
  }

  /** In a reached state a completion cleans the device's slot if no later update of it was accepted, and otherwise changes
      nothing. */
  lemma {:induction false} CompleteEffect(s: Sys, k: nat)
    requires Inv(s) && s.worker.Stored? && k < MAX_DEVICES && Owns(s.table[k], s.worker.snap.device)
    ensures Completed(s.table, s.worker.snap) ==
              if s.table[k].generation == s.worker.snap.generation then s.table[k := s.table[k].(dirty := false)] else s.table
  {
    var b :| 0 <= b < |s.table| && Backs(s.table[b], s.worker.snap);
    assert b == k;
    var r := FirstIndex(s.table, Retires(s.worker.snap));
    if r >= 0 { assert Owns(s.table[r], s.worker.snap.device); }
    assert s.table[k].generation == s.worker.snap.generation ==> Retires(s.worker.snap)(s.table[k]);
  }

  function DirtyCount(table: seq<Pending>): nat {
    if |table| == 0 then 0 else (if table[0].dirty then 1 else 0) + DirtyCount(table[1..])
  }

  lemma {:induction false} ClearOne(table: seq<Pending>, k: nat)
    requires k < |table| && table[k].dirty
    ensures DirtyCount(table[k := table[k].(dirty := false)]) == DirtyCount(table) - 1
  {
    var t := table[k := table[k].(dirty := false)];
    if k > 0 {
      assert t[1..] == table[1..][k - 1 := table[1..][k - 1].(dirty := false)];
      ClearOne(table[1..], k - 1);
    } else {
      assert t[1..] == table[1..];
    }
  }

  /** An undisturbed turn of the worker whose store call ends terminally retires one update, so the table drains. */
  lemma {:induction false} UndisturbedTurnDrains(s: Sys)
    requires Inv(s) && s.worker.Resting? && FirstIndex(s.table, Dirty()) >= 0
    ensures Fires(s, [Take, StoreCall(true), Complete])
    ensures var t := Apply(Apply(Apply(s, Take), StoreCall(true)), Complete);
            t.worker.Resting? && t.latest == s.latest && DirtyCount(t.table) == DirtyCount(s.table) - 1
  {
    var k := FirstIndex(s.table, Dirty());
    var p := s.table[k];
    assert [Take, StoreCall(true), Complete][1..] == [StoreCall(true), Complete];
    assert [StoreCall(true), Complete][1..] == [Complete];
    OwnRetired(s, k);
    ClearOne(s.table, k);
  }

  /** A completion right after the take finds the slot the copy came from. */
  lemma {:induction false} OwnRetired(s: Sys, k: nat)
    requires Inv(s) && k < MAX_DEVICES && s.table[k].dirty
    ensures FirstIndex(s.table, Retires(s.table[k])) == k
  {
    var r := FirstIndex(s.table, Retires(s.table[k]));
    assert Retires(s.table[k])(s.table[k]);
    assert SlotOk(s, s.table[k]) && SlotOk(s, s.table[r]);
  }

  // ----- the table in place

  class IdentityTable {
    const pending: array<Pending>

    ghost predicate Valid() { pending.Length == MAX_DEVICES }

    constructor ()
      ensures Valid() && pending[..] == Boot().table && fresh(pending)
    {
      pending := new Pending[MAX_DEVICES](i => UNUSED);
      new;
      assert pending[..] == Boot().table;
    }

    /** The critical section of ble_central_identity_submit. */
    method SubmitUpdate(device: string, addr: Address) returns (accepted: bool)
      requires Valid()
      modifies pending
      ensures pending[..] == Submitted(old(pending[..]), device, addr)
      ensures accepted == (SlotFor(old(pending[..]), device) >= 0)
    {
      var slot, claimed := -1, -1;
      for i := 0 to MAX_DEVICES
        invariant slot == -1 && -1 <= claimed < i
        invariant forall j :: 0 <= j < i ==> !Holds(device)(pending[j])
        invariant claimed >= 0 ==> NeverUsed()(pending[claimed]) && forall j :: 0 <= j < claimed ==> !NeverUsed()(pending[j])
        invariant claimed == -1 ==> forall j :: 0 <= j < i ==> !NeverUsed()(pending[j])
      {
        if (pending[i].dirty || pending[i].generation > 0) && pending[i].device == device { slot := i; break; }
        if claimed == -1 && pending[i].generation == 0 { claimed := i; }
      }
      FirstIndexUnique(pending[..], Holds(device), slot);
      if slot == -1 {
        FirstIndexUnique(pending[..], NeverUsed(), claimed);
        slot := claimed;
      }
      if slot == -1 { return false; }
      var p := pending[slot];
      pending[slot] := Pending(if p.generation == 0 then device else p.device, addr, p.generation + 1, true);
      return true;
    }

    /** identity_take_next. */
    method TakeNext() returns (snap: Pending, found: bool)
      requires Valid()
      ensures var k := FirstIndex(pending[..], Dirty()); found == (k >= 0) && (found ==> snap == pending[k])
    {
      snap, found := UNUSED, false;
      var k := -1;
      for i := 0 to MAX_DEVICES
        invariant k == -1 && forall j :: 0 <= j < i ==> !Dirty()(pending[j])
      {
        if pending[i].dirty { k := i; break; }
      }
      FirstIndexUnique(pending[..], Dirty(), k);
      if k >= 0 { snap, found := pending[k], true; }
    }

    /** identity_complete with success. */
    method Retire(snap: Pending)
      requires Valid()
      modifies pending
      ensures pending[..] == Completed(old(pending[..]), snap)
    {
      var k := -1;
      for i := 0 to MAX_DEVICES
        invariant k == -1 && forall j :: 0 <= j < i ==> !Retires(snap)(pending[j])
      {
        if pending[i].dirty && pending[i].generation == snap.generation && pending[i].device == snap.device { k := i; break; }
      }
      FirstIndexUnique(pending[..], Retires(snap), k);
      if k >= 0 { pending[k] := pending[k].(dirty := false); }
    }
  }
}
