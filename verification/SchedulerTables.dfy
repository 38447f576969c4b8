/** The scheduler run in place: the tables are arrays, every public call and worker phase scans and
    updates them with loops, and each method is proved equal to its function in module Scheduler. */
module SchedulerTables {
  import opened Basics
  import opened Search
  import opened Scheduler

  class ControlScheduler {
    const slots: array<Slot>
    const devices: array<Device>
    const leases: array<Lease>
    var nextJob: nat
    var nextLease: nat
    var inflight: nat
    var rr: nat
    var highBurst: nat
    var conflicts: nat

    ghost predicate Valid()
      reads this, leases
    {
      && slots.Length == MAX_JOBS && devices.Length == MAX_DEVICES && leases.Length == MAX_DEVICES && rr < MAX_DEVICES
      && forall j :: 0 <= j < leases.Length ==> leases[j].device < MAX_DEVICES
    }

    /** The contents of all tables and counters. */
    ghost function View(): Sched
      reads this, slots, devices, leases
    {
      Sched(slots[..], devices[..], leases[..], nextJob, nextLease, inflight, rr, highBurst, conflicts)
    }

    constructor ()
      ensures Valid() && View() == Initial() && fresh(slots) && fresh(devices) && fresh(leases)
    {
      slots := new Slot[MAX_JOBS](i => FreeSlot(0));
      devices := new Device[MAX_DEVICES](i => ZERO_DEVICE);
      leases := new Lease[MAX_DEVICES](i => ZERO_LEASE);
      nextJob, nextLease, inflight, rr, highBurst, conflicts := 0, 0, 0, 0, 0, 0;
      new;
      var v := Initial();
      assert slots[..] == v.slots && devices[..] == v.devices && leases[..] == v.leases;
    }

    /** ctrl_find_device_locked. */
    method FindDevice(id: string, create: bool) returns (r: int)
      requires Valid()
      modifies devices
      ensures create ==> r == RowFor(old(devices[..]), id) && devices[..] == RowsWith(old(devices[..]), id)
      ensures !create ==> r == FirstIndex(old(devices[..]), RowNamed(id)) && devices[..] == old(devices[..])
    {
      for i := 0 to MAX_DEVICES
        invariant forall j :: 0 <= j < i ==> !RowNamed(id)(devices[j])
        invariant devices[..] == old(devices[..])
      {
        if devices[i].used && devices[i].id == id {
          FirstIndexUnique(devices[..], RowNamed(id), i);
          return i;
        }
      }
      FirstIndexUnique(devices[..], RowNamed(id), -1);
      if !create { return -1; }
      for i := 0 to MAX_DEVICES
        invariant forall j :: 0 <= j < i ==> !RowUnused()(devices[j])
        invariant devices[..] == old(devices[..])
      {
        if !devices[i].used {
          FirstIndexUnique(devices[..], RowUnused(), i);
          devices[i] := devices[i].(used := true, inflightSlot := -1, id := id);
          return i;
        }
      }
      FirstIndexUnique(devices[..], RowUnused(), -1);
      return -1;
    }

    /** The dedupe scan of a submit: stops at the first duplicate for DROP, supersedes all for REPLACE. */
    method Deduplicate(job: Job) returns (dropped: int)
      requires Valid()
      modifies slots
      ensures job.dedupe.DropIfExists? ==> dropped == FirstIndex(old(slots[..]), SlotDuplicate(job))
      ensures !job.dedupe.DropIfExists? ==> dropped == -1
      ensures slots[..] == DedupePass(old(slots[..]), job)
    {
      for i := 0 to MAX_JOBS
        invariant forall j :: 0 <= j < i ==> slots[j] == DedupePass(old(slots[..]), job)[j]
        invariant forall j :: i <= j < MAX_JOBS ==> slots[j] == old(slots[j])
        invariant job.dedupe.DropIfExists? ==> forall j :: 0 <= j < i ==> !SlotDuplicate(job)(old(slots[j]))
      {
        if slots[i].state.Queued? && !job.dedupe.NoDedupe? && JobEqual(slots[i].job, job) {
          if job.dedupe.DropIfExists? {
            assert slots[..] == old(slots[..]);
            FirstIndexUnique(slots[..], SlotDuplicate(job), i);
            return i;
          }
          slots[i] := slots[i].(terminal := Superseded, state := CompletionPending);
        }
      }
      if job.dedupe.DropIfExists? {
        assert slots[..] == old(slots[..]);
        FirstIndexUnique(slots[..], SlotDuplicate(job), -1);
      }
      return -1;
    }

    method FindFreeSlot() returns (k: int)
      requires Valid()
      ensures k == FirstIndex(slots[..], SlotFree())
    {
      k := -1;
      for i := 0 to MAX_JOBS
        invariant k == -1
        invariant forall j :: 0 <= j < i ==> !SlotFree()(slots[j])
      {
        if slots[i].state.Free? { k := i; break; }
      }
      FirstIndexUnique(slots[..], SlotFree(), k);
    }

    method FindFreeLease() returns (k: int)
      requires Valid()
      ensures k == FirstIndex(leases[..], LeaseIsFree())
    {
      k := -1;
      for i := 0 to MAX_DEVICES
        invariant k == -1
        invariant forall j :: 0 <= j < i ==> !LeaseIsFree()(leases[j])
      {
        if leases[i].state.LeaseFree? { k := i; break; }
      }
      FirstIndexUnique(leases[..], LeaseIsFree(), k);
    }

    /** device_control_scheduler_submit. */
    method SubmitJob(job: Job, now: int) returns (r: SubmitResult)
      requires Valid()
      modifies this, slots, devices
      ensures Valid()
      ensures View() == Submit(old(View()), job, now)
      ensures r == SubmitResultOf(old(View()), job)
    {
      if job.request.device == "" || job.priority > BACKGROUND || job.source > SOURCE_INTERNAL { return InvalidArg; }
      if !job.dedupe.NoDedupe? && job.priority != BACKGROUND { return InvalidArg; }
      var row := FindDevice(job.request.device, true);
      if row < 0 { return NoMem; }
      var dropped := Deduplicate(job);
      if dropped >= 0 { return Dropped(slots[dropped].id); }
      r := PlaceJob(job, row, now);
    }

    /** The first free slot takes the job under a new id. */
    method PlaceJob(job: Job, row: nat, now: int) returns (r: SubmitResult)
      requires Valid()
      modifies this`nextJob, slots
      ensures var k := FirstIndex(old(slots[..]), SlotFree());
              if k < 0 then r == NoMem && slots[..] == old(slots[..]) && nextJob == old(nextJob)
              else r == Accepted(nextJob) && nextJob == old(nextJob) + 1
                   && slots[..] == old(slots[..])[k := NewSlot(old(slots[..])[k], nextJob, job, row, now)]
    {
      var k := FindFreeSlot();
      if k < 0 { return NoMem; }
      nextJob := nextJob + 1;
      slots[k] := NewSlot(slots[k], nextJob, job, row, now);
      return Accepted(nextJob);
    }

    /** The slot half of ctrl_cancel_match; `device` is the in-flight device to cancel at the command service. */
    method CancelSlots(key: CancelKey) returns (found: bool, device: Option<string>)
      requires Valid()
      modifies slots
      ensures forall i :: 0 <= i < MAX_JOBS ==> slots[i] == CancelSlot(old(slots[i]), key)
      ensures found <==> exists i :: 0 <= i < MAX_JOBS && CancelsSlot(old(slots[i]), key)
      ensures device.Some? <==> exists i :: 0 <= i < MAX_JOBS && CancelsSlot(old(slots[i]), key) && old(slots[i]).state.Inflight?
      ensures device.Some? ==> exists i :: 0 <= i < MAX_JOBS && CancelsSlot(old(slots[i]), key)
                                           && old(slots[i]).state.Inflight? && old(slots[i]).job.request.device == device.value
    {
      found, device := false, None;
      for i := 0 to MAX_JOBS
        invariant forall j :: 0 <= j < i ==> slots[j] == CancelSlot(old(slots[j]), key)
        invariant forall j :: i <= j < MAX_JOBS ==> slots[j] == old(slots[j])
        invariant found <==> exists j :: 0 <= j < i && CancelsSlot(old(slots[j]), key)
        invariant device.Some? <==> exists j :: 0 <= j < i && CancelsSlot(old(slots[j]), key) && old(slots[j]).state.Inflight?
        invariant device.Some? ==> exists j :: 0 <= j < i && CancelsSlot(old(slots[j]), key)
                                               && old(slots[j]).state.Inflight? && old(slots[j]).job.request.device == device.value
      {
        var x := slots[i];
        var skip := x.state.Free? || (key.JobId? && x.id != key.id) || (!key.JobId? && x.job.request.device != key.device)
                    || (key.DeviceOwner? && (x.job.source != key.source || x.job.owner != key.owner));
        if !skip {
          found := true;
          if x.state.Inflight? {
            device := Some(x.job.request.device);
          } else {
            slots[i] := x.(terminal := CancelledJob, state := CompletionPending);
          }
        }
      }
    }

    /** One lease record's turn in ctrl_cancel_match. */
    method CancelLeaseRecord(i: nat, key: CancelKey) returns (hit: bool)
      requires Valid() && !key.JobId? && i < MAX_DEVICES
      modifies leases, devices
      ensures hit == CancelsLease(old(leases[i]), old(devices[..]), key)
      ensures leases[..] == old(leases[..])[i := CancelLease(old(leases[i]), old(devices[..]), key)]
      ensures devices[..] == if hit && old(leases[i]).state.LeaseActive?
                             then var d := old(leases[i]).device; old(devices[..])[d := old(devices[d]).(lease := 0)]
                             else old(devices[..])
    {
      var l := leases[i];
      hit := !l.state.LeaseFree? && devices[l.device].id == key.device
             && (key.DeviceOwner? ==> l.source == key.source && l.owner == key.owner);
      if hit {
        if l.state.LeaseActive? {
          devices[l.device] := devices[l.device].(lease := 0);
          leases[i] := l.(state := LeaseFree);
        } else {
          leases[i] := l.(granted := false, state := LeaseCompletionPending);
        }
      }
    }

    /** The lease half of ctrl_cancel_match. */
    method CancelLeases(key: CancelKey) returns (found: bool)
      requires Valid() && !key.JobId?
      modifies leases, devices
      ensures forall j :: 0 <= j < MAX_DEVICES ==> leases[j] == CancelLease(old(leases[j]), old(devices[..]), key)
      ensures forall d :: 0 <= d < MAX_DEVICES ==>
                devices[d] == RevokedRow(old(leases[..]), old(devices[..]), d, key, MAX_DEVICES)
      ensures found <==> exists j :: 0 <= j < MAX_DEVICES && CancelsLease(old(leases[j]), old(devices[..]), key)
    {
      found := false;
      ghost var ls, ds := leases[..], devices[..];
      for i := 0 to MAX_DEVICES
        invariant forall j :: 0 <= j < i ==> leases[j] == CancelLease(ls[j], ds, key)
        invariant forall j :: i <= j < MAX_DEVICES ==> leases[j] == ls[j]
        invariant forall d :: 0 <= d < MAX_DEVICES ==> devices[..][d] == RevokedRow(ls, ds, d, key, i)
        invariant found <==> exists j :: 0 <= j < i && CancelsLease(ls[j], ds, key)
      {
        ghost var before := devices[..];
        assert CancelLease(ls[i], before, key) == CancelLease(ls[i], ds, key);
        var hit := CancelLeaseRecord(i, key);
        found := found || hit;
        forall d | 0 <= d < MAX_DEVICES ensures devices[..][d] == RevokedRow(ls, ds, d, key, i + 1) {
          RevokedRowStep(ls, ds, d, key, i);
        }
      }
    }

    /** ctrl_cancel_match. */
    method CancelMatch(key: CancelKey) returns (found: bool, device: Option<string>)
      requires Valid()
      modifies slots, leases, devices
      ensures Valid()
      ensures View() == Cancel(old(View()), key)
      ensures found <==> CancelFound(old(View()), key)
      ensures device.Some? <==> exists i :: 0 <= i < MAX_JOBS && CancelsSlot(old(slots[i]), key) && old(slots[i]).state.Inflight?
      ensures device.Some? ==> exists i :: 0 <= i < MAX_JOBS && CancelsSlot(old(slots[i]), key)
                                           && old(slots[i]).state.Inflight? && old(slots[i]).job.request.device == device.value
    {
      ghost var was := View();
      found, device := CancelSlots(key);
      assert slots[..] == Cancel(was, key).slots;
      if !key.JobId? {
        var more := CancelLeases(key);
        found := found || more;
      }
      assert leases[..] == Cancel(was, key).leases;
      assert devices[..] == Cancel(was, key).devices;
    }

    /** device_control_scheduler_acquire_lease. */
    method AcquireLease(q: LeaseRequest) returns (ok: bool)
      requires Valid()
      modifies this, devices, leases
      ensures Valid()
      ensures View() == Acquire(old(View()), q)
      ensures ok == AcquireAccepted(old(View()), q)
    {
      if q.device == "" || q.priority > BACKGROUND { return false; }
      var row := FindDevice(q.device, true);
      var k := FindFreeLease();
      if row < 0 || k < 0 { return false; }
      nextLease := nextLease + 1;
      leases[k] := Lease(LeasePending, nextLease, row, q.source, q.owner, true);
      return true;
    }

    /** device_control_scheduler_release_lease. */
    method ReleaseLease(id: nat) returns (r: ReleaseResult)
      requires Valid()
      modifies devices, leases
      ensures Valid()
      ensures View() == Release(old(View()), id)
      ensures r == ReleaseResultOf(old(View()), id)
    {
      if id == 0 { return ReleaseInvalidArg; }
      for i := 0 to MAX_DEVICES
        invariant forall j :: 0 <= j < i ==> !LeaseIsActive(id)(leases[j])
        invariant leases[..] == old(leases[..]) && devices[..] == old(devices[..])
      {
        if leases[i].state.LeaseActive? && leases[i].id == id {
          FirstIndexUnique(leases[..], LeaseIsActive(id), i);
          var d := leases[i].device;
          if devices[d].lease != id { return ReleaseInvalidState; }
          devices[d] := devices[d].(lease := 0);
          leases[i] := leases[i].(state := LeaseFree);
          return Released;
        }
      }
      FirstIndexUnique(leases[..], LeaseIsActive(id), -1);
      return ReleaseNotFound;
    }

    /** The critical section of one record's turn in ctrl_process_leases. */
    method ProcessLeaseRecord(i: nat) returns (cb: Option<(nat, bool)>)
      requires Valid() && i < MAX_DEVICES
      modifies devices, leases
      ensures Valid()
      ensures View() == ProcessLease(old(View()), i)
      ensures cb == LeaseCallback(old(View()), i)
    {
      cb := None;
      var l := leases[i];
      if l.state.LeaseCompletionPending? {
        cb := Some((l.id, l.granted));
        leases[i] := ZERO_LEASE;
      } else if l.state.LeasePending? {
        var d := devices[l.device];
        if !d.blocked && !d.inflight && d.lease == 0 {
          devices[l.device] := d.(lease := l.id);
          leases[i] := l.(state := LeaseActive);
          cb := Some((l.id, true));
        }
      }
    }

    /** device_control_scheduler_block_device: true when a row was found or claimed. */
    method BlockDevice(device: string) returns (ok: bool)
      requires Valid()
      modifies devices
      ensures Valid() && View() == Block(old(View()), device)
      ensures ok == (device != "" && RowFor(old(devices[..]), device) >= 0)
    {
      if device == "" { return false; }
      var d := FindDevice(device, true);
      if d >= 0 { devices[d] := devices[d].(blocked := true); }
      return d >= 0;
    }

    /** device_control_scheduler_unblock_device: true when the device has a row. */
    method UnblockDevice(device: string) returns (ok: bool)
      requires Valid()
      modifies devices
      ensures Valid() && View() == Unblock(old(View()), device)
      ensures ok == (FirstIndex(old(devices[..]), RowNamed(device)) >= 0)
    {
      var d := FindDevice(device, false);
      if d >= 0 { devices[d] := devices[d].(blocked := false); }
      return d >= 0;
    }

    /** The first pass of ctrl_process. */
    method PromoteAndExpire(now: int)
      requires Valid()
      modifies slots
      ensures Valid()
      ensures View() == Promote(old(View()), now)
    {
      for i := 0 to MAX_JOBS
        invariant forall j :: 0 <= j < i ==> slots[j] == PromoteSlot(old(slots[j]), now)
        invariant forall j :: i <= j < MAX_JOBS ==> slots[j] == old(slots[j])
      {
        if slots[i].state.EnqueuePending? { slots[i] := slots[i].(state := Queued); }
        if slots[i].state.Queued? && slots[i].deadline != 0 && now >= slots[i].deadline {
          slots[i] := slots[i].(terminal := DeadlineExceeded, result := ZERO_RESULT, state := CompletionPending);
        }
      }
      assert slots[..] == Promote(old(View()), now).slots;
    }

    /** First critical section of ctrl_complete_slot; the callback is made between the two. */
    method BeginCompletion(i: nat) returns (cb: Option<Callback>)
      requires Valid() && i < MAX_JOBS && slots[i].device < MAX_DEVICES
      modifies this, slots, devices
      ensures Valid()
      ensures View() == CompleteBegin(old(View()), i)
      ensures cb == CompletionOf(old(View()), i)
    {
      if !slots[i].state.CompletionPending? { return None; }
      var d := slots[i].device;
      if devices[d].inflightSlot == i {
        devices[d] := devices[d].(inflightSlot := -1, inflight := false);
        if inflight > 0 { inflight := inflight - 1; }
      }
      cb := Some(Callback(slots[i].id, slots[i].terminal, slots[i].result));
      slots[i] := slots[i].(state := Completing);
    }

    /** Second critical section of ctrl_complete_slot. */
    method EndCompletion(i: nat)
      requires Valid() && i < MAX_JOBS
      modifies slots
      ensures Valid()
      ensures View() == CompleteEnd(old(View()), i)
    {
      slots[i] := FreeSlot(slots[i].generation);
    }

    /** The first pass of select_slot_locked. */
    method NormalAvailable() returns (r: bool)
      requires Valid()
      ensures r == NormalQueued(View())
    {
      r := false;
      for i := 0 to MAX_JOBS
        invariant r <==> exists j :: 0 <= j < i && slots[j].state.Queued? && slots[j].job.priority == NORMAL
      {
        if slots[i].state.Queued? && slots[i].job.priority == NORMAL { r := true; }
      }
      ghost var v := View();
      assert forall j :: 0 <= j < MAX_JOBS ==> v.slots[j] == slots[j];
    }

    /** One device row's turn in select_slot_locked: the inner loop over slots. */
    method ScanRow(offset: nat, best0: int, normal: bool) returns (best: int)
      requires Valid() && offset < MAX_DEVICES && normal == NormalQueued(View())
      requires BestSoFar(View(), best0, offset, 0)
      ensures BestSoFar(View(), best, offset + 1, 0)
    {
      ghost var v := View();
      best := best0;
      var d := (rr + offset) % MAX_DEVICES;
      assert Offset(rr, d) == offset;
      RowsApart(rr, d);
      var dev := devices[d];
      if !dev.used || dev.blocked || dev.inflight {
        RowSkipped(v, best, offset);
        return;
      }
      for i := 0 to MAX_JOBS
        invariant BestSoFar(v, best, offset, i)
      {
        ghost var was := best;
        var x := slots[i];
        assert x == v.slots[i];
        if x.state.Queued? && x.device == d {
          if !(dev.lease != 0 && x.job.lease != dev.lease)
             && !(highBurst >= HIGH_BURST_MAX && normal && x.job.priority == HIGH)
             && (best < 0 || x.job.priority < slots[best].job.priority) {
            best := i;
          }
        }
        SlotMet(v, was, offset, i, best);
      }
      RowDone(v, best, offset);
    }

    /** select_slot_locked. */
    method SelectSlot() returns (best: int)
      requires Valid()
      ensures best == Selected(View())
    {
      best := -1;
      var normal := NormalAvailable();
      for offset := 0 to MAX_DEVICES
        invariant BestSoFar(View(), best, offset, 0)
      {
        best := ScanRow(offset, best, normal);
      }
      var r := Selected(View());
      assert r >= 0 ==> Scanned(View(), r, MAX_DEVICES, 0);
    }

    /** The critical section of dispatch_one; the returned slot is then submitted to the command service. */
    method DispatchNext() returns (index: int)
      requires Valid()
      modifies this, slots, devices
      ensures Valid()
      ensures View() == Dispatch(old(View()))
      ensures index == DispatchChoice(old(View()))
    {
      if inflight >= MAX_INFLIGHT { return -1; }
      index := SelectSlot();
      if index < 0 { return; }
      var x := slots[index];
      slots[index] := x.(state := Inflight, ctxSlot := index, ctxGen := x.generation);
      devices[x.device] := devices[x.device].(inflight := true, inflightSlot := index);
      inflight := inflight + 1;
      rr := (x.device + 1) % MAX_DEVICES;
      if x.job.priority == HIGH { highBurst := highBurst + 1; }
      else if x.job.priority == NORMAL { highBurst := 0; }
    }

    /** The failure branch of dispatch_one. */
    method DispatchRefused(i: nat, noMem: bool)
      requires Valid() && i < MAX_JOBS
      modifies slots
      ensures Valid()
      ensures View() == DispatchFailed(old(View()), i, noMem)
    {
      if slots[i].state.Inflight? {
        slots[i] := slots[i].(result := slots[i].result.(status := if noMem then QueueFull else Internal),
                              terminal := Command, written := true, state := CompletionPending);
      }
    }

    /** ctrl_dcs_complete: `p` is the slot whose context record the service was handed. */
    method OnServiceComplete(p: nat, result: CommandResult)
      requires Valid() && p < MAX_JOBS
      modifies this, slots
      ensures Valid()
      ensures View() == ServiceComplete(old(View()), p, result)
    {
      var k, g := slots[p].ctxSlot, slots[p].ctxGen;
      if k >= MAX_JOBS { return; }
      if !slots[k].state.Inflight? || slots[k].generation != g || slots[k].written {
        conflicts := conflicts + 1;
        return;
      }
      slots[k] := slots[k].(result := result, terminal := Command, written := true, state := CompletionPending);
    }
  }

  /** Slot j was met by the scan before row position `offset`, slot i of that row. */
  ghost predicate Scanned(s: Sched, j: nat, offset: nat, i: nat) {
    && Eligible(s, j)
    && (Offset(s.rr, s.slots[j].device) < offset || (Offset(s.rr, s.slots[j].device) == offset && j < i))
  }

  /** The scan's running answer is the least scanned slot. */
  ghost predicate BestSoFar(s: Sched, best: int, offset: nat, i: nat) {
    && -1 <= best < |s.slots|
    && (best == -1 ==> forall j :: 0 <= j < |s.slots| ==> !Scanned(s, j, offset, i))
    && (best >= 0 ==> Scanned(s, best, offset, i)
                      && forall j :: 0 <= j < |s.slots| && j != best && Scanned(s, j, offset, i) ==> Before(s, best, j))
  }

  lemma {:induction false} SlotMet(s: Sched, best: int, offset: nat, i: nat, best': int)
    requires Shaped(s) && i < |s.slots| && BestSoFar(s, best, offset, i)
    requires best' == if Eligible(s, i) && Offset(s.rr, s.slots[i].device) == offset
                         && (best < 0 || s.slots[i].job.priority < s.slots[best].job.priority) then i else best
    ensures BestSoFar(s, best', offset, i + 1)
  {
    var n := i + 1;
    assert best >= 0 ==> Scanned(s, best, offset, n);
    forall j | 0 <= j < |s.slots| && Scanned(s, j, offset, n) ensures best' >= 0 && (j != best' ==> Before(s, best', j)) {
      assert Scanned(s, j, offset, i) || (j == i && Offset(s.rr, s.slots[i].device) == offset);
      if j != best && j != i { assert best >= 0 && Before(s, best, j); }
    }
  }

  lemma {:induction false} RowDone(s: Sched, best: int, offset: nat)
    requires Shaped(s) && BestSoFar(s, best, offset, |s.slots|)
    ensures BestSoFar(s, best, offset + 1, 0)
  {
    var o := offset + 1;
    forall j | 0 <= j < |s.slots| ensures Scanned(s, j, o, 0) == Scanned(s, j, offset, |s.slots|) {}
  }

  lemma {:induction false} RowSkipped(s: Sched, best: int, offset: nat)
    requires Shaped(s) && BestSoFar(s, best, offset, 0)
    requires forall j :: 0 <= j < |s.slots| && Eligible(s, j) ==> Offset(s.rr, s.slots[j].device) != offset
    ensures BestSoFar(s, best, offset + 1, 0)
  {
    var o := offset + 1;
    forall j | 0 <= j < |s.slots| ensures Scanned(s, j, o, 0) == Scanned(s, j, offset, 0) {}
  }

  /** Scan positions are injective on rows. */
  lemma {:induction false} RowsApart(rr: nat, d: nat)
    requires rr < MAX_DEVICES && d < MAX_DEVICES
    ensures forall e: nat :: e < MAX_DEVICES && Offset(rr, e) == Offset(rr, d) ==> e == d
  {
  }

  /** Row d after the first n lease records were cancelled. */
  ghost function RevokedRow(leases: seq<Lease>, devices: seq<Device>, d: nat, key: CancelKey, n: nat): Device
    requires n <= |leases| && d < |devices|
  {
    if exists j :: 0 <= j < n && leases[j].state.LeaseActive? && leases[j].device == d && CancelsLease(leases[j], devices, key)
    then devices[d].(lease := 0) else devices[d]
  }

  lemma {:induction false} RevokedRowStep(leases: seq<Lease>, devices: seq<Device>, d: nat, key: CancelKey, n: nat)
    requires n < |leases| && d < |devices|
    ensures RevokedRow(leases, devices, d, key, n + 1) ==
            if leases[n].state.LeaseActive? && leases[n].device == d && CancelsLease(leases[n], devices, key)
            then devices[d].(lease := 0) else RevokedRow(leases, devices, d, key, n)
  {
  }
}
