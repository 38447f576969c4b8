/** What every critical section of the scheduler keeps: job slots, device rows and lease records
    point at each other consistently. */
module SchedulerInvariant {
  import opened Search
  import opened Scheduler

  /** An occupied slot names a used row of its own device; an in-flight slot is the one its row points at. */
  ghost predicate SlotOk(s: Sched, i: nat)
    requires Shaped(s) && i < MAX_JOBS
  {
    var x := s.slots[i];
    && x.device < MAX_DEVICES
    && (!x.state.Free? ==>
          && s.devices[x.device].used && s.devices[x.device].id == x.job.request.device
          && 0 < x.id <= s.nextJob
          && ((x.state.EnqueuePending? || x.state.Queued? || x.state.Inflight?) ==> !x.written))
    && (x.state.Inflight? ==> s.devices[x.device].inflightSlot == i && x.ctxSlot == i && x.ctxGen == x.generation)
  }

  /** A row in flight points at an unfinished job of its own, and under a lease that job carries the lease. */
  ghost predicate RowOk(s: Sched, d: nat)
    requires Shaped(s) && d < MAX_DEVICES
  {
    var r := s.devices[d];
    && (!r.used ==> !r.inflight && r.lease == 0)
    && (r.used ==> (r.inflight <==> r.inflightSlot != -1))
    && (r.inflight ==>
          && 0 <= r.inflightSlot < MAX_JOBS
          && var x := s.slots[r.inflightSlot];
             (x.state.Inflight? || x.state.CompletionPending?) && x.device == d && (r.lease != 0 ==> x.job.lease == r.lease))
  }

  /** A lease record names a used row, and an ACTIVE record is the row's lease. */
  ghost predicate LeaseOk(s: Sched, j: nat)
    requires Shaped(s) && j < MAX_DEVICES
  {
    var l := s.leases[j];
    && l.device < MAX_DEVICES
    && (!l.state.LeaseFree? ==> s.devices[l.device].used && 0 < l.id <= s.nextLease)
    && (l.state.LeaseActive? ==> s.devices[l.device].lease == l.id)
  }

  ghost predicate HeldBy(s: Sched, d: nat, j: nat)
    requires Shaped(s) && d < MAX_DEVICES && j < MAX_DEVICES
  {
    s.leases[j].state.LeaseActive? && s.leases[j].device == d && s.leases[j].id == s.devices[d].lease
  }

  /** A leased row has an ACTIVE record behind it. */
  ghost predicate RowLeaseOk(s: Sched, d: nat)
    requires Shaped(s) && d < MAX_DEVICES
  {
    s.devices[d].lease != 0 ==> exists j: nat :: j < MAX_DEVICES && HeldBy(s, d, j)
  }

  ghost predicate Distinct(s: Sched)
    requires Shaped(s)
  {
    && (forall d, e :: 0 <= d < e < MAX_DEVICES && s.devices[d].used && s.devices[e].used ==>
          s.devices[d].id != s.devices[e].id)
    && (forall i, j :: 0 <= i < j < MAX_JOBS && !s.slots[i].state.Free? && !s.slots[j].state.Free? ==>
          s.slots[i].id != s.slots[j].id)
    && (forall i, j :: 0 <= i < j < MAX_DEVICES && !s.leases[i].state.LeaseFree? && !s.leases[j].state.LeaseFree? ==>
          s.leases[i].id != s.leases[j].id)
  }

  ghost function InflightRows(s: Sched): set<nat>
    requires Shaped(s)
  {
    set d: nat | d < MAX_DEVICES && s.devices[d].inflight
  }

  ghost predicate CountOk(s: Sched)
    requires Shaped(s)
  {
    s.inflight == |InflightRows(s)| <= MAX_INFLIGHT
  }

  ghost predicate Inv(s: Sched) {
    && Shaped(s)
    && (forall i: nat :: i < MAX_JOBS ==> SlotOk(s, i))
    && (forall d: nat :: d < MAX_DEVICES ==> RowOk(s, d))
    && (forall j: nat :: j < MAX_DEVICES ==> LeaseOk(s, j))
    && (forall d: nat :: d < MAX_DEVICES ==> RowLeaseOk(s, d))
    && Distinct(s) && CountOk(s)
  }

  lemma {:induction false} InitialInv()
    ensures Inv(Initial())
  {
    assert InflightRows(Initial()) == {};
  }

  /** The count is kept when no row's in-flight flag changes. */
  lemma {:induction false} CountKept(s: Sched, t: Sched)
    requires Shaped(s) && Shaped(t) && CountOk(s) && t.inflight == s.inflight
    requires forall d :: 0 <= d < MAX_DEVICES ==> t.devices[d].inflight == s.devices[d].inflight
    ensures CountOk(t)
  {
    assert InflightRows(t) == InflightRows(s);
  }

  /** Find-or-create adds at most one empty row. */
  lemma {:induction false} RowsWithInv(s: Sched, id: string)
    requires Inv(s)
    ensures var t := s.(devices := RowsWith(s.devices, id)); Inv(t)
    ensures var r := RowFor(s.devices, id); r >= 0 ==> var x := RowsWith(s.devices, id)[r]; x.used && x.id == id
  {
    var t := s.(devices := RowsWith(s.devices, id));
    CountKept(s, t);
    forall i: nat | i < MAX_JOBS ensures SlotOk(t, i) { assert SlotOk(s, i); }
    forall d: nat | d < MAX_DEVICES ensures RowOk(t, d) { assert RowOk(s, d); }
    forall j: nat | j < MAX_DEVICES ensures LeaseOk(t, j) { assert LeaseOk(s, j); }
    forall d: nat | d < MAX_DEVICES ensures RowLeaseOk(t, d) {
      assert RowOk(s, d) && RowLeaseOk(s, d);
      if t.devices[d].lease != 0 {
        var j: nat :| j < MAX_DEVICES && HeldBy(s, d, j);
        assert HeldBy(t, d, j);
      }
    }
  }

  /** Rewriting queued or finished slots to COMPLETION_PENDING keeps everything. */
  ghost predicate Retired(x: Slot, y: Slot) {
    || y == x
    || (!x.state.Free? && !x.state.Inflight? && y.state.CompletionPending?
        && y.id == x.id && y.job == x.job && y.device == x.device && y.generation == x.generation)
    || (x.state.EnqueuePending? && y == x.(state := Queued))
  }

  lemma {:induction false} RetiredInv(s: Sched, t: Sched)
    requires Inv(s) && t == s.(slots := t.slots) && |t.slots| == MAX_JOBS
    requires forall i :: 0 <= i < MAX_JOBS ==> Retired(s.slots[i], t.slots[i])
    ensures Inv(t)
  {
    CountKept(s, t);
    forall i: nat | i < MAX_JOBS ensures SlotOk(t, i) { assert SlotOk(s, i); }
    forall d: nat | d < MAX_DEVICES ensures RowOk(t, d) { assert RowOk(s, d); }
    forall j: nat | j < MAX_DEVICES ensures LeaseOk(t, j) { assert LeaseOk(s, j); }
    RowLeaseKept(s, t);
  }

  /** Filling a free slot with a fresh job keeps everything. */
  lemma {:induction false} FillInv(s: Sched, k: nat, x: Slot)
    requires Inv(s) && k < MAX_JOBS && s.slots[k].state.Free?
    requires x.state.EnqueuePending? && x.device < MAX_DEVICES && !x.written && x.id == s.nextJob + 1
    requires s.devices[x.device].used && s.devices[x.device].id == x.job.request.device
    ensures Inv(s.(slots := s.slots[k := x], nextJob := s.nextJob + 1))
  {
    var t := s.(slots := s.slots[k := x], nextJob := s.nextJob + 1);
    CountKept(s, t);
    forall i: nat | i < MAX_JOBS ensures SlotOk(t, i) { assert SlotOk(s, i); }
    forall d: nat | d < MAX_DEVICES ensures RowOk(t, d) { assert RowOk(s, d); }
    forall j: nat | j < MAX_DEVICES ensures LeaseOk(t, j) { assert LeaseOk(s, j); }
    RowLeaseKept(s, t);
    assert Distinct(t) by {
      forall i: nat | i < MAX_JOBS && !s.slots[i].state.Free? ensures s.slots[i].id != x.id { assert SlotOk(s, i); }
    }
  }

  lemma {:induction false} SubmitInv(s: Sched, job: Job, now: int)
    requires Inv(s)
    ensures Inv(Submit(s, job, now))
  {
    var row := RowFor(s.devices, job.request.device);
    if JobValid(job) && row >= 0 {
      RowsWithInv(s, job.request.device);
      var t := s.(devices := RowsWith(s.devices, job.request.device));
      var slots := DedupePass(s.slots, job);
      RetiredInv(t, t.(slots := slots));
      var k := FirstIndex(slots, SlotFree());
      if k >= 0 {
        FillInv(t.(slots := slots), k, NewSlot(slots[k], s.nextJob + 1, job, row, now));
      }
    }
  }

  lemma {:induction false} PromoteInv(s: Sched, now: int)
    requires Inv(s)
    ensures Inv(Promote(s, now))
  {
    RetiredInv(s, Promote(s, now));
  }

  /** A cancelled ACTIVE record is the only one behind its row. */
  lemma {:induction false} CancelLeasesOk(s: Sched, key: CancelKey)
    requires Inv(s)
    ensures var c := Cancel(s, key); forall j: nat :: j < MAX_DEVICES ==> LeaseOk(c, j)
  {
    var c := Cancel(s, key);
    forall j: nat | j < MAX_DEVICES ensures LeaseOk(c, j) {
      assert LeaseOk(s, j);
      var d := s.leases[j].device;
      if s.leases[j].state.LeaseActive? {
        forall m: nat | m < MAX_DEVICES && s.leases[m].state.LeaseActive? && s.leases[m].device == d ensures m == j {
          assert LeaseOk(s, m);
        }
      }
    }
  }

  lemma {:induction false} CancelRowLeasesOk(s: Sched, key: CancelKey)
    requires Inv(s)
    ensures var c := Cancel(s, key); forall d: nat :: d < MAX_DEVICES ==> RowLeaseOk(c, d)
  {
    var c := Cancel(s, key);
    forall d: nat | d < MAX_DEVICES ensures RowLeaseOk(c, d) {
      assert RowLeaseOk(s, d);
      if c.devices[d].lease != 0 {
        var j: nat :| j < MAX_DEVICES && HeldBy(s, d, j);
        assert !CancelsLease(s.leases[j], s.devices, key);
        assert HeldBy(c, d, j);
      }
    }
  }

  lemma {:induction false} CancelSlotsOk(s: Sched, key: CancelKey)
    requires Inv(s)
    ensures var c := Cancel(s, key);
            (forall i: nat :: i < MAX_JOBS ==> SlotOk(c, i)) && (forall d: nat :: d < MAX_DEVICES ==> RowOk(c, d)) && CountOk(c)
  {
    var c := Cancel(s, key);
    var u := s.(slots := c.slots);
    RetiredInv(s, u);
    CountKept(u, c);
    forall i: nat | i < MAX_JOBS ensures SlotOk(c, i) { assert SlotOk(u, i); }
    forall d: nat | d < MAX_DEVICES ensures RowOk(c, d) { assert RowOk(u, d); }
  }

  lemma {:induction false} CancelDistinct(s: Sched, key: CancelKey)
    requires Inv(s)
    ensures Distinct(Cancel(s, key))
  {
    RetiredInv(s, s.(slots := Cancel(s, key).slots));
  }

  lemma {:induction false} CancelInv(s: Sched, key: CancelKey)
    requires Inv(s)
    ensures Inv(Cancel(s, key))
  {
    CancelSlotsOk(s, key);
    CancelLeasesOk(s, key);
    CancelRowLeasesOk(s, key);
    CancelDistinct(s, key);
  }

  lemma {:induction false} AcquireInv(s: Sched, q: LeaseRequest)
    requires Inv(s)
    ensures Inv(Acquire(s, q))
  {
    if LeaseRequestValid(q) {
      RowsWithInv(s, q.device);
      var t := s.(devices := RowsWith(s.devices, q.device));
      var u := Acquire(s, q);
      if u != t {
        CountKept(t, u);
        forall i: nat | i < MAX_JOBS ensures SlotOk(u, i) { assert SlotOk(t, i); }
        forall d: nat | d < MAX_DEVICES ensures RowOk(u, d) { assert RowOk(t, d); }
        forall j: nat | j < MAX_DEVICES ensures LeaseOk(u, j) { assert LeaseOk(t, j); }
        forall d: nat | d < MAX_DEVICES ensures RowLeaseOk(u, d) {
          assert RowLeaseOk(t, d);
          if u.devices[d].lease != 0 {
            var j: nat :| j < MAX_DEVICES && HeldBy(t, d, j);
            assert HeldBy(u, d, j);
          }
        }
        assert Distinct(u) by {
          forall j: nat | j < MAX_DEVICES && !t.leases[j].state.LeaseFree? ensures t.leases[j].id != u.nextLease {
            assert LeaseOk(t, j);
          }
        }
      }
    }
  }

  lemma {:induction false} ReleaseInv(s: Sched, id: nat)
    requires Inv(s)
    ensures Inv(Release(s, id))
  {
    var t := Release(s, id);
    CountKept(s, t);
    var k := FirstIndex(s.leases, LeaseIsActive(id));
    forall i: nat | i < MAX_JOBS ensures SlotOk(t, i) { assert SlotOk(s, i); }
    forall d: nat | d < MAX_DEVICES ensures RowOk(t, d) { assert RowOk(s, d); }
    forall j: nat | j < MAX_DEVICES ensures LeaseOk(t, j) { assert LeaseOk(s, j); }
    forall d: nat | d < MAX_DEVICES ensures RowLeaseOk(t, d) {
      assert RowLeaseOk(s, d);
      if t.devices[d].lease != 0 {
        var j: nat :| j < MAX_DEVICES && HeldBy(s, d, j);
        assert HeldBy(t, d, j);
      }
    }
  }

  /** An ACTIVE lease is always released: the INVALID_STATE answer cannot occur. */
  lemma {:induction false} ReleaseSucceeds(s: Sched, id: nat, j: nat)
    requires Inv(s) && j < MAX_DEVICES && s.leases[j].state.LeaseActive? && s.leases[j].id == id
    ensures ReleaseResultOf(s, id).Released?
    ensures Release(s, id).devices[s.leases[j].device].lease == 0
  {
    assert LeaseOk(s, j);
    var k := FirstIndex(s.leases, LeaseIsActive(id));
    assert LeaseIsActive(id)(s.leases[j]);
    assert LeaseOk(s, k);
    assert k == j;
  }

  lemma {:induction false} ProcessLeaseInv(s: Sched, i: nat)
    requires Inv(s)
    ensures Inv(ProcessLease(s, i))
  {
    var t := ProcessLease(s, i);
    CountKept(s, t);
    forall k: nat | k < MAX_JOBS ensures SlotOk(t, k) { assert SlotOk(s, k); }
    forall d: nat | d < MAX_DEVICES ensures RowOk(t, d) {
      assert RowOk(s, d);
      if i < MAX_DEVICES { assert LeaseOk(s, i); }
    }
    forall j: nat | j < MAX_DEVICES ensures LeaseOk(t, j) { assert LeaseOk(s, j); }
    forall d: nat | d < MAX_DEVICES ensures RowLeaseOk(t, d) {
      assert RowLeaseOk(s, d);
      if t.devices[d].lease != 0 {
        if i < MAX_DEVICES && Grantable(s, i) && s.leases[i].device == d {
          assert HeldBy(t, d, i);
        } else {
          var j: nat :| j < MAX_DEVICES && HeldBy(s, d, j);
          assert HeldBy(t, d, j);
        }
      }
    }
  }

  lemma {:induction false} BlockInv(s: Sched, device: string)
    requires Inv(s)
    ensures Inv(Block(s, device)) && Inv(Unblock(s, device))
  {
    RowsWithInv(s, device);
    BlockedInv(s.(devices := RowsWith(s.devices, device)), RowFor(s.devices, device), true);
    BlockedInv(s, FirstIndex(s.devices, RowNamed(device)), false);
  }

  lemma {:induction false} BlockedInv(s: Sched, row: int, b: bool)
    requires Inv(s) && row < MAX_DEVICES
    ensures row >= 0 ==> Inv(s.(devices := s.devices[row := s.devices[row].(blocked := b)]))
  {
    if row >= 0 {
      var t := s.(devices := s.devices[row := s.devices[row].(blocked := b)]);
      CountKept(s, t);
      forall k: nat | k < MAX_JOBS ensures SlotOk(t, k) { assert SlotOk(s, k); }
      forall d: nat | d < MAX_DEVICES ensures RowOk(t, d) { assert RowOk(s, d); }
      forall j: nat | j < MAX_DEVICES ensures LeaseOk(t, j) { assert LeaseOk(s, j); }
      RowLeaseKept(s, t);
    }
  }

  /** Changes that leave the leases alone and every row's lease alone keep RowLeaseOk. */
  lemma {:induction false} RowLeaseKept(s: Sched, t: Sched)
    requires Shaped(s) && Shaped(t) && t.leases == s.leases
    requires forall d :: 0 <= d < MAX_DEVICES ==> t.devices[d].lease == s.devices[d].lease
    requires forall d: nat :: d < MAX_DEVICES ==> RowLeaseOk(s, d)
    ensures forall d: nat :: d < MAX_DEVICES ==> RowLeaseOk(t, d)
  {
    forall d: nat | d < MAX_DEVICES ensures RowLeaseOk(t, d) {
      assert RowLeaseOk(s, d);
      if t.devices[d].lease != 0 {
        var j: nat :| j < MAX_DEVICES && HeldBy(s, d, j);
        assert HeldBy(t, d, j);
      }
    }
  }

  lemma {:induction false} CompleteBeginInv(s: Sched, i: nat)
    requires Inv(s)
    ensures Inv(CompleteBegin(s, i))
  {
    var t := CompleteBegin(s, i);
    if Completable(s, i) {
      var d := s.slots[i].device;
      assert SlotOk(s, i) && RowOk(s, d);
      if s.devices[d].inflightSlot == i {
        assert InflightRows(t) == InflightRows(s) - {d};
      } else {
        CountKept(s, t);
      }
      RowLeaseKept(s, t);
      forall k: nat | k < MAX_JOBS ensures SlotOk(t, k) { assert SlotOk(s, k); }
      forall e: nat | e < MAX_DEVICES ensures RowOk(t, e) { assert RowOk(s, e); }
      forall j: nat | j < MAX_DEVICES ensures LeaseOk(t, j) { assert LeaseOk(s, j); }
    }
  }

  /** Wiping a finished slot that its row no longer points at. */
  lemma {:induction false} CompleteEndInv(s: Sched, i: nat)
    requires Inv(s) && i < MAX_JOBS && !s.slots[i].state.Inflight?
    requires s.slots[i].device < MAX_DEVICES && s.devices[s.slots[i].device].inflightSlot != i
    ensures Inv(CompleteEnd(s, i))
  {
    var t := CompleteEnd(s, i);
    CountKept(s, t);
    RowLeaseKept(s, t);
    assert SlotOk(s, i);
    forall k: nat | k < MAX_JOBS ensures SlotOk(t, k) { assert SlotOk(s, k); }
    forall e: nat | e < MAX_DEVICES ensures RowOk(t, e) { assert RowOk(s, e); }
    forall j: nat | j < MAX_DEVICES ensures LeaseOk(t, j) { assert LeaseOk(s, j); }
  }

  lemma {:induction false} DispatchSlotsOk(s: Sched, k: nat)
    requires Inv(s) && DispatchChoice(s) >= 0 && k < MAX_JOBS
    ensures SlotOk(Dispatch(s), k)
  {
    var i := DispatchChoice(s);
    assert SlotOk(s, i) && RowOk(s, s.slots[i].device) && SlotOk(s, k);
  }

  lemma {:induction false} DispatchRowsOk(s: Sched, e: nat)
    requires Inv(s) && DispatchChoice(s) >= 0 && e < MAX_DEVICES
    ensures RowOk(Dispatch(s), e)
  {
    var i := DispatchChoice(s);
    assert SlotOk(s, i) && RowOk(s, s.slots[i].device) && RowOk(s, e);
  }

  lemma {:induction false} DispatchCount(s: Sched)
    requires Inv(s) && DispatchChoice(s) >= 0
    ensures CountOk(Dispatch(s))
  {
    var i := DispatchChoice(s);
    assert SlotOk(s, i) && RowOk(s, s.slots[i].device);
    assert InflightRows(Dispatch(s)) == InflightRows(s) + {s.slots[i].device};
  }

  lemma {:induction false} DispatchInv(s: Sched)
    requires Inv(s)
    ensures Inv(Dispatch(s))
  {
    if DispatchChoice(s) >= 0 {
      var t := Dispatch(s);
      DispatchCount(s);
      RowLeaseKept(s, t);
      forall k: nat | k < MAX_JOBS ensures SlotOk(t, k) { DispatchSlotsOk(s, k); }
      forall e: nat | e < MAX_DEVICES ensures RowOk(t, e) { DispatchRowsOk(s, e); }
      forall j: nat | j < MAX_DEVICES ensures LeaseOk(t, j) { assert LeaseOk(s, j); }
    }
  }

  /** The service's answer to an in-flight slot finds the mailbox open and lands in that very slot. */
  lemma {:induction false} ServiceCompleteInv(s: Sched, p: nat, result: CommandResult)
    requires Inv(s) && p < MAX_JOBS && s.slots[p].state.Inflight?
    ensures MailboxOpen(s, p) && Inv(ServiceComplete(s, p, result))
    ensures ServiceComplete(s, p, result) ==
            s.(slots := s.slots[p := s.slots[p].(result := result, terminal := Command, written := true,
                                                 state := CompletionPending)])
  {
    var t := ServiceComplete(s, p, result);
    assert SlotOk(s, p);
    CountKept(s, t);
    RowLeaseKept(s, t);
    forall k: nat | k < MAX_JOBS ensures SlotOk(t, k) { assert SlotOk(s, k); }
    forall e: nat | e < MAX_DEVICES ensures RowOk(t, e) { assert RowOk(s, e); }
    forall j: nat | j < MAX_DEVICES ensures LeaseOk(t, j) { assert LeaseOk(s, j); }
  }

  // ----- what the invariant means

  ghost function InflightSlots(s: Sched): set<nat>
    requires Shaped(s)
  {
    set i: nat | i < MAX_JOBS && s.slots[i].state.Inflight?
  }

  /** At most four jobs are in flight. */
  lemma {:induction false} InflightBound(s: Sched)
    requires Inv(s)
    ensures |InflightSlots(s)| <= s.inflight <= MAX_INFLIGHT
  {
    var f := map i: nat | i < MAX_JOBS && s.slots[i].state.Inflight? :: s.slots[i].device;
    forall i | i in InflightSlots(s) ensures f[i] in InflightRows(s) {
      assert SlotOk(s, i) && RowOk(s, s.slots[i].device);
    }
    forall i, j | i in InflightSlots(s) && j in InflightSlots(s) && f[i] == f[j] ensures i == j {
      assert SlotOk(s, i) && SlotOk(s, j);
    }
    InjectionBound(InflightSlots(s), InflightRows(s), f);
  }

  /** Two jobs in flight are never for the same device id. */
  lemma {:induction false} InflightDevicesDiffer(s: Sched, i: nat, j: nat)
    requires Inv(s) && i < MAX_JOBS && j < MAX_JOBS && i != j
    requires s.slots[i].state.Inflight? && s.slots[j].state.Inflight?
    ensures s.slots[i].job.request.device != s.slots[j].job.request.device
  {
    assert SlotOk(s, i) && SlotOk(s, j);
    var d, e := s.slots[i].device, s.slots[j].device;
    assert s.devices[d].id != s.devices[e].id;
  }

  /** Leases are exclusive on row d: its lease id is non-zero exactly when an ACTIVE record names it, that record is
      the only one, and a job in flight on it carries that lease. */
  ghost predicate LeaseExclusive(s: Sched, d: nat)
    requires Shaped(s) && d < MAX_DEVICES
  {
    && (s.devices[d].lease != 0 <==> exists j: nat :: j < MAX_DEVICES && ActiveOn(s, j, d))
    && (forall j: nat :: j < MAX_DEVICES && ActiveOn(s, j, d) ==> s.leases[j].id == s.devices[d].lease)
    && (forall i: nat, j: nat :: i < MAX_DEVICES && j < MAX_DEVICES && ActiveOn(s, i, d) && ActiveOn(s, j, d) ==> i == j)
    && (forall i: nat :: i < MAX_JOBS && s.slots[i].state.Inflight? && s.slots[i].device == d && s.devices[d].lease != 0 ==>
          s.slots[i].job.lease == s.devices[d].lease)
  }

  ghost predicate ActiveOn(s: Sched, j: nat, d: nat)
    requires Shaped(s) && j < MAX_DEVICES
  {
    s.leases[j].state.LeaseActive? && s.leases[j].device == d
  }

  lemma {:induction false} LeasesAreExclusive(s: Sched, d: nat)
    requires Inv(s) && d < MAX_DEVICES
    ensures LeaseExclusive(s, d)
  {
    assert RowLeaseOk(s, d) && RowOk(s, d);
    if s.devices[d].lease != 0 {
      var j: nat :| j < MAX_DEVICES && HeldBy(s, d, j);
      assert ActiveOn(s, j, d);
    }
    forall j: nat | j < MAX_DEVICES && ActiveOn(s, j, d) ensures s.leases[j].id == s.devices[d].lease != 0 {
      assert LeaseOk(s, j);
    }
    forall i: nat | i < MAX_JOBS && s.slots[i].state.Inflight? && s.slots[i].device == d
      ensures s.devices[d].inflight && s.devices[d].inflightSlot == i {
      assert SlotOk(s, i);
    }
  }
}
