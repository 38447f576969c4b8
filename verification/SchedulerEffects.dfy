/** What each call of the scheduler does to the tables, said on their fields: which jobs and leases it may touch,
    what becomes of them, and that everything else stays. */
module SchedulerEffects {
  import opened Basics
  import opened Search
  import opened Scheduler
  import opened SchedulerInvariant

  // ----- frames

  /** A job that was neither running nor gone is finished as cancelled; nothing else of it changes. */
  ghost predicate FinishedAs(x: Slot, y: Slot, why: Terminal) {
    && y.state == CompletionPending && y.terminal == why
    && y.id == x.id && y.job == x.job && y.device == x.device && y.generation == x.generation && y.result == x.result
    && y.deadline == x.deadline && y.written == x.written && y.ctxSlot == x.ctxSlot && y.ctxGen == x.ctxGen
  }

  ghost predicate OtherSlotsSame(s: Sched, t: Sched, k: int) {
    |t.slots| == |s.slots| && forall i :: 0 <= i < |s.slots| && i != k ==> t.slots[i] == s.slots[i]
  }

  ghost predicate OtherRowsSame(s: Sched, t: Sched, d: int) {
    |t.devices| == |s.devices| && forall e :: 0 <= e < |s.devices| && e != d ==> t.devices[e] == s.devices[e]
  }

  ghost predicate OtherLeasesSame(s: Sched, t: Sched, j: int) {
    |t.leases| == |s.leases| && forall i :: 0 <= i < |s.leases| && i != j ==> t.leases[i] == s.leases[i]
  }

  ghost predicate CountersSame(s: Sched, t: Sched) {
    && t.nextJob == s.nextJob && t.nextLease == s.nextLease && t.inflight == s.inflight && t.rr == s.rr
    && t.highBurst == s.highBurst && t.conflicts == s.conflicts
  }

  // ----- cancel

  /** A slot after a cancel that names it (`named`) or not. */
  ghost predicate SlotAfterCancel(x: Slot, y: Slot, named: bool) {
    && (!named || x.state == Free || x.state == Inflight ==> y == x)
    && (named && x.state != Free && x.state != Inflight ==> FinishedAs(x, y, CancelledJob))
  }

  /** A lease record after a cancel that names it or not: an ACTIVE one is free, another reports its failure. */
  ghost predicate LeaseAfterCancel(l: Lease, m: Lease, named: bool) {
    && m.id == l.id && m.device == l.device && m.source == l.source && m.owner == l.owner
    && (!named || l.state == LeaseFree ==> m == l)
    && (named && l.state == LeaseActive ==> m.state == LeaseFree && m.granted == l.granted)
    && (named && (l.state == LeasePending || l.state == LeaseCompletionPending) ==> m.state == LeaseCompletionPending && !m.granted)
  }

  /** Row d after a cancel: it keeps everything but, if its lease was revoked, the lease. */
  ghost predicate RowAfterCancel(r: Device, q: Device, revoked: bool) {
    && q.used == r.used && q.blocked == r.blocked && q.inflight == r.inflight && q.id == r.id && q.inflightSlot == r.inflightSlot
    && q.lease == if revoked then 0 else r.lease
  }

  /** An ACTIVE record of the source and owner holds row d. */
  ghost predicate HeldFor(s: Sched, d: int, source: nat, owner: nat) {
    exists j :: 0 <= j < |s.leases| && s.leases[j].state == LeaseActive && s.leases[j].device == d
                && s.leases[j].source == source && s.leases[j].owner == owner
  }

  /** The device of lease record j is the one with this id. */
  ghost predicate LeaseOn(s: Sched, j: int, dev: string)
    requires 0 <= j < |s.leases|
  {
    s.leases[j].device < |s.devices| && s.devices[s.leases[j].device].id == dev
  }

  /** Cancelling an owner's jobs on a device finishes exactly the jobs of that device, source and owner that are not in
      flight, drops exactly the leases of that device, source and owner, and leaves everything of another device, source
      or owner as it was. */
  lemma {:induction false} CancelByOwner(s: Sched, dev: string, src: nat, own: nat)
    ensures var t := Cancel(s, DeviceOwner(dev, src, own));
            && |t.slots| == |s.slots| && |t.leases| == |s.leases| && |t.devices| == |s.devices| && CountersSame(s, t)
            && (forall i :: 0 <= i < |s.slots| ==>
                  var j := s.slots[i].job; SlotAfterCancel(s.slots[i], t.slots[i], j.request.device == dev && j.source == src && j.owner == own))
            && (forall j :: 0 <= j < |s.leases| ==>
                  LeaseAfterCancel(s.leases[j], t.leases[j], LeaseOn(s, j, dev) && s.leases[j].source == src && s.leases[j].owner == own))
            && (forall d :: 0 <= d < |s.devices| ==>
                  RowAfterCancel(s.devices[d], t.devices[d], s.devices[d].id == dev && HeldFor(s, d, src, own)))
    ensures CancelFound(s, DeviceOwner(dev, src, own)) <==>
              || (exists i :: 0 <= i < |s.slots| && s.slots[i].state != Free
                              && s.slots[i].job.request.device == dev && s.slots[i].job.source == src && s.slots[i].job.owner == own)
              || (exists j :: 0 <= j < |s.leases| && s.leases[j].state != LeaseFree
                              && LeaseOn(s, j, dev) && s.leases[j].source == src && s.leases[j].owner == own)
  {
    OwnerLeases(s, dev, src, own);
    OwnerRows(s, dev, src, own);
    OwnerFound(s, dev, src, own);
  }

  lemma {:induction false} OwnerLeases(s: Sched, dev: string, src: nat, own: nat)
    ensures var t := Cancel(s, DeviceOwner(dev, src, own));
            && |t.leases| == |s.leases|
            && forall j :: 0 <= j < |s.leases| ==>
                 LeaseAfterCancel(s.leases[j], t.leases[j], LeaseOn(s, j, dev) && s.leases[j].source == src && s.leases[j].owner == own)
  {
  }

  lemma {:induction false} OwnerRows(s: Sched, dev: string, src: nat, own: nat)
    ensures var t := Cancel(s, DeviceOwner(dev, src, own));
            && |t.devices| == |s.devices|
            && forall d :: 0 <= d < |s.devices| ==>
                 RowAfterCancel(s.devices[d], t.devices[d], s.devices[d].id == dev && HeldFor(s, d, src, own))
  {
    var key := DeviceOwner(dev, src, own);
    forall d: nat | d < |s.devices| ensures Revoked(s, d, key) <==> s.devices[d].id == dev && HeldFor(s, d, src, own) {
      if Revoked(s, d, key) {
        var j :| 0 <= j < |s.leases| && s.leases[j].state.LeaseActive? && s.leases[j].device == d && CancelsLease(s.leases[j], s.devices, key);
        assert s.leases[j].source == src && s.leases[j].owner == own;
      }
      if s.devices[d].id == dev && HeldFor(s, d, src, own) {
        var j :| 0 <= j < |s.leases| && s.leases[j].state == LeaseActive && s.leases[j].device == d
                 && s.leases[j].source == src && s.leases[j].owner == own;
        assert CancelsLease(s.leases[j], s.devices, key);
      }
    }
  }

  lemma {:induction false} OwnerFound(s: Sched, dev: string, src: nat, own: nat)
    ensures CancelFound(s, DeviceOwner(dev, src, own)) <==>
              || (exists i :: 0 <= i < |s.slots| && s.slots[i].state != Free
                              && s.slots[i].job.request.device == dev && s.slots[i].job.source == src && s.slots[i].job.owner == own)
              || (exists j :: 0 <= j < |s.leases| && s.leases[j].state != LeaseFree
                              && LeaseOn(s, j, dev) && s.leases[j].source == src && s.leases[j].owner == own)
  {
    var key := DeviceOwner(dev, src, own);
    forall i | 0 <= i < |s.slots|
      ensures CancelsSlot(s.slots[i], key) <==> s.slots[i].state != Free && s.slots[i].job.request.device == dev
                                                && s.slots[i].job.source == src && s.slots[i].job.owner == own {}
    forall j | 0 <= j < |s.leases|
      ensures CancelsLease(s.leases[j], s.devices, key) <==> s.leases[j].state != LeaseFree && LeaseOn(s, j, dev)
                                                             && s.leases[j].source == src && s.leases[j].owner == own {}
  }

  /** Cancelling a device does the same for every job and lease of the device, whoever owns it. */
  lemma {:induction false} CancelByDevice(s: Sched, dev: string)
    ensures var t := Cancel(s, DeviceAll(dev));
            && |t.slots| == |s.slots| && |t.leases| == |s.leases| && |t.devices| == |s.devices| && CountersSame(s, t)
            && (forall i :: 0 <= i < |s.slots| ==> SlotAfterCancel(s.slots[i], t.slots[i], s.slots[i].job.request.device == dev))
            && (forall j :: 0 <= j < |s.leases| ==> LeaseAfterCancel(s.leases[j], t.leases[j], LeaseOn(s, j, dev)))
            && (forall d :: 0 <= d < |s.devices| ==>
                  RowAfterCancel(s.devices[d], t.devices[d],
                                 s.devices[d].id == dev
                                 && exists j :: 0 <= j < |s.leases| && s.leases[j].state == LeaseActive && s.leases[j].device == d))
    ensures CancelFound(s, DeviceAll(dev)) <==>
              || (exists i :: 0 <= i < |s.slots| && s.slots[i].state != Free && s.slots[i].job.request.device == dev)
              || (exists j :: 0 <= j < |s.leases| && s.leases[j].state != LeaseFree && LeaseOn(s, j, dev))
  {
    var key := DeviceAll(dev);
    forall d: nat | d < |s.devices|
      ensures Revoked(s, d, key) <==> s.devices[d].id == dev
                                      && exists j :: 0 <= j < |s.leases| && s.leases[j].state == LeaseActive && s.leases[j].device == d
    {
      if j :| 0 <= j < |s.leases| && s.leases[j].state == LeaseActive && s.leases[j].device == d && s.devices[d].id == dev {
        assert CancelsLease(s.leases[j], s.devices, key);
      }
    }
    forall i | 0 <= i < |s.slots|
      ensures CancelsSlot(s.slots[i], key) <==> s.slots[i].state != Free && s.slots[i].job.request.device == dev {}
    forall j | 0 <= j < |s.leases|
      ensures CancelsLease(s.leases[j], s.devices, key) <==> s.leases[j].state != LeaseFree && LeaseOn(s, j, dev) {}
  }

  /** Cancelling a job by id finishes the one job with that id unless it is in flight, and touches nothing else. */
  lemma {:induction false} CancelById(s: Sched, n: nat)
    ensures var t := Cancel(s, JobId(n));
            && |t.slots| == |s.slots| && CountersSame(s, t)
            && (forall i :: 0 <= i < |s.slots| ==> SlotAfterCancel(s.slots[i], t.slots[i], s.slots[i].id == n))
            && t.leases == s.leases && t.devices == s.devices
    ensures CancelFound(s, JobId(n)) <==> exists i :: 0 <= i < |s.slots| && s.slots[i].state != Free && s.slots[i].id == n
  {
    var t := Cancel(s, JobId(n));
    assert t.leases == s.leases && t.devices == s.devices;
    forall i | 0 <= i < |s.slots| ensures CancelsSlot(s.slots[i], JobId(n)) <==> s.slots[i].state != Free && s.slots[i].id == n {}
  }

  // ----- submit

  /** The row of a device: in use under its id, claimed from the unused ones if there was none. */
  ghost predicate RowClaimed(s: Sched, t: Sched, d: int, dev: string) {
    && 0 <= d < |s.devices| == |t.devices| && OtherRowsSame(s, t, d)
    && t.devices[d].used && t.devices[d].id == dev
    && (s.devices[d].used ==> t.devices[d] == s.devices[d])
    && (!s.devices[d].used ==> && (forall e :: 0 <= e < |s.devices| && s.devices[e].used ==> s.devices[e].id != dev)
                               && t.devices[d] == s.devices[d].(used := true, id := dev, inflightSlot := -1))
  }

  ghost predicate NoRow(s: Sched, dev: string) {
    forall d :: 0 <= d < |s.devices| ==> s.devices[d].used && s.devices[d].id != dev
  }

  lemma {:induction false} ClaimsRow(s: Sched, dev: string)
    ensures RowFor(s.devices, dev) < 0 <==> NoRow(s, dev)
    ensures RowFor(s.devices, dev) >= 0 ==> RowClaimed(s, s.(devices := RowsWith(s.devices, dev)), RowFor(s.devices, dev), dev)
  {
    var k, u := FirstIndex(s.devices, RowNamed(dev)), FirstIndex(s.devices, RowUnused());
    if k < 0 { assert forall e :: 0 <= e < |s.devices| ==> !RowNamed(dev)(s.devices[e]); }
    if u < 0 { assert forall e :: 0 <= e < |s.devices| ==> !RowUnused()(s.devices[e]); }
  }

  /** A queued job equal to the new one: same fingerprint, source, owner and request. */
  ghost predicate Twin(x: Slot, job: Job) {
    && x.state == Queued && x.job.hash == job.hash && x.job.source == job.source && x.job.owner == job.owner
    && x.job.request == job.request
  }

  /** Malformed jobs are refused and nothing changes: no device, an unknown priority or source, or a dedupe policy on a
      job that is not BACKGROUND. Every other job is judged by the tables. */
  lemma {:induction false} MalformedIff(s: Sched, job: Job, now: int)
    ensures SubmitResultOf(s, job).InvalidArg? <==>
              job.request.device == "" || job.priority > 3 || job.source > 5 || (job.dedupe != NoDedupe && job.priority != 3)
    ensures SubmitResultOf(s, job).InvalidArg? ==> Submit(s, job, now) == s
  {
  }

  /** A DROP_IF_EXISTS job with a queued twin is dropped in favour of the first twin; only a device row may be claimed. */
  lemma {:induction false} DropsForTwin(s: Sched, job: Job, now: int)
    requires JobValid(job) && !NoRow(s, job.request.device) && job.dedupe == DropIfExists
    ensures SubmitResultOf(s, job).Dropped? <==> exists i :: 0 <= i < |s.slots| && Twin(s.slots[i], job)
    ensures var t := Submit(s, job, now);
            SubmitResultOf(s, job).Dropped? ==>
              && (exists i :: 0 <= i < |s.slots| && Twin(s.slots[i], job) && SubmitResultOf(s, job) == Dropped(s.slots[i].id)
                              && forall j :: 0 <= j < i ==> !Twin(s.slots[j], job))
              && t.slots == s.slots && t.leases == s.leases && CountersSame(s, t)
              && exists d :: RowClaimed(s, t, d, job.request.device)
  {
    ClaimsRow(s, job.request.device);
    var k := FirstIndex(s.slots, SlotDuplicate(job));
    forall i | 0 <= i < |s.slots| ensures Twin(s.slots[i], job) <==> SlotDuplicate(job)(s.slots[i]) {}
    if k >= 0 {
      assert Twin(s.slots[k], job) && SubmitResultOf(s, job) == Dropped(s.slots[k].id);
      assert RowClaimed(s, Submit(s, job, now), RowFor(s.devices, job.request.device), job.request.device);
    }
  }

  /** A slot other than the new job's: a queued twin is superseded by a REPLACE_QUEUED job, the rest stay. */
  ghost predicate SlotAfterSubmit(x: Slot, y: Slot, job: Job) {
    && (job.dedupe == ReplaceQueued && Twin(x, job) ==> FinishedAs(x, y, Superseded))
    && (!(job.dedupe == ReplaceQueued && Twin(x, job)) ==> y == x)
  }

  /** Slot y holds the new job under the next id, waiting to be queued, with its deadline counted from now. */
  ghost predicate NewJobIn(x: Slot, y: Slot, job: Job, id: nat, row: int, now: int) {
    && x.state == Free && y.state == EnqueuePending && y.job == job && y.id == id && y.device == row
    && y.generation == x.generation + 1 && !y.written && y.result == CommandResult(Ok, 0, None)
    && y.deadline == if job.maxWaitMs == 0 then 0 else now + job.maxWaitMs * 1000
  }

  /** An accepted job takes the first free slot under the next id, on its device's row; queued twins are superseded if
      it asks for that, and every other job, every lease and every other row stays. */
  lemma {:induction false} AcceptedJob(s: Sched, job: Job, now: int) returns (k: nat, d: nat)
    requires SubmitResultOf(s, job).Accepted?
    ensures var t := Submit(s, job, now);
            && SubmitResultOf(s, job).id == t.nextJob == s.nextJob + 1
            && k < |s.slots| == |t.slots| && NewJobIn(s.slots[k], t.slots[k], job, t.nextJob, d, now)
            && (forall j :: 0 <= j < k ==> s.slots[j].state != Free)
            && (forall i :: 0 <= i < |s.slots| && i != k ==> SlotAfterSubmit(s.slots[i], t.slots[i], job))
            && RowClaimed(s, t, d, job.request.device) && t.leases == s.leases && CountersSame(s, t.(nextJob := s.nextJob))
  {
    ClaimsRow(s, job.request.device);
    d := RowFor(s.devices, job.request.device);
    var slots := DedupePass(s.slots, job);
    forall i | 0 <= i < |s.slots| ensures SlotAfterSubmit(s.slots[i], slots[i], job) && (slots[i].state == Free <==> s.slots[i].state == Free) {}
    k := FirstIndex(slots, SlotFree());
    assert forall j :: 0 <= j < k ==> !SlotFree()(slots[j]);
    assert slots[k] == s.slots[k];
  }

  /** A valid job that is not dropped is refused for want of room exactly when its device has no row and none is free, or
      no slot is free. */
  lemma {:induction false} NoRoomIff(s: Sched, job: Job)
    requires JobValid(job) && !(job.dedupe == DropIfExists && exists i :: 0 <= i < |s.slots| && Twin(s.slots[i], job))
    ensures SubmitResultOf(s, job).NoMem? <==> NoRow(s, job.request.device) || forall i :: 0 <= i < |s.slots| ==> s.slots[i].state != Free
    ensures SubmitResultOf(s, job).NoMem? || SubmitResultOf(s, job).Accepted?
  {
    ClaimsRow(s, job.request.device);
    var slots := DedupePass(s.slots, job);
    forall i | 0 <= i < |s.slots| ensures slots[i].state == Free <==> s.slots[i].state == Free {}
    forall i | 0 <= i < |s.slots| ensures Twin(s.slots[i], job) <==> SlotDuplicate(job)(s.slots[i]) {}
    var k := FirstIndex(slots, SlotFree());
    if k >= 0 { assert s.slots[k].state == Free; }
    if k < 0 { forall i | 0 <= i < |s.slots| ensures s.slots[i].state != Free { assert !SlotFree()(slots[i]); } }
  }

  // ----- leases and blocking

  /** An accepted lease request takes a free record under the next id for its device, source and owner. */
  lemma {:induction false} AcceptedLease(s: Sched, q: LeaseRequest) returns (j: nat, d: nat)
    requires AcquireAccepted(s, q)
    ensures var t := Acquire(s, q);
            && j < |s.leases| && s.leases[j].state == LeaseFree && OtherLeasesSame(s, t, j)
            && t.leases[j] == Lease(LeasePending, s.nextLease + 1, d, q.source, q.owner, true)
            && RowClaimed(s, t, d, q.device) && t.slots == s.slots
            && t.nextLease == s.nextLease + 1 && CountersSame(s, t.(nextLease := s.nextLease))
  {
    ClaimsRow(s, q.device);
    j, d := FirstIndex(s.leases, LeaseIsFree()), RowFor(s.devices, q.device);
  }

  lemma {:induction false} AcceptedLeaseIff(s: Sched, q: LeaseRequest)
    ensures AcquireAccepted(s, q) <==>
              q.device != "" && q.priority <= 3 && !NoRow(s, q.device) && exists j :: 0 <= j < |s.leases| && s.leases[j].state == LeaseFree
  {
    ClaimsRow(s, q.device);
    var k := FirstIndex(s.leases, LeaseIsFree());
    if j :| 0 <= j < |s.leases| && s.leases[j].state == LeaseFree { assert LeaseIsFree()(s.leases[j]); }
  }

  /** Releasing a granted lease frees its record and its row; any other id is not found and nothing changes. */
  lemma {:induction false} ReleaseEffects(s: Sched, id: nat)
    requires Inv(s)
    ensures var t := Release(s, id);
            && (forall j :: 0 <= j < |s.leases| && id != 0 && s.leases[j].state == LeaseActive && s.leases[j].id == id ==>
                  && ReleaseResultOf(s, id) == Released
                  && OtherLeasesSame(s, t, j) && t.leases[j] == s.leases[j].(state := LeaseFree)
                  && OtherRowsSame(s, t, s.leases[j].device)
                  && t.devices[s.leases[j].device] == s.devices[s.leases[j].device].(lease := 0)
                  && t.slots == s.slots && CountersSame(s, t))
            && ((forall j :: 0 <= j < |s.leases| ==> !(s.leases[j].state == LeaseActive && s.leases[j].id == id)) ==> t == s)
  {
    var k := FirstIndex(s.leases, LeaseIsActive(id));
    forall j: nat | j < |s.leases| && id != 0 && s.leases[j].state == LeaseActive && s.leases[j].id == id ensures j == k && LeaseOk(s, j) {
      assert LeaseIsActive(id)(s.leases[j]);
    }
  }

  /** A record's turn grants a pending lease exactly when its row is unblocked, idle and unleased, reports a failed one
      once and frees it, and otherwise changes nothing. */
  lemma {:induction false} LeaseTurnEffects(s: Sched, j: nat)
    requires Inv(s) && j < |s.leases|
    ensures s.leases[j].device < |s.devices|
    ensures var t, l := ProcessLease(s, j), s.leases[j]; var r := s.devices[l.device];
            var ready := l.state == LeasePending && !r.blocked && !r.inflight && r.lease == 0;
            && OtherLeasesSame(s, t, j) && t.slots == s.slots && CountersSame(s, t)
            && (ready ==> && t.leases[j] == l.(state := LeaseActive) && OtherRowsSame(s, t, l.device) && t.devices[l.device] == r.(lease := l.id)
                          && LeaseCallback(s, j) == Some((l.id, true)))
            && (l.state == LeaseCompletionPending ==> t.leases[j].state == LeaseFree && t.devices == s.devices
                                                       && LeaseCallback(s, j) == Some((l.id, l.granted)))
            && (!ready && l.state != LeaseCompletionPending ==> t == s && LeaseCallback(s, j).None?)
  {
    assert LeaseOk(s, j);
  }

  /** Blocking marks the device's row, claiming one if it has none; nothing else changes. */
  lemma {:induction false} BlockEffects(s: Sched, dev: string) returns (d: nat)
    requires dev != "" && !NoRow(s, dev)
    ensures var t := Block(s, dev);
            && d < |s.devices| == |t.devices| && t.devices[d].blocked
            && RowClaimed(s, t.(devices := t.devices[d := t.devices[d].(blocked := s.devices[d].blocked)]), d, dev)
            && t.slots == s.slots && t.leases == s.leases && CountersSame(s, t)
  {
    ClaimsRow(s, dev);
    d := RowFor(s.devices, dev);
  }

  /** Unblocking clears the mark of the device's row, if it has one; nothing else changes. */
  lemma {:induction false} UnblockEffects(s: Sched, dev: string)
    requires Inv(s)
    ensures var t := Unblock(s, dev);
            && t.slots == s.slots && t.leases == s.leases && CountersSame(s, t) && |t.devices| == |s.devices|
            && forall d :: 0 <= d < |s.devices| ==>
                 t.devices[d] == if s.devices[d].used && s.devices[d].id == dev then s.devices[d].(blocked := false) else s.devices[d]
  {
    var k := FirstIndex(s.devices, RowNamed(dev));
    forall d | 0 <= d < |s.devices| && s.devices[d].used && s.devices[d].id == dev ensures d == k {
      assert RowNamed(dev)(s.devices[d]);
    }
  }

  // ----- worker

  /** One pass queues fresh jobs and finishes exactly the waiting jobs whose deadline is not after now; a job without a
      deadline, and every job that is not waiting, is left alone. */
  lemma {:induction false} PromoteEffects(s: Sched, now: int, i: nat)
    requires i < |s.slots|
    ensures var t, x := Promote(s, now), s.slots[i];
            var waiting := x.state == EnqueuePending || x.state == Queued;
            && t.devices == s.devices && t.leases == s.leases && CountersSame(s, t) && |t.slots| == |s.slots|
            && (waiting && x.deadline != 0 && x.deadline <= now ==>
                  FinishedAs(x.(result := CommandResult(Ok, 0, None)), t.slots[i], DeadlineExceeded))
            && (waiting && (x.deadline == 0 || now < x.deadline) ==> t.slots[i] == x.(state := Queued))
            && (!waiting ==> t.slots[i] == x)
  {
  }

  /** A job that may wait maxWaitMs milliseconds from `start` is timed out by a later pass exactly when that time is over. */
  lemma {:induction false} WaitLimit(s: Sched, job: Job, start: int, now: int, i: nat)
    requires Inv(s) && SubmitResultOf(s, job).Accepted? && job.maxWaitMs > 0 && start >= 0
    requires var t := Submit(s, job, start); i < |t.slots| && t.slots[i].state != Free && t.slots[i].id == t.nextJob
    ensures var u := Promote(Submit(s, job, start), now);
            i < |u.slots| && (u.slots[i].state == CompletionPending <==> now >= start + job.maxWaitMs * 1000)
  {
    var k, d := AcceptedJob(s, job, start);
    assert i < |s.slots| && SlotOk(s, i);
    PromoteEffects(Submit(s, job, start), now, k);
  }

  /** Starting a completion marks the slot, releases its row if the row still points at it, and reports the job's id,
      terminal and result; another slot or row is not touched. */
  lemma {:induction false} CompletionStarts(s: Sched, i: nat)
    requires Inv(s) && i < |s.slots| && s.slots[i].state == CompletionPending
    ensures s.slots[i].device < |s.devices|
    ensures var t, x := CompleteBegin(s, i), s.slots[i]; var r := s.devices[x.device];
            && CompletionOf(s, i) == Some(Callback(x.id, x.terminal, x.result))
            && OtherSlotsSame(s, t, i) && t.slots[i] == x.(state := Completing)
            && OtherRowsSame(s, t, x.device) && t.leases == s.leases
            && (r.inflightSlot == i ==> t.devices[x.device] == r.(inflight := false, inflightSlot := -1) && t.inflight == s.inflight - 1)
            && (r.inflightSlot != i ==> t.devices[x.device] == r && t.inflight == s.inflight)
            && CountersSame(s, t.(inflight := s.inflight))
  {
    assert SlotOk(s, i) && RowOk(s, s.slots[i].device);
    if s.devices[s.slots[i].device].inflightSlot == i { assert s.slots[i].device in InflightRows(s); }
  }

  /** Only a finished slot starts a completion. */
  lemma {:induction false} UnfinishedNotCompleted(s: Sched, i: nat)
    requires i < |s.slots| && s.slots[i].state != CompletionPending
    ensures CompleteBegin(s, i) == s && CompletionOf(s, i).None?
  {
  }

  /** Ending it frees the slot and keeps its generation. */
  lemma {:induction false} CompletionEnds(s: Sched, i: nat)
    requires i < |s.slots|
    ensures var t := CompleteEnd(s, i);
            && OtherSlotsSame(s, t, i) && t.slots[i].state == Free && t.slots[i].generation == s.slots[i].generation
            && t.devices == s.devices && t.leases == s.leases && CountersSame(s, t)
  {
  }

  /** The service's answer lands in the slot whose request it was, once: in flight, same lifetime, mailbox not written.
      Otherwise it is counted as a conflict and dropped. */
  lemma {:induction false} AnswerLands(s: Sched, i: nat, r: CommandResult)
    requires Inv(s) && i < |s.slots| && s.slots[i].state == Inflight
    ensures var t, x := ServiceComplete(s, i, r), s.slots[i];
            && OtherSlotsSame(s, t, i) && t.slots[i] == x.(result := r, terminal := Command, written := true, state := CompletionPending)
            && t.devices == s.devices && t.leases == s.leases && CountersSame(s, t)
  {
    assert SlotOk(s, i);
  }

  // ----- dispatch

  /** Slot i could be sent: it waits, its row is in use, unblocked and idle, and a lease on the row is the job's own. */
  ghost predicate Sendable(s: Sched, i: int) {
    && 0 <= i < |s.slots| && s.slots[i].state == Queued && s.slots[i].device < |s.devices|
    && var r := s.devices[s.slots[i].device];
       r.used && !r.blocked && !r.inflight && (r.lease == 0 || r.lease == s.slots[i].job.lease)
  }

  /** Eight HIGH jobs went out since the last NORMAL one and some NORMAL job waits. */
  ghost predicate HighMustWait(s: Sched) {
    s.highBurst >= 8 && exists i :: 0 <= i < |s.slots| && s.slots[i].state == Queued && s.slots[i].job.priority == 1
  }

  /** How far row d is from the cursor. */
  function Ahead(s: Sched, d: nat): nat { (d + 16 - s.rr % 16) % 16 }

  /** Better priority, or else nearer to the cursor, or else on the same row in a lower slot. */
  predicate Earlier(s: Sched, i: nat, j: nat)
    requires i < |s.slots| && j < |s.slots|
  {
    var x, y := s.slots[i], s.slots[j];
    && x.job.priority <= y.job.priority
    && (x.job.priority == y.job.priority ==> Ahead(s, x.device) <= Ahead(s, y.device))
    && (x.job.priority == y.job.priority && x.device == y.device ==> i <= j)
  }

  lemma {:induction false} EligibleFields(s: Sched, i: int)
    requires Inv(s) && 0 <= i < |s.slots|
    ensures Eligible(s, i) <==> Sendable(s, i) && !(s.slots[i].job.priority == 0 && HighMustWait(s))
  {
    assert SlotOk(s, i);
    assert NormalQueued(s) <==> exists j :: 0 <= j < |s.slots| && s.slots[j].state == Queued && s.slots[j].job.priority == 1;
  }

  /** Nothing is sent exactly when four jobs are in flight or no job can be sent. */
  lemma {:induction false} NothingSentIff(s: Sched)
    requires Inv(s)
    ensures Dispatch(s) == s <==>
              s.inflight >= 4 || forall i :: Sendable(s, i) ==> s.slots[i].job.priority == 0 && HighMustWait(s)
  {
    forall i | 0 <= i < |s.slots| ensures Eligible(s, i) <==> Sendable(s, i) && !(s.slots[i].job.priority == 0 && HighMustWait(s)) {
      EligibleFields(s, i);
    }
    var i := DispatchChoice(s);
    if i >= 0 { assert Dispatch(s).slots[i] != s.slots[i]; }
  }

  /** A dispatch sends the job of best priority that can be sent; among those the one whose row comes first from the cursor,
      and on that row the one in the lowest slot. Its slot and row are marked in flight, the cursor moves past the row, the
      burst counter counts HIGH jobs since the last NORMAL one, and nothing else changes. */
  lemma {:induction false} DispatchEffects(s: Sched) returns (i: nat)
    requires Inv(s) && Dispatch(s) != s
    ensures s.inflight < 4 && Sendable(s, i) && !(s.slots[i].job.priority == 0 && HighMustWait(s))
    ensures forall j :: Sendable(s, j) && !(s.slots[j].job.priority == 0 && HighMustWait(s)) ==> j == i || Earlier(s, i, j)
    ensures var t, x := Dispatch(s), s.slots[i];
            && OtherSlotsSame(s, t, i) && OtherRowsSame(s, t, x.device) && t.leases == s.leases
            && t.slots[i] == x.(state := Inflight, ctxSlot := i, ctxGen := x.generation)
            && t.devices[x.device] == s.devices[x.device].(inflight := true, inflightSlot := i)
            && t.inflight == s.inflight + 1 && t.rr == (x.device + 1) % 16
            && t.nextJob == s.nextJob && t.nextLease == s.nextLease && t.conflicts == s.conflicts
            && (x.job.priority == 0 ==> t.highBurst == s.highBurst + 1) && (x.job.priority == 1 ==> t.highBurst == 0)
            && (x.job.priority > 1 ==> t.highBurst == s.highBurst)
  {
    i := DispatchChoice(s);
    EligibleFields(s, i);
    DispatchMarks(s, i);
    forall j | Sendable(s, j) && !(s.slots[j].job.priority == 0 && HighMustWait(s)) && j != i
      ensures Earlier(s, i, j)
    {
      PickedFirst(s, i, j);
    }
  }

  lemma {:induction false} AheadIsOffset(s: Sched, d: nat)
    requires s.rr < 16 && d < 16
    ensures Ahead(s, d) == Offset(s.rr, d)
  {
  }

  lemma {:induction false} PickedFirst(s: Sched, i: nat, j: nat)
    requires Inv(s) && i == DispatchChoice(s) && j != i && Sendable(s, j) && !(s.slots[j].job.priority == 0 && HighMustWait(s))
    ensures Earlier(s, i, j)
  {
    EligibleFields(s, j);
    assert i == BestBelow(s, |s.slots|) && Before(s, i, j);
    assert SlotOk(s, i) && SlotOk(s, j);
    AheadIsOffset(s, s.slots[i].device);
    AheadIsOffset(s, s.slots[j].device);
  }

  lemma {:induction false} DispatchMarks(s: Sched, i: nat)
    requires Inv(s) && i == DispatchChoice(s)
    ensures var t, x := Dispatch(s), s.slots[i];
            && x.device < |s.devices| && s.inflight < 4
            && OtherSlotsSame(s, t, i) && OtherRowsSame(s, t, x.device) && t.leases == s.leases
            && t.slots[i] == x.(state := Inflight, ctxSlot := i, ctxGen := x.generation)
            && t.devices[x.device] == s.devices[x.device].(inflight := true, inflightSlot := i)
            && t.inflight == s.inflight + 1 && t.rr == (x.device + 1) % 16
            && t.nextJob == s.nextJob && t.nextLease == s.nextLease && t.conflicts == s.conflicts
            && (x.job.priority == 0 ==> t.highBurst == s.highBurst + 1) && (x.job.priority == 1 ==> t.highBurst == 0)
            && (x.job.priority > 1 ==> t.highBurst == s.highBurst)
  {
    assert SlotOk(s, i);
  }

  /** A submit the command service refuses finishes the job with QUEUE_FULL or INTERNAL, if it is still in flight. */
  lemma {:induction false} RefusedSubmit(s: Sched, i: nat, noMem: bool)
    requires i < |s.slots|
    ensures var t, x := DispatchFailed(s, i, noMem), s.slots[i];
            && OtherSlotsSame(s, t, i) && t.devices == s.devices && t.leases == s.leases && CountersSame(s, t)
            && (x.state == Inflight ==> t.slots[i].state == CompletionPending && t.slots[i].terminal == Command && t.slots[i].written
                                        && t.slots[i].id == x.id && t.slots[i].job == x.job && t.slots[i].device == x.device
                                        && t.slots[i].result.status == if noMem then QueueFull else Internal)
            && (x.state != Inflight ==> t.slots[i] == x)
  {
  }
}
