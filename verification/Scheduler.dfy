/** The device control scheduler: 24 job slots, 16 device rows, a lease table, an in-flight cap,
    round-robin device order and a cap on HIGH bursts. Each critical section of the source is one
    function from table contents to table contents; the class below runs it in place. */
module Scheduler {
  import opened Basics
  import opened Search

  const MAX_DEVICES: nat := 16
  const MAX_JOBS: nat := 24
  const MAX_INFLIGHT: nat := 4
  const HIGH_BURST_MAX: nat := 8

  const HIGH: nat := 0
  const NORMAL: nat := 1
  const BACKGROUND: nat := 3
  const SOURCE_INTERNAL: nat := 5

  datatype Status = Ok | InvalidArgument | SchemaNotReady | UnsupportedCommand | TypeMismatch | RangeError
                  | NotConnected | Busy | QueueFull | TransportError | Timeout | Rejected | Cancelled | Internal

  /** The part of a command result that callers route on. */
  datatype CommandResult = CommandResult(status: Status, requestId: nat, intValue: Option<int>)
  const ZERO_RESULT := CommandResult(Ok, 0, None)

  /** A request; `payload` stands for the typed arguments, compared but never inspected here. */
  datatype Request = Request(device: string, command: string, payload: int)

  datatype Dedupe = NoDedupe | DropIfExists | ReplaceQueued

  datatype Job = Job(request: Request, priority: nat, source: nat, dedupe: Dedupe, owner: nat, lease: nat,
                     maxWaitMs: nat, hash: nat)
  const ZERO_JOB := Job(Request("", "", 0), 0, 0, NoDedupe, 0, 0, 0, 0)

  datatype SlotState = Free | EnqueuePending | Queued | Inflight | CompletionPending | Completing
  datatype Terminal = Command | CancelledJob | Superseded | DeadlineExceeded

  /** A job slot. `ctxSlot` and `ctxGen` are the context record the command service points at. */
  datatype Slot = Slot(state: SlotState, generation: nat, id: nat, job: Job, deadline: int, result: CommandResult,
                       ctxSlot: nat, ctxGen: nat, terminal: Terminal, written: bool, device: nat)

  /** A slot after memset, with only the generation kept. */
  function FreeSlot(generation: nat): Slot {
    Slot(Free, generation, 0, ZERO_JOB, 0, ZERO_RESULT, 0, 0, Command, false, 0)
  }

  datatype Device = Device(used: bool, blocked: bool, inflight: bool, id: string, inflightSlot: int, lease: nat)
  const ZERO_DEVICE := Device(false, false, false, "", 0, 0)

  datatype LeaseState = LeaseFree | LeasePending | LeaseActive | LeaseCompletionPending
  datatype Lease = Lease(state: LeaseState, id: nat, device: nat, source: nat, owner: nat, granted: bool)
  const ZERO_LEASE := Lease(LeaseFree, 0, 0, 0, 0, true)

  /** The whole of g_ctrl; `conflicts` is stats.completion_mailbox_conflict. */
  datatype Sched = Sched(slots: seq<Slot>, devices: seq<Device>, leases: seq<Lease>, nextJob: nat, nextLease: nat,
                         inflight: nat, rr: nat, highBurst: nat, conflicts: nat)

  predicate Shaped(s: Sched) {
    |s.slots| == MAX_JOBS && |s.devices| == MAX_DEVICES && |s.leases| == MAX_DEVICES && s.rr < MAX_DEVICES
  }

  function Initial(): Sched {
    Sched(Repeat(MAX_JOBS, FreeSlot(0)), Repeat(MAX_DEVICES, ZERO_DEVICE), Repeat(MAX_DEVICES, ZERO_LEASE), 0, 0, 0, 0, 0, 0)
  }

  // ----- table scans

  function RowNamed(id: string): Device -> bool { (d: Device) => d.used && d.id == id }
  function RowUnused(): Device -> bool { (d: Device) => !d.used }
  function SlotFree(): Slot -> bool { (x: Slot) => x.state.Free? }
  function SlotDuplicate(job: Job): Slot -> bool { (x: Slot) => x.state.Queued? && JobEqual(x.job, job) }
  function LeaseIsFree(): Lease -> bool { (l: Lease) => l.state.LeaseFree? }
  function LeaseIsActive(id: nat): Lease -> bool { (l: Lease) => l.state.LeaseActive? && l.id == id }

  predicate JobEqual(a: Job, b: Job) {
    a.hash == b.hash && a.source == b.source && a.owner == b.owner && a.request == b.request
  }

  /** The device table after a find-or-create. */
  function RowsWith(devices: seq<Device>, id: string): (r: seq<Device>)
    ensures |r| == |devices|
  {
    var k := FirstIndex(devices, RowNamed(id));
    var u := FirstIndex(devices, RowUnused());
    if k >= 0 || u < 0 then devices else devices[u := devices[u].(used := true, inflightSlot := -1, id := id)]
  }

  /** The row a find-or-create returns, or -1 when the table is full. */
  function RowFor(devices: seq<Device>, id: string): (r: int)
    ensures -1 <= r < |devices|
  {
    var k := FirstIndex(devices, RowNamed(id));
    if k >= 0 then k else FirstIndex(devices, RowUnused())
  }

  // ----- submit

  datatype SubmitResult = Accepted(id: nat) | Dropped(existing: nat) | InvalidArg | NoMem

  predicate JobValid(job: Job) {
    && job.request.device != "" && job.priority <= BACKGROUND && job.source <= SOURCE_INTERNAL
    && (job.dedupe.NoDedupe? || job.priority == BACKGROUND)
  }

  function Supersede(x: Slot, job: Job): Slot {
    if SlotDuplicate(job)(x) then x.(terminal := Superseded, state := CompletionPending) else x
  }

  function NewSlot(prev: Slot, id: nat, job: Job, device: nat, now: int): Slot {
    FreeSlot(prev.generation + 1).(state := EnqueuePending, id := id, job := job, device := device,
                                  deadline := if job.maxWaitMs > 0 then now + job.maxWaitMs * 1000 else 0)
  }

  /** Slots after the dedupe pass of an accepted-so-far submit. */
  function DedupePass(slots: seq<Slot>, job: Job): (r: seq<Slot>)
    ensures |r| == |slots|
  {
    if job.dedupe.ReplaceQueued? then seq(|slots|, i requires 0 <= i < |slots| => Supersede(slots[i], job)) else slots
  }

  function SubmitResultOf(s: Sched, job: Job): SubmitResult {
    if !JobValid(job) then InvalidArg
    else if RowFor(s.devices, job.request.device) < 0 then NoMem
    else
      var dup := FirstIndex(s.slots, SlotDuplicate(job));
      if job.dedupe.DropIfExists? && dup >= 0 then Dropped(s.slots[dup].id)
      else if FirstIndex(DedupePass(s.slots, job), SlotFree()) < 0 then NoMem
      else Accepted(s.nextJob + 1)
  }

  function Submit(s: Sched, job: Job, now: int): Sched {
    var row := RowFor(s.devices, job.request.device);
    if !JobValid(job) || row < 0 then s
    else
      var t := s.(devices := RowsWith(s.devices, job.request.device));
      if job.dedupe.DropIfExists? && FirstIndex(s.slots, SlotDuplicate(job)) >= 0 then t
      else
        var slots := DedupePass(s.slots, job);
        var k := FirstIndex(slots, SlotFree());
        if k < 0 then t.(slots := slots)
        else t.(slots := slots[k := NewSlot(slots[k], s.nextJob + 1, job, row, now)], nextJob := s.nextJob + 1)
  }

  // ----- cancel

  /** What a cancel names: one job, one device, or one owner's jobs on a device. */
  datatype CancelKey = JobId(id: nat) | DeviceAll(device: string) | DeviceOwner(device: string, source: nat, owner: nat)

  predicate CancelsSlot(x: Slot, key: CancelKey) {
    && !x.state.Free?
    && match key
       case JobId(id) => x.id == id
       case DeviceAll(dev) => x.job.request.device == dev
       case DeviceOwner(dev, src, own) => x.job.request.device == dev && x.job.source == src && x.job.owner == own
  }

  predicate CancelsLease(l: Lease, devices: seq<Device>, key: CancelKey) {
    && !l.state.LeaseFree? && !key.JobId? && l.device < |devices| && devices[l.device].id == key.device
    && (key.DeviceOwner? ==> l.source == key.source && l.owner == key.owner)
  }

  function CancelSlot(x: Slot, key: CancelKey): Slot {
    if CancelsSlot(x, key) && !x.state.Inflight? then x.(terminal := CancelledJob, state := CompletionPending) else x
  }

  function CancelLease(l: Lease, devices: seq<Device>, key: CancelKey): Lease {
    if !CancelsLease(l, devices, key) then l
    else if l.state.LeaseActive? then l.(state := LeaseFree)
    else l.(granted := false, state := LeaseCompletionPending)
  }

  /** A device row loses its lease when some cancelled ACTIVE record points at it. */
  predicate Revoked(s: Sched, d: nat, key: CancelKey) {
    exists j :: 0 <= j < |s.leases| && s.leases[j].state.LeaseActive? && s.leases[j].device == d
                && CancelsLease(s.leases[j], s.devices, key)
  }

  function Cancel(s: Sched, key: CancelKey): Sched {
    s.(slots := seq(|s.slots|, i requires 0 <= i < |s.slots| => CancelSlot(s.slots[i], key)),
       leases := seq(|s.leases|, i requires 0 <= i < |s.leases| => CancelLease(s.leases[i], s.devices, key)),
       devices := seq(|s.devices|, d requires 0 <= d < |s.devices| =>
                      if Revoked(s, d, key) then s.devices[d].(lease := 0) else s.devices[d]))
  }

  predicate CancelFound(s: Sched, key: CancelKey) {
    || (exists i :: 0 <= i < |s.slots| && CancelsSlot(s.slots[i], key))
    || (exists j :: 0 <= j < |s.leases| && CancelsLease(s.leases[j], s.devices, key))
  }

  // ----- leases, blocking

  datatype LeaseRequest = LeaseRequest(device: string, priority: nat, source: nat, owner: nat)

  predicate LeaseRequestValid(q: LeaseRequest) { q.device != "" && q.priority <= BACKGROUND }

  predicate AcquireAccepted(s: Sched, q: LeaseRequest) {
    LeaseRequestValid(q) && RowFor(s.devices, q.device) >= 0 && FirstIndex(s.leases, LeaseIsFree()) >= 0
  }

  function Acquire(s: Sched, q: LeaseRequest): Sched {
    var row := RowFor(s.devices, q.device);
    var k := FirstIndex(s.leases, LeaseIsFree());
    var t := s.(devices := RowsWith(s.devices, q.device));
    if !LeaseRequestValid(q) then s
    else if row < 0 || k < 0 then t
    else t.(leases := s.leases[k := Lease(LeasePending, s.nextLease + 1, row, q.source, q.owner, true)],
            nextLease := s.nextLease + 1)
  }

  datatype ReleaseResult = Released | ReleaseInvalidArg | ReleaseInvalidState | ReleaseNotFound

  function ReleaseResultOf(s: Sched, id: nat): ReleaseResult {
    var k := FirstIndex(s.leases, LeaseIsActive(id));
    if id == 0 then ReleaseInvalidArg
    else if k < 0 || s.leases[k].device >= |s.devices| then ReleaseNotFound
    else if s.devices[s.leases[k].device].lease != id then ReleaseInvalidState else Released
  }

  function Release(s: Sched, id: nat): Sched {
    var k := FirstIndex(s.leases, LeaseIsActive(id));
    if !ReleaseResultOf(s, id).Released? then s
    else
      var d := s.leases[k].device;
      s.(devices := s.devices[d := s.devices[d].(lease := 0)], leases := s.leases[k := s.leases[k].(state := LeaseFree)])
  }

  /** Lease record i can be granted now. */
  predicate Grantable(s: Sched, i: nat) {
    && i < |s.leases| && s.leases[i].state.LeasePending? && s.leases[i].device < |s.devices|
    && var d := s.devices[s.leases[i].device]; !d.blocked && !d.inflight && d.lease == 0
  }

  /** One record's turn in ctrl_process_leases. */
  function ProcessLease(s: Sched, i: nat): Sched {
    if i >= |s.leases| then s
    else if s.leases[i].state.LeaseCompletionPending? then s.(leases := s.leases[i := ZERO_LEASE])
    else if Grantable(s, i) then
      var d := s.leases[i].device;
      s.(leases := s.leases[i := s.leases[i].(state := LeaseActive)],
         devices := s.devices[d := s.devices[d].(lease := s.leases[i].id)])
    else s
  }

  /** The callback that turn owes: (lease id, granted). */
  function LeaseCallback(s: Sched, i: nat): Option<(nat, bool)> {
    if i >= |s.leases| then None
    else if s.leases[i].state.LeaseCompletionPending? then Some((s.leases[i].id, s.leases[i].granted))
    else if Grantable(s, i) then Some((s.leases[i].id, true))
    else None
  }

  function Block(s: Sched, device: string): Sched {
    var row := RowFor(s.devices, device);
    var t := RowsWith(s.devices, device);
    if row < 0 || device == "" then s else s.(devices := t[row := t[row].(blocked := true)])
  }

  function Unblock(s: Sched, device: string): Sched {
    var row := FirstIndex(s.devices, RowNamed(device));
    if row < 0 then s else s.(devices := s.devices[row := s.devices[row].(blocked := false)])
  }

  // ----- worker: promotion and deadlines

  function PromoteSlot(x: Slot, now: int): Slot {
    var y := if x.state.EnqueuePending? then x.(state := Queued) else x;
    if y.state.Queued? && y.deadline != 0 && now >= y.deadline
    then y.(terminal := DeadlineExceeded, result := ZERO_RESULT, state := CompletionPending) else y
  }

  function Promote(s: Sched, now: int): Sched {
    s.(slots := seq(|s.slots|, i requires 0 <= i < |s.slots| => PromoteSlot(s.slots[i], now)))
  }

  // ----- worker: completion

  datatype Callback = Callback(id: nat, terminal: Terminal, result: CommandResult)

  predicate Completable(s: Sched, i: nat) {
    i < |s.slots| && s.slots[i].state.CompletionPending? && s.slots[i].device < |s.devices|
  }

  /** First critical section of ctrl_complete_slot. */
  function CompleteBegin(s: Sched, i: nat): Sched {
    if !Completable(s, i) then s
    else
      var d := s.slots[i].device;
      var t := s.(slots := s.slots[i := s.slots[i].(state := Completing)]);
      if s.devices[d].inflightSlot != i then t
      else t.(devices := s.devices[d := s.devices[d].(inflightSlot := -1, inflight := false)],
              inflight := if s.inflight > 0 then s.inflight - 1 else 0)
  }

  function CompletionOf(s: Sched, i: nat): Option<Callback> {
    if Completable(s, i) then Some(Callback(s.slots[i].id, s.slots[i].terminal, s.slots[i].result)) else None
  }

  /** Second critical section: the slot is wiped whatever happened to it during the callback. */
  function CompleteEnd(s: Sched, i: nat): Sched {
    if i >= |s.slots| then s else s.(slots := s.slots[i := FreeSlot(s.slots[i].generation)])
  }

  // ----- worker: selection and dispatch

  /** Scan position of row d when the scan starts at row rr. */
  function Offset(rr: nat, d: nat): int { if d >= rr then d - rr else d + MAX_DEVICES - rr }

  predicate NormalQueued(s: Sched) {
    exists i :: 0 <= i < |s.slots| && s.slots[i].state.Queued? && s.slots[i].job.priority == NORMAL
  }

  /** HIGH jobs are held back: the burst cap is reached and some NORMAL job is queued. */
  predicate HighHeld(s: Sched) { s.highBurst >= HIGH_BURST_MAX && NormalQueued(s) }

  /** Slot i could be sent but for the burst cap. */
  predicate Dispatchable(s: Sched, i: nat) {
    && i < |s.slots| && s.slots[i].state.Queued? && s.slots[i].device < |s.devices| && s.slots[i].device < MAX_DEVICES
    && var d := s.devices[s.slots[i].device];
       d.used && !d.blocked && !d.inflight && (d.lease == 0 || s.slots[i].job.lease == d.lease)
  }

  predicate Eligible(s: Sched, i: nat) {
    Dispatchable(s, i) && !(HighHeld(s) && s.slots[i].job.priority == HIGH)
  }

  /** i precedes j in (priority, scan position, slot index) order. */
  predicate Before(s: Sched, i: nat, j: nat)
    requires i < |s.slots| && j < |s.slots|
  {
    var x, y := s.slots[i], s.slots[j];
    || x.job.priority < y.job.priority
    || (x.job.priority == y.job.priority
        && (Offset(s.rr, x.device) < Offset(s.rr, y.device) || (x.device == y.device && i < j)))
  }

  /** The least eligible slot below n in that order, or -1. */
  function BestBelow(s: Sched, n: nat): (r: int)
    requires Shaped(s) && n <= |s.slots|
    ensures -1 <= r < n
    ensures r >= 0 ==> Eligible(s, r) && forall j :: 0 <= j < n && Eligible(s, j) && j != r ==> Before(s, r, j)
    ensures r == -1 ==> forall j :: 0 <= j < n ==> !Eligible(s, j)
  {
    if n == 0 then -1
    else
      var r := BestBelow(s, n - 1);
      if !Eligible(s, n - 1) then r
      else if r < 0 || Before(s, n - 1, r) then n - 1
      else r
  }

  function Selected(s: Sched): (r: int)
    requires Shaped(s)
    ensures -1 <= r < |s.slots|
    ensures r >= 0 ==> Eligible(s, r) && forall j :: 0 <= j < |s.slots| && Eligible(s, j) && j != r ==> Before(s, r, j)
    ensures r == -1 ==> forall j :: 0 <= j < |s.slots| ==> !Eligible(s, j)
  {
    BestBelow(s, |s.slots|)
  }

  /** The slot dispatch_one would send now, or -1. */
  function DispatchChoice(s: Sched): (r: int)
    requires Shaped(s)
    ensures -1 <= r < |s.slots|
    ensures r >= 0 ==> Eligible(s, r) && s.inflight < MAX_INFLIGHT
  {
    if s.inflight >= MAX_INFLIGHT then -1 else Selected(s)
  }

  function NextBurst(burst: nat, priority: nat): nat {
    if priority == HIGH then burst + 1 else if priority == NORMAL then 0 else burst
  }

  function Dispatch(s: Sched): Sched
    requires Shaped(s)
  {
    var i := DispatchChoice(s);
    if i < 0 then s
    else
      var x := s.slots[i];
      s.(slots := s.slots[i := x.(state := Inflight, ctxSlot := i, ctxGen := x.generation)],
         devices := s.devices[x.device := s.devices[x.device].(inflight := true, inflightSlot := i)],
         inflight := s.inflight + 1, rr := (x.device + 1) % MAX_DEVICES,
         highBurst := NextBurst(s.highBurst, x.job.priority))
  }

  /** Undo of a dispatch whose submit to the command service was refused. */
  function DispatchFailed(s: Sched, i: nat, noMem: bool): Sched {
    if i >= |s.slots| || !s.slots[i].state.Inflight? then s
    else s.(slots := s.slots[i := s.slots[i].(result := s.slots[i].result.(status := if noMem then QueueFull else Internal),
                                              terminal := Command, written := true, state := CompletionPending)])
  }

  // ----- completion mailbox, called by the command service with a pointer to slot p's context

  predicate MailboxOpen(s: Sched, p: nat) {
    && p < |s.slots| && s.slots[p].ctxSlot < |s.slots|
    && var x := s.slots[s.slots[p].ctxSlot]; x.state.Inflight? && x.generation == s.slots[p].ctxGen && !x.written
  }

  function ServiceComplete(s: Sched, p: nat, result: CommandResult): Sched {
    if p >= |s.slots| || s.slots[p].ctxSlot >= |s.slots| then s
    else if !MailboxOpen(s, p) then s.(conflicts := s.conflicts + 1)
    else
      var k := s.slots[p].ctxSlot;
      s.(slots := s.slots[k := s.slots[k].(result := result, terminal := Command, written := true,
                                           state := CompletionPending)])
  }
}
