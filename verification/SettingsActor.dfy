/** The settings transactions in place: sixteen transaction slots and sixteen records, searched by device id, and the
    one read-back outcome that is decided but not delivered. Every handler is one event of one device's machine. */
module SettingsActor {
  import opened Basics
  import opened DeviceTables
  import opened Search
  import opened SettingsTransaction

  /** The scan over the schema's descriptors for one change. */
  method Prevalidate(rules: seq<Rule>, c: Change) returns (ok: bool)
    ensures ok == Prevalidated(rules, c)
  {
    if c.id == "" { return false; }
    for i := 0 to |rules|
      invariant forall j :: 0 <= j < i ==> rules[j].id != c.id
    {
      if rules[i].id == c.id {
        FirstIndexUnique(rules, RuleOf(c.id), i);
        ok := CheckRule(rules[i], c.value);
        return;
      }
    }
    FirstIndexUnique(rules, RuleOf(c.id), -1);
    return false;
  }

  method AllPrevalidated(rules: seq<Rule>, changes: seq<Change>) returns (ok: bool)
    ensures ok == forall i :: 0 <= i < |changes| ==> Prevalidated(rules, changes[i])
  {
    for i := 0 to |changes|
      invariant forall j :: 0 <= j < i ==> Prevalidated(rules, changes[j])
    {
      var valid := Prevalidate(rules, changes[i]);
      if !valid { return false; }
    }
    return true;
  }

  method CheckRule(r: Rule, v: Value) returns (ok: bool)
    ensures ok == Allows(r, v)
  {
    if !r.writable || r.kind != KindOf(v) || v.Bare? { return false; }
    if v.IntValue? && (v.number < r.low || v.number > r.high || (r.step != 0 && (v.number - r.low) % r.step != 0)) { return false; }
    if v.EnumValue? {
      var found := false;
      for i := 0 to |r.options|
        invariant found <==> exists j :: 0 <= j < i && r.options[j] == v.code
      {
        if r.options[i] == v.code { found := true; }
      }
      return found;
    }
    return !(v.TextValue? && (|v.text| >= VALUE_LEN || (r.maxLength != 0 && |v.text| > r.maxLength)));
  }

  /** The nested scan of the read-back: every change against the first value with its id. */
  method ValuesMatch(entries: seq<Entry>, changes: seq<Change>) returns (ok: bool)
    ensures ok == Matches(entries, changes)
  {
    for i := 0 to |changes|
      invariant forall j :: 0 <= j < i ==> Confirmed(entries, changes[j])
    {
      var c, found := changes[i], -1;
      var k := 0;
      while k < |entries| && found < 0
        invariant 0 <= k <= |entries| && -1 <= found < |entries|
        invariant found < 0 ==> forall j :: 0 <= j < k ==> entries[j].id != c.id
        invariant found >= 0 ==> entries[found].id == c.id && forall j :: 0 <= j < found ==> entries[j].id != c.id
        decreases |entries| - k
      {
        if entries[k].id == c.id { found := k; }
        k := k + 1;
      }
      FirstIndexUnique(entries, EntryOf(c.id), found);
      if found < 0 || !entries[found].available || KindOf(entries[found].value) != KindOf(c.value) || c.value.Bare?
         || entries[found].value != c.value { return false; }
    }
    return true;
  }

  /** The outcome of a read-back: the revision first, then the values. */
  method Compare(r: Record, changes: seq<Change>) returns (outcome: Result)
    ensures outcome == Outcome(r, changes)
  {
    if r.configRev != r.expectedRev { return if r.configRev == r.oldRev then Failed else DeviceConflict; }
    var ok := r.rules.Some? && r.values.Some?;
    if ok { ok := ValuesMatch(r.values.value, changes); }
    return if ok then Success else Failed;
  }

  /** What one device has done so far: accepted saves, submitted commands, callbacks. */
  datatype Past = Past(plans: seq<Plan>, log: seq<Cmd>, calls: seq<Call>)

  /** An outcome decided under the lock for the transaction in `slot`, to be delivered outside it. */
  datatype Ruling = Ruling(slot: nat, device: string, call: Call)

  function At<T>(m: map<string, T>, d: string): Option<T> { if d in m then Some(m[d]) else None }

  class Transactions {
    const slots: DeviceTable<Tx>
    const rows: DeviceTable<Record>
    var ruling: Option<Ruling>
    var past: map<string, Past>
    ghost var runs: map<string, seq<Event>>

    function PastOf(d: string): Past
      reads this`past
    {
      if d in past then past[d] else Past([], [], [])
    }

    ghost function RunOf(d: string): seq<Event>
      reads this`runs
    {
      if d in runs then runs[d] else []
    }

    ghost function RulingOf(d: string): Option<Call>
      reads this`ruling
    {
      if ruling.Some? && ruling.value.device == d then Some(ruling.value.call) else None
    }

    /** One device's part of the tables. */
    ghost function View(d: string): World
      reads this`past, this`ruling, slots, rows
    {
      var p := PastOf(d);
      World(At(slots.items, d), At(rows.items, d), RulingOf(d), p.plans, p.log, p.calls)
    }

    /** Transaction ids are positions among the device's saves, and a decided transaction that is still there sits in
        the slot the delivery will free. */
    ghost predicate Shaped()
      reads this`past, this`ruling, slots, slots.cells, rows, rows.cells
    {
      && slots.Valid() && rows.Valid()
      && (forall d :: d in slots.items ==> slots.items[d].t < |PastOf(d).plans|)
      && (ruling.Some? ==>
            var r := ruling.value;
            && r.slot < MAX_DEVICES && r.call.t < |PastOf(r.device).plans|
            && (r.device in slots.items && slots.items[r.device].t == r.call.t ==> HeldBy(r.device)(slots.cells[r.slot])))
    }

    /** Every device is in the state its own events lead to. */
    ghost predicate Valid()
      reads this, slots, slots.cells, rows, rows.cells
    {
      Shaped() && forall d :: View(d) == After(RunOf(d))
    }

    twostate predicate OthersKept(d: string)
      reads this`past, this`ruling, slots, rows
    {
      forall o :: o != d ==> View(o) == old(View(o))
    }

    /** The device's run gained one event and every other device's run is as before. */
    twostate predicate Did(d: string, e: Event)
      reads this`runs
    {
      RunOf(d) == old(RunOf(d)) + [e] && forall o :: o != d ==> RunOf(o) == old(RunOf(o))
    }

    constructor ()
      ensures Valid() && fresh(slots) && fresh(slots.cells) && fresh(rows) && fresh(rows.cells)
      ensures forall d :: RunOf(d) == []
    {
      slots := new DeviceTable<Tx>();
      rows := new DeviceTable<Record>();
      ruling, past, runs := None, map[], map[];
    }

    /** Append the event a handler has just carried out to the device's run. */
    ghost method Note(d: string, e: Event)
      requires Shaped() && View(d) == Step(After(RunOf(d)), e) && forall o :: o != d ==> View(o) == After(RunOf(o))
      modifies this`runs
      ensures Valid() && Did(d, e)
    {
      AfterAppend(RunOf(d), e);
      ghost var r := RunOf(d) + [e];
      runs := runs[d := r];
      forall o ensures View(o) == After(RunOf(o)) { assert View(o) == old(View(o)); }
    }

    /** Whatever the handlers did, every callback in the table that reports a success has its read-back, and the
        commands of a device follow the script exactly when no grant found its transaction already started. */
    lemma {:induction false} TableKeepsPromises(d: string)
      requires Valid()
      ensures forall i :: 0 <= i < |PastOf(d).calls| ==> Justified(RunOf(d), PastOf(d).calls[i])
      ensures Scripted(View(d)) <==> FreshRun(RunOf(d))
    {
      assert View(d) == After(RunOf(d));
      SuccessOnlyAfterReadBack(RunOf(d));
      CommandsFollowScriptIff(RunOf(d));
    }

    // ----- one transaction slot

    /** ds_tx_complete: free the slot, then call back. */
    method CompleteWith(k: nat, r: Result)
      requires Shaped() && k < MAX_DEVICES && slots.cells[k].Held?
      modifies this`past, slots, slots.cells
      ensures Shaped() && OthersKept(old(slots.cells[k].device))
      ensures View(old(slots.cells[k].device)) == Finish(old(View(slots.cells[k].device)), r)
    {
      var d, t := slots.cells[k].device, slots.cells[k].item.t;
      slots.Release(k);
      past := past[d := PastOf(d).(calls := PastOf(d).calls + [Call(t, r)])];
    }

    /** Replace the transaction in a slot by a later state of the same save. */
    method Write(k: nat, x: Tx)
      requires Shaped() && k < MAX_DEVICES && slots.cells[k].Held? && x.t == slots.cells[k].item.t
      modifies slots, slots.cells
      ensures Shaped() && slots.cells[k] == Held(old(slots.cells[k].device), x) && OthersKept(slots.cells[k].device)
      ensures View(slots.cells[k].device) == old(View(slots.cells[k].device)).(tx := Some(x))
    {
      slots.Store(k, Held(slots.cells[k].device, x));
    }

    /** Hand one command to the scheduler; a refusal ends the transaction. */
    method Submit(k: nat, c: Cmd, x: Tx, sent: bool)
      requires Shaped() && k < MAX_DEVICES && slots.cells[k].Held? && x.t == slots.cells[k].item.t
      modifies this`past, slots, slots.cells
      ensures Shaped() && OthersKept(old(slots.cells[k].device))
      ensures View(old(slots.cells[k].device)) == Send(old(View(slots.cells[k].device)), c, x, sent)
    {
      if !sent { CompleteWith(k, Internal); return; }
      var d := slots.cells[k].device;
      Write(k, x);
      past := past[d := PastOf(d).(log := PastOf(d).log + [c])];
    }

    /** submit_next_command. */
    method Advance(k: nat, next: nat, sent: bool)
      requires Shaped() && k < MAX_DEVICES && slots.cells[k].Held?
      modifies this`past, slots, slots.cells
      ensures Shaped() && OthersKept(old(slots.cells[k].device))
      ensures View(old(slots.cells[k].device)) == SubmitNext(old(View(slots.cells[k].device)), next, sent)
    {
      var x := slots.cells[k].item;
      var j := rows.Find(slots.cells[k].device);
      if j < 0 || rows.cells[j].item.rules.None? {
        CompleteWith(k, Internal);
      } else if next < |x.changes| {
        Submit(k, Set(x.t, x.changes[next].id, Wire(x.changes[next].value)), x.(next := next, phase := SetSent), sent);
      } else {
        Submit(k, Commit(x.t), x.(next := next, phase := CommitSent), sent);
      }
    }

    /** Replace one device's record. */
    method WriteRow(j: nat, rec: Record)
      requires Shaped() && j < MAX_DEVICES && rows.cells[j].Held?
      modifies rows, rows.cells
      ensures Shaped() && OthersKept(old(rows.cells[j].device))
      ensures View(old(rows.cells[j].device)) == old(View(rows.cells[j].device)).(rec := Some(rec))
    {
      rows.Store(j, Held(rows.cells[j].device, rec));
    }

    /** mark_reconciliation_pending. */
    method MarkPending(k: nat)
      requires Shaped() && k < MAX_DEVICES && slots.cells[k].Held?
      modifies slots, slots.cells, rows, rows.cells
      ensures Shaped() && OthersKept(old(slots.cells[k].device))
      ensures View(old(slots.cells[k].device)) == AwaitReboot(old(View(slots.cells[k].device)))
    {
      var x := slots.cells[k].item;
      var j := rows.Find(slots.cells[k].device);
      if j >= 0 {
        WriteRow(j, rows.cells[j].item.(pending := true, expectedRev := NextRevision(x), oldRev := x.expected));
      }
      Write(k, x.(phase := WaitingReboot));
    }

    method Acknowledge(k: nat, reported: Option<int>, sent: bool)
      requires Shaped() && k < MAX_DEVICES && slots.cells[k].Held?
      modifies this`past, slots, slots.cells, rows, rows.cells
      ensures Shaped() && OthersKept(old(slots.cells[k].device))
      ensures View(old(slots.cells[k].device)) == Acknowledged(old(View(slots.cells[k].device)), reported, sent)
    {
      var x := slots.cells[k].item;
      if x.phase.BeginSent? { Advance(k, x.next, sent); }
      else if x.phase.SetSent? { Advance(k, x.next + 1, sent); }
      else if x.phase.CommitSent? {
        var rev := if reported.Some? then reported.value % WORD else x.newRev;
        Submit(k, Confirm(x.t, rev), x.(newRev := rev, phase := ConfirmSent), sent);
      } else if x.phase.ConfirmSent? { MarkPending(k); }
    }

    /** A completion that arrives while the reboot is awaited. */
    method Refine(k: nat, status: Status, reported: Option<int>)
      requires Shaped() && k < MAX_DEVICES && slots.cells[k].Held?
      modifies slots, slots.cells, rows, rows.cells
      ensures Shaped() && OthersKept(old(slots.cells[k].device))
      ensures View(old(slots.cells[k].device)) == LateCompletion(old(View(slots.cells[k].device)), status, reported)
    {
      if status.Ok? && reported.Some? {
        var rev := reported.value % WORD;
        var j := rows.Find(slots.cells[k].device);
        if j >= 0 { WriteRow(j, rows.cells[j].item.(expectedRev := rev)); }
        Write(k, slots.cells[k].item.(newRev := rev));
      }
    }

    method Settle(k: nat, status: Status, reported: Option<int>, sent: bool)
      requires Shaped() && k < MAX_DEVICES && slots.cells[k].Held?
      modifies this`past, slots, slots.cells, rows, rows.cells
      ensures Shaped() && OthersKept(old(slots.cells[k].device))
      ensures View(old(slots.cells[k].device)) == Completed(old(View(slots.cells[k].device)), status, reported, sent)
    {
      var p := slots.cells[k].item.phase;
      if p.WaitingReboot? { Refine(k, status, reported); return; }
      match status
      case Ok => Acknowledge(k, reported, sent);
      case Rejected => CompleteWith(k, if p.BeginSent? then DeviceConflict else DeviceRejected);
      case Busy => CompleteWith(k, DeviceRejected);
      case TimedOut => if Committing(p) { MarkPending(k); } else { CompleteWith(k, Timeout); }
      case NotConnected => if Committing(p) { MarkPending(k); } else { CompleteWith(k, Disconnected); }
      case StatusCancelled => CompleteWith(k, Cancelled);
      case Unexpected => CompleteWith(k, Internal);
    }

    // ----- the actor's handlers

    /** device_settings_save: the slot is taken before the changes are checked and given back if one fails. */
    method SaveChanges(d: string, changes: seq<Change>, expected: nat, queued: bool) returns (ok: bool)
      requires Valid()
      modifies this`past, this`runs, slots, slots.cells
      ensures Valid() && Did(d, Save(changes, expected, queued && old(FirstIndex(slots.cells[..], IsFree()) >= 0)))
      ensures ok == old(SaveAccepted(View(d), changes, queued && FirstIndex(slots.cells[..], IsFree()) >= 0))
    {
      ghost var room := FirstIndex(slots.cells[..], IsFree()) >= 0;
      ok := TakeSlot(d, changes, expected, queued);
      Note(d, Save(changes, expected, queued && room));
    }

    method TakeSlot(d: string, changes: seq<Change>, expected: nat, queued: bool) returns (ok: bool)
      requires Shaped()
      modifies this`past, slots, slots.cells
      ensures Shaped() && OthersKept(d)
      ensures ok == old(SaveAccepted(View(d), changes, queued && FirstIndex(slots.cells[..], IsFree()) >= 0))
      ensures View(d) == old(Step(View(d), Save(changes, expected, queued && FirstIndex(slots.cells[..], IsFree()) >= 0)))
    {
      var rules := RulesFor(d, changes);
      if rules.None? { return false; }
      ok := AllPrevalidated(rules.value, changes);
      ok := Place(d, changes, expected, ok && queued);
    }

    /** Take the first free slot, and give it back unless the save goes ahead. */
    method Place(d: string, changes: seq<Change>, expected: nat, keep: bool) returns (ok: bool)
      requires Shaped() && d != "" && View(d).tx.None?
      modifies this`past, slots, slots.cells
      ensures Shaped() && OthersKept(d) && ok == (keep && old(FirstIndex(slots.cells[..], IsFree()) >= 0))
      ensures View(d) == if ok then old(View(d)).(tx := Some(Tx(|old(View(d)).plans|, changes, expected, 0, 0, Prevalidating)), plans := old(View(d)).plans + [Plan(changes, expected)])
                         else old(View(d))
    {
      ok := slots.ClaimIf(d, Tx(|PastOf(d).plans|, changes, expected, 0, 0, Prevalidating), keep);
      if ok { past := past[d := PastOf(d).(plans := PastOf(d).plans + [Plan(changes, expected)])]; }
    }

    /** The checks a save makes before it takes a slot; the rules its changes will be checked against. */
    method RulesFor(d: string, changes: seq<Change>) returns (rules: Option<seq<Rule>>)
      requires Shaped()
      ensures rules.Some? <==> 1 <= |changes| <= MAX_CHANGES && View(d).tx.None? && View(d).rec.Some? && View(d).rec.value.ready && View(d).rec.value.rules.Some?
      ensures rules.Some? ==> d != "" && rules == View(d).rec.value.rules
    {
      if d == "" || |changes| == 0 || |changes| > MAX_CHANGES { return None; }
      var k := slots.Find(d);
      var j := rows.Find(d);
      if k >= 0 || j < 0 || !rows.cells[j].item.ready { return None; }
      return rows.cells[j].item.rules;
    }

    /** device_settings_tx_actor_begin. */
    method LeaseGranted(d: string, sent: bool)
      requires Valid()
      modifies this`past, this`runs, slots, slots.cells
      ensures Valid() && Did(d, Start(sent))
    {
      var k := slots.Find(d);
      if k >= 0 {
        var x := slots.cells[k].item;
        Submit(k, Begin(x.t, x.expected), x.(phase := BeginSent), sent);
      }
      Note(d, Start(sent));
    }

    /** device_settings_tx_actor_command_complete. */
    method CommandComplete(d: string, status: Status, reported: Option<int>, sent: bool)
      requires Valid()
      modifies this`past, this`runs, slots, slots.cells, rows, rows.cells
      ensures Valid() && Did(d, Complete(status, reported, sent))
    {
      var k := slots.Find(d);
      if k >= 0 { Settle(k, status, reported, sent); }
      Note(d, Complete(status, reported, sent));
    }

    /** device_settings_tx_actor_abort. */
    method AbortNow(d: string)
      requires Valid()
      modifies this`past, this`runs, slots, slots.cells
      ensures Valid() && Did(d, Abort)
    {
      var k := slots.Find(d);
      if k >= 0 { CompleteWith(k, Cancelled); }
      Note(d, Abort);
    }

    /** device_settings_tx_actor_on_disconnect and the abort that follows when it declines. */
    method OnDisconnect(d: string)
      requires Valid()
      modifies this`past, this`runs, slots, slots.cells, rows, rows.cells
      ensures Valid() && Did(d, LinkLost)
    {
      var k := slots.Find(d);
      if k >= 0 {
        var p := slots.cells[k].item.phase;
        if Committing(p) { MarkPending(k); }
        else if !p.WaitingReboot? { CompleteWith(k, Cancelled); }
      }
      Note(d, LinkLost);
    }

    /** device_settings_tx_actor_timeout. */
    method OnTimeout(d: string)
      requires Valid()
      modifies this`past, this`runs, slots, slots.cells
      ensures Valid() && Did(d, TimerFired)
    {
      var k := slots.Find(d);
      if k >= 0 { CompleteWith(k, if slots.cells[k].item.phase.WaitingReboot? then OutcomeUnknown else Cancelled); }
      Note(d, TimerFired);
    }

    // ----- the read-back

    /** The locked half of device_settings_reconcile. One task reconciles, and it delivers before it decides again. */
    method Reconcile(d: string)
      requires Valid() && ruling.None?
      modifies this`ruling, this`runs, slots, slots.cells, rows, rows.cells
      ensures Valid() && Did(d, Decide)
    {
      DecideRow(d);
      Note(d, Decide);
    }

    method Announce(k: nat, x: Tx, outcome: Result)
      requires Shaped() && ruling.None? && k < MAX_DEVICES && slots.cells[k].Held? && x.t == slots.cells[k].item.t
      modifies this`ruling, slots, slots.cells
      ensures Shaped() && OthersKept(old(slots.cells[k].device))
      ensures View(old(slots.cells[k].device)) == old(View(slots.cells[k].device)).(tx := Some(x), verdict := Some(Call(x.t, outcome)))
    {
      Write(k, x);
      ruling := Some(Ruling(k, slots.cells[k].device, Call(x.t, outcome)));
    }

    method DecideRow(d: string)
      requires Shaped() && ruling.None?
      modifies this`ruling, slots, slots.cells, rows, rows.cells
      ensures Shaped() && OthersKept(d)
      ensures View(d) == Decided(old(View(d)))
    {
      var j := rows.Find(d);
      if j < 0 || !rows.cells[j].item.pending { return; }
      var r := rows.cells[j].item;
      WriteRow(j, r.(pending := false));
      Judge(d, r);
    }

    /** Decide the outcome for a transaction that awaits the reboot. */
    method Judge(d: string, r: Record)
      requires Shaped() && ruling.None?
      modifies this`ruling, slots, slots.cells
      ensures Shaped() && OthersKept(d)
      ensures View(d) == if old(View(d)).tx.None? || !old(View(d)).tx.value.phase.WaitingReboot? then old(View(d)) else
                           var x := old(View(d)).tx.value;
                           old(View(d)).(tx := Some(if r.configRev == r.expectedRev then x.(phase := Verifying) else x),
                                         verdict := Some(Call(x.t, Outcome(r, x.changes))))
    {
      var k := slots.Find(d);
      if k < 0 || !slots.cells[k].item.phase.WaitingReboot? { return; }
      var x := slots.cells[k].item;
      var outcome := Compare(r, x.changes);
      Announce(k, if r.configRev == r.expectedRev then x.(phase := Verifying) else x, outcome);
    }

    /** What delivering the decided outcome does to a device: its own delivery, an eviction, or nothing. */
    ghost function Resolution(o: string): seq<Event>
      requires Shaped()
      reads this`past, this`ruling, slots, slots.cells, rows, rows.cells
    {
      if ruling.None? then []
      else if o == ruling.value.device then [Deliver(HeldBy(o)(slots.cells[ruling.value.slot]))]
      else if HeldBy(o)(slots.cells[ruling.value.slot]) then [Evict]
      else []
    }

    /** The unlocked half of device_settings_reconcile: free the slot, whoever holds it by now, and call back. */
    method Resolve()
      requires Valid()
      modifies this`past, this`ruling, this`runs, slots, slots.cells
      ensures Valid() && ruling.None?
      ensures forall o :: RunOf(o) == old(RunOf(o)) + old(Resolution(o))
    {
      if ruling.None? { return; }
      var c := slots.cells[ruling.value.slot];
      if c.Held? && c.device != ruling.value.device { FreeForOther(); } else { FreeForOwn(); }
    }

    /** The slot holds another device's transaction, which is lost. */
    method FreeForOther()
      requires Valid() && ruling.Some? && slots.cells[ruling.value.slot].Held? && slots.cells[ruling.value.slot].device != ruling.value.device
      modifies this`past, this`ruling, this`runs, slots, slots.cells
      ensures Valid() && ruling.None?
      ensures forall o :: RunOf(o) == old(RunOf(o)) + old(Resolution(o))
    {
      EvictHolder();
      CallBack(false);
    }

    method EvictHolder()
      requires Valid() && ruling.Some? && slots.cells[ruling.value.slot].Held? && slots.cells[ruling.value.slot].device != ruling.value.device
      modifies this`runs, slots, slots.cells
      ensures Valid() && Did(old(slots.cells[ruling.value.slot].device), Evict) && slots.cells[ruling.value.slot].Free?
    {
      ghost var lost := slots.cells[ruling.value.slot].device;
      slots.Release(ruling.value.slot);
      Note(lost, Evict);
    }

    /** The slot is the device's own, or free already. */
    method FreeForOwn()
      requires Valid() && ruling.Some? && !(slots.cells[ruling.value.slot].Held? && slots.cells[ruling.value.slot].device != ruling.value.device)
      modifies this`past, this`ruling, this`runs, slots, slots.cells
      ensures Valid() && ruling.None?
      ensures forall o :: RunOf(o) == old(RunOf(o)) + old(Resolution(o))
    {
      ghost var own := slots.cells[ruling.value.slot].Held?;
      slots.Release(ruling.value.slot);
      CallBack(own);
    }

    /** The callback itself, once the slot is free. */
    method CallBack(ghost reused: bool)
      requires Shaped() && ruling.Some?
      requires forall o :: o != ruling.value.device ==> View(o) == After(RunOf(o))
      requires var w := After(RunOf(ruling.value.device));
               w.verdict.Some? && View(ruling.value.device) == w.(tx := Delivered(w, reused).tx)
      modifies this`past, this`ruling, this`runs
      ensures Valid() && ruling.None? && Did(old(ruling.value.device), Deliver(reused))
    {
      var r := ruling.value;
      past := past[r.device := PastOf(r.device).(calls := PastOf(r.device).calls + [r.call])];
      ruling := None;
      Note(r.device, Deliver(reused));
    }

    // ----- the records

    /** device_settings_on_capability: a new device gets the first free record. */
    method OnCapability(d: string, ready: bool) returns (ok: bool)
      requires Valid()
      modifies this`runs, rows, rows.cells
      ensures Valid() && ok == (d != "" && old(d in rows.items || FirstIndex(rows.cells[..], IsFree()) >= 0))
      ensures if ok then Did(d, Advertise(ready)) else forall o :: RunOf(o) == old(RunOf(o))
    {
      if d == "" { return false; }
      var j := rows.Find(d);
      if j >= 0 {
        var rec := rows.cells[j].item;
        WriteRow(j, rec.(ready := ready && rec.rules.Some?));
      } else {
        j := rows.Claim(d, Record(None, false, None, 0, false, 0, 0));
        if j < 0 { return false; }
      }
      Note(d, Advertise(ready));
      return true;
    }

    /** device_settings_commit_schema. */
    method SchemaCommitted(d: string, rules: seq<Rule>)
      requires Valid()
      modifies this`runs, rows, rows.cells
      ensures Valid() && Did(d, CommitSchema(rules))
    {
      var j := rows.Find(d);
      if j >= 0 { WriteRow(j, rows.cells[j].item.(rules := Some(rules), ready := true)); }
      Note(d, CommitSchema(rules));
    }

    /** device_settings_commit_values. */
    method ValuesCommitted(d: string, entries: seq<Entry>, revision: nat)
      requires Valid()
      modifies this`runs, rows, rows.cells
      ensures Valid() && Did(d, CommitValues(entries, revision))
    {
      var j := rows.Find(d);
      if j >= 0 { WriteRow(j, rows.cells[j].item.(values := Some(entries), configRev := revision)); }
      Note(d, CommitValues(entries, revision));
    }

    /** The last part of device_settings_forget: the record goes, the transaction stays. */
    method Purge(d: string)
      requires Valid()
      modifies this`runs, rows, rows.cells
      ensures Valid() && Did(d, Forget)
    {
      var j := rows.Find(d);
      if j >= 0 { rows.Release(j); }
      Note(d, Forget);
    }
  }
}
