/** BLE central: the device table and the connection-slot table point at each other. Each function is one
    critical section under the state mutex. */
module BleTables {
  import opened Basics
  import opened Search

  const MAX_CONN: nat := 9
  const MAX_DEVICES: nat := 16
  const NO_HANDLE: nat := 0xFFFF

  datatype DevState = Offline | Connecting | Connected | Backoff | Removing
  datatype ConnState = Free | Dialing | Securing | Discovering | Ready | Disconnecting

  datatype Dev = Dev(inUse: bool, id: string, slot: int, state: DevState)
  const ZERO_DEV := Dev(false, "", 0, Offline)

  datatype Conn = Conn(state: ConnState, device: int, generation: nat, handle: nat)
  function FreeConn(generation: nat): Conn { Conn(Free, -1, generation, NO_HANDLE) }

  /** A slot number and the generation it had when the reference was made. */
  datatype Ref = Ref(slot: nat, generation: nat)

  datatype Tables = Tables(devs: seq<Dev>, conns: seq<Conn>)

  predicate Shaped(t: Tables) { |t.devs| == MAX_DEVICES && |t.conns| == MAX_CONN }

  /** The two tables are inverse to each other, and at most one slot is dialing. */
  ghost predicate Inverse(t: Tables) {
    && Shaped(t)
    && (forall d :: 0 <= d < MAX_DEVICES && t.devs[d].inUse && t.devs[d].slot != -1 ==>
          0 <= t.devs[d].slot < MAX_CONN && !t.conns[t.devs[d].slot].state.Free? && t.conns[t.devs[d].slot].device == d)
    && (forall c :: 0 <= c < MAX_CONN && !t.conns[c].state.Free? ==>
          0 <= t.conns[c].device < MAX_DEVICES && t.devs[t.conns[c].device].inUse && t.devs[t.conns[c].device].slot == c)
    && (forall a, b :: 0 <= a < b < MAX_CONN ==> !(t.conns[a].state.Dialing? && t.conns[b].state.Dialing?))
  }

  function Initial(): Tables { Tables(Repeat(MAX_DEVICES, ZERO_DEV), Repeat(MAX_CONN, FreeConn(0))) }

  function DevUnused(): Dev -> bool { (d: Dev) => !d.inUse }
  function DevNamed(id: string): Dev -> bool { (d: Dev) => d.inUse && d.id == id }
  function DevOnSlot(c: int): Dev -> bool { (d: Dev) => d.inUse && d.slot == c }
  function ConnFree(): Conn -> bool { (c: Conn) => c.state.Free? }
  function ConnDialing(): Conn -> bool { (c: Conn) => c.state.Dialing? }

  predicate Live(t: Tables, r: Ref) {
    r.slot < |t.conns| && !t.conns[r.slot].state.Free? && t.conns[r.slot].generation == r.generation
  }

  function Freed(t: Tables, c: nat): Tables
    requires c < |t.conns|
  {
    t.(conns := t.conns[c := FreeConn(t.conns[c].generation)])
  }

  datatype Rc = Ok | InvalidArg | NotFound | Busy | StateError | InProgress | NoSlot

  function ReserveRc(t: Tables, d: int): Rc {
    if d < 0 || d >= |t.devs| then InvalidArg
    else if !t.devs[d].inUse then NotFound
    else if !t.devs[d].state.Offline? && !t.devs[d].state.Backoff? then Busy
    else if t.devs[d].slot != -1 then StateError
    else if FirstIndex(t.conns, ConnDialing()) >= 0 then InProgress
    else if FirstIndex(t.conns, ConnFree()) < 0 then NoSlot
    else Ok
  }

  /** ble_state_reserve_connection. */
  function Reserve(t: Tables, d: int): Tables {
    if !ReserveRc(t, d).Ok? then t
    else
      var c := FirstIndex(t.conns, ConnFree());
      Tables(t.devs[d := t.devs[d].(slot := c, state := Connecting)],
             t.conns[c := Conn(Dialing, d, t.conns[c].generation + 1, NO_HANDLE)])
  }

  /** ble_state_rollback_connection_start: the slot is freed under a generation check, the device is unlinked without one. */
  function Rollback(t: Tables, r: Ref): Tables
    requires Shaped(t)
  {
    var u := if Live(t, r) && 0 <= t.conns[r.slot].device < MAX_DEVICES then Freed(t, r.slot) else t;
    var k := FirstIndex(t.devs, DevOnSlot(r.slot));
    if k < 0 then u
    else u.(devs := u.devs[k := u.devs[k].(slot := -1, state := if u.devs[k].state.Connecting? then Backoff else u.devs[k].state)])
  }

  /** ble_state_on_connect_success. */
  function ConnectSuccess(t: Tables, r: Ref, handle: nat): Tables {
    if Live(t, r) && t.conns[r.slot].state.Dialing?
    then t.(conns := t.conns[r.slot := t.conns[r.slot].(handle := handle, state := Securing)]) else t
  }

  predicate DisconnectTaken(t: Tables, r: Ref, handle: nat) { Live(t, r) && t.conns[r.slot].handle == handle }

  /** ble_state_on_disconnect. */
  function Disconnect(t: Tables, r: Ref, handle: nat): Tables
    requires Shaped(t)
  {
    if !DisconnectTaken(t, r, handle) then t
    else
      var d := t.conns[r.slot].device;
      var u := Freed(t, r.slot);
      if 0 <= d < MAX_DEVICES && t.devs[d].inUse
      then u.(devs := u.devs[d := u.devs[d].(slot := -1, state := if u.devs[d].state.Removing? then Removing else Backoff)])
      else u
  }

  /** The row, and the name copied from it, that a disconnect leaves its caller with. Whether the row is being removed is
      read from it later, without the lock. */
  function Released(t: Tables, r: Ref, handle: nat): Option<(nat, string)> {
    if DisconnectTaken(t, r, handle) && 0 <= t.conns[r.slot].device < |t.devs| && t.devs[t.conns[r.slot].device].inUse
    then Some((t.conns[r.slot].device, t.devs[t.conns[r.slot].device].id)) else None
  }

  /** ble_state_mark_disconnecting, ble_state_set_ready and ble_state_begin_discovery. */
  function MarkDisconnecting(t: Tables, r: Ref): Tables {
    if Live(t, r) then t.(conns := t.conns[r.slot := t.conns[r.slot].(state := Disconnecting)]) else t
  }
  function SetReady(t: Tables, r: Ref): Tables {
    if Live(t, r) then t.(conns := t.conns[r.slot := t.conns[r.slot].(state := Ready)]) else t
  }
  function BeginDiscovery(t: Tables, r: Ref): Tables {
    if Live(t, r) && t.conns[r.slot].state.Securing?
    then t.(conns := t.conns[r.slot := t.conns[r.slot].(state := Discovering)]) else t
  }

  /** ble_state_handle_host_reset. */
  function ResetConn(c: Conn): Conn { if c.state.Free? then c else FreeConn(c.generation + 1) }
  function ResetDev(d: Dev): Dev {
    if !d.inUse then d
    else if d.state.Removing? then ZERO_DEV
    else d.(slot := -1, state := if d.state.Connecting? || d.state.Connected? || d.state.Backoff? then Offline else d.state)
  }
  function HostReset(t: Tables): Tables {
    Tables(seq(|t.devs|, i requires 0 <= i < |t.devs| => ResetDev(t.devs[i])),
           seq(|t.conns|, i requires 0 <= i < |t.conns| => ResetConn(t.conns[i])))
  }

  /** ble_runtime_find_or_register. */
  function Register(t: Tables, id: string): Tables {
    var k, u := FirstIndex(t.devs, DevNamed(id)), FirstIndex(t.devs, DevUnused());
    if k >= 0 || u < 0 then t else t.(devs := t.devs[u := Dev(true, id, -1, Offline)])
  }

  /** The critical section of ble_central_forget_peer on the row looked up before it; the row is not looked at again,
      so it may have been cleared meanwhile. */
  function Forget(t: Tables, d: int): Tables {
    if !(0 <= d < |t.devs|) then t
    else
      var u := t.(devs := t.devs[d := t.devs[d].(state := Removing)]);
      var c := t.devs[d].slot;
      if 0 <= c < |t.conns| && !t.conns[c].state.Free? && !t.conns[c].state.Dialing? && t.conns[c].handle != NO_HANDLE
      then u.(conns := t.conns[c := t.conns[c].(state := Disconnecting)]) else u
  }

  /** What the same section reports as an active link of the row. */
  predicate HadLink(t: Tables, d: int) {
    0 <= d < |t.devs| && 0 <= t.devs[d].slot < |t.conns| && !t.conns[t.devs[d].slot].state.Free?
  }

  /** The connection handle it asks its caller to terminate: that of a connection past dialing. */
  function LinkToEnd(t: Tables, d: int): Option<nat> {
    if HadLink(t, d) && !t.conns[t.devs[d].slot].state.Dialing? && t.conns[t.devs[d].slot].handle != NO_HANDLE
    then Some(t.conns[t.devs[d].slot].handle) else None
  }

  /** ble_runtime_finalize_remove. */
  function Finalize(t: Tables, d: int): Tables {
    if 0 <= d < |t.devs| && t.devs[d].inUse && t.devs[d].state.Removing? then t.(devs := t.devs[d := ZERO_DEV]) else t
  }

  /** ble_scheduler_note_failure. */
  function NoteFailure(t: Tables, d: int): Tables {
    if !(0 <= d < |t.devs| && t.devs[d].inUse && t.devs[d].state.Connecting?) then t
    else
      var c := t.devs[d].slot;
      var u := t.(devs := t.devs[d := t.devs[d].(slot := -1, state := Backoff)]);
      if 0 <= c < |t.conns| && t.conns[c].device == d then Freed(u, c) else u
  }

  datatype Action = ReserveA(d: int) | RollbackA(r: Ref) | ConnectA(r: Ref, handle: nat) | DisconnectA(r: Ref, handle: nat)
                  | MarkA(r: Ref) | ReadyA(r: Ref) | DiscoverA(r: Ref) | HostResetA | RegisterA(id: string)
                  | ForgetA(d: int) | FinalizeA(d: int) | NoteFailureA(d: int)

  function Apply(t: Tables, a: Action): Tables
    requires Shaped(t)
  {
    match a
    case ReserveA(d) => Reserve(t, d)
    case RollbackA(r) => Rollback(t, r)
    case ConnectA(r, h) => ConnectSuccess(t, r, h)
    case DisconnectA(r, h) => Disconnect(t, r, h)
    case MarkA(r) => MarkDisconnecting(t, r)
    case ReadyA(r) => SetReady(t, r)
    case DiscoverA(r) => BeginDiscovery(t, r)
    case HostResetA => HostReset(t)
    case RegisterA(id) => Register(t, id)
    case ForgetA(d) => Forget(t, d)
    case FinalizeA(d) => Finalize(t, d)
    case NoteFailureA(d) => NoteFailure(t, d)
  }

  // ----- exactly when the two unguarded steps are harmless

  /** The reference's slot was taken over by a later lifetime. */
  predicate Overtaken(t: Tables, r: Ref) {
    r.slot < |t.conns| && !t.conns[r.slot].state.Free? && t.conns[r.slot].generation != r.generation
  }

  /** Rolling back keeps the tables inverse if and only if the reference's slot was not taken over. */
  lemma {:induction false} RollbackInverseIff(t: Tables, r: Ref)
    requires Inverse(t)
    ensures Inverse(Rollback(t, r)) <==> !Overtaken(t, r)
  {
    var k := FirstIndex(t.devs, DevOnSlot(r.slot));
    if r.slot < MAX_CONN && !t.conns[r.slot].state.Free? {
      var d := t.conns[r.slot].device;
      assert DevOnSlot(r.slot)(t.devs[d]);
      assert k == d;
      if Overtaken(t, r) {
        var u := Rollback(t, r);
        assert !u.conns[r.slot].state.Free? && u.devs[u.conns[r.slot].device].slot != r.slot;
      }
    }
  }

  /** A removing row that is still linked to a slot. */
  predicate LinkedRemoval(t: Tables, d: int) {
    0 <= d < |t.devs| && t.devs[d].inUse && t.devs[d].state.Removing? && t.devs[d].slot != -1
  }

  /** Finalizing a removal keeps the tables inverse if and only if the row is not linked. */
  lemma {:induction false} FinalizeInverseIff(t: Tables, d: int)
    requires Inverse(t)
    ensures Inverse(Finalize(t, d)) <==> !LinkedRemoval(t, d)
  {
    if LinkedRemoval(t, d) {
      var c := t.devs[d].slot;
      var u := Finalize(t, d);
      assert !u.conns[c].state.Free? && !u.devs[u.conns[c].device].inUse;
    }
  }

  // ----- a forget acts on the row it looked up, whatever became of it

  /** The row's slot number leads to a connection that a forget tears down. */
  predicate TearsDown(t: Tables, d: int) {
    HadLink(t, d) && var c := t.conns[t.devs[d].slot]; !c.state.Dialing? && !c.state.Disconnecting? && c.handle != NO_HANDLE
  }

  /** Row d is no longer the device's, and its slot number leads to another device's connection. */
  predicate ReachesOther(t: Tables, id: string, d: int) {
    && 0 <= d < |t.devs| && !DevNamed(id)(t.devs[d]) && TearsDown(t, d)
    && var e := t.conns[t.devs[d].slot].device; 0 <= e < |t.devs| && t.devs[e].id != id
  }

  /** The same section asks its caller to cancel the connection attempt in progress. */
  predicate Cancels(t: Tables, d: int) { HadLink(t, d) && t.conns[t.devs[d].slot].state.Dialing? }

  /** Row d is no longer the device's, and its slot number leads to another device that is dialing. */
  predicate CancelsOther(t: Tables, id: string, d: int) {
    && 0 <= d < |t.devs| && !DevNamed(id)(t.devs[d]) && Cancels(t, d)
    && var e := t.conns[t.devs[d].slot].device; 0 <= e < |t.devs| && t.devs[e].id != id
  }

  /** No attempt but the device's own is cancelled. */
  ghost predicate OthersDialingKept(t: Tables, id: string, d: int)
    requires Inverse(t)
  {
    Cancels(t, d) ==> forall c :: 0 <= c < |t.conns| && t.conns[c].state.Dialing? ==> t.devs[t.conns[c].device].id == id
  }

  /** Connections of devices other than id are as before. */
  ghost predicate OthersConnsKept(t: Tables, u: Tables, id: string)
    requires Inverse(t)
  {
    && |u.conns| == |t.conns|
    && forall c :: 0 <= c < |t.conns| && !t.conns[c].state.Free? && t.devs[t.conns[c].device].id != id ==> u.conns[c] == t.conns[c]
  }

  /** Rows in use by devices other than id are as before. */
  ghost predicate OthersRowsKept(t: Tables, u: Tables, id: string) {
    |u.devs| == |t.devs| && forall e :: 0 <= e < |t.devs| && t.devs[e].inUse && t.devs[e].id != id ==> u.devs[e] == t.devs[e]
  }

  /** Another device holds the row now. */
  predicate TakenBy(t: Tables, id: string, d: int) { 0 <= d < |t.devs| && t.devs[d].inUse && t.devs[d].id != id }

  /** Forgetting id on row d leaves every other device's connection alone if and only if row d is still the device's, or
      its slot number leads to no connected slot of another device. */
  lemma {:induction false} ForgetReachesOtherIff(t: Tables, id: string, d: int)
    requires Inverse(t) && 0 <= d < MAX_DEVICES
    ensures OthersConnsKept(t, Forget(t, d), id) <==> !ReachesOther(t, id, d)
  {
    if ReachesOther(t, id, d) {
      var c := t.devs[d].slot;
      assert Forget(t, d).conns[c] != t.conns[c];
    }
  }

  /** The connection attempt it cancels is another device's if and only if row d is no longer the device's and its slot
      number leads to another device that is dialing. */
  lemma {:induction false} ForgetCancelsOtherIff(t: Tables, id: string, d: int)
    requires Inverse(t) && 0 <= d < MAX_DEVICES
    ensures OthersDialingKept(t, id, d) <==> !CancelsOther(t, id, d)
  {
    if CancelsOther(t, id, d) { assert t.conns[t.devs[d].slot].state.Dialing?; }
  }

  /** And it leaves every other device's row alone if and only if no other device holds row d unmarked; clearing row d
      afterwards, if and only if no other device holds it marked. */
  lemma {:induction false} ForgetTouchesOtherIff(t: Tables, id: string, d: int)
    requires Shaped(t) && 0 <= d < MAX_DEVICES
    ensures OthersRowsKept(t, Forget(t, d), id) <==> !(TakenBy(t, id, d) && !t.devs[d].state.Removing?)
    ensures OthersRowsKept(t, Finalize(t, d), id) <==> !(TakenBy(t, id, d) && t.devs[d].state.Removing?)
  {
    if TakenBy(t, id, d) {
      assert t.devs[d].state.Removing? || Forget(t, d).devs[d] != t.devs[d];
      assert !t.devs[d].state.Removing? || Finalize(t, d).devs[d] != t.devs[d];
    }
  }

  /** A takeover: device a reserves slot 0, a host reset ends that lifetime, device b reserves slot 0, and then a's caller
      rolls back. Device b loses its link while slot 0 stays dialing for it, whatever the tables held before. */
  lemma {:induction false} StaleRollbackBreaksLink(u: Tables, a: int, b: int)
    requires Inverse(u) && ReserveRc(u, a).Ok? && FirstIndex(u.conns, ConnFree()) == 0
    requires 0 <= b < MAX_DEVICES && b != a && u.devs[b].inUse && !u.devs[b].state.Removing?
    ensures var v := Reserve(u, a); var t := Reserve(HostReset(v), b); var r := Ref(0, v.conns[0].generation);
            && Live(v, r) && Inverse(t) && t.devs[b].slot == 0
            && !Inverse(Rollback(t, r)) && Rollback(t, r).devs[b].slot == -1 && Rollback(t, r).conns[0] == t.conns[0]
  {
    var v := Reserve(u, a);
    var w := HostReset(v);
    ReserveInverse(u, a);
    ResetInverse(v);
    ResetFreesAll(v, b);
    ReserveInverse(w, b);
    var t, r := Reserve(w, b), Ref(0, v.conns[0].generation);
    assert Overtaken(t, r);
    RollbackInverseIff(t, r);
    assert DevOnSlot(0)(t.devs[b]);
    var k := FirstIndex(t.devs, DevOnSlot(0));
    assert k == b;
  }

  lemma {:induction false} ResetFreesAll(v: Tables, b: int)
    requires Inverse(v) && 0 <= b < MAX_DEVICES && v.devs[b].inUse && !v.devs[b].state.Removing?
    ensures var w := HostReset(v);
            && FirstIndex(w.conns, ConnFree()) == 0 && FirstIndex(w.conns, ConnDialing()) == -1 && ReserveRc(w, b).Ok?
            && (!v.conns[0].state.Free? ==> w.conns[0].generation == v.conns[0].generation + 1)
  {
    var w := HostReset(v);
    assert forall c :: 0 <= c < MAX_CONN ==> w.conns[c].state.Free?;
    assert ConnFree()(w.conns[0]);
  }

  // ----- every other step

  /** The step is neither a rollback of an overtaken reference nor a finalize of a linked row. */
  predicate Proper(t: Tables, a: Action) {
    (a.RollbackA? ==> !Overtaken(t, a.r)) && (a.FinalizeA? ==> !LinkedRemoval(t, a.d))
  }

  lemma {:induction false} ReserveInverse(t: Tables, d: int)
    requires Inverse(t)
    ensures Inverse(Reserve(t, d))
  {
  }

  lemma {:induction false} ResetInverse(t: Tables)
    requires Inverse(t)
    ensures Inverse(HostReset(t))
  {
  }

  /** A slot that advances without becoming free or dialing. */
  lemma {:induction false} AdvanceInverse(t: Tables, c: nat, x: Conn)
    requires Inverse(t) && c < MAX_CONN && !t.conns[c].state.Free? && !x.state.Free? && !x.state.Dialing? && x.device == t.conns[c].device
    ensures Inverse(t.(conns := t.conns[c := x]))
  {
  }

  /** A row and its slot let go of each other. */
  lemma {:induction false} UnlinkInverse(t: Tables, d: nat, state: DevState)
    requires Inverse(t) && d < MAX_DEVICES && t.devs[d].inUse && t.devs[d].slot != -1
    ensures var c := t.devs[d].slot;
            Inverse(Tables(t.devs[d := t.devs[d].(slot := -1, state := state)], t.conns[c := FreeConn(t.conns[c].generation)]))
  {
  }

  lemma {:induction false} RowStateInverse(t: Tables, d: nat, state: DevState)
    requires Inverse(t) && d < MAX_DEVICES
    ensures Inverse(t.(devs := t.devs[d := t.devs[d].(state := state)]))
  {
  }

  lemma {:induction false} ForgetInverse(t: Tables, d: int)
    requires Inverse(t)
    ensures Inverse(Forget(t, d))
  {
    if 0 <= d < MAX_DEVICES {
      var u := t.(devs := t.devs[d := t.devs[d].(state := Removing)]);
      var c := t.devs[d].slot;
      RowStateInverse(t, d, Removing);
      if 0 <= c < MAX_CONN && !t.conns[c].state.Free? { AdvanceInverse(u, c, t.conns[c].(state := Disconnecting)); }
    }
  }

  lemma {:induction false} DisconnectInverse(t: Tables, r: Ref, handle: nat)
    requires Inverse(t)
    ensures Inverse(Disconnect(t, r, handle))
  {
    if DisconnectTaken(t, r, handle) {
      var d := t.conns[r.slot].device;
      UnlinkInverse(t, d, if t.devs[d].state.Removing? then Removing else Backoff);
    }
  }

  lemma {:induction false} NoteFailureInverse(t: Tables, d: int)
    requires Inverse(t)
    ensures Inverse(NoteFailure(t, d))
  {
    if 0 <= d < MAX_DEVICES && t.devs[d].inUse && t.devs[d].state.Connecting? && t.devs[d].slot != -1 {
      UnlinkInverse(t, d, Backoff);
    }
  }

  lemma {:induction false} RegisterInverse(t: Tables, id: string)
    requires Inverse(t)
    ensures Inverse(Register(t, id))
  {
  }

  lemma {:induction false} StepInverse(t: Tables, a: Action)
    requires Inverse(t) && Proper(t, a)
    ensures Inverse(Apply(t, a))
  {
    match a
    case ReserveA(d) => ReserveInverse(t, d);
    case RollbackA(r) => RollbackInverseIff(t, r);
    case ConnectA(r, h) => if Live(t, r) { AdvanceInverse(t, r.slot, t.conns[r.slot].(handle := h, state := Securing)); }
    case DisconnectA(r, h) => DisconnectInverse(t, r, h);
    case MarkA(r) => if Live(t, r) { AdvanceInverse(t, r.slot, t.conns[r.slot].(state := Disconnecting)); }
    case ReadyA(r) => if Live(t, r) { AdvanceInverse(t, r.slot, t.conns[r.slot].(state := Ready)); }
    case DiscoverA(r) => if Live(t, r) { AdvanceInverse(t, r.slot, t.conns[r.slot].(state := Discovering)); }
    case HostResetA => ResetInverse(t);
    case RegisterA(id) => RegisterInverse(t, id);
    case ForgetA(d) => ForgetInverse(t, d);
    case FinalizeA(d) => FinalizeInverseIff(t, d);
    case NoteFailureA(d) => NoteFailureInverse(t, d);
  }

  lemma {:induction false} InitialInverse()
    ensures Inverse(Initial())
  {
  }

  /** The lifetime a reference names is over. */
  predicate Over(t: Tables, r: Ref) {
    r.slot >= |t.conns| || t.conns[r.slot].generation > r.generation
    || (t.conns[r.slot].generation == r.generation && t.conns[r.slot].state.Free?)
  }

  lemma {:induction false} OverKept(t: Tables, a: Action, r: Ref)
    requires Shaped(t) && Over(t, r)
    ensures Over(Apply(t, a), r)
  {
  }

  /** Callbacks with a stale reference change nothing. */
  lemma {:induction false} StaleCallbacksIgnored(t: Tables, r: Ref, handle: nat)
    requires Shaped(t) && Over(t, r)
    ensures ConnectSuccess(t, r, handle) == t && Disconnect(t, r, handle) == t && MarkDisconnecting(t, r) == t
            && SetReady(t, r) == t && BeginDiscovery(t, r) == t
  {
  }

  // ----- the tables in place

  class BleState {
    const devs: array<Dev>
    const conns: array<Conn>

    ghost predicate Valid() { devs.Length == MAX_DEVICES && conns.Length == MAX_CONN }

    ghost function View(): Tables
      reads devs, conns
    {
      Tables(devs[..], conns[..])
    }

    constructor ()
      ensures Valid() && View() == Initial() && fresh(devs) && fresh(conns)
    {
      devs := new Dev[MAX_DEVICES](i => ZERO_DEV);
      conns := new Conn[MAX_CONN](i => FreeConn(0));
      new;
      assert devs[..] == Initial().devs && conns[..] == Initial().conns;
    }

    /** ble_state_reserve_connection. */
    method ReserveConnection(d: int) returns (rc: Rc, r: Ref)
      requires Valid()
      modifies devs, conns
      ensures View() == Reserve(old(View()), d) && rc == ReserveRc(old(View()), d)
      ensures rc.Ok? ==> Live(View(), r) && conns[r.slot].device == d && conns[r.slot].state.Dialing?
    {
      r := Ref(0, 0);
      if d < 0 || d >= MAX_DEVICES { return InvalidArg, r; }
      if !devs[d].inUse { return NotFound, r; }
      if !devs[d].state.Offline? && !devs[d].state.Backoff? { return Busy, r; }
      if devs[d].slot != -1 { return StateError, r; }
      var dialing := -1;
      for i := 0 to MAX_CONN
        invariant dialing == -1 && forall j :: 0 <= j < i ==> !ConnDialing()(conns[j])
      {
        if conns[i].state.Dialing? { dialing := i; break; }
      }
      FirstIndexUnique(conns[..], ConnDialing(), dialing);
      if dialing >= 0 { return InProgress, r; }
      var c := -1;
      for i := 0 to MAX_CONN
        invariant c == -1 && forall j :: 0 <= j < i ==> !ConnFree()(conns[j])
      {
        if conns[i].state.Free? { c := i; break; }
      }
      FirstIndexUnique(conns[..], ConnFree(), c);
      if c < 0 { return NoSlot, r; }
      conns[c] := Conn(Dialing, d, conns[c].generation + 1, NO_HANDLE);
      devs[d] := devs[d].(slot := c, state := Connecting);
      return Ok, Ref(c, conns[c].generation);
    }

    /** ble_state_rollback_connection_start. */
    method RollbackStart(r: Ref)
      requires Valid()
      modifies devs, conns
      ensures View() == Rollback(old(View()), r)
    {
      if r.slot < MAX_CONN {
        var c := conns[r.slot];
        if !c.state.Free? && c.generation == r.generation && 0 <= c.device < MAX_DEVICES {
          conns[r.slot] := FreeConn(c.generation);
        }
      }
      var k := -1;
      for i := 0 to MAX_DEVICES
        invariant k == -1 && forall j :: 0 <= j < i ==> !DevOnSlot(r.slot)(devs[j])
      {
        if devs[i].inUse && devs[i].slot == r.slot { k := i; break; }
      }
      FirstIndexUnique(devs[..], DevOnSlot(r.slot), k);
      if k >= 0 {
        devs[k] := devs[k].(slot := -1, state := if devs[k].state.Connecting? then Backoff else devs[k].state);
      }
    }

    /** ble_state_on_disconnect: the row it released and the name copied from it. */
    method OnDisconnect(r: Ref, handle: nat) returns (taken: bool, row: Option<(nat, string)>)
      requires Valid()
      modifies devs, conns
      ensures View() == Disconnect(old(View()), r, handle)
      ensures taken == DisconnectTaken(old(View()), r, handle) && row == Released(old(View()), r, handle)
      ensures row.Some? ==> row.value.0 < MAX_DEVICES && devs[row.value.0].slot == -1 && devs[row.value.0].id == row.value.1
    {
      row := None;
      if r.slot >= MAX_CONN || conns[r.slot].state.Free? || conns[r.slot].generation != r.generation
         || conns[r.slot].handle != handle { return false, None; }
      var d := conns[r.slot].device;
      conns[r.slot] := FreeConn(conns[r.slot].generation);
      if 0 <= d < MAX_DEVICES && devs[d].inUse {
        devs[d] := devs[d].(slot := -1, state := if devs[d].state.Removing? then Removing else Backoff);
        row := Some((d, devs[d].id));
      }
      return true, row;
    }

    /** ble_state_handle_host_reset. */
    method HandleHostReset()
      requires Valid()
      modifies devs, conns
      ensures View() == HostReset(old(View()))
    {
      for i := 0 to MAX_CONN
        invariant forall j :: 0 <= j < i ==> conns[j] == ResetConn(old(conns[j]))
        invariant forall j :: i <= j < MAX_CONN ==> conns[j] == old(conns[j])
        invariant forall j :: 0 <= j < MAX_DEVICES ==> devs[j] == old(devs[j])
      {
        if !conns[i].state.Free? {
          conns[i] := conns[i].(generation := conns[i].generation + 1);
          conns[i] := FreeConn(conns[i].generation);
        }
      }
      for i := 0 to MAX_DEVICES
        invariant forall j :: 0 <= j < MAX_CONN ==> conns[j] == ResetConn(old(conns[j]))
        invariant forall j :: 0 <= j < i ==> devs[j] == ResetDev(old(devs[j]))
        invariant forall j :: i <= j < MAX_DEVICES ==> devs[j] == old(devs[j])
      {
        if devs[i].inUse {
          if devs[i].state.Removing? {
            devs[i] := ZERO_DEV;
          } else {
            devs[i] := devs[i].(slot := -1);
            if devs[i].state.Connecting? || devs[i].state.Connected? || devs[i].state.Backoff? {
              devs[i] := devs[i].(state := Offline);
            }
          }
        }
      }
      assert devs[..] == HostReset(old(View())).devs && conns[..] == HostReset(old(View())).conns;
    }

    /** ble_state_on_connect_success. */
    method OnConnectSuccess(r: Ref, handle: nat) returns (ok: bool)
      requires Valid()
      modifies conns
      ensures View() == ConnectSuccess(old(View()), r, handle)
      ensures ok == (Live(old(View()), r) && old(View()).conns[r.slot].state.Dialing?)
    {
      ok := RefValid(r) && conns[r.slot].state.Dialing?;
      if ok { conns[r.slot] := conns[r.slot].(handle := handle, state := Securing); }
    }

    predicate RefValid(r: Ref)
      requires Valid()
      reads conns
      ensures RefValid(r) == Live(View(), r)
    {
      r.slot < MAX_CONN && !conns[r.slot].state.Free? && conns[r.slot].generation == r.generation
    }

    /** ble_state_mark_disconnecting. */
    method MarkLeaving(r: Ref)
      requires Valid()
      modifies conns
      ensures View() == MarkDisconnecting(old(View()), r)
    {
      if RefValid(r) && !conns[r.slot].state.Disconnecting? { conns[r.slot] := conns[r.slot].(state := Disconnecting); }
    }

    /** ble_state_begin_discovery: the handle to discover on, or none. */
    method StartDiscovery(r: Ref) returns (handle: nat)
      requires Valid()
      modifies conns
      ensures View() == BeginDiscovery(old(View()), r)
      ensures handle == if View() != old(View()) then conns[r.slot].handle else NO_HANDLE
    {
      handle := NO_HANDLE;
      if RefValid(r) && conns[r.slot].state.Securing? {
        conns[r.slot] := conns[r.slot].(state := Discovering);
        assert View().conns[r.slot] != old(View()).conns[r.slot];
        handle := conns[r.slot].handle;
      }
    }

    /** ble_state_set_ready. */
    method FinishDiscovery(r: Ref)
      requires Valid()
      modifies conns
      ensures View() == SetReady(old(View()), r)
    {
      if RefValid(r) { conns[r.slot] := conns[r.slot].(state := Ready); }
    }

    /** ble_runtime_find_or_register: the device's row, found or claimed, or -1. */
    method FindOrRegister(id: string) returns (k: int)
      requires Valid()
      modifies devs
      ensures View() == Register(old(View()), id)
      ensures k >= 0 ==> k < MAX_DEVICES && devs[k].inUse && devs[k].id == id
      ensures k < 0 ==> forall d :: 0 <= d < MAX_DEVICES ==> devs[d].inUse && devs[d].id != id
    {
      for i := 0 to MAX_DEVICES
        invariant View() == old(View())
        invariant forall j :: 0 <= j < i ==> !DevNamed(id)(devs[j])
      {
        if devs[i].inUse && devs[i].id == id {
          FirstIndexUnique(devs[..], DevNamed(id), i);
          return i;
        }
      }
      FirstIndexUnique(devs[..], DevNamed(id), -1);
      for i := 0 to MAX_DEVICES
        invariant View() == old(View())
        invariant forall j :: 0 <= j < i ==> !DevUnused()(devs[j])
      {
        if !devs[i].inUse {
          FirstIndexUnique(devs[..], DevUnused(), i);
          devs[i] := Dev(true, id, -1, Offline);
          return i;
        }
      }
      FirstIndexUnique(devs[..], DevUnused(), -1);
      return -1;
    }

    /** ble_central_forget_peer on a row: whether its dialing must be cancelled or its link terminated. */
    method MarkForgotten(d: int) returns (linked: bool, cancel: bool, terminate: Option<nat>)
      requires Valid() && 0 <= d < MAX_DEVICES
      modifies devs, conns
      ensures View() == Forget(old(View()), d)
      ensures linked == HadLink(old(View()), d) && cancel == Cancels(old(View()), d)
      ensures terminate == LinkToEnd(old(View()), d)
      ensures var c := devs[d].slot; terminate.Some? ==> 0 <= c < MAX_CONN && conns[c].state.Disconnecting? && conns[c].handle == terminate.value
    {
      linked, cancel, terminate := false, false, None;
      if !devs[d].state.Removing? { devs[d] := devs[d].(state := Removing); }
      var c := devs[d].slot;
      if 0 <= c < MAX_CONN && !conns[c].state.Free? {
        linked := true;
        if conns[c].state.Dialing? {
          cancel := true;
        } else if conns[c].handle != NO_HANDLE {
          terminate := Some(conns[c].handle);
          conns[c] := conns[c].(state := Disconnecting);
        }
      }
    }

    /** ble_runtime_finalize_remove. */
    method FinalizeRemove(d: int)
      requires Valid()
      modifies devs
      ensures View() == Finalize(old(View()), d)
    {
      if d < 0 || d >= MAX_DEVICES { return; }
      if devs[d].inUse && devs[d].state.Removing? { devs[d] := ZERO_DEV; }
    }

    /** ble_scheduler_note_failure. */
    method NoteConnectFailure(d: int)
      requires Valid()
      modifies devs, conns
      ensures View() == NoteFailure(old(View()), d)
    {
      if d < 0 || d >= MAX_DEVICES || !devs[d].inUse || !devs[d].state.Connecting? { return; }
      var c := devs[d].slot;
      devs[d] := devs[d].(slot := -1);
      if 0 <= c < MAX_CONN && conns[c].device == d { conns[c] := FreeConn(conns[c].generation); }
      devs[d] := devs[d].(state := Backoff);
    }
  }
}
