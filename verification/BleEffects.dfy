/** What each BLE critical section does to the two tables, row by row and slot by slot, and the life of a connection from
    its reservation to its end. */
module BleEffects {
  import opened Basics
  import opened Search
  import opened BleTables

  /** No row but d differs. */
  ghost predicate OnlyRow(t: Tables, u: Tables, d: int) {
    |u.devs| == |t.devs| && forall e :: 0 <= e < |t.devs| && e != d ==> u.devs[e] == t.devs[e]
  }

  /** No slot but c differs. */
  ghost predicate OnlySlot(t: Tables, u: Tables, c: int) {
    |u.conns| == |t.conns| && forall k :: 0 <= k < |t.conns| && k != c ==> u.conns[k] == t.conns[k]
  }

  predicate Row(t: Tables, d: int) { 0 <= d < |t.devs| }
  predicate Slot(t: Tables, c: int) { 0 <= c < |t.conns| }

  /** The reference names the present lifetime of an occupied slot. */
  predicate Current(t: Tables, r: Ref) {
    r.slot < |t.conns| && t.conns[r.slot].state != ConnState.Free && t.conns[r.slot].generation == r.generation
  }

  ghost predicate NoneDialing(t: Tables) { forall c :: 0 <= c < |t.conns| ==> t.conns[c].state != Dialing }
  ghost predicate NoneFree(t: Tables) { forall c :: 0 <= c < |t.conns| ==> t.conns[c].state != ConnState.Free }
  ghost predicate FirstFree(t: Tables, c: int) {
    Slot(t, c) && t.conns[c].state == ConnState.Free && forall b :: 0 <= b < c ==> t.conns[b].state != ConnState.Free
  }

  /** A connection start is refused for the first of these reasons, in this order, and otherwise accepted; a refusal
      changes nothing. */
  lemma {:induction false} ReserveRefusals(t: Tables, d: int)
    ensures ReserveRc(t, d) == InvalidArg <==> !Row(t, d)
    ensures Row(t, d) ==> (ReserveRc(t, d) == NotFound <==> !t.devs[d].inUse)
    ensures Row(t, d) && t.devs[d].inUse ==> (ReserveRc(t, d) == Busy <==> t.devs[d].state in {Connecting, Connected, Removing})
    ensures ReserveRc(t, d) == StateError <==>
              Row(t, d) && t.devs[d].inUse && t.devs[d].state in {Offline, Backoff} && t.devs[d].slot != -1
    ensures ReserveRc(t, d) == InProgress <==>
              Row(t, d) && t.devs[d].inUse && t.devs[d].state in {Offline, Backoff} && t.devs[d].slot == -1 && !NoneDialing(t)
    ensures ReserveRc(t, d) == NoSlot <==>
              Row(t, d) && t.devs[d].inUse && t.devs[d].state in {Offline, Backoff} && t.devs[d].slot == -1 && NoneDialing(t) && NoneFree(t)
    ensures !ReserveRc(t, d).Ok? ==> Reserve(t, d) == t
  {
    ScansAgree(t);
  }

  lemma {:induction false} ScansAgree(t: Tables)
    ensures FirstIndex(t.conns, ConnDialing()) < 0 <==> NoneDialing(t)
    ensures FirstIndex(t.conns, ConnFree()) < 0 <==> NoneFree(t)
    ensures FirstIndex(t.conns, ConnFree()) >= 0 ==> FirstFree(t, FirstIndex(t.conns, ConnFree()))
  {
    var a, b := FirstIndex(t.conns, ConnDialing()), FirstIndex(t.conns, ConnFree());
    assert a < 0 ==> forall c :: 0 <= c < |t.conns| ==> !ConnDialing()(t.conns[c]);
    assert b < 0 ==> forall c :: 0 <= c < |t.conns| ==> !ConnFree()(t.conns[c]);
    assert a >= 0 ==> ConnDialing()(t.conns[a]);
    assert b >= 0 ==> ConnFree()(t.conns[b]) && forall c :: 0 <= c < b ==> !ConnFree()(t.conns[c]);
  }

  /** An accepted start takes the first free slot: the slot dials for the row under a new generation and without a handle,
      the row is connecting on that slot, and nothing else changes. */
  lemma {:induction false} ReserveEffect(t: Tables, d: int, c: int)
    requires ReserveRc(t, d).Ok? && FirstFree(t, c)
    ensures var u := Reserve(t, d);
            && OnlyRow(t, u, d) && u.devs[d] == Dev(true, t.devs[d].id, c, Connecting)
            && OnlySlot(t, u, c) && u.conns[c] == Conn(Dialing, d, t.conns[c].generation + 1, 0xFFFF)
  {
    ScansAgree(t);
    FirstIndexUnique(t.conns, ConnFree(), c);
  }

  /** A disconnect is taken exactly for a current reference with the slot's handle. It frees the slot and unlinks the row
      the slot named: a removing row stays removing, any other backs off. */
  lemma {:induction false} DisconnectEffect(t: Tables, r: Ref, handle: nat)
    requires Shaped(t)
    ensures DisconnectTaken(t, r, handle) <==> Current(t, r) && t.conns[r.slot].handle == handle
    ensures !DisconnectTaken(t, r, handle) ==> Disconnect(t, r, handle) == t && Released(t, r, handle) == None
    ensures DisconnectTaken(t, r, handle) ==>
              var u, d := Disconnect(t, r, handle), t.conns[r.slot].device;
              && OnlySlot(t, u, r.slot) && u.conns[r.slot] == Conn(ConnState.Free, -1, r.generation, 0xFFFF)
              && OnlyRow(t, u, d) && if Row(t, d) && t.devs[d].inUse
                 then u.devs[d] == Dev(true, t.devs[d].id, -1, if t.devs[d].state == Removing then Removing else Backoff)
                      && Released(t, r, handle) == Some((d, t.devs[d].id))
                 else u.devs == t.devs && Released(t, r, handle) == None
  {
  }

  /** A rollback frees the slot of a current reference. It unlinks the first row in use on that slot number whether the
      reference is current or not; a connecting row backs off. */
  lemma {:induction false} RollbackEffect(t: Tables, r: Ref, d: int)
    requires Shaped(t)
    ensures var u := Rollback(t, r);
            && OnlySlot(t, u, r.slot)
            && (Current(t, r) && Row(t, t.conns[r.slot].device) ==> u.conns[r.slot] == Conn(ConnState.Free, -1, r.generation, 0xFFFF))
            && (!(Current(t, r) && Row(t, t.conns[r.slot].device)) ==> u.conns == t.conns)
            && (Row(t, d) && t.devs[d].inUse && t.devs[d].slot == r.slot
                && (forall e :: 0 <= e < d ==> !(t.devs[e].inUse && t.devs[e].slot == r.slot)) ==>
                  OnlyRow(t, u, d)
                  && u.devs[d] == Dev(true, t.devs[d].id, -1, if t.devs[d].state == Connecting then Backoff else t.devs[d].state))
            && ((forall e :: 0 <= e < |t.devs| ==> !(t.devs[e].inUse && t.devs[e].slot == r.slot)) ==> u.devs == t.devs)
  {
    var k := FirstIndex(t.devs, DevOnSlot(r.slot));
    assert k >= 0 ==> DevOnSlot(r.slot)(t.devs[k]);
    if Row(t, d) && t.devs[d].inUse && t.devs[d].slot == r.slot
       && (forall e :: 0 <= e < d ==> !(t.devs[e].inUse && t.devs[e].slot == r.slot)) {
      FirstIndexUnique(t.devs, DevOnSlot(r.slot), d);
    }
  }

  /** A host reset frees every occupied slot under a new generation, clears every row being removed and unlinks the others,
      which are offline afterwards. */
  lemma {:induction false} ResetEffect(t: Tables)
    ensures var u := HostReset(t);
            && |u.conns| == |t.conns| && |u.devs| == |t.devs|
            && (forall c :: 0 <= c < |t.conns| ==>
                  u.conns[c] == if t.conns[c].state == ConnState.Free then t.conns[c]
                                else Conn(ConnState.Free, -1, t.conns[c].generation + 1, 0xFFFF))
            && (forall d :: 0 <= d < |t.devs| ==>
                  u.devs[d] == if !t.devs[d].inUse then t.devs[d]
                               else if t.devs[d].state == Removing then Dev(false, "", 0, Offline)
                               else Dev(true, t.devs[d].id, -1, Offline))
  {
  }

  /** A connect failure touches a row in use that is connecting: it backs the row off without a slot, and frees the slot
      it named if that slot names the row. */
  lemma {:induction false} FailureEffect(t: Tables, d: int)
    ensures !(Row(t, d) && t.devs[d].inUse && t.devs[d].state == Connecting) ==> NoteFailure(t, d) == t
    ensures Row(t, d) && t.devs[d].inUse && t.devs[d].state == Connecting ==>
              var u, c := NoteFailure(t, d), t.devs[d].slot;
              && OnlyRow(t, u, d) && u.devs[d] == Dev(true, t.devs[d].id, -1, Backoff)
              && OnlySlot(t, u, c)
              && if Slot(t, c) && t.conns[c].device == d then u.conns[c] == Conn(ConnState.Free, -1, t.conns[c].generation, 0xFFFF)
                 else u.conns == t.conns
  {
  }

  /** A registration changes nothing when the device has a row or no row is unused, and otherwise puts the device offline
      and unlinked in the first unused row. */
  lemma {:induction false} RegisterEffect(t: Tables, id: string, d: int)
    ensures (exists e :: 0 <= e < |t.devs| && t.devs[e].inUse && t.devs[e].id == id) ==> Register(t, id) == t
    ensures (forall e :: 0 <= e < |t.devs| ==> t.devs[e].inUse) ==> Register(t, id) == t
    ensures (forall e :: 0 <= e < |t.devs| && t.devs[e].inUse ==> t.devs[e].id != id)
            && Row(t, d) && !t.devs[d].inUse && (forall e :: 0 <= e < d ==> t.devs[e].inUse) ==>
              var u := Register(t, id); OnlyRow(t, u, d) && u.devs[d] == Dev(true, id, -1, Offline) && u.conns == t.conns
  {
    var k, n := FirstIndex(t.devs, DevNamed(id)), FirstIndex(t.devs, DevUnused());
    assert k < 0 ==> forall e :: 0 <= e < |t.devs| ==> !DevNamed(id)(t.devs[e]);
    assert n < 0 ==> forall e :: 0 <= e < |t.devs| ==> !DevUnused()(t.devs[e]);
    if Row(t, d) && !t.devs[d].inUse && (forall e :: 0 <= e < d ==> t.devs[e].inUse) { FirstIndexUnique(t.devs, DevUnused(), d); }
  }

  /** A forget marks its row whatever the row holds. If the row's slot number leads to an occupied slot, a dialing one is
      reported for cancelling, and one with a handle is leaving and its handle is reported for termination. Nothing else
      changes. */
  lemma {:induction false} ForgetEffect(t: Tables, d: int)
    requires Row(t, d)
    ensures var u, c := Forget(t, d), t.devs[d].slot;
            && OnlyRow(t, u, d) && u.devs[d] == t.devs[d].(state := Removing) && OnlySlot(t, u, c)
            && (HadLink(t, d) <==> Slot(t, c) && t.conns[c].state != ConnState.Free)
            && (Cancels(t, d) <==> Slot(t, c) && t.conns[c].state == Dialing)
            && (forall h :: LinkToEnd(t, d) == Some(h) <==>
                  Slot(t, c) && t.conns[c].state !in {ConnState.Free, Dialing} && t.conns[c].handle == h && h != 0xFFFF)
            && (Slot(t, c) ==> u.conns[c] == if LinkToEnd(t, d).Some? then t.conns[c].(state := Disconnecting) else t.conns[c])
  {
  }

  /** Clearing resets a row that is in use and being removed, and no other. */
  lemma {:induction false} FinalizeEffect(t: Tables, d: int)
    ensures var u := Finalize(t, d);
            && u.conns == t.conns && OnlyRow(t, u, d)
            && (Row(t, d) ==> u.devs[d] == if t.devs[d].inUse && t.devs[d].state == Removing then Dev(false, "", 0, Offline) else t.devs[d])
  {
  }

  /** The link callbacks advance the slot of a current reference: a success from dialing to securing with its handle, a
      discovery from securing, readiness and leaving from any state. Everything else stays. */
  lemma {:induction false} CallbackEffects(t: Tables, r: Ref, handle: nat)
    ensures ConnectSuccess(t, r, handle) == t <==>
              !(Current(t, r) && t.conns[r.slot].state == Dialing)
    ensures Current(t, r) && t.conns[r.slot].state == Dialing ==>
              var u := ConnectSuccess(t, r, handle);
              u.devs == t.devs && OnlySlot(t, u, r.slot) && u.conns[r.slot] == Conn(Securing, t.conns[r.slot].device, r.generation, handle)
    ensures BeginDiscovery(t, r) == t <==> !(Current(t, r) && t.conns[r.slot].state == Securing)
    ensures Current(t, r) && t.conns[r.slot].state == Securing ==>
              var u := BeginDiscovery(t, r);
              u.devs == t.devs && OnlySlot(t, u, r.slot) && u.conns[r.slot] == t.conns[r.slot].(state := Discovering)
    ensures !Current(t, r) ==> SetReady(t, r) == t && MarkDisconnecting(t, r) == t
    ensures Current(t, r) ==>
              var u, v := SetReady(t, r), MarkDisconnecting(t, r);
              && u.devs == t.devs && OnlySlot(t, u, r.slot) && u.conns[r.slot] == t.conns[r.slot].(state := Ready)
              && v.devs == t.devs && OnlySlot(t, v, r.slot) && v.conns[r.slot] == t.conns[r.slot].(state := Disconnecting)
  {
    if Current(t, r) && t.conns[r.slot].state == Dialing { assert ConnectSuccess(t, r, handle).conns[r.slot].state == Securing; }
    if Current(t, r) && t.conns[r.slot].state == Securing { assert BeginDiscovery(t, r).conns[r.slot].state == Discovering; }
  }

  // ----- the life of a connection

  /** The tables after a lifetime of slot c for row d: as before, but the slot's generation is one higher and the row backs
      off. */
  function Ended(t: Tables, d: int, c: int): Tables
    requires Row(t, d) && Slot(t, c)
  {
    Tables(t.devs[d := Dev(true, t.devs[d].id, -1, Backoff)],
           t.conns[c := Conn(ConnState.Free, -1, t.conns[c].generation + 1, 0xFFFF)])
  }

  /** Whether the attempt is rolled back, fails, or connects under a handle, becomes ready and is disconnected with that
      handle, a started connection ends in the same tables, with its row ready to be dialed again. */
  lemma {:induction false} LifetimeEnds(t: Tables, d: int, c: int, handle: nat)
    requires Inverse(t) && ReserveRc(t, d).Ok? && FirstFree(t, c)
    ensures var u, r := Reserve(t, d), Ref(c, t.conns[c].generation + 1);
            && Rollback(u, r) == Ended(t, d, c)
            && NoteFailure(u, d) == Ended(t, d, c)
            && Disconnect(SetReady(BeginDiscovery(ConnectSuccess(u, r, handle), r), r), r, handle) == Ended(t, d, c)
    ensures Inverse(Ended(t, d, c)) && ReserveRc(Ended(t, d, c), d).Ok?
  {
    ReserveEffect(t, d, c);
    var u := Reserve(t, d);
    StepInverse(t, ReserveA(d));
    assert u.conns == t.conns[c := u.conns[c]] && u.devs == t.devs[d := u.devs[d]];
    LifetimeAborted(t, u, d, c);
    LifetimeConnected(t, u, d, c, handle);
    NoteFailureInverse(u, d);
    EndedStartable(t, d, c);
  }

  lemma {:induction false} EndedStartable(t: Tables, d: int, c: int)
    requires ReserveRc(t, d).Ok? && FirstFree(t, c)
    ensures ReserveRc(Ended(t, d, c), d).Ok?
  {
    ScansAgree(t);
    ScansAgree(Ended(t, d, c));
    assert Ended(t, d, c).conns[c].state == ConnState.Free;
  }

  lemma {:induction false} LifetimeAborted(t: Tables, u: Tables, d: int, c: int)
    requires Inverse(t) && Row(t, d) && FirstFree(t, c) && t.devs[d].inUse && t.devs[d].slot == -1
    requires u.conns == t.conns[c := Conn(Dialing, d, t.conns[c].generation + 1, 0xFFFF)]
    requires u.devs == t.devs[d := Dev(true, t.devs[d].id, c, Connecting)]
    ensures Rollback(u, Ref(c, t.conns[c].generation + 1)) == Ended(t, d, c) && NoteFailure(u, d) == Ended(t, d, c)
  {
    assert forall e :: 0 <= e < d && u.devs[e].inUse ==> u.devs[e].slot != c;
    FirstIndexUnique(u.devs, DevOnSlot(c), d);
  }

  lemma {:induction false} LifetimeConnected(t: Tables, u: Tables, d: int, c: int, handle: nat)
    requires Shaped(t) && Row(t, d) && Slot(t, c) && u.conns == t.conns[c := Conn(Dialing, d, t.conns[c].generation + 1, 0xFFFF)]
    requires t.devs[d].inUse && u.devs == t.devs[d := Dev(true, t.devs[d].id, c, Connecting)]
    ensures var r := Ref(c, t.conns[c].generation + 1);
            Disconnect(SetReady(BeginDiscovery(ConnectSuccess(u, r, handle), r), r), r, handle) == Ended(t, d, c)
  {
    var r := Ref(c, t.conns[c].generation + 1);
    var a := ConnectSuccess(u, r, handle);
    assert a.conns[c] == Conn(Securing, d, r.generation, handle);
    var b := BeginDiscovery(a, r);
    assert b.conns[c] == Conn(Discovering, d, r.generation, handle);
    var e := SetReady(b, r);
    assert e == Tables(u.devs, t.conns[c := Conn(Ready, d, r.generation, handle)]);
  }
}
