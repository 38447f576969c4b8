/** Removing a device spreads over two tasks. The management task looks a row up, marks it in one critical section and
    clears it in another; the host task releases a row on disconnect, then tests it without the lock, looks the device up
    again and clears the row it finds. Every critical section and every unlocked read is one step; connection starts,
    rollbacks and connect failures of any task come in between. */
module BleRemoval {
  import opened Basics
  import opened Search
  import opened BleTables

  /** What the host task still has to do for a disconnect: test the row it released, look the device up, clear a row. */
  datatype Host = HostIdle | Testing(d: nat, id: string) | Finding(id: string) | Clearing(d: nat)

  /** What the management task still has to do for a forget: mark the row it looked up, clear the row it marked. */
  datatype Manager = ManagerIdle | Found(id: string, d: nat) | Settling(id: string, d: nat)

  datatype Central = Central(t: Tables, host: Host, mgr: Manager)

  datatype Step = Table(a: Action) | HostTest | HostFind | HostClear | ForgetFind(id: string) | ForgetMark | ForgetClear

  function Start(): Central { Central(Initial(), HostIdle, ManagerIdle) }

  /** Link events and resets run on the host task, registrations on the management task. */
  predicate Enabled(c: Central, s: Step) {
    match s
    case Table(a) =>
      (match a
       case ConnectA(_, _) => c.host.HostIdle?
       case DisconnectA(_, _) => c.host.HostIdle?
       case HostResetA => c.host.HostIdle?
       case RegisterA(_) => c.mgr.ManagerIdle?
       case ForgetA(_) => false
       case FinalizeA(_) => false
       case _ => true)
    case HostTest => c.host.Testing? && c.host.d < |c.t.devs|
    case HostFind => c.host.Finding?
    case HostClear => c.host.Clearing?
    case ForgetFind(_) => c.mgr.ManagerIdle?
    case ForgetMark => c.mgr.Found?
    case ForgetClear => c.mgr.Settling?
  }

  function Next(c: Central, s: Step): Central
    requires Shaped(c.t) && Enabled(c, s)
  {
    match s
    case Table(a) =>
      var row := if a.DisconnectA? then Released(c.t, a.r, a.handle) else None;
      c.(t := Apply(c.t, a), host := if row.Some? then Testing(row.value.0, row.value.1) else c.host)
    case HostTest => c.(host := if c.t.devs[c.host.d].state.Removing? then Finding(c.host.id) else HostIdle)
    case HostFind =>
      var k := FirstIndex(c.t.devs, DevNamed(c.host.id));
      c.(host := if k >= 0 then Clearing(k) else HostIdle)
    case HostClear => c.(t := Finalize(c.t, c.host.d), host := HostIdle)
    case ForgetFind(id) =>
      var k := FirstIndex(c.t.devs, DevNamed(id));
      c.(mgr := if k >= 0 then Found(id, k) else ManagerIdle)
    case ForgetMark => c.(t := Forget(c.t, c.mgr.d), mgr := if HadLink(c.t, c.mgr.d) then ManagerIdle else Settling(c.mgr.id, c.mgr.d))
    case ForgetClear => c.(t := Finalize(c.t, c.mgr.d), mgr := ManagerIdle)
  }

  /** The host task's unfinished disconnect may still clear row k. */
  predicate Concerns(c: Central, k: int) {
    && 0 <= k < |c.t.devs|
    && match c.host
       case HostIdle => false
       case Testing(_, id) => DevNamed(id)(c.t.devs[k])
       case Finding(id) => DevNamed(id)(c.t.devs[k])
       case Clearing(d) => k == d
  }

  /** No overtaken rollback. */
  predicate Proper(c: Central, s: Step) { s.Table? && s.a.RollbackA? ==> !Overtaken(c.t, s.a.r) }

  /** No connection is started on a row that an unfinished disconnect may still clear. */
  predicate Patient(c: Central, s: Step) { s.Table? && s.a.ReserveA? && ReserveRc(c.t, s.a.d).Ok? ==> !Concerns(c, s.a.d) }

  ghost predicate Fires(c: Central, steps: seq<Step>)
    requires Shaped(c.t)
    decreases |steps|
  {
    |steps| == 0 || (Enabled(c, steps[0]) && Proper(c, steps[0]) && Shaped(Next(c, steps[0]).t) && Fires(Next(c, steps[0]), steps[1..]))
  }

  ghost function After(c: Central, steps: seq<Step>): (u: Central)
    requires Shaped(c.t) && Fires(c, steps)
    ensures Shaped(u.t)
    decreases |steps|
  {
    if |steps| == 0 then c else After(Next(c, steps[0]), steps[1..])
  }

  ghost predicate AllPatient(c: Central, steps: seq<Step>)
    requires Shaped(c.t) && Fires(c, steps)
    decreases |steps|
  {
    |steps| == 0 || (Patient(c, steps[0]) && AllPatient(Next(c, steps[0]), steps[1..]))
  }

  // ----- the invariant

  /** A row without a connection. */
  predicate Loose(x: Dev) { x.inUse ==> x.slot == -1 }

  /** A row that clearing cannot hurt and that no connection start accepts. */
  predicate Settled(x: Dev) { x.inUse ==> x.state.Removing? && x.slot == -1 }

  ghost predicate UniqueIds(t: Tables) {
    forall i, j :: 0 <= i < j < |t.devs| && t.devs[i].inUse && t.devs[j].inUse ==> t.devs[i].id != t.devs[j].id
  }

  ghost predicate NameLoose(t: Tables, id: string) { forall e :: 0 <= e < |t.devs| && DevNamed(id)(t.devs[e]) ==> Loose(t.devs[e]) }

  ghost predicate HostOk(t: Tables, h: Host) {
    match h
    case HostIdle => true
    case Testing(d, id) => d < |t.devs| && NameLoose(t, id)
    case Finding(id) => NameLoose(t, id)
    case Clearing(d) => d < |t.devs| && Loose(t.devs[d])
  }

  /** The row a forget works on is the device's or free: no other device gets it before the forget is over. */
  ghost predicate ManagerOk(t: Tables, m: Manager) {
    match m
    case ManagerIdle => true
    case Found(id, d) => d < |t.devs| && (t.devs[d].inUse ==> t.devs[d].id == id)
    case Settling(id, d) => d < |t.devs| && (t.devs[d].inUse ==> t.devs[d].id == id) && Settled(t.devs[d])
  }

  ghost predicate Inv(c: Central) { Inverse(c.t) && UniqueIds(c.t) && HostOk(c.t, c.host) && ManagerOk(c.t, c.mgr) }

  /** What a step does to a row unless it registers or starts a connection there. */
  ghost predicate RowKept(x: Dev, y: Dev) {
    (Loose(x) ==> Loose(y)) && (Settled(x) ==> Settled(y)) && (y.inUse ==> x.inUse && y.id == x.id)
  }

  ghost predicate RowsKept(t: Tables, u: Tables) {
    |u.devs| == |t.devs| && forall d :: 0 <= d < |t.devs| ==> RowKept(t.devs[d], u.devs[d])
  }

  lemma {:induction false} RowsKeptBy(t: Tables, a: Action)
    requires Inverse(t) && !a.RegisterA? && !a.ReserveA?
    ensures RowsKept(t, Apply(t, a))
  {
    match a
    case RollbackA(r) => RollbackRows(t, r);
    case DisconnectA(r, h) => DisconnectRows(t, r, h);
    case HostResetA => ResetRows(t);
    case _ =>
  }

  lemma {:induction false} RollbackRows(t: Tables, r: Ref)
    requires Inverse(t)
    ensures RowsKept(t, Rollback(t, r))
  {
  }

  lemma {:induction false} DisconnectRows(t: Tables, r: Ref, handle: nat)
    requires Inverse(t)
    ensures RowsKept(t, Disconnect(t, r, handle))
  {
  }

  lemma {:induction false} ResetRows(t: Tables)
    requires Inverse(t)
    ensures RowsKept(t, HostReset(t))
  {
  }

  lemma {:induction false} KeptTasks(t: Tables, u: Tables, h: Host, m: Manager)
    requires RowsKept(t, u) && UniqueIds(t) && HostOk(t, h) && ManagerOk(t, m)
    ensures UniqueIds(u) && HostOk(u, h) && ManagerOk(u, m)
  {
    if h.Testing? || h.Finding? {
      forall e | 0 <= e < |u.devs| && DevNamed(h.id)(u.devs[e]) ensures Loose(u.devs[e]) { assert RowKept(t.devs[e], u.devs[e]); }
    }
  }

  lemma {:induction false} RegisterTasks(t: Tables, id: string, h: Host)
    requires Inverse(t) && UniqueIds(t) && HostOk(t, h)
    ensures UniqueIds(Register(t, id)) && HostOk(Register(t, id), h)
  {
    var k, u := FirstIndex(t.devs, DevNamed(id)), FirstIndex(t.devs, DevUnused());
    if k < 0 && u >= 0 {
      forall d | 0 <= d < |t.devs| && t.devs[d].inUse ensures t.devs[d].id != id { assert !DevNamed(id)(t.devs[d]); }
    }
  }

  lemma {:induction false} ReserveTasks(c: Central, d: int)
    requires Inv(c) && Patient(c, Table(ReserveA(d)))
    ensures var u := Reserve(c.t, d); UniqueIds(u) && HostOk(u, c.host) && ManagerOk(u, c.mgr)
  {
  }

  lemma {:induction false} TableInv(c: Central, a: Action)
    requires Inv(c) && Enabled(c, Table(a)) && Proper(c, Table(a)) && Patient(c, Table(a))
    ensures Inv(Next(c, Table(a)))
  {
    var u := Next(c, Table(a));
    StepInverse(c.t, a);
    if a.RegisterA? {
      RegisterTasks(c.t, a.id, c.host);
    } else if a.ReserveA? {
      ReserveTasks(c, a.d);
    } else {
      RowsKeptBy(c.t, a);
      KeptTasks(c.t, u.t, c.host, c.mgr);
      if a.DisconnectA? { ReleasedLoose(c.t, a.r, a.handle); }
    }
  }

  /** The released device has no connection left. */
  lemma {:induction false} ReleasedLoose(t: Tables, r: Ref, handle: nat)
    requires Inverse(t) && UniqueIds(t)
    ensures var row := Released(t, r, handle); row.Some? ==> HostOk(Disconnect(t, r, handle), Testing(row.value.0, row.value.1))
  {
  }

  /** Clearing a loose row. */
  lemma {:induction false} ClearInv(c: Central, d: nat, u: Central)
    requires Inv(c) && d < |c.t.devs| && Loose(c.t.devs[d]) && u.t == Finalize(c.t, d)
    requires u.host in {c.host, HostIdle} && u.mgr in {c.mgr, ManagerIdle}
    ensures Inv(u)
  {
    FinalizeInverseIff(c.t, d);
    RowsKeptBy(c.t, FinalizeA(d));
    KeptTasks(c.t, u.t, c.host, c.mgr);
  }

  lemma {:induction false} MarkInv(c: Central)
    requires Inv(c) && c.mgr.Found?
    ensures Inv(Next(c, ForgetMark))
  {
    ForgetInverse(c.t, c.mgr.d);
    RowsKeptBy(c.t, ForgetA(c.mgr.d));
    KeptTasks(c.t, Forget(c.t, c.mgr.d), c.host, c.mgr);
  }

  lemma {:induction false} StepInv(c: Central, s: Step)
    requires Inv(c) && Enabled(c, s) && Proper(c, s) && Patient(c, s)
    ensures Inv(Next(c, s))
    ensures s.HostClear? ==> !LinkedRemoval(c.t, c.host.d)
    ensures s.ForgetClear? ==> !LinkedRemoval(c.t, c.mgr.d)
  {
    match s
    case Table(a) => TableInv(c, a);
    case HostTest =>
    case HostFind =>
      var k := FirstIndex(c.t.devs, DevNamed(c.host.id));
      if k >= 0 { assert DevNamed(c.host.id)(c.t.devs[k]); }
    case HostClear => ClearInv(c, c.host.d, Next(c, s));
    case ForgetFind(id) =>
      var k := FirstIndex(c.t.devs, DevNamed(id));
      if k >= 0 { assert DevNamed(id)(c.t.devs[k]); }
    case ForgetMark => MarkInv(c);
    case ForgetClear => ClearInv(c, c.mgr.d, Next(c, s));
  }

  /** Through every run of the tasks whose rollbacks are not overtaken and in which no connection is started on a row that
      an unfinished disconnect may still clear, the two tables stay inverse to each other with at most one slot dialing;
      in particular no row is cleared while linked. */
  lemma {:induction false} CentralStaysInverse(c: Central, steps: seq<Step>)
    requires Inv(c) && Fires(c, steps) && AllPatient(c, steps)
    ensures Inv(After(c, steps))
    decreases |steps|
  {
    if |steps| > 0 {
      StepInv(c, steps[0]);
      CentralStaysInverse(Next(c, steps[0]), steps[1..]);
    }
  }

  lemma {:induction false} StartInv()
    ensures Inv(Start())
  {
    InitialInverse();
  }

  /** Once the lifetime a reference names is over, it stays over in every run, so the reference never matches a later
      lifetime of the slot. */
  lemma {:induction false} StaleRefsStayStale(c: Central, steps: seq<Step>, r: Ref)
    requires Shaped(c.t) && Fires(c, steps) && Over(c.t, r)
    ensures Over(After(c, steps).t, r) && !Live(After(c, steps).t, r)
    decreases |steps|
  {
    if |steps| > 0 {
      if steps[0].Table? { OverKept(c.t, steps[0].a, r); }
      StaleRefsStayStale(Next(c, steps[0]), steps[1..], r);
    }
  }

  // ----- the premise is exact

  /** Some run from here, itself without a further offence, breaks the tables. */
  ghost predicate CanBreak(c: Central) {
    Shaped(c.t) && exists steps :: Fires(c, steps) && AllPatient(c, steps) && !Inverse(After(c, steps).t)
  }

  lemma {:induction false} Precedes(c: Central, s: Step)
    requires Shaped(c.t) && Enabled(c, s) && Proper(c, s) && Patient(c, s) && CanBreak(Next(c, s))
    ensures CanBreak(c)
  {
    var u := Next(c, s);
    var steps :| Fires(u, steps) && AllPatient(u, steps) && !Inverse(After(u, steps).t);
    var all := [s] + steps;
    assert all[0] == s && all[1..] == steps;
    assert Fires(c, all) && AllPatient(c, all) && After(c, all) == After(u, steps);
  }

  lemma {:induction false} BrokenNow(c: Central)
    requires Shaped(c.t) && !Inverse(c.t)
    ensures CanBreak(c)
  {
    assert Fires(c, []) && AllPatient(c, []) && After(c, []) == c;
  }

  /** Row k has a connection; the rest is in order, but the host task may be about to clear it. */
  ghost predicate Linked(c: Central, k: nat) {
    Inverse(c.t) && UniqueIds(c.t) && ManagerOk(c.t, c.mgr) && k < |c.t.devs| && c.t.devs[k].inUse && c.t.devs[k].slot != -1
  }

  ghost predicate LinkedRemovalAt(c: Central, k: nat) { Linked(c, k) && c.t.devs[k].state.Removing? }

  lemma {:induction false} FindUnique(t: Tables, k: nat)
    requires UniqueIds(t) && k < |t.devs| && t.devs[k].inUse
    ensures FirstIndex(t.devs, DevNamed(t.devs[k].id)) == k
  {
    assert DevNamed(t.devs[k].id)(t.devs[k]);
    FirstIndexUnique(t.devs, DevNamed(t.devs[k].id), k);
  }

  lemma {:induction false} ClearBreaks(c: Central, k: nat)
    requires LinkedRemovalAt(c, k) && c.host == Clearing(k)
    ensures CanBreak(c)
  {
    FinalizeInverseIff(c.t, k);
    BrokenNow(Next(c, HostClear));
    Precedes(c, HostClear);
  }

  lemma {:induction false} FindBreaks(c: Central, k: nat)
    requires LinkedRemovalAt(c, k) && c.host == Finding(c.t.devs[k].id)
    ensures CanBreak(c)
  {
    FindUnique(c.t, k);
    ClearBreaks(Next(c, HostFind), k);
    Precedes(c, HostFind);
  }

  /** The management task finishes what it is at, without freeing row k's connection. */
  lemma {:induction false} Rests(c: Central, k: nat) returns (u: Central)
    requires Linked(c, k)
    ensures Linked(u, k) && u.mgr.ManagerIdle? && u.host == c.host && u.t.devs[k].id == c.t.devs[k].id && (CanBreak(u) ==> CanBreak(c))
    decreases if c.mgr.Found? then 2 else if c.mgr.Settling? then 1 else 0
  {
    match c.mgr
    case ManagerIdle => u := c;
    case Found(id, d) =>
      MarkKeeps(c, k);
      u := Rests(Next(c, ForgetMark), k);
      if CanBreak(u) { Precedes(c, ForgetMark); }
    case Settling(id, d) =>
      var n := Next(c, ForgetClear);
      FinalizeInverseIff(c.t, d);
      RowsKeptBy(c.t, FinalizeA(d));
      KeptTasks(c.t, n.t, HostIdle, ManagerIdle);
      u := n;
      if CanBreak(u) { Precedes(c, ForgetClear); }
  }

  lemma {:induction false} MarkKeeps(c: Central, k: nat)
    requires Linked(c, k) && c.mgr.Found?
    ensures var n := Next(c, ForgetMark);
            Linked(n, k) && n.host == c.host && n.t.devs[k].id == c.t.devs[k].id && n.t.devs[c.mgr.d].state.Removing?
  {
    ForgetInverse(c.t, c.mgr.d);
    RowsKeptBy(c.t, ForgetA(c.mgr.d));
    KeptTasks(c.t, Forget(c.t, c.mgr.d), HostIdle, c.mgr);
  }

  /** The management task looks up and marks the device in row d. */
  lemma {:induction false} Marks(c: Central, d: nat, k: nat) returns (u: Central)
    requires Linked(c, k) && c.mgr.ManagerIdle? && d < |c.t.devs| && c.t.devs[d].inUse
    ensures Linked(u, k) && u.host == c.host && u.t.devs[k].id == c.t.devs[k].id && u.t.devs[d].state.Removing? && (CanBreak(u) ==> CanBreak(c))
  {
    FindUnique(c.t, d);
    var n := Next(c, ForgetFind(c.t.devs[d].id));
    assert n.mgr == Found(c.t.devs[d].id, d);
    MarkKeeps(n, k);
    u := Next(n, ForgetMark);
    if CanBreak(u) {
      Precedes(n, ForgetMark);
      Precedes(c, ForgetFind(c.t.devs[d].id));
    }
  }

  /** The connected device is forgotten. */
  lemma {:induction false} Forgotten(c: Central, k: nat) returns (u: Central)
    requires Linked(c, k)
    ensures LinkedRemovalAt(u, k) && u.host == c.host && u.t.devs[k].id == c.t.devs[k].id && (CanBreak(u) ==> CanBreak(c))
  {
    var n := Rests(c, k);
    u := Marks(n, k, k);
  }

  lemma {:induction false} FindingBreaks(c: Central, k: nat)
    requires Linked(c, k) && c.host == Finding(c.t.devs[k].id)
    ensures CanBreak(c)
  {
    var u := Forgotten(c, k);
    FindBreaks(u, k);
  }

  /** The host task's test succeeds. */
  lemma {:induction false} TestBreaks(c: Central, k: nat)
    requires Linked(c, k) && c.host.Testing? && c.host.id == c.t.devs[k].id && c.host.d < |c.t.devs| && c.t.devs[c.host.d].state.Removing?
    ensures CanBreak(c)
  {
    FindingBreaks(Next(c, HostTest), k);
    Precedes(c, HostTest);
  }

  // ----- names no device has

  function Longest(devs: seq<Dev>): (n: nat)
    ensures forall i :: 0 <= i < |devs| ==> |devs[i].id| <= n
  {
    if |devs| == 0 then 0
    else
      var n, m := |devs[|devs| - 1].id|, Longest(devs[..|devs| - 1]);
      assert forall i :: 0 <= i < |devs| - 1 ==> devs[i] == devs[..|devs| - 1][i];
      if n > m then n else m
  }

  /** New devices register until row d is taken. */
  lemma {:induction false} Fills(c: Central, d: nat, k: nat) returns (u: Central)
    requires Linked(c, k) && c.mgr.ManagerIdle? && d < |c.t.devs|
    ensures Linked(u, k) && u.mgr.ManagerIdle? && u.host == c.host && u.t.devs[k].id == c.t.devs[k].id && u.t.devs[d].inUse && (CanBreak(u) ==> CanBreak(c))
    decreases |c.t.devs| - FirstIndex(c.t.devs, DevUnused())
  {
    if c.t.devs[d].inUse { return c; }
    var name := Repeat(Longest(c.t.devs) + 1, 'z');
    var e := FirstIndex(c.t.devs, DevUnused());
    assert e >= 0 by { assert DevUnused()(c.t.devs[d]); }
    Registers(c, name, k);
    var n := Next(c, Table(RegisterA(name)));
    assert FirstIndex(n.t.devs, DevUnused()) > e || n.t.devs[d].inUse by {
      assert forall j :: 0 <= j < e ==> !DevUnused()(n.t.devs[j]);
      assert !DevUnused()(n.t.devs[e]);
    }
    if n.t.devs[d].inUse { u := n; } else { u := Fills(n, d, k); }
    if CanBreak(u) { Precedes(c, Table(RegisterA(name))); }
  }

  lemma {:induction false} Registers(c: Central, name: string, k: nat)
    requires Linked(c, k) && c.mgr.ManagerIdle? && |name| > Longest(c.t.devs) && FirstIndex(c.t.devs, DevUnused()) >= 0
    ensures var e := FirstIndex(c.t.devs, DevUnused()); var n := Next(c, Table(RegisterA(name)));
            Linked(n, k) && n == c.(t := c.t.(devs := c.t.devs[e := Dev(true, name, -1, Offline)]))
  {
    FirstIndexUnique(c.t.devs, DevNamed(name), -1);
    RegisterInverse(c.t, name);
    RegisterTasks(c.t, name, HostIdle);
  }

  lemma {:induction false} TestingBreaks(c: Central, k: nat)
    requires Linked(c, k) && c.host.Testing? && c.host.id == c.t.devs[k].id && c.host.d < |c.t.devs|
    ensures CanBreak(c)
  {
    var d := c.host.d;
    var n := Rests(c, k);
    var m := Fills(n, d, k);
    var u := Marks(m, d, k);
    TestBreaks(u, k);
  }

  /** Exactly when a connection start is harmless: it can be followed by a run that breaks the tables, without a further
      offence, if and only if an unfinished disconnect of the host task may still clear the row. */
  lemma {:induction false} ReserveBreaksIff(c: Central, k: nat)
    requires Inv(c) && ReserveRc(c.t, k).Ok?
    ensures CanBreak(Next(c, Table(ReserveA(k)))) <==> Concerns(c, k)
  {
    var u := Next(c, Table(ReserveA(k)));
    if Concerns(c, k) {
      ReservedLinked(c, k);
      match c.host
      case Testing(d, id) => TestingBreaks(u, k);
      case Finding(id) => FindingBreaks(u, k);
      case Clearing(d) =>
        var v := Forgotten(u, k);
        ClearBreaks(v, k);
    } else {
      TableInv(c, ReserveA(k));
      NeverBreaks(u);
    }
  }

  lemma {:induction false} ReservedLinked(c: Central, k: nat)
    requires Inv(c) && ReserveRc(c.t, k).Ok?
    ensures var u := Next(c, Table(ReserveA(k))); Linked(u, k) && u.host == c.host && u.t.devs[k].id == c.t.devs[k].id
  {
    ReserveInverse(c.t, k);
  }

  lemma {:induction false} NeverBreaks(c: Central)
    requires Inv(c)
    ensures !CanBreak(c)
  {
    forall steps | Fires(c, steps) && AllPatient(c, steps) ensures Inverse(After(c, steps).t) { CentralStaysInverse(c, steps); }
  }

  // ----- a forget and the other devices

  /** Unused rows keep slot number 0. */
  ghost predicate Blank(t: Tables) { forall d :: 0 <= d < |t.devs| && !t.devs[d].inUse ==> t.devs[d].slot == 0 }

  ghost predicate OwnRow(t: Tables, m: Manager) { !m.ManagerIdle? ==> m.d < |t.devs| && (t.devs[m.d].inUse ==> t.devs[m.d].id == m.id) }

  ghost predicate RowsNamed(t: Tables, u: Tables) {
    |u.devs| == |t.devs| && forall d :: 0 <= d < |t.devs| && u.devs[d].inUse ==> t.devs[d].inUse && u.devs[d].id == t.devs[d].id
  }

  /** No step but a registration brings a row into use or renames it, and none gives an unused row another slot number. */
  lemma {:induction false} NamesKept(t: Tables, a: Action)
    requires Shaped(t)
    ensures !a.RegisterA? ==> RowsNamed(t, Apply(t, a))
    ensures Blank(t) ==> Blank(Apply(t, a))
  {
  }

  lemma {:induction false} ForgetStep(c: Central, s: Step)
    requires Shaped(c.t) && Enabled(c, s) && Blank(c.t) && OwnRow(c.t, c.mgr)
    ensures Blank(Next(c, s).t) && OwnRow(Next(c, s).t, Next(c, s).mgr)
  {
    match s
    case Table(a) => NamesKept(c.t, a);
    case HostClear => NamesKept(c.t, FinalizeA(c.host.d));
    case ForgetFind(id) =>
      var k := FirstIndex(c.t.devs, DevNamed(id));
      if k >= 0 { assert DevNamed(id)(c.t.devs[k]); }
    case ForgetMark => NamesKept(c.t, ForgetA(c.mgr.d));
    case ForgetClear => NamesKept(c.t, FinalizeA(c.mgr.d));
    case _ =>
  }

  lemma {:induction false} ForgetRun(c: Central, steps: seq<Step>)
    requires Shaped(c.t) && Fires(c, steps) && Blank(c.t) && OwnRow(c.t, c.mgr)
    ensures Blank(After(c, steps).t) && OwnRow(After(c, steps).t, After(c, steps).mgr)
    decreases |steps|
  {
    if |steps| > 0 {
      ForgetStep(c, steps[0]);
      ForgetRun(Next(c, steps[0]), steps[1..]);
    }
  }

  /** In every run, neither critical section of a forget changes a row that another device uses. */
  lemma {:induction false} ForgetTouchesOwnRow(steps: seq<Step>)
    requires Fires(Start(), steps)
    ensures var c := After(Start(), steps);
            && (c.mgr.Found? ==> OthersRowsKept(c.t, Forget(c.t, c.mgr.d), c.mgr.id))
            && (c.mgr.Settling? ==> OthersRowsKept(c.t, Finalize(c.t, c.mgr.d), c.mgr.id))
  {
    ForgetRun(Start(), steps);
    var c := After(Start(), steps);
    if !c.mgr.ManagerIdle? { ForgetTouchesOtherIff(c.t, c.mgr.id, c.mgr.d); }
  }

  /** In every run with inverse tables, marking the row of a forget changes another device's connection or cancels another
      device's connection attempt if and only if the row was cleared since it was looked up and slot 0 is dialing or
      connected, and not leaving already, for another device. */
  lemma {:induction false} ForgetDisturbsIff(steps: seq<Step>)
    requires Fires(Start(), steps) && Inverse(After(Start(), steps).t) && After(Start(), steps).mgr.Found?
    ensures After(Start(), steps).mgr.d < MAX_DEVICES
    ensures var c := After(Start(), steps); var x := c.t.conns[0];
            !(OthersConnsKept(c.t, Forget(c.t, c.mgr.d), c.mgr.id) && OthersDialingKept(c.t, c.mgr.id, c.mgr.d)) <==>
              && !c.t.devs[c.mgr.d].inUse && !x.state.Free? && c.t.devs[x.device].id != c.mgr.id
              && (x.state.Dialing? || (!x.state.Disconnecting? && x.handle != NO_HANDLE))
  {
    ForgetRun(Start(), steps);
    var c := After(Start(), steps);
    ForgetReachesOtherIff(c.t, c.mgr.id, c.mgr.d);
    ForgetCancelsOtherIff(c.t, c.mgr.id, c.mgr.d);
  }
}
