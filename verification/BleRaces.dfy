/** Runs of one host task and one management task, all from initialization, in which removing a device goes wrong. */
module BleRaces {
  import opened Basics
  import opened Search
  import opened BleTables
  import opened BleRemoval

  /** Nothing is registered or connected. */
  ghost predicate Empty(t: Tables) {
    && Shaped(t) && (forall d :: 0 <= d < MAX_DEVICES ==> t.devs[d] == ZERO_DEV) && (forall c :: 0 <= c < MAX_CONN ==> t.conns[c] == FreeConn(0))
  }

  /** The first two rows and slots are known, the others untouched. */
  function Two(t: Tables, a: Dev, p: Conn, b: Dev, q: Conn, host: Host, mgr: Manager): Central
    requires Shaped(t)
  {
    Central(Tables(t.devs[0 := a][1 := b], t.conns[0 := p][1 := q]), host, mgr)
  }

  function One(t: Tables, a: Dev, p: Conn, host: Host, mgr: Manager): Central
    requires Shaped(t)
  {
    Two(t, a, p, ZERO_DEV, FreeConn(0), host, mgr)
  }

  ghost predicate Leads(c: Central, s: Step, u: Central) {
    Shaped(c.t) && Enabled(c, s) && BleRemoval.Proper(c, s) && Next(c, s) == u && Shaped(u.t)
  }

  lemma {:induction false} Grows(c: Central, steps: seq<Step>, s: Step, u: Central)
    requires Shaped(c.t) && Fires(c, steps) && Leads(After(c, steps), s, u)
    ensures Fires(c, steps + [s]) && After(c, steps + [s]) == u
    decreases |steps|
  {
    if |steps| == 0 {
      assert steps + [s] == [s] && [s][1..] == [] && Fires(u, []);
    } else {
      assert (steps + [s])[0] == steps[0] && (steps + [s])[1..] == steps[1..] + [s];
      Grows(Next(c, steps[0]), steps[1..], s, u);
    }
  }

  const FIRST := Ref(0, 1)
  const LINK: nat := 5

  /** A row of device id on slot 0, or on none. */
  function Row(id: string, slot: int, state: DevState): Dev { Dev(true, id, slot, state) }

  // ----- single steps on one row

  lemma {:induction false} Registered(t: Tables, id: string, p: Conn, host: Host)
    requires Empty(t)
    ensures Leads(One(t, ZERO_DEV, p, host, ManagerIdle), Table(RegisterA(id)), One(t, Row(id, -1, Offline), p, host, ManagerIdle))
  {
    var c := One(t, ZERO_DEV, p, host, ManagerIdle);
    FirstIndexUnique(c.t.devs, DevNamed(id), -1);
    FirstIndexUnique(c.t.devs, DevUnused(), 0);
    assert Register(c.t, id).devs == One(t, Row(id, -1, Offline), p, host, ManagerIdle).t.devs;
  }

  lemma {:induction false} Dialed(t: Tables, id: string, state: DevState, n: nat, host: Host)
    requires Empty(t) && (state.Offline? || state.Backoff?)
    ensures Leads(One(t, Row(id, -1, state), FreeConn(n), host, ManagerIdle), Table(ReserveA(0)),
                  One(t, Row(id, 0, Connecting), Conn(Dialing, 0, n + 1, NO_HANDLE), host, ManagerIdle))
  {
    var c := One(t, Row(id, -1, state), FreeConn(n), host, ManagerIdle);
    FirstIndexUnique(c.t.conns, ConnDialing(), -1);
    FirstIndexUnique(c.t.conns, ConnFree(), 0);
    var u := Reserve(c.t, 0);
    var v := One(t, Row(id, 0, Connecting), Conn(Dialing, 0, n + 1, NO_HANDLE), host, ManagerIdle).t;
    assert u.devs == v.devs && u.conns == v.conns;
  }

  /** The device connects. */
  lemma {:induction false} Connects(t: Tables, id: string)
    requires Empty(t)
    ensures Leads(One(t, Row(id, 0, Connecting), Conn(Dialing, 0, 1, NO_HANDLE), HostIdle, ManagerIdle), Table(ConnectA(FIRST, LINK)),
                  One(t, Row(id, 0, Connecting), Conn(Securing, 0, 1, LINK), HostIdle, ManagerIdle))
  {
    var c, u := One(t, Row(id, 0, Connecting), Conn(Dialing, 0, 1, NO_HANDLE), HostIdle, ManagerIdle),
                One(t, Row(id, 0, Connecting), Conn(Securing, 0, 1, LINK), HostIdle, ManagerIdle);
    assert Apply(c.t, ConnectA(FIRST, LINK)).conns == u.t.conns;
  }

  /** Its link drops; the host task has yet to test the row. */
  lemma {:induction false} Dropped(t: Tables, id: string, state: DevState, link: ConnState)
    requires Empty(t) && !link.Free?
    ensures Leads(One(t, Row(id, 0, state), Conn(link, 0, 1, LINK), HostIdle, ManagerIdle), Table(DisconnectA(FIRST, LINK)),
                  One(t, Row(id, -1, if state.Removing? then Removing else Backoff), FreeConn(1), Testing(0, id), ManagerIdle))
  {
    var c := One(t, Row(id, 0, state), Conn(link, 0, 1, LINK), HostIdle, ManagerIdle);
    var u := One(t, Row(id, -1, if state.Removing? then Removing else Backoff), FreeConn(1), Testing(0, id), ManagerIdle);
    assert Disconnect(c.t, FIRST, LINK).devs == u.t.devs && Disconnect(c.t, FIRST, LINK).conns == u.t.conns;
  }

  lemma {:induction false} NamedFirst(t: Tables, a: Dev, p: Conn, host: Host, mgr: Manager)
    requires Empty(t) && a.inUse
    ensures FirstIndex(One(t, a, p, host, mgr).t.devs, DevNamed(a.id)) == 0
  {
    var c := One(t, a, p, host, mgr);
    assert DevNamed(a.id)(c.t.devs[0]);
    FirstIndexUnique(c.t.devs, DevNamed(a.id), 0);
  }

  lemma {:induction false} LookedUp(t: Tables, a: Dev, p: Conn, host: Host)
    requires Empty(t) && a.inUse
    ensures Leads(One(t, a, p, host, ManagerIdle), ForgetFind(a.id), One(t, a, p, host, Found(a.id, 0)))
  {
    NamedFirst(t, a, p, host, ManagerIdle);
  }

  /** Marking a connected row drops its link, a dialing or loose one only changes the row. */
  lemma {:induction false} Marked(t: Tables, id: string, slot: int, state: DevState, p: Conn, host: Host)
    requires Empty(t) && ((slot == 0 && !p.state.Free?) || slot == -1)
    ensures Leads(One(t, Row(id, slot, state), p, host, Found(id, 0)), ForgetMark,
                  One(t, Row(id, slot, Removing), if slot == 0 && !p.state.Dialing? && p.handle != NO_HANDLE then p.(state := Disconnecting) else p, host,
                      if slot == 0 then ManagerIdle else Settling(id, 0)))
  {
    var c := One(t, Row(id, slot, state), p, host, Found(id, 0));
    var q := if slot == 0 && !p.state.Dialing? && p.handle != NO_HANDLE then p.(state := Disconnecting) else p;
    var u := One(t, Row(id, slot, Removing), q, host, if slot == 0 then ManagerIdle else Settling(id, 0));
    assert Forget(c.t, 0).devs == u.t.devs && Forget(c.t, 0).conns == u.t.conns;
  }

  lemma {:induction false} Cleared(t: Tables, id: string, p: Conn, host: Host)
    requires Empty(t)
    ensures Leads(One(t, Row(id, -1, Removing), p, host, Settling(id, 0)), ForgetClear, One(t, ZERO_DEV, p, host, ManagerIdle))
  {
    var c, u := One(t, Row(id, -1, Removing), p, host, Settling(id, 0)), One(t, ZERO_DEV, p, host, ManagerIdle);
    assert Finalize(c.t, 0).devs == u.t.devs;
  }

  /** The host task's test of a marked row succeeds, and the row is found again. */
  lemma {:induction false} Tested(t: Tables, id: string, slot: int, p: Conn)
    requires Empty(t)
    ensures Leads(One(t, Row(id, slot, Removing), p, Testing(0, id), ManagerIdle), HostTest, One(t, Row(id, slot, Removing), p, Finding(id), ManagerIdle))
    ensures Leads(One(t, Row(id, slot, Removing), p, Finding(id), ManagerIdle), HostFind, One(t, Row(id, slot, Removing), p, Clearing(0), ManagerIdle))
  {
    NamedFirst(t, Row(id, slot, Removing), p, Finding(id), ManagerIdle);
  }

  // ----- the runs

  lemma {:induction false} Extend(steps: seq<Step>, c: Central, s: Step, u: Central) returns (longer: seq<Step>)
    requires Fires(Start(), steps) && After(Start(), steps) == c && Leads(c, s, u)
    ensures longer == steps + [s] && Fires(Start(), longer) && After(Start(), longer) == u
  {
    Grows(Start(), steps, s, u);
    longer := steps + [s];
  }

  lemma {:induction false} StartIsEmpty(t: Tables)
    requires t == Initial()
    ensures Empty(t) && Start() == One(t, ZERO_DEV, FreeConn(0), HostIdle, ManagerIdle)
  {
    assert t.devs[0 := ZERO_DEV][1 := ZERO_DEV] == t.devs && t.conns[0 := FreeConn(0)][1 := FreeConn(0)] == t.conns;
  }

  function Joins(id: string): seq<Step> { [] + [Table(RegisterA(id))] + [Table(ReserveA(0))] + [Table(ConnectA(FIRST, LINK))] }

  /** A device is registered, dialed and connected. */
  lemma {:induction false} Joined(t: Tables, id: string)
    requires t == Initial()
    ensures Empty(t) && Fires(Start(), Joins(id))
    ensures After(Start(), Joins(id)) == One(t, Row(id, 0, Connecting), Conn(Securing, 0, 1, LINK), HostIdle, ManagerIdle)
  {
    StartIsEmpty(t);
    Registered(t, id, FreeConn(0), HostIdle);
    Dialed(t, id, Offline, 0, HostIdle);
    Connects(t, id);
    var c0 := One(t, ZERO_DEV, FreeConn(0), HostIdle, ManagerIdle);
    var c1 := One(t, Row(id, -1, Offline), FreeConn(0), HostIdle, ManagerIdle);
    var c2 := One(t, Row(id, 0, Connecting), Conn(Dialing, 0, 1, NO_HANDLE), HostIdle, ManagerIdle);
    var steps := Extend([], c0, Table(RegisterA(id)), c1);
    steps := Extend(steps, c1, Table(ReserveA(0)), c2);
    steps := Extend(steps, c2, Table(ConnectA(FIRST, LINK)), One(t, Row(id, 0, Connecting), Conn(Securing, 0, 1, LINK), HostIdle, ManagerIdle));
  }

  /** Forget the dialing device in row 0, then let the host task finish. */
  function Finish(steps: seq<Step>): seq<Step> { steps + [ForgetFind("x")] + [ForgetMark] + [HostTest] + [HostFind] + [HostClear] }

  /** A row cleared while its slot is dialing. */
  lemma {:induction false} Unmatched(t: Tables, p: Conn)
    requires Empty(t) && p.device == 0 && !p.state.Free?
    ensures !Inverse(One(t, ZERO_DEV, p, HostIdle, ManagerIdle).t)
  {
    var u := One(t, ZERO_DEV, p, HostIdle, ManagerIdle).t;
    assert !u.conns[0].state.Free? && !u.devs[u.conns[0].device].inUse;
  }

  lemma {:induction false} ClearedLinked(t: Tables, id: string, p: Conn)
    requires Empty(t)
    ensures Leads(One(t, Row(id, 0, Removing), p, Clearing(0), ManagerIdle), HostClear, One(t, ZERO_DEV, p, HostIdle, ManagerIdle))
  {
    var c, u := One(t, Row(id, 0, Removing), p, Clearing(0), ManagerIdle), One(t, ZERO_DEV, p, HostIdle, ManagerIdle);
    assert Finalize(c.t, 0).devs == u.t.devs;
  }

  lemma {:induction false} Finished(t: Tables, steps: seq<Step>, n: nat)
    requires Empty(t) && Fires(Start(), steps)
    requires After(Start(), steps) == One(t, Row("x", 0, Connecting), Conn(Dialing, 0, n, NO_HANDLE), Testing(0, "x"), ManagerIdle)
    ensures Fires(Start(), Finish(steps)) && !Inverse(After(Start(), Finish(steps)).t)
  {
    var p := Conn(Dialing, 0, n, NO_HANDLE);
    var c0 := One(t, Row("x", 0, Connecting), p, Testing(0, "x"), ManagerIdle);
    var c1 := One(t, Row("x", 0, Connecting), p, Testing(0, "x"), Found("x", 0));
    var c2 := One(t, Row("x", 0, Removing), p, Testing(0, "x"), ManagerIdle);
    var c3 := One(t, Row("x", 0, Removing), p, Finding("x"), ManagerIdle);
    var c4 := One(t, Row("x", 0, Removing), p, Clearing(0), ManagerIdle);
    var c5 := One(t, ZERO_DEV, p, HostIdle, ManagerIdle);
    LookedUp(t, Row("x", 0, Connecting), p, Testing(0, "x"));
    Marked(t, "x", 0, Connecting, p, Testing(0, "x"));
    Tested(t, "x", 0, p);
    ClearedLinked(t, "x", p);
    Unmatched(t, p);
    var more := Extend(steps, c0, ForgetFind("x"), c1);
    more := Extend(more, c1, ForgetMark, c2);
    more := Extend(more, c2, HostTest, c3);
    more := Extend(more, c3, HostFind, c4);
    more := Extend(more, c4, HostClear, c5);
  }

  /** x is connected and its link drops; before the host task tests the released row, the supervisor dials x again and x is
      forgotten. The test then reads the new mark, and the row is cleared while it is dialing. */
  function RedialRun(): seq<Step> { Finish(Joins("x") + [Table(DisconnectA(FIRST, LINK))] + [Table(ReserveA(0))]) }

  lemma {:induction false} RedialBreaksLink()
    ensures Fires(Start(), RedialRun()) && !Inverse(After(Start(), RedialRun()).t)
  {
    var t := Initial();
    Joined(t, "x");
    Dropped(t, "x", Connecting, Securing);
    Dialed(t, "x", Backoff, 1, Testing(0, "x"));
    var c0 := One(t, Row("x", 0, Connecting), Conn(Securing, 0, 1, LINK), HostIdle, ManagerIdle);
    var c1 := One(t, Row("x", -1, Backoff), FreeConn(1), Testing(0, "x"), ManagerIdle);
    var c2 := One(t, Row("x", 0, Connecting), Conn(Dialing, 0, 2, NO_HANDLE), Testing(0, "x"), ManagerIdle);
    var steps := Extend(Joins("x"), c0, Table(DisconnectA(FIRST, LINK)), c1);
    steps := Extend(steps, c1, Table(ReserveA(0)), c2);
    Finished(t, steps, 2);
  }

  /** The same with x removed and registered again in between; no registration meets an unfinished removal. */
  function ReaddRun(): seq<Step> {
    Finish(Joins("x") + [Table(DisconnectA(FIRST, LINK))] + [ForgetFind("x")] + [ForgetMark] + [ForgetClear] + [Table(RegisterA("x"))] + [Table(ReserveA(0))])
  }

  lemma {:induction false} ReaddBreaksLink()
    ensures Fires(Start(), ReaddRun()) && !Inverse(After(Start(), ReaddRun()).t)
  {
    var t, h := Initial(), Testing(0, "x");
    Joined(t, "x");
    Dropped(t, "x", Connecting, Securing);
    LookedUp(t, Row("x", -1, Backoff), FreeConn(1), h);
    Marked(t, "x", -1, Backoff, FreeConn(1), h);
    Cleared(t, "x", FreeConn(1), h);
    Registered(t, "x", FreeConn(1), h);
    Dialed(t, "x", Offline, 1, h);
    var c0 := One(t, Row("x", 0, Connecting), Conn(Securing, 0, 1, LINK), HostIdle, ManagerIdle);
    var c1 := One(t, Row("x", -1, Backoff), FreeConn(1), h, ManagerIdle);
    var c2 := One(t, Row("x", -1, Backoff), FreeConn(1), h, Found("x", 0));
    var c3 := One(t, Row("x", -1, Removing), FreeConn(1), h, Settling("x", 0));
    var c4 := One(t, ZERO_DEV, FreeConn(1), h, ManagerIdle);
    var c5 := One(t, Row("x", -1, Offline), FreeConn(1), h, ManagerIdle);
    var c6 := One(t, Row("x", 0, Connecting), Conn(Dialing, 0, 2, NO_HANDLE), h, ManagerIdle);
    var steps := Extend(Joins("x"), c0, Table(DisconnectA(FIRST, LINK)), c1);
    steps := Extend(steps, c1, ForgetFind("x"), c2);
    steps := Extend(steps, c2, ForgetMark, c3);
    steps := Extend(steps, c3, ForgetClear, c4);
    steps := Extend(steps, c4, Table(RegisterA("x")), c5);
    steps := Extend(steps, c5, Table(ReserveA(0)), c6);
    Finished(t, steps, 2);
  }

  /** x is forgotten while connected; its disconnect is handled up to the lookup, a second forget clears the row, device y
      gets it, is dialed and forgotten, and only then the host task clears the row. */
  function OtherRun(): seq<Step> {
    Leaves() + [ForgetFind("x")] + [ForgetMark] + [ForgetClear] + [Table(RegisterA("y"))] + [Table(ReserveA(0))] + [ForgetFind("y")] + [ForgetMark] + [HostClear]
  }

  function Leaves(): seq<Step> { Joins("x") + [ForgetFind("x")] + [ForgetMark] + [Table(DisconnectA(FIRST, LINK))] + [HostTest] + [HostFind] }

  lemma {:induction false} Left(t: Tables)
    requires t == Initial()
    ensures Empty(t) && Fires(Start(), Leaves())
    ensures After(Start(), Leaves()) == One(t, Row("x", -1, Removing), FreeConn(1), Clearing(0), ManagerIdle)
  {
    Joined(t, "x");
    var p, q := Conn(Securing, 0, 1, LINK), Conn(Disconnecting, 0, 1, LINK);
    LookedUp(t, Row("x", 0, Connecting), p, HostIdle);
    Marked(t, "x", 0, Connecting, p, HostIdle);
    Dropped(t, "x", Removing, Disconnecting);
    Tested(t, "x", -1, FreeConn(1));
    var c0 := One(t, Row("x", 0, Connecting), p, HostIdle, ManagerIdle);
    var c1 := One(t, Row("x", 0, Connecting), p, HostIdle, Found("x", 0));
    var c2 := One(t, Row("x", 0, Removing), q, HostIdle, ManagerIdle);
    var c3 := One(t, Row("x", -1, Removing), FreeConn(1), Testing(0, "x"), ManagerIdle);
    var c4 := One(t, Row("x", -1, Removing), FreeConn(1), Finding("x"), ManagerIdle);
    var c5 := One(t, Row("x", -1, Removing), FreeConn(1), Clearing(0), ManagerIdle);
    var steps := Extend(Joins("x"), c0, ForgetFind("x"), c1);
    steps := Extend(steps, c1, ForgetMark, c2);
    steps := Extend(steps, c2, Table(DisconnectA(FIRST, LINK)), c3);
    steps := Extend(steps, c3, HostTest, c4);
    steps := Extend(steps, c4, HostFind, c5);
  }

  lemma {:induction false} LateClearBreaksLink()
    ensures Fires(Start(), OtherRun()) && !Inverse(After(Start(), OtherRun()).t)
  {
    var t, h, p := Initial(), Clearing(0), Conn(Dialing, 0, 2, NO_HANDLE);
    Left(t);
    LookedUp(t, Row("x", -1, Removing), FreeConn(1), h);
    Marked(t, "x", -1, Removing, FreeConn(1), h);
    Cleared(t, "x", FreeConn(1), h);
    Registered(t, "y", FreeConn(1), h);
    Dialed(t, "y", Offline, 1, h);
    LookedUp(t, Row("y", 0, Connecting), p, h);
    Marked(t, "y", 0, Connecting, p, h);
    ClearedLinked(t, "y", p);
    Unmatched(t, p);
    var c0 := One(t, Row("x", -1, Removing), FreeConn(1), h, ManagerIdle);
    var c1 := One(t, Row("x", -1, Removing), FreeConn(1), h, Found("x", 0));
    var c2 := One(t, Row("x", -1, Removing), FreeConn(1), h, Settling("x", 0));
    var c3 := One(t, ZERO_DEV, FreeConn(1), h, ManagerIdle);
    var c4 := One(t, Row("y", -1, Offline), FreeConn(1), h, ManagerIdle);
    var c5 := One(t, Row("y", 0, Connecting), p, h, ManagerIdle);
    var c6 := One(t, Row("y", 0, Connecting), p, h, Found("y", 0));
    var c7 := One(t, Row("y", 0, Removing), p, h, ManagerIdle);
    var steps := Extend(Leaves(), c0, ForgetFind("x"), c1);
    steps := Extend(steps, c1, ForgetMark, c2);
    steps := Extend(steps, c2, ForgetClear, c3);
    steps := Extend(steps, c3, Table(RegisterA("y")), c4);
    steps := Extend(steps, c4, Table(ReserveA(0)), c5);
    steps := Extend(steps, c5, ForgetFind("y"), c6);
    steps := Extend(steps, c6, ForgetMark, c7);
    steps := Extend(steps, c7, HostClear, One(t, ZERO_DEV, p, HostIdle, ManagerIdle));
  }

  // ----- a forget of a row that was cleared since its lookup

  /** A second forget of x looks the row up, the host task finishes the removal, and the forget goes on with the cleared row. */
  function Overlap(steps: seq<Step>, id: string, r: Ref, handle: nat): seq<Step> {
    steps + [ForgetFind(id)] + [Table(DisconnectA(r, handle))] + [HostTest] + [HostFind] + [HostClear] + [ForgetMark]
  }

  function Unlinked(t: Tables, d: nat): Tables
    requires Shaped(t) && d < MAX_DEVICES && 0 <= t.devs[d].slot < MAX_CONN
  {
    var k := t.devs[d].slot;
    Tables(t.devs[d := Dev(true, t.devs[d].id, -1, Removing)], t.conns[k := FreeConn(t.conns[k].generation)])
  }

  ghost predicate Leaving(c: Central, d: nat) {
    Inverse(c.t) && UniqueIds(c.t) && c.host.HostIdle? && c.mgr.ManagerIdle? && d < MAX_DEVICES && LinkedRemoval(c.t, d)
  }

  lemma {:induction false} OverlapSteps(c: Central, d: nat)
    requires Leaving(c, d)
    ensures var x, u, m := c.t.devs[d].id, Unlinked(c.t, d), Found(c.t.devs[d].id, d);
            var k := c.t.devs[d].slot;
            && Leads(c, ForgetFind(x), c.(mgr := m))
            && Leads(c.(mgr := m), Table(DisconnectA(Ref(k, c.t.conns[k].generation), c.t.conns[k].handle)), Central(u, Testing(d, x), m))
            && Leads(Central(u, Testing(d, x), m), HostTest, Central(u, Finding(x), m))
            && Leads(Central(u, Finding(x), m), HostFind, Central(u, Clearing(d), m))
            && Leads(Central(u, Clearing(d), m), HostClear, Central(u.(devs := u.devs[d := ZERO_DEV]), HostIdle, m))
  {
    FindUnique(c.t, d);
    Frees(c.(mgr := Found(c.t.devs[d].id, d)), d);
    HostFinishes(c.t, Unlinked(c.t, d), d, Found(c.t.devs[d].id, d));
  }

  lemma {:induction false} Overlapped(c: Central, d: nat, steps: seq<Step>)
    requires Fires(Start(), steps) && After(Start(), steps) == c && Leaving(c, d)
    ensures var k, u := c.t.devs[d].slot, Unlinked(c.t, d);
            var run := Overlap(steps, c.t.devs[d].id, Ref(k, c.t.conns[k].generation), c.t.conns[k].handle);
            && Fires(Start(), run)
            && After(Start(), run) == Next(Central(u.(devs := u.devs[d := ZERO_DEV]), HostIdle, Found(c.t.devs[d].id, d)), ForgetMark)
  {
    var k, x, u, m := c.t.devs[d].slot, c.t.devs[d].id, Unlinked(c.t, d), Found(c.t.devs[d].id, d);
    var c5 := Central(u.(devs := u.devs[d := ZERO_DEV]), HostIdle, m);
    OverlapSteps(c, d);
    var run := Extend(steps, c, ForgetFind(x), c.(mgr := m));
    run := Extend(run, c.(mgr := m), Table(DisconnectA(Ref(k, c.t.conns[k].generation), c.t.conns[k].handle)), Central(u, Testing(d, x), m));
    run := Extend(run, Central(u, Testing(d, x), m), HostTest, Central(u, Finding(x), m));
    run := Extend(run, Central(u, Finding(x), m), HostFind, Central(u, Clearing(d), m));
    run := Extend(run, Central(u, Clearing(d), m), HostClear, c5);
    run := Extend(run, c5, ForgetMark, Next(c5, ForgetMark));
  }

  /** From any state in which a connected device is being removed while another device is connected on slot 0, that drops
      the other device's connection and leaves its row alone. */
  lemma {:induction false} StaleForgetDropsOther(c: Central, d: nat, steps: seq<Step>)
    requires Fires(Start(), steps) && After(Start(), steps) == c && Leaving(c, d) && c.t.devs[d].slot != 0
    requires var x := c.t.conns[0]; !x.state.Free? && !x.state.Dialing? && !x.state.Disconnecting? && x.handle != NO_HANDLE
    ensures var k, e := c.t.devs[d].slot, c.t.conns[0].device;
            var run := Overlap(steps, c.t.devs[d].id, Ref(k, c.t.conns[k].generation), c.t.conns[k].handle);
            && Fires(Start(), run) && After(Start(), run).t.conns[0] == c.t.conns[0].(state := Disconnecting)
            && After(Start(), run).t.devs[e] == c.t.devs[e] && c.t.devs[e].id != c.t.devs[d].id
  {
    var u := Unlinked(c.t, d);
    Overlapped(c, d, steps);
    DropsSlotZero(Central(u.(devs := u.devs[d := ZERO_DEV]), HostIdle, Found(c.t.devs[d].id, d)), d);
  }

  lemma {:induction false} Frees(c: Central, d: nat)
    requires Inverse(c.t) && c.host.HostIdle? && d < MAX_DEVICES && LinkedRemoval(c.t, d)
    ensures var k, x := c.t.devs[d].slot, c.t.devs[d].id;
            Leads(c, Table(DisconnectA(Ref(k, c.t.conns[k].generation), c.t.conns[k].handle)),
                  Central(Tables(c.t.devs[d := Dev(true, x, -1, Removing)], c.t.conns[k := FreeConn(c.t.conns[k].generation)]), Testing(d, x), c.mgr))
  {
  }

  lemma {:induction false} HostFinishes(t: Tables, u: Tables, d: nat, m: Manager)
    requires Shaped(u) && UniqueIds(t) && |t.devs| == MAX_DEVICES && d < MAX_DEVICES && t.devs[d].inUse
    requires u.devs == t.devs[d := Dev(true, t.devs[d].id, -1, Removing)]
    ensures var x := t.devs[d].id;
            && Leads(Central(u, Testing(d, x), m), HostTest, Central(u, Finding(x), m))
            && Leads(Central(u, Finding(x), m), HostFind, Central(u, Clearing(d), m))
            && Leads(Central(u, Clearing(d), m), HostClear, Central(u.(devs := u.devs[d := ZERO_DEV]), HostIdle, m))
  {
    FindUnique(u, d);
  }

  /** A cleared row has slot number 0. */
  lemma {:induction false} DropsSlotZero(c: Central, d: nat)
    requires Shaped(c.t) && c.mgr.Found? && c.mgr.d == d < MAX_DEVICES && c.t.devs[d] == ZERO_DEV
    requires var x := c.t.conns[0]; !x.state.Free? && !x.state.Dialing? && x.handle != NO_HANDLE
    ensures var u := Next(c, ForgetMark);
            Leads(c, ForgetMark, u) && u.t.devs == c.t.devs[d := ZERO_DEV.(state := Removing)] && u.t.conns[0] == c.t.conns[0].(state := Disconnecting)
  {
  }

  const SECOND := Ref(1, 1)
  const OTHER_LINK: nat := 6

  function Y(): Dev { Row("y", 0, Connecting) }
  function YLink(): Conn { Conn(Securing, 0, 1, LINK) }

  lemma {:induction false} SecondJoins(t: Tables)
    requires Empty(t)
    ensures Leads(Two(t, Y(), YLink(), ZERO_DEV, FreeConn(0), HostIdle, ManagerIdle), Table(RegisterA("x")),
                  Two(t, Y(), YLink(), Row("x", -1, Offline), FreeConn(0), HostIdle, ManagerIdle))
    ensures Leads(Two(t, Y(), YLink(), Row("x", -1, Offline), FreeConn(0), HostIdle, ManagerIdle), Table(ReserveA(1)),
                  Two(t, Y(), YLink(), Row("x", 1, Connecting), Conn(Dialing, 1, 1, NO_HANDLE), HostIdle, ManagerIdle))
  {
    var c := Two(t, Y(), YLink(), ZERO_DEV, FreeConn(0), HostIdle, ManagerIdle);
    FirstIndexUnique(c.t.devs, DevNamed("x"), -1);
    FirstIndexUnique(c.t.devs, DevUnused(), 1);
    var c1 := Two(t, Y(), YLink(), Row("x", -1, Offline), FreeConn(0), HostIdle, ManagerIdle);
    assert Register(c.t, "x").devs == c1.t.devs;
    FirstIndexUnique(c1.t.conns, ConnDialing(), -1);
    FirstIndexUnique(c1.t.conns, ConnFree(), 1);
    var c2 := Two(t, Y(), YLink(), Row("x", 1, Connecting), Conn(Dialing, 1, 1, NO_HANDLE), HostIdle, ManagerIdle);
    assert Reserve(c1.t, 1).devs == c2.t.devs && Reserve(c1.t, 1).conns == c2.t.conns;
  }

  lemma {:induction false} SecondLeaves(t: Tables)
    requires Empty(t)
    ensures Leads(Two(t, Y(), YLink(), Row("x", 1, Connecting), Conn(Dialing, 1, 1, NO_HANDLE), HostIdle, ManagerIdle), Table(ConnectA(SECOND, OTHER_LINK)),
                  Two(t, Y(), YLink(), Row("x", 1, Connecting), Conn(Securing, 1, 1, OTHER_LINK), HostIdle, ManagerIdle))
    ensures Leads(Two(t, Y(), YLink(), Row("x", 1, Connecting), Conn(Securing, 1, 1, OTHER_LINK), HostIdle, ManagerIdle), ForgetFind("x"),
                  Two(t, Y(), YLink(), Row("x", 1, Connecting), Conn(Securing, 1, 1, OTHER_LINK), HostIdle, Found("x", 1)))
    ensures Leads(Two(t, Y(), YLink(), Row("x", 1, Connecting), Conn(Securing, 1, 1, OTHER_LINK), HostIdle, Found("x", 1)), ForgetMark,
                  Two(t, Y(), YLink(), Row("x", 1, Removing), Conn(Disconnecting, 1, 1, OTHER_LINK), HostIdle, ManagerIdle))
  {
    var c := Two(t, Y(), YLink(), Row("x", 1, Connecting), Conn(Securing, 1, 1, OTHER_LINK), HostIdle, ManagerIdle);
    assert DevNamed("x")(c.t.devs[1]);
    FirstIndexUnique(c.t.devs, DevNamed("x"), 1);
    var u := Two(t, Y(), YLink(), Row("x", 1, Removing), Conn(Disconnecting, 1, 1, OTHER_LINK), HostIdle, ManagerIdle);
    assert Forget(c.t, 1).devs == u.t.devs && Forget(c.t, 1).conns == u.t.conns;
  }

  function TwoJoin(): seq<Step> {
    Joins("y") + [Table(RegisterA("x"))] + [Table(ReserveA(1))] + [Table(ConnectA(SECOND, OTHER_LINK))] + [ForgetFind("x")] + [ForgetMark]
  }

  /** y and x are connected, and x is forgotten. */
  lemma {:induction false} TwoJoined(t: Tables)
    requires t == Initial()
    ensures Empty(t) && Fires(Start(), TwoJoin())
    ensures After(Start(), TwoJoin()) == Two(t, Y(), YLink(), Row("x", 1, Removing), Conn(Disconnecting, 1, 1, OTHER_LINK), HostIdle, ManagerIdle)
  {
    Joined(t, "y");
    SecondJoins(t);
    SecondLeaves(t);
    var c0 := Two(t, Y(), YLink(), ZERO_DEV, FreeConn(0), HostIdle, ManagerIdle);
    var c1 := Two(t, Y(), YLink(), Row("x", -1, Offline), FreeConn(0), HostIdle, ManagerIdle);
    var c2 := Two(t, Y(), YLink(), Row("x", 1, Connecting), Conn(Dialing, 1, 1, NO_HANDLE), HostIdle, ManagerIdle);
    var c3 := Two(t, Y(), YLink(), Row("x", 1, Connecting), Conn(Securing, 1, 1, OTHER_LINK), HostIdle, ManagerIdle);
    var c4 := c3.(mgr := Found("x", 1));
    var c5 := Two(t, Y(), YLink(), Row("x", 1, Removing), Conn(Disconnecting, 1, 1, OTHER_LINK), HostIdle, ManagerIdle);
    var steps := Extend(Joins("y"), c0, Table(RegisterA("x")), c1);
    steps := Extend(steps, c1, Table(ReserveA(1)), c2);
    steps := Extend(steps, c2, Table(ConnectA(SECOND, OTHER_LINK)), c3);
    steps := Extend(steps, c3, ForgetFind("x"), c4);
    steps := Extend(steps, c4, ForgetMark, c5);
  }

  /** From initialization: while x is being removed, x is added and deleted again; the second delete looks the row up just
      before the host task clears it, and drops the connection of y. */
  function StaleForgetRun(): seq<Step> { Overlap(TwoJoin(), "x", SECOND, OTHER_LINK) }

  /** The run is possible and leaves y's connection in the given state. */
  ghost predicate LeavesY(steps: seq<Step>, state: ConnState) {
    Fires(Start(), steps) && var t := After(Start(), steps).t; t.devs[0].id == "y" && t.devs[0].slot == 0 && t.conns[0].device == 0 && t.conns[0].state == state
  }

  lemma {:induction false} XLeaving(t: Tables)
    requires Empty(t)
    ensures Leaving(Two(t, Y(), YLink(), Row("x", 1, Removing), Conn(Disconnecting, 1, 1, OTHER_LINK), HostIdle, ManagerIdle), 1)
  {
  }

  lemma {:induction false} SecondDeleteDropsOther()
    ensures LeavesY(TwoJoin(), Securing) && LeavesY(StaleForgetRun(), Disconnecting)
  {
    var t := Initial();
    TwoJoined(t);
    var c := Two(t, Y(), YLink(), Row("x", 1, Removing), Conn(Disconnecting, 1, 1, OTHER_LINK), HostIdle, ManagerIdle);
    XLeaving(t);
    StaleForgetDropsOther(c, 1, TwoJoin());
  }
}
