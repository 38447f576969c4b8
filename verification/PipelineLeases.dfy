/** Every accepted lease request is either still waiting or was called back once. */
module PipelineLeases {
  import opened Basics
  import opened Search
  import opened Scheduler
  import opened CommandService
  import opened SchedulerInvariant
  import opened Pipeline

  ghost predicate Waits(l: Lease) { l.state.LeasePending? || l.state.LeaseCompletionPending? }

  /** The request with lease id n still owns a callback. */
  ghost predicate LeaseOwed(s: Sys, n: nat) {
    || (s.pc.LeaseCalling? && s.pc.leaseId == n)
    || (exists j :: 0 <= j < |s.sched.leases| && Waits(s.sched.leases[j]) && s.sched.leases[j].id == n)
  }

  ghost predicate LeaseWasCalled(s: Sys, n: nat) { exists k :: 0 <= k < |s.leaseCalled| && s.leaseCalled[k].0 == n }

  ghost predicate Leases(s: Sys) {
    && (forall n :: n in s.leaseAccepted ==> n <= s.sched.nextLease && (LeaseWasCalled(s, n) || LeaseOwed(s, n)))
    && (forall k :: 0 <= k < |s.leaseCalled| ==> s.leaseCalled[k].0 in s.leaseAccepted)
    && (forall n :: LeaseOwed(s, n) ==> n in s.leaseAccepted && !LeaseWasCalled(s, n))
    && (forall k, m :: 0 <= k < m < |s.leaseCalled| ==> s.leaseCalled[k].0 != s.leaseCalled[m].0)
    && (s.pc.LeaseCalling? ==> forall j :: 0 <= j < |s.sched.leases| && Waits(s.sched.leases[j]) ==>
                                 s.sched.leases[j].id != s.pc.leaseId)
  }

  /** Steps after which the same requests wait. */
  lemma {:induction false} LeasesKept(s: Sys, t: Sys)
    requires Leases(s) && |t.sched.leases| == |s.sched.leases| && t.sched.nextLease == s.sched.nextLease
    requires t.leaseAccepted == s.leaseAccepted && t.leaseCalled == s.leaseCalled
    requires t.pc == s.pc || (!t.pc.LeaseCalling? && !s.pc.LeaseCalling?)
    requires forall j :: 0 <= j < |s.sched.leases| ==>
               Waits(t.sched.leases[j]) == Waits(s.sched.leases[j]) && t.sched.leases[j].id == s.sched.leases[j].id
    ensures Leases(t)
  {
    forall n: nat ensures LeaseOwed(t, n) == LeaseOwed(s, n) && LeaseWasCalled(t, n) == LeaseWasCalled(s, n) {
      if LeaseOwed(s, n) && !(s.pc.LeaseCalling? && s.pc.leaseId == n) {
        var j :| 0 <= j < |s.sched.leases| && Waits(s.sched.leases[j]) && s.sched.leases[j].id == n;
        assert Waits(t.sched.leases[j]);
      }
      if LeaseOwed(t, n) && !(t.pc.LeaseCalling? && t.pc.leaseId == n) {
        var j :| 0 <= j < |t.sched.leases| && Waits(t.sched.leases[j]) && t.sched.leases[j].id == n;
        assert Waits(s.sched.leases[j]);
      }
    }
  }

  lemma {:induction false} AcquireLeases(s: Sys, q: LeaseRequest)
    requires Leases(s) && SysShaped(s) && Inv(s.sched)
    ensures Leases(Apply(s, AcquireLease(q)))
  {
    var t := Apply(s, AcquireLease(q));
    if !AcquireAccepted(s.sched, q) {
      LeasesKept(s, t);
    } else {
      var k := FirstIndex(s.sched.leases, LeaseIsFree());
      var n0 := t.sched.nextLease;
      assert t.sched.leases[k].id == n0 && Waits(t.sched.leases[k]) && !Waits(s.sched.leases[k]);
      assert !LeaseWasCalled(s, n0);
      forall n: nat | n != n0 ensures LeaseOwed(t, n) == LeaseOwed(s, n) {
        if LeaseOwed(s, n) && !(s.pc.LeaseCalling? && s.pc.leaseId == n) {
          var j :| 0 <= j < |s.sched.leases| && Waits(s.sched.leases[j]) && s.sched.leases[j].id == n;
          assert Waits(t.sched.leases[j]) && t.sched.leases[j].id == n;
        }
        if LeaseOwed(t, n) && !(t.pc.LeaseCalling? && t.pc.leaseId == n) {
          var j :| 0 <= j < |t.sched.leases| && Waits(t.sched.leases[j]) && t.sched.leases[j].id == n;
          assert Waits(s.sched.leases[j]) && s.sched.leases[j].id == n;
        }
      }
      forall n: nat ensures LeaseWasCalled(t, n) == LeaseWasCalled(s, n) {}
      if s.pc.LeaseCalling? { assert LeaseOwed(s, s.pc.leaseId); }
    }
  }

  /** A turn that owes a callback takes the request from waiting into the worker's hands. */
  lemma {:induction false} TurnLeases(s: Sys, i: nat)
    requires Leases(s) && SysShaped(s) && Inv(s.sched) && s.pc.Idle? && i < MAX_DEVICES
    ensures Leases(Apply(s, LeaseTurn(i)))
  {
    var t := Apply(s, LeaseTurn(i));
    if LeaseCallback(s.sched, i).None? {
      assert t == s;
    } else {
      var n0 := s.sched.leases[i].id;
      assert Waits(s.sched.leases[i]) && !Waits(t.sched.leases[i]);
      assert forall j :: 0 <= j < MAX_DEVICES && j != i ==> t.sched.leases[j] == s.sched.leases[j];
      assert forall j :: 0 <= j < MAX_DEVICES && j != i && Waits(s.sched.leases[j]) ==> s.sched.leases[j].id != n0;
      forall n: nat ensures LeaseOwed(t, n) == LeaseOwed(s, n) && LeaseWasCalled(t, n) == LeaseWasCalled(s, n) {
        if LeaseOwed(s, n) && n != n0 {
          var j :| 0 <= j < |s.sched.leases| && Waits(s.sched.leases[j]) && s.sched.leases[j].id == n;
          assert Waits(t.sched.leases[j]);
        }
        if LeaseOwed(t, n) && n != n0 {
          var j :| 0 <= j < |t.sched.leases| && Waits(t.sched.leases[j]) && t.sched.leases[j].id == n;
          assert Waits(s.sched.leases[j]);
        }
      }
    }
  }

  lemma {:induction false} CallLeases(s: Sys)
    requires Leases(s) && SysShaped(s) && s.pc.LeaseCalling?
    ensures Leases(Apply(s, LeaseCallTurn))
  {
    var t := Apply(s, LeaseCallTurn);
    var n0 := s.pc.leaseId;
    assert LeaseOwed(s, n0);
    assert t.leaseCalled[|s.leaseCalled|].0 == n0;
    assert forall k :: 0 <= k < |s.leaseCalled| ==> t.leaseCalled[k] == s.leaseCalled[k];
    forall n: nat ensures LeaseOwed(t, n) == (LeaseOwed(s, n) && n != n0)
                          && LeaseWasCalled(t, n) == (LeaseWasCalled(s, n) || n == n0) {
      if LeaseWasCalled(s, n) {
        var k :| 0 <= k < |s.leaseCalled| && s.leaseCalled[k].0 == n;
        assert t.leaseCalled[k].0 == n;
      }
    }
  }
}
