/** What each call of the device store does to the list of devices, said on the list before and after the call,
    and exactly when each result is given. */
module RegistryEffects {
  import opened Basics
  import opened Search
  import opened DeviceRecords
  import opened DeviceStore
  import opened DeviceRegistry

  /** The device with this id is the k-th. */
  ghost predicate IsAt(cache: seq<Entry>, k: nat, id: string) { k < |cache| && cache[k].id == id }

  ghost predicate Known(cache: seq<Entry>, id: string) { exists k: nat :: IsAt(cache, k, id) }

  /** At most sixteen devices, no id or identity twice. */
  ghost predicate Listed(s: Store) { Unique(s.cache) && |s.cache| <= 16 }

  /** A state some sequence of calls and reboots reaches on a new device. */
  ghost predicate Reached(s: Store) {
    exists ops: seq<Op> :: (forall i :: 0 <= i < |ops| ==> OpTyped(ops[i])) && s == Run(FirstBoot(), ops)
  }

  lemma {:induction false} ReachedInv(s: Store)
    requires Reached(s)
    ensures Inv(s) && Listed(s)
  {
    var ops: seq<Op> :| (forall i :: 0 <= i < |ops| ==> OpTyped(ops[i])) && s == Run(FirstBoot(), ops);
    FirstBootInv();
    RunInv(FirstBoot(), ops);
  }

  lemma {:induction false} FoundAt(cache: seq<Entry>, id: string)
    requires Unique(cache)
    ensures Known(cache, id) <==> FirstIndex(cache, EntryNamed(id)) >= 0
    ensures forall k: nat :: IsAt(cache, k, id) ==> k == FirstIndex(cache, EntryNamed(id))
  {
    forall k: nat | IsAt(cache, k, id) ensures k == FirstIndex(cache, EntryNamed(id)) { assert EntryNamed(id)(cache[k]); }
    var k := FirstIndex(cache, EntryNamed(id));
    if k >= 0 { assert IsAt(cache, k, id); }
  }

  lemma {:induction false} NotListed(cache: seq<Entry>, id: string)
    requires !Known(cache, id)
    ensures FirstIndex(cache, EntryNamed(id)) == -1
  {
    var k := FirstIndex(cache, EntryNamed(id));
    if k >= 0 { assert IsAt(cache, k, id); }
  }

  /** What a reboot would read after the call is the list after the call. */
  ghost predicate Persisted(t: Store) { LoadResult(t.nvs).Ok? && Loaded(t.nvs) == t.cache }

  lemma {:induction false} CallPersists(s: Store, op: Op)
    requires Reached(s) && OpTyped(op)
    ensures Persisted(Apply(s, op))
  {
    ReachedInv(s);
    StepInv(s, op);
    AgreesReloads(Apply(s, op).nvs, Apply(s, op).cache);
  }

  /** The list without its k-th device. */
  ghost predicate OnlyRemoved(cache: seq<Entry>, rest: seq<Entry>, k: nat) {
    && k < |cache| && |rest| == |cache| - 1
    && (forall i :: 0 <= i < k ==> rest[i] == cache[i])
    && (forall i :: k < i < |cache| ==> rest[i - 1] == cache[i])
  }

  lemma {:induction false} DeleteList(s: Store, id: string, open: bool, k: nat)
    requires Unique(s.cache) && IsAt(s.cache, k, id)
    ensures ResultOf(s, Delete(id, open)) == if open then Result.Ok else Persistence
    ensures open ==> OnlyRemoved(s.cache, Apply(s, Delete(id, open)).cache, k)
    ensures !open ==> Apply(s, Delete(id, open)) == s
  {
    FoundAt(s.cache, id);
  }

  lemma {:induction false} RemovedIsGone(cache: seq<Entry>, rest: seq<Entry>, k: nat)
    requires Unique(cache) && OnlyRemoved(cache, rest, k)
    ensures !Known(rest, cache[k].id)
  {
    forall i: nat | i < |rest| ensures rest[i].id != cache[k].id {
      if i < k { assert rest[i] == cache[i]; } else { assert rest[i] == cache[i + 1]; }
    }
  }

  lemma {:induction false} DeleteUnknown(s: Store, id: string, open: bool)
    requires !Known(s.cache, id)
    ensures ResultOf(s, Delete(id, open)).NotFound? && Apply(s, Delete(id, open)) == s
  {
    NotListed(s.cache, id);
  }

  /** A delete that succeeds removes exactly the device with that id: the others keep their entries and their order, no
      device with the id is left, and a reboot reads the same list. */
  lemma {:induction false} DeleteEffect(s: Store, id: string, open: bool)
    requires Listed(s)
    ensures ResultOf(s, Delete(id, open)).Ok? <==> Known(s.cache, id) && open
    ensures ResultOf(s, Delete(id, open)).NotFound? <==> !Known(s.cache, id)
    ensures var t := Apply(s, Delete(id, open));
            && (open ==> forall k: nat :: IsAt(s.cache, k, id) ==> OnlyRemoved(s.cache, t.cache, k))
            && (Known(s.cache, id) && open ==> !Known(t.cache, id))
            && (!(Known(s.cache, id) && open) ==> t == s)
  {
    if Known(s.cache, id) {
      var k: nat :| IsAt(s.cache, k, id);
      FoundAt(s.cache, id);
      DeleteList(s, id, open, k);
      if open { RemovedIsGone(s.cache, Apply(s, Delete(id, open)).cache, k); }
    } else {
      DeleteUnknown(s, id, open);
    }
  }

  /** An add that succeeds appends the new device without an identity; one that fails changes nothing. The result says
      which check failed first: the texts, the id, the room, the flash. */
  lemma {:induction false} AddEffect(s: Store, id: string, name: string, open: bool)
    requires Listed(s)
    ensures var t, r := Apply(s, Add(id, name, open)), ResultOf(s, Add(id, name, open));
            var texts := 0 < |id| < 32 && 0 < |name| < 32;
            && (r == InvalidArg <==> !texts)
            && (r == DuplicateId <==> texts && Known(s.cache, id))
            && (r == Full <==> texts && !Known(s.cache, id) && |s.cache| == 16)
            && (r == Persistence <==> texts && !Known(s.cache, id) && |s.cache| < 16 && !open)
            && (r == Result.Ok <==> texts && !Known(s.cache, id) && |s.cache| < 16 && open)
            && (r == Result.Ok ==> t.cache == s.cache + [Entry(id, name, None)])
            && (r != Result.Ok ==> t == s)
  {
    FoundAt(s.cache, id);
  }

  /** Entry k was replaced and nothing else. */
  ghost predicate OnlyEntry(s: Store, t: Store, k: nat, e: Entry) {
    && k < |s.cache| == |t.cache| && t.cache[k] == e
    && forall i :: 0 <= i < |s.cache| && i != k ==> t.cache[i] == s.cache[i]
  }

  lemma {:induction false} EditList(s: Store, id: string, name: string, open: bool, k: nat)
    requires Unique(s.cache) && IsAt(s.cache, k, id)
    ensures var t, r := Apply(s, Edit(id, name, open)), ResultOf(s, Edit(id, name, open));
            && r == (if !(0 < |name| < 32) then InvalidArg else if !open then Persistence else Result.Ok)
            && (r == Result.Ok ==> OnlyEntry(s, t, k, Entry(id, name, s.cache[k].ble)))
            && (r != Result.Ok ==> t == s)
  {
    FoundAt(s.cache, id);
  }

  lemma {:induction false} EditUnknown(s: Store, id: string, name: string, open: bool)
    requires !Known(s.cache, id)
    ensures ResultOf(s, Edit(id, name, open)).NotFound? && Apply(s, Edit(id, name, open)) == s
  {
    NotListed(s.cache, id);
  }

  /** An edit that succeeds changes the name of that device and nothing else. */
  lemma {:induction false} EditEffect(s: Store, id: string, name: string, open: bool)
    requires Listed(s)
    ensures var t, r := Apply(s, Edit(id, name, open)), ResultOf(s, Edit(id, name, open));
            && (r == NotFound <==> !Known(s.cache, id))
            && (r == InvalidArg <==> Known(s.cache, id) && !(0 < |name| < 32))
            && (r == Persistence <==> Known(s.cache, id) && 0 < |name| < 32 && !open)
            && (r == Result.Ok <==> Known(s.cache, id) && 0 < |name| < 32 && open)
            && (r == Result.Ok ==> forall k: nat :: IsAt(s.cache, k, id) ==> OnlyEntry(s, t, k, Entry(id, name, s.cache[k].ble)))
            && (r != Result.Ok ==> t == s)
  {
    if Known(s.cache, id) {
      var k: nat :| IsAt(s.cache, k, id);
      FoundAt(s.cache, id);
      EditList(s, id, name, open, k);
    } else {
      EditUnknown(s, id, name, open);
    }
  }

  /** Some other device has the identity. */
  ghost predicate TakenByOther(cache: seq<Entry>, id: string, ble: Identity) {
    exists k :: 0 <= k < |cache| && cache[k].id != id && cache[k].ble == Some(ble)
  }

  ghost predicate HasIdentity(cache: seq<Entry>, id: string, ble: Identity) {
    exists k :: 0 <= k < |cache| && cache[k].id == id && cache[k].ble == Some(ble)
  }

  lemma {:induction false} SetIdentityList(s: Store, id: string, ble: Identity, open: bool, k: nat)
    requires Unique(s.cache) && IsAt(s.cache, k, id) && ble.kind <= 3
    ensures var t, r := Apply(s, SetIdentity(id, ble, open)), ResultOf(s, SetIdentity(id, ble, open));
            && r == (if s.cache[k].ble == Some(ble) then Result.Ok
                     else if TakenByOther(s.cache, id, ble) then DuplicateIdentity else if !open then Persistence else Result.Ok)
            && (r == Result.Ok ==> OnlyEntry(s, t, k, Entry(id, s.cache[k].name, Some(ble))))
            && (r != Result.Ok || s.cache[k].ble == Some(ble) ==> t == s)
  {
    FoundAt(s.cache, id);
    var u := FirstIndex(s.cache, OwnedByOther(id, ble));
    if i: nat :| i < |s.cache| && s.cache[i].id != id && s.cache[i].ble == Some(ble) { assert OwnedByOther(id, ble)(s.cache[i]); }
  }

  lemma {:induction false} SetIdentityRefused(s: Store, id: string, ble: Identity, open: bool)
    requires ble.kind > 3 || !Known(s.cache, id)
    ensures ResultOf(s, SetIdentity(id, ble, open)) == if ble.kind > 3 then InvalidArg else NotFound
    ensures Apply(s, SetIdentity(id, ble, open)) == s
  {
    if !Known(s.cache, id) { NotListed(s.cache, id); }
  }

  /** An identity update that succeeds gives the device that identity and changes nothing else; an identity another
      device has is refused, and one the device has already needs no flash. */
  lemma {:induction false} SetIdentityEffect(s: Store, id: string, ble: Identity, open: bool)
    requires Unique(s.cache) && |ble.addr| == 6
    ensures var t, r := Apply(s, SetIdentity(id, ble, open)), ResultOf(s, SetIdentity(id, ble, open));
            var free := Known(s.cache, id) && ble.kind <= 3 && !HasIdentity(s.cache, id, ble);
            && (r == InvalidArg <==> ble.kind > 3)
            && (r == NotFound <==> ble.kind <= 3 && !Known(s.cache, id))
            && (r == DuplicateIdentity <==> free && TakenByOther(s.cache, id, ble))
            && (r == Persistence <==> free && !TakenByOther(s.cache, id, ble) && !open)
            && (r == Result.Ok <==> ble.kind <= 3 && (HasIdentity(s.cache, id, ble) || (free && !TakenByOther(s.cache, id, ble) && open)))
            && (r == Result.Ok ==> forall k: nat :: IsAt(s.cache, k, id) ==> OnlyEntry(s, t, k, Entry(id, s.cache[k].name, Some(ble))))
            && (r != Result.Ok || HasIdentity(s.cache, id, ble) ==> t == s)
  {
    if Known(s.cache, id) && ble.kind <= 3 {
      var k: nat :| IsAt(s.cache, k, id);
      FoundAt(s.cache, id);
      SetIdentityList(s, id, ble, open, k);
      assert HasIdentity(s.cache, id, ble) <==> s.cache[k].ble == Some(ble) by {
        if i: nat :| i < |s.cache| && s.cache[i].id == id && s.cache[i].ble == Some(ble) { assert IsAt(s.cache, i, id); }
      }
    } else {
      SetIdentityRefused(s, id, ble, open);
    }
  }
}
