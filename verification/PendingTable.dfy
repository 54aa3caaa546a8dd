/** The pending table as the monitor keeps it: 64 slots in no order, scanned on every hook, with a sequence
    number per entry to find the oldest. Each operation is proved to have the effect `Pending` states. */
module PendingTable {
  import opened Pending

  datatype Slot<+P> = Free | Used(age: nat, key: Key, payload: P)

  /** `order` lists the used slots from oldest to newest. */
  ghost predicate Rep<P>(s: seq<Slot<P>>, order: seq<nat>, next: nat) {
    && |s| == PENDING_MAX
    && (forall k :: 0 <= k < |order| ==> order[k] < |s| && s[order[k]].Used? && s[order[k]].age < next)
    && (forall i :: 0 <= i < |s| && s[i].Used? ==> i in order)
    && (forall k, l :: 0 <= k < l < |order| ==> s[order[k]].age < s[order[l]].age)
  }

  ghost function CallsIn<P>(s: seq<Slot<P>>, order: seq<nat>): (calls: seq<Call<P>>)
    requires forall k :: 0 <= k < |order| ==> order[k] < |s| && s[order[k]].Used?
    ensures |calls| == |order|
  {
    seq(|order|, k requires 0 <= k < |order| => Call(s[order[k]].key, s[order[k]].payload))
  }

  /** The slots listed in `order` without its `k`th are all others, and freeing that one leaves them alone. */
  lemma OthersKept<P>(s: seq<Slot<P>>, order: seq<nat>, next: nat, k: nat)
    requires Rep(s, order, next) && k < |order|
    ensures var s', o' := s[order[k] := Free], Without(order, k);
            && |o'| == |order| - 1
            && forall l :: 0 <= l < |o'| ==>
                 o'[l] == order[if l < k then l else l + 1] && o'[l] != order[k] && s'[o'[l]] == s[o'[l]]
  {
    var o' := Without(order, k);
    forall l | 0 <= l < |o'| ensures o'[l] == order[if l < k then l else l + 1] && o'[l] != order[k] {
      var m := if l < k then l else l + 1;
      assert if m < k then s[order[m]].age < s[order[k]].age else s[order[k]].age < s[order[m]].age;
    }
  }

  lemma FreeOrdered<P>(s: seq<Slot<P>>, order: seq<nat>, next: nat, k: nat)
    requires Rep(s, order, next) && k < |order|
    ensures var s', o' := s[order[k] := Free], Without(order, k);
            && (forall l :: 0 <= l < |o'| ==> o'[l] < |s'| && s'[o'[l]].Used? && s'[o'[l]].age < next)
            && (forall l, m :: 0 <= l < m < |o'| ==> s'[o'[l]].age < s'[o'[m]].age)
  {
    var s', o' := s[order[k] := Free], Without(order, k);
    OthersKept(s, order, next, k);
    forall l, m | 0 <= l < m < |o'| ensures s'[o'[l]].age < s'[o'[m]].age {
      assert o'[l] == order[if l < k then l else l + 1] && o'[m] == order[if m < k then m else m + 1];
    }
  }

  lemma FreeListed<P>(s: seq<Slot<P>>, order: seq<nat>, next: nat, k: nat, i: nat)
    requires Rep(s, order, next) && k < |order| && i < |s| && i != order[k] && s[i].Used?
    ensures i in Without(order, k)
  {
    var l :| 0 <= l < |order| && order[l] == i;
    assert Without(order, k)[if l < k then l else l - 1] == i;
  }

  /** Freeing a used slot takes its call out of the queue. */
  lemma FreeRep<P>(s: seq<Slot<P>>, order: seq<nat>, next: nat, k: nat)
    requires Rep(s, order, next) && k < |order|
    ensures Rep(s[order[k] := Free], Without(order, k), next)
  {
    var s' := s[order[k] := Free];
    FreeOrdered(s, order, next, k);
    forall i | 0 <= i < |s'| && s'[i].Used? ensures i in Without(order, k) {
      FreeListed(s, order, next, k, i);
    }
  }

  lemma FreeCalls<P>(s: seq<Slot<P>>, order: seq<nat>, next: nat, k: nat)
    requires Rep(s, order, next) && k < |order| && Rep(s[order[k] := Free], Without(order, k), next)
    ensures CallsIn(s[order[k] := Free], Without(order, k)) == Without(CallsIn(s, order), k)
  {
    var o', calls := Without(order, k), CallsIn(s, order);
    OthersKept(s, order, next, k);
    forall l | 0 <= l < |o'| ensures CallsIn(s[order[k] := Free], o')[l] == Without(calls, k)[l] {
      assert Without(calls, k)[l] == calls[if l < k then l else l + 1];
    }
  }

  /** Filling a free slot with the next sequence number adds the youngest call. */
  lemma UseRep<P>(s: seq<Slot<P>>, order: seq<nat>, next: nat, i: nat, key: Key, p: P)
    requires Rep(s, order, next) && i < |s| && s[i].Free?
    ensures Rep(s[i := Used(next, key, p)], order + [i], next + 1)
    ensures CallsIn(s[i := Used(next, key, p)], order + [i]) == CallsIn(s, order) + [Call(key, p)]
  {
  }

  /** The used slot with the smallest sequence number is the head of the queue. */
  lemma OldestIsHead<P>(s: seq<Slot<P>>, order: seq<nat>, next: nat, i: nat)
    requires Rep(s, order, next) && i < |s| && s[i].Used?
    requires forall j :: 0 <= j < |s| && s[j].Used? ==> s[i].age <= s[j].age
    ensures |order| > 0 && order[0] == i
  {
    var k :| 0 <= k < |order| && order[k] == i;
    assert s[order[0]].Used?;
  }

  ghost function Elements(order: seq<nat>): (r: set<nat>)
    ensures forall i :: i in r <==> i in order
    ensures (forall k, l :: 0 <= k < l < |order| ==> order[k] != order[l]) ==> |r| == |order|
  {
    if order == [] then {} else
      assert order == order[..|order| - 1] + [order[|order| - 1]];
      Elements(order[..|order| - 1]) + {order[|order| - 1]}
  }

  ghost function Below(n: nat): (r: set<nat>)
    ensures |r| == n && forall i :: i in r <==> 0 <= i < n
  {
    if n == 0 then {} else Below(n - 1) + {n - 1}
  }

  lemma SubsetCount(a: set<nat>, b: set<nat>)
    requires a <= b
    ensures |a| <= |b| && (|a| == |b| ==> a == b)
  {
    assert b == a + (b - a);
  }

  lemma CountUsed(order: seq<nat>, n: nat)
    requires forall k, l :: 0 <= k < l < |order| ==> order[k] != order[l]
    requires forall i :: i in order ==> i < n
    ensures |order| <= n && (|order| == n <==> forall i :: 0 <= i < n ==> i in order)
  {
    SubsetCount(Elements(order), Below(n));
    if forall i :: 0 <= i < n ==> i in order {
      assert Elements(order) == Below(n);
    }
    if |order| == n {
      assert forall i :: 0 <= i < n ==> i in Below(n);
    }
  }

  /** No slot is free exactly when 64 calls pend. */
  lemma FullIff<P>(s: seq<Slot<P>>, order: seq<nat>, next: nat)
    requires Rep(s, order, next)
    ensures |order| <= PENDING_MAX
    ensures (forall i :: 0 <= i < |s| ==> s[i].Used?) <==> |order| == PENDING_MAX
  {
    forall k, l | 0 <= k < l < |order| ensures order[k] != order[l] {
      assert s[order[k]].age < s[order[l]].age;
    }
    CountUsed(order, |s|);
    forall i | 0 <= i < |s| && i in order ensures s[i].Used? {
      var k :| 0 <= k < |order| && order[k] == i;
    }
  }

  /** The slot in which `key` pends, or 64 if it does not. */
  ghost function SlotOf<P>(s: seq<Slot<P>>, order: seq<nat>, key: Key): nat
    requires forall k :: 0 <= k < |order| ==> order[k] < |s| && s[order[k]].Used?
  {
    var k := IndexOf(CallsIn(s, order), key);
    if k < |order| then order[k] else |s|
  }

  lemma SlotFound<P>(s: seq<Slot<P>>, order: seq<nat>, next: nat, key: Key, i: nat)
    requires Rep(s, order, next) && Distinct(CallsIn(s, order)) && i < |s|
    ensures s[i].Used? && s[i].key == key <==> i == SlotOf(s, order, key)
  {
    var calls := CallsIn(s, order);
    if s[i].Used? && s[i].key == key {
      var k :| 0 <= k < |order| && order[k] == i;
      assert calls[k].key == key;
    }
  }

  lemma NotFound<P>(s: seq<Slot<P>>, order: seq<nat>, next: nat, key: Key)
    requires Rep(s, order, next) && forall j :: 0 <= j < |s| ==> !(s[j].Used? && s[j].key == key)
    ensures IndexOf(CallsIn(s, order), key) == |order|
  {
    assert forall k :: 0 <= k < |order| ==> CallsIn(s, order)[k].key == s[order[k]].key;
  }

  /** What a scan of the first `i` slots has found: the first free one and the oldest used one, or -1. */
  ghost predicate Scanned<P>(s: seq<Slot<P>>, i: nat, slot: int, oldest: int) {
    && i <= |s| && -1 <= slot < i && -1 <= oldest < i
    && (if slot < 0 then forall j :: 0 <= j < i ==> s[j].Used? else s[slot].Free?)
    && OldestOf(s, i, oldest)
  }

  ghost predicate OldestOf<P>(s: seq<Slot<P>>, i: nat, oldest: int)
    requires i <= |s| && -1 <= oldest < i
  {
    if oldest < 0 then forall j :: 0 <= j < i ==> s[j].Free?
    else s[oldest].Used? && forall j :: 0 <= j < i && s[j].Used? ==> s[oldest].age <= s[j].age
  }

  lemma UsedIff<P>(s: seq<Slot<P>>, order: seq<nat>, next: nat)
    requires Rep(s, order, next)
    ensures order != [] <==> exists j :: 0 <= j < |s| && s[j].Used?
  {
    if order != [] {
      assert s[order[0]].Used?;
    }
  }

  /** The table with the call pending under `key`, if any, given up as superseded. */
  ghost function Supersede<P, V>(t: Table<P, V>, key: Key): Table<P, V> {
    var k := IndexOf(t.calls, key);
    if k < |t.calls| then Table(Without(t.calls, k), t.log + [Unfinished(t.calls[k].payload, Superseded)]) else t
  }

  lemma SupersedeOnce<P, V>(t: Table<P, V>, key: Key)
    requires Distinct(t.calls)
    ensures IndexOf(Supersede(t, key).calls, key) == |Supersede(t, key).calls|
    ensures forall k :: 0 <= k < |Supersede(t, key).calls| ==> Supersede(t, key).calls[k].key != key
  {
    var k, t' := IndexOf(t.calls, key), Supersede(t, key);
    if k < |t.calls| {
      forall l | 0 <= l < |t'.calls| ensures t'.calls[l] == t.calls[if l < k then l else l + 1] {}
    }
  }

  /** An entry: first a call still pending under the key goes, then the oldest one if there is no room. */
  lemma EntrySteps<P, V>(t: Table<P, V>, key: Key, p: P)
    requires |t.calls| <= PENDING_MAX
    ensures var s := Supersede(t, key);
            OnEntry(t, key, p)
            == if |s.calls| >= PENDING_MAX
               then Table(s.calls[1..] + [Call(key, p)], s.log + [Unfinished(s.calls[0].payload, Evicted)])
               else Table(s.calls + [Call(key, p)], s.log)
  {
  }

  /** One more call written: the log and the queue split at the next place. */
  lemma Unqueue<P, V>(calls: seq<Call<P>>, done: nat, log: seq<Line<P, V>>)
    requires done < |calls|
    ensures Without(calls[done..], 0) == calls[done + 1..] && calls[done..][0] == calls[done]
    ensures log + Abandon(calls[..done], Shutdown) + [Unfinished(calls[done].payload, Shutdown)]
         == log + Abandon(calls[..done + 1], Shutdown)
  {
    assert Abandon<P, V>(calls[..done + 1], Shutdown)
        == Abandon(calls[..done], Shutdown) + [Unfinished(calls[done].payload, Shutdown)];
  }

  class Slots<P, V> {
    const pairing: bool
    const slots: array<Slot<P>>
    var next: nat
    var log: seq<Line<P, V>>
    ghost var order: seq<nat>

    ghost predicate Valid()
      reads this, slots
    {
      Rep(slots[..], order, next) && Distinct(CallsIn(slots[..], order))
    }

    ghost function Abs(): Table<P, V>
      requires Valid()
      reads this, slots
    {
      Table(CallsIn(slots[..], order), log)
    }

    constructor (pairing: bool)
      ensures Valid() && fresh(slots) && this.pairing == pairing && Abs() == Table([], [])
    {
      this.pairing := pairing;
      slots := new Slot<P>[PENDING_MAX](_ => Free);
      next, log, order := 0, [], [];
    }

    method WriteUnfinished(i: nat, why: Why, ghost k: nat)
      requires Valid() && k < |order| && order[k] == i
      modifies this`log, this`order, slots
      ensures Valid() && slots[..] == old(slots[..])[i := Free] && order == Without(old(order), k)
      ensures Abs().calls == Without(old(Abs()).calls, k)
      ensures log == old(log) + [Unfinished(old(Abs()).calls[k].payload, why)]
    {
      FreeRep(slots[..], order, next, k);
      FreeCalls(slots[..], order, next, k);
      log := log + [Unfinished(slots[i].payload, why)];
      slots[i] := Free;
      order := Without(order, k);
    }

    /** Fills a free slot with the newest call. */
    method Store(slot: nat, key: Key, p: P)
      requires Valid() && slot < slots.Length && slots[slot].Free?
      requires forall k :: 0 <= k < |Abs().calls| ==> Abs().calls[k].key != key
      modifies this`next, this`order, slots
      ensures Valid() && Abs() == Table(old(Abs()).calls + [Call(key, p)], log)
    {
      UseRep(slots[..], order, next, slot, key, p);
      ghost var calls := Abs().calls;
      slots[slot] := Used(next, key, p);
      order := order + [slot];
      next := next + 1;
      assert CallsIn(slots[..], order) == calls + [Call(key, p)];
    }

    /** One slot of the scan in vmi_handle_entry(). */
    method Visit(i: nat, key: Key, slot: int, oldest: int) returns (slot': int, oldest': int)
      requires Valid() && i < slots.Length && Scanned(slots[..], i, slot, oldest)
      modifies this`log, this`order, slots
      ensures Valid() && Scanned(slots[..], i + 1, slot', oldest')
      ensures if i == old(SlotOf(slots[..], order, key)) then Abs() == Supersede(old(Abs()), key)
              else slots[..] == old(slots[..]) && order == old(order) && log == old(log)
    {
      SlotFound(slots[..], order, next, key, i);
      if slots[i].Used? && slots[i].key == key {
        WriteUnfinished(i, Superseded, IndexOf(Abs().calls, key));
      }
      slot', oldest' := slot, oldest;
      if slots[i].Free? {
        slot' := if slot < 0 then i else slot;
      } else if oldest < 0 || slots[i].age < slots[oldest].age {
        oldest' := i;
      }
    }

    /** The scan: retires a call still pending under the key, and finds a free slot and the oldest call. */
    method Scan(key: Key) returns (slot: int, oldest: int)
      requires Valid()
      modifies this`log, this`order, slots
      ensures Valid() && Scanned(slots[..], |slots[..]|, slot, oldest) && Abs() == Supersede(old(Abs()), key)
    {
      slot, oldest := -1, -1;
      var i := 0;
      while i < slots.Length
        invariant i <= slots.Length && Valid() && Scanned(slots[..], i, slot, oldest)
        invariant Abs() == Supersede(old(Abs()), key)
                  || (Abs() == old(Abs()) && i <= SlotOf(slots[..], order, key))
      {
        SupersedeOnce(old(Abs()), key);
        slot, oldest := Visit(i, key, slot, oldest);
        i := i + 1;
      }
    }

    /** vmi_handle_entry(): written at once, or held until the return if return capture is on. */
    method HandleEntry(key: Key, p: P)
      requires Valid()
      modifies this, slots
      ensures Valid() && Abs() == OnHit(pairing, old(Abs()), Entry(key, p))
    {
      if pairing {
        HoldEntry(key, p);
      } else {
        log := log + [Plain(p)];
      }
    }

    /** The hook dispatch at the end of vmi_monitor_breakpoint_hit(). */
    method HandleHit(h: Hook<P, V>)
      requires Valid()
      modifies this, slots
      ensures Valid() && Abs() == OnHit(pairing, old(Abs()), h)
    {
      match h {
        case Return(key, ret) => HandleReturn(key, ret);
        case Entry(key, p) => HandleEntry(key, p);
      }
    }

    /** The table is full: the oldest call is given up and its slot is free. */
    method EvictOldest(oldest: int)
      requires Valid() && Scanned(slots[..], |slots[..]|, -1, oldest)
      modifies this`log, this`order, slots
      ensures Valid() && 0 <= oldest < slots.Length && slots[oldest].Free? && old(Abs()).calls != []
      ensures Abs() == Table(old(Abs()).calls[1..], old(log) + [Unfinished(old(Abs()).calls[0].payload, Evicted)])
    {
      assert slots[..][0].Used?;
      OldestIsHead(slots[..], order, next, oldest);
      ghost var calls := Abs().calls;
      WriteUnfinished(oldest, Evicted, 0);
      assert Without(calls, 0) == calls[1..];
    }

    method HoldEntry(key: Key, p: P)
      requires Valid()
      modifies this, slots
      ensures Valid() && Abs() == OnEntry(old(Abs()), key, p)
    {
      FullIff(slots[..], order, next);
      EntrySteps(Abs(), key, p);
      var slot, oldest := Scan(key);
      FullIff(slots[..], order, next);
      SupersedeOnce(old(Abs()), key);
      if slot < 0 {
        EvictOldest(oldest);
        slot := oldest;
      }
      Store(slot, key, p);
    }

    method FindOldest() returns (oldest: int)
      ensures -1 <= oldest < slots.Length && OldestOf(slots[..], |slots[..]|, oldest)
    {
      oldest := -1;
      var i := 0;
      while i < slots.Length
        invariant i <= slots.Length && -1 <= oldest < i && OldestOf(slots[..], i, oldest)
      {
        if slots[i].Used? && (oldest < 0 || slots[i].age < slots[oldest].age) {
          oldest := i;
        }
        i := i + 1;
      }
    }

    /** vmi_flush_pending(): oldest first until nothing pends. */
    method FlushPending()
      requires Valid()
      modifies this`log, this`order, slots
      ensures Valid() && Abs() == Flush(old(Abs()))
    {
      ghost var calls := Abs().calls;
      ghost var done := 0;
      var oldest := FindOldest();
      while oldest >= 0
        invariant Valid() && done <= |calls| && Abs().calls == calls[done..]
        invariant log == old(log) + Abandon(calls[..done], Shutdown)
        invariant -1 <= oldest < slots.Length && OldestOf(slots[..], |slots[..]|, oldest)
        decreases |calls| - done
      {
        OldestIsHead(slots[..], order, next, oldest);
        WriteUnfinished(oldest, Shutdown, 0);
        Unqueue(calls, done, old(log));
        done := done + 1;
        oldest := FindOldest();
      }
      UsedIff(slots[..], order, next);
      assert calls[..done] == calls;
    }

    method WriteReturned(i: nat, ret: V, ghost k: nat)
      requires Valid() && k < |order| && order[k] == i
      modifies this`log, this`order, slots
      ensures Valid() && Abs().calls == Without(old(Abs()).calls, k)
      ensures log == old(log) + [Returned(old(Abs()).calls[k].payload, ret)]
    {
      FreeRep(slots[..], order, next, k);
      FreeCalls(slots[..], order, next, k);
      log := log + [Returned(slots[i].payload, ret)];
      slots[i] := Free;
      order := Without(order, k);
    }

    /** vmi_handle_return(): the call pending under the key is written with its result; a return nobody waits
        for is not logged. */
    method HandleReturn(key: Key, ret: V)
      requires Valid()
      modifies this`log, this`order, slots
      ensures Valid() && Abs() == OnReturn(old(Abs()), key, ret)
    {
      var i := 0;
      while i < slots.Length && !(slots[i].Used? && slots[i].key == key)
        invariant i <= slots.Length
        invariant forall j :: 0 <= j < i ==> !(slots[j].Used? && slots[j].key == key)
      {
        i := i + 1;
      }
      ghost var at := IndexOf(Abs().calls, key);
      if i < slots.Length {
        SlotFound(slots[..], order, next, key, i);
        WriteReturned(i, ret, at);
      } else {
        NotFound(slots[..], order, next, key);
      }
    }
  }
}
