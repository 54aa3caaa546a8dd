/** KVM's software breakpoints over guest memory: the reference-counted list shared by every vCPU and
    every user, and the two primitives that patch and restore code bytes. */
module Kvm {
  import opened Basic

  type Addr = nat

  const INT3: Byte := 0xcc

  /** One list node: the byte found when the breakpoint was planted, and its number of users. */
  datatype Bp = Bp(saved: Byte, uses: nat)

  /** Guest RAM together with the breakpoint list. */
  datatype State = State(ram: seq<Byte>, bps: map<Addr, Bp>)

  /** A debug access succeeds when translation is established and the address is backed by RAM. */
  predicate Reachable(k: State, a: Addr, mapped: bool) {
    mapped && a < |k.ram|
  }

  function Insert(k: State, a: Addr, mapped: bool): (State, bool) {
    if a in k.bps then
      // Already registered: only the user count moves, guest memory is not touched.
      (k.(bps := k.bps[a := k.bps[a].(uses := k.bps[a].uses + 1)]), true)
    else if !Reachable(k, a, mapped) then
      (k, false)
    else
      (State(k.ram[a := INT3], k.bps[a := Bp(k.ram[a], 1)]), true)
  }

  function Remove(k: State, a: Addr, mapped: bool): (State, bool) {
    if a !in k.bps then
      (k, false)
    else if k.bps[a].uses > 1 then
      (k.(bps := k.bps[a := k.bps[a].(uses := k.bps[a].uses - 1)]), true)
    else if !Reachable(k, a, mapped) then
      (k, false)
    else if k.ram[a] != INT3 then
      // Somebody overwrote the trap byte: deregister without writing.
      (k.(bps := k.bps - {a}), true)
    else
      (State(k.ram[a := k.bps[a].saved], k.bps - {a}), true)
  }

  /** The trap byte is in memory and the list knows about it. */
  predicate Planted(k: State, a: Addr) {
    a in k.bps && a < |k.ram| && k.ram[a] == INT3
  }

  /** The byte the guest should find at `a`: planted trap bytes read as what they replaced. */
  function ViewByte(k: State, a: Addr): Byte
    requires a < |k.ram|
  {
    if Planted(k, a) then k.bps[a].saved else k.ram[a]
  }

  function View(k: State): (m: seq<Byte>)
    ensures |m| == |k.ram|
  {
    seq(|k.ram|, a requires 0 <= a < |k.ram| => ViewByte(k, a))
  }

  /** Every list node has exactly one user, and that user is the monitor. */
  predicate SoleUser(k: State, hooks: set<Addr>) {
    forall a :: a in k.bps ==> a in hooks && a < |k.ram| && k.bps[a].uses == 1
  }

  /** Taking a sole user's breakpoint out puts back the viewed byte and nothing else. */
  lemma RemoveEffect(k: State, a: Addr, mapped: bool)
    requires a in k.bps && a < |k.ram| && k.bps[a].uses == 1
    ensures !mapped ==> Remove(k, a, mapped) == (k, false)
    ensures mapped ==> Remove(k, a, mapped) == (State(k.ram[a := ViewByte(k, a)], k.bps - {a}), true)
  {
    assert k.ram[a := k.ram[a]] == k.ram;
  }

  /** Planting: the byte is saved and 0xcc takes its place; a registered address only gains a user. */
  lemma InsertEffect(k: State, a: Addr, mapped: bool)
    ensures var (k', ok) := Insert(k, a, mapped);
            && ok == (a in k.bps || (mapped && a < |k.ram|))
            && (!ok ==> k' == k)
            && (a in k.bps ==> k' == State(k.ram, k.bps[a := Bp(k.bps[a].saved, k.bps[a].uses + 1)]))
            && (ok && a !in k.bps ==> k' == State(k.ram[a := 0xcc], k.bps[a := Bp(k.ram[a], 1)]))
  {
  }

  /** Removing undoes inserting, for the first user and for any later one: memory and list are as before. */
  lemma RemoveUndoesInsert(k: State, a: Addr, mapped: bool)
    requires Insert(k, a, mapped).1 && (a in k.bps ==> k.bps[a].uses > 0)
    ensures Remove(Insert(k, a, mapped).0, a, mapped) == (k, true)
  {
    var k' := Insert(k, a, mapped).0;
    if a in k.bps {
      assert k.bps[a := k.bps[a]] == k.bps;
      assert k'.bps[a := k.bps[a]] == k.bps;
    } else {
      assert k'.bps - {a} == k.bps && k.ram[a := INT3][a := k.ram[a]] == k.ram;
    }
  }

  /** Nothing to take out. */
  lemma RemoveAbsent(k: State, a: Addr, mapped: bool)
    requires a !in k.bps
    ensures Remove(k, a, mapped) == (k, false)
  {
  }

  /** Lifting with several users takes one of them off and leaves the trap in memory. */
  lemma RemoveShared(k: State, a: Addr, mapped: bool)
    requires a in k.bps && k.bps[a].uses > 1
    ensures Remove(k, a, mapped) == (State(k.ram, k.bps[a := Bp(k.bps[a].saved, k.bps[a].uses - 1)]), true)
  {
  }

  /** An outside write of `w` over a hook is what the guest sees, unless the write looks like the trap
      byte that is already registered there: that is the whole failing family. */
  lemma OverwriteSeen(k: State, a: Addr, w: Byte)
    requires a < |k.ram|
    ensures ViewByte(k.(ram := k.ram[a := w]), a) == w
       <==> w != INT3 || a !in k.bps || k.bps[a].saved == INT3
  {
  }
}
