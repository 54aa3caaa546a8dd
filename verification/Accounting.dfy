/** What a hook pass costs in exits. */
module Accounting {
  import opened Kvm
  import opened Monitor
  import opened Machine
  import ManyCpus

  /** How many vCPUs are mid-step-over. */
  function Stepping(dbg: seq<Dbg>): nat {
    if dbg == [] then 0 else Stepping(dbg[1..]) + if dbg[0].stepping then 1 else 0
  }

  lemma {:induction false} SteppingUpdate(dbg: seq<Dbg>, v: nat, d: Dbg)
    requires v < |dbg|
    ensures Stepping(dbg[v := d]) + (if dbg[v].stepping then 1 else 0)
         == Stepping(dbg) + (if d.stepping then 1 else 0)
  {
    if v == 0 {
      assert dbg[v := d][1..] == dbg[1..];
    } else {
      assert dbg[v := d][1..] == dbg[1..][v - 1 := d];
      SteppingUpdate(dbg[1..], v - 1, d);
    }
  }

  lemma {:induction false} NobodyStepping(dbg: seq<Dbg>)
    requires forall v :: 0 <= v < |dbg| ==> !dbg[v].stepping
    ensures Stepping(dbg) == 0
  {
    if dbg != [] {
      NobodyStepping(dbg[1..]);
    }
  }

  /** Two claimed exits per completed pass, one more for each vCPU still stepping and for each of `n` hits
      logged twice; and one logged hit per pass begun and per repetition. */
  ghost predicate Balanced<R>(vm: Vm<R>, n: nat) {
    && vm.consumed == 2 * vm.passes + Stepping(vm.core.dbg) + n
    && |vm.hits| == vm.passes + Stepping(vm.core.dbg) + n
  }

  /** How many hits were logged although their trap could not be lifted. */
  function Repetitions<R>(g: Guest<R>, vm: Vm<R>, es: seq<Event>): nat {
    |ManyCpus.Since(g, vm, es, 0).repeated|
  }

  /** Every handler call finds its memory mapped. */
  predicate Mapped(es: seq<Event>) {
    forall i :: 0 <= i < |es| && es[i].Handle? ==> es[i].mapped
  }

  lemma HandleBalance<R>(g: Guest<R>, vm: Vm<R>, v: nat, mapped: bool, n: nat)
    requires Inv(g, vm) && Balanced(vm, n) && CanHandle(vm, v)
    ensures Balanced(HandleExit(g, vm, v, mapped), n + if ManyCpus.Repeats(vm, Handle(v, mapped)) then 1 else 0)
  {
    assert CpuOk(g, vm, v);
    var d' := HandleExit(g, vm, v, mapped).core.dbg;
    if vm.cpus[v].exit.AtHook? && vm.cpus[v].exit.pc in vm.core.kvm.bps {
      RemoveEffect(vm.core.kvm, vm.cpus[v].exit.pc, mapped);
    }
    SteppingUpdate(vm.core.dbg, v, d'[v]);
    assert vm.core.dbg[v := vm.core.dbg[v]] == vm.core.dbg;
  }

  lemma OtherBalance<R>(g: Guest<R>, vm: Vm<R>, e: Event, n: nat)
    requires Balanced(vm, n) && (e.Handle? ==> !CanHandle(vm, e.v))
    ensures Balanced(Step(g, vm, e), n) && !ManyCpus.Repeats(vm, e)
  {
  }

  /** Exit accounting in every run, for any number of vCPUs and whatever the handlers can reach: exact up to the
      repetitions, and so without them if and only if there are none. */
  lemma {:induction false} ExitsBalance<R(!new)>(g: Guest<R>, vm: Vm<R>, es: seq<Event>)
    requires Init(vm) && CodeOnly(g, vm.core.cfg.Hooks()) && CleanRun(g, vm, es)
    ensures Balanced(Exec(g, vm, es), Repetitions(g, vm, es))
    ensures Balanced(Exec(g, vm, es), 0) <==> Repetitions(g, vm, es) == 0
  {
    if es == [] {
      NobodyStepping(vm.core.dbg);
    } else {
      var front, e := es[..|es| - 1], es[|es| - 1];
      ExitsBalance(g, vm, front);
      RunKeepsInv(g, vm, front);
      var s, n := Exec(g, vm, front), Repetitions(g, vm, front);
      RepetitionsNext(g, vm, es);
      if e.Handle? && CanHandle(s, e.v) {
        HandleBalance(g, s, e.v, e.mapped, n);
      } else {
        OtherBalance(g, s, e, n);
      }
    }
  }

  lemma RepetitionsNext<R>(g: Guest<R>, vm: Vm<R>, es: seq<Event>)
    requires es != []
    ensures var front := es[..|es| - 1];
            Repetitions(g, vm, es)
            == Repetitions(g, vm, front) + if ManyCpus.Repeats(Exec(g, vm, front), es[|es| - 1]) then 1 else 0
  {
  }

  /** A failed re-insertion does not matter to the balance, and with mapped memory nothing does. */
  lemma {:induction false} MappedBalance<R(!new)>(g: Guest<R>, vm: Vm<R>, es: seq<Event>)
    requires Init(vm) && CodeOnly(g, vm.core.cfg.Hooks()) && CleanRun(g, vm, es) && Mapped(es)
    ensures Balanced(Exec(g, vm, es), 0)
  {
    NoRepetitions(g, vm, es);
    ExitsBalance(g, vm, es);
  }

  lemma {:induction false} NoRepetitions<R>(g: Guest<R>, vm: Vm<R>, es: seq<Event>)
    requires Mapped(es)
    ensures Repetitions(g, vm, es) == 0
  {
    if es != [] {
      NoRepetitions(g, vm, es[..|es| - 1]);
      RepetitionsNext(g, vm, es);
    }
  }

  /** Logged hits at `h`. */
  function HitsAt<R>(hits: seq<HitAt<R>>, h: Addr): nat {
    if hits == [] then 0 else HitsAt(hits[..|hits| - 1], h) + if hits[|hits| - 1].pc == h then 1 else 0
  }

  lemma {:induction false} HitsSplit<R>(hits: seq<HitAt<R>>, a: Addr, b: Addr)
    requires a != b && forall i :: 0 <= i < |hits| ==> hits[i].pc == a || hits[i].pc == b
    ensures HitsAt(hits, a) + HitsAt(hits, b) == |hits|
  {
    if hits != [] {
      HitsSplit(hits[..|hits| - 1], a, b);
    }
  }

  lemma {:induction false} HitsAreHooks<R>(g: Guest<R>, vm: Vm<R>, es: seq<Event>)
    requires Init(vm)
    ensures forall i :: 0 <= i < |Exec(g, vm, es).hits| ==> Exec(g, vm, es).hits[i].pc in vm.core.cfg.Hooks()
    ensures Exec(g, vm, es).core.cfg == vm.core.cfg
  {
    if es != [] {
      HitsAreHooks(g, vm, es[..|es| - 1]);
      HitIsHook(g, Exec(g, vm, es[..|es| - 1]), es[|es| - 1]);
      CfgFixed(g, Exec(g, vm, es[..|es| - 1]), es[|es| - 1]);
    }
  }

  lemma HitIsHook<R>(g: Guest<R>, vm: Vm<R>, e: Event)
    ensures var hits' := Step(g, vm, e).hits;
            hits' == vm.hits
            || (|hits'| > 0 && hits'[..|hits'| - 1] == vm.hits && hits'[|hits'| - 1].pc in vm.core.cfg.Hooks())
  {
  }

  /** With the return hook on, `n` hits at each hook cost `4 * n` exits once idle, less one for each of them
      that is a repetition. */
  lemma FourExitsPerSyscall<R(!new)>(g: Guest<R>, vm: Vm<R>, es: seq<Event>, n: nat)
    requires Init(vm) && CodeOnly(g, vm.core.cfg.Hooks()) && CleanRun(g, vm, es)
    requires vm.core.cfg.enabled && vm.core.cfg.ret.Some?
    requires HitsAt(Exec(g, vm, es).hits, vm.core.cfg.entry) == n == HitsAt(Exec(g, vm, es).hits, vm.core.cfg.ret.value)
    requires Stepping(Exec(g, vm, es).core.dbg) == 0
    ensures Exec(g, vm, es).consumed + Repetitions(g, vm, es) == 4 * n
    ensures Mapped(es) ==> Exec(g, vm, es).consumed == 4 * n
  {
    ExitsBalance(g, vm, es);
    HitsAreHooks(g, vm, es);
    HitsSplit(Exec(g, vm, es).hits, vm.core.cfg.entry, vm.core.cfg.ret.value);
    if Mapped(es) {
      NoRepetitions(g, vm, es);
    }
  }
}
