/** What the breakpoint list looks like while the monitor is live, for any number of vCPUs. */
module SharedList {
  import opened Options
  import opened Kvm
  import opened Monitor
  import opened Machine
  import FwCfg

  ghost predicate SteppingOver(c: Core, h: Addr) {
    exists v :: 0 <= v < |c.dbg| && c.dbg[v].stepping && c.dbg[v].stepAddr == h
  }

  /** Each hook is either planted with exactly one user, or lifted by the one vCPU stepping over it. */
  ghost predicate Live(c: Core) {
    forall h :: h in c.cfg.Hooks() ==>
      && (h in c.kvm.bps <==> !SteppingOver(c, h))
      && (h in c.kvm.bps ==> Planted(c.kvm, h) && c.kvm.bps[h].uses == 1)
  }

  /** Handlers reach memory, and DMA leaves the hooks alone: the situation after the one-shot kernel load. */
  ghost predicate Quiet<R>(vm: Vm<R>, e: Event) {
    && (e.Handle? ==> e.mapped)
    && (e.Dma? && CanRun(vm, e.v) ==> forall h :: h in vm.core.cfg.Hooks() ==> LandsAt(vm, e, h) == None)
  }

  ghost predicate QuietRun<R>(g: Guest<R>, vm: Vm<R>, es: seq<Event>) {
    es != [] ==> QuietRun(g, vm, es[..|es| - 1]) && Quiet(Exec(g, vm, es[..|es| - 1]), es[|es| - 1])
  }

  lemma RamLive(c: Core, m: Ram)
    requires ListOk(c) && Live(c) && SameOn(c.kvm.ram, m, c.cfg.Hooks())
    ensures Live(c.(kvm := c.kvm.(ram := m)))
  {
    forall h | h in c.cfg.Hooks() ensures SteppingOver(c, h) <==> SteppingOver(c.(kvm := c.kvm.(ram := m)), h) {}
  }

  lemma HitLive<R>(g: Guest<R>, vm: Vm<R>, v: nat)
    requires Inv(g, vm) && Live(vm.core) && CanHandle(vm, v)
    requires vm.cpus[v].exit.AtHook? && vm.cpus[v].exit.pc in vm.core.kvm.bps
    ensures Live(HandleExit(g, vm, v, true).core)
  {
    var c, c', pc := vm.core, HandleExit(g, vm, v, true).core, vm.cpus[v].exit.pc;
    assert CpuOk(g, vm, v);
    RemoveEffect(c.kvm, pc, true);
    forall h | h in c.cfg.Hooks() ensures SteppingOver(c', h) <==> SteppingOver(c, h) || h == pc {
      assert c'.dbg[v].stepping && c'.dbg[v].stepAddr == pc;
      if SteppingOver(c, h) {
        var w :| 0 <= w < |c.dbg| && c.dbg[w].stepping && c.dbg[w].stepAddr == h;
        assert c'.dbg[w] == c.dbg[w];
      }
    }
  }

  lemma StepDoneLive<R>(g: Guest<R>, vm: Vm<R>, v: nat)
    requires Inv(g, vm) && Live(vm.core) && CanHandle(vm, v) && vm.cpus[v].exit.Stepped?
    ensures Live(HandleExit(g, vm, v, true).core)
  {
    var c, c', at := vm.core, HandleExit(g, vm, v, true).core, vm.core.dbg[v].stepAddr;
    assert CpuOk(g, vm, v);
    forall h | h in c.cfg.Hooks() ensures SteppingOver(c', h) <==> SteppingOver(c, h) && h != at {
      if SteppingOver(c, h) && h != at {
        var w :| 0 <= w < |c.dbg| && c.dbg[w].stepping && c.dbg[w].stepAddr == h;
        assert c'.dbg[w] == c.dbg[w];
      }
      if SteppingOver(c', h) {
        var w :| 0 <= w < |c'.dbg| && c'.dbg[w].stepping && c'.dbg[w].stepAddr == h;
        assert c.dbg[w] == c'.dbg[w] && w != v;
      }
    }
  }

  lemma HandleLive<R(!new)>(g: Guest<R>, vm: Vm<R>, v: nat)
    requires Inv(g, vm) && CodeOnly(g, vm.core.cfg.Hooks()) && Live(vm.core) && CanHandle(vm, v)
    ensures Live(HandleExit(g, vm, v, true).core)
  {
    assert CpuOk(g, vm, v);
    if vm.cpus[v].exit.Stepped? {
      StepDoneLive(g, vm, v);
    } else if vm.cpus[v].exit.pc in vm.core.kvm.bps {
      HitLive(g, vm, v);
    } else {
      var m := g.inject(vm.cpus[v].regs, vm.core.kvm.ram).1;
      assert SameOn(vm.core.kvm.ram, m, vm.core.cfg.Hooks());
      RamLive(vm.core, m);
    }
  }

  /** Re-arming live hooks keeps them live: it can only happen before the first hit. */
  lemma RearmKeepsLive<R>(g: Guest<R>, vm: Vm<R>, mapped: bool, c: Core)
    requires Inv(g, vm) && Live(vm.core) && vm.core.cfg.enabled && !vm.core.firstHit
    requires c.cfg == vm.core.cfg && c.dbg == vm.core.dbg
    requires c.kvm == vm.core.kvm || c.kvm == ArmOnce(vm.core.cfg, vm.core.kvm, mapped).0
    ensures Live(c)
  {
    ArmOnceEffect(vm.core.cfg, vm.core.kvm, mapped);
    forall v | 0 <= v < |vm.core.dbg| ensures !vm.core.dbg[v].stepping {
      assert CpuOk(g, vm, v);
    }
    if mapped && c.kvm != vm.core.kvm {
      ArmedIsLive(vm.core, c);
    }
  }

  lemma FlagsLive(c: Core, c': Core)
    requires Live(c) && c'.cfg == c.cfg && c'.dbg == c.dbg && c'.kvm == c.kvm
    ensures Live(c')
  {
    forall h | h in c.cfg.Hooks() ensures SteppingOver(c, h) <==> SteppingOver(c', h) {}
  }

  lemma TimerLive<R>(g: Guest<R>, vm: Vm<R>, e: Event)
    requires Inv(g, vm) && Live(vm.core) && (e.Tick? || e.Resume?)
    ensures Live(Step(g, vm, e).core)
  {
    var c := Step(g, vm, e).core;
    if c.kvm == vm.core.kvm {
      FlagsLive(vm.core, c);
    } else {
      RearmKeepsLive(g, vm, e.mapped, c);
    }
  }

  lemma DmaLive<R>(g: Guest<R>, vm: Vm<R>, e: Event)
    requires Inv(g, vm) && Live(vm.core) && e.Dma? && CanRun(vm, e.v) && Quiet(vm, e)
    ensures Live(ServeDma(vm, e.req, e.fault, e.mapped).core)
  {
    var t := FwCfg.Transfer(vm.fw, vm.core.kvm.ram, e.req, e.fault);
    forall h | h in vm.core.cfg.Hooks() ensures t.ram[h] == vm.core.kvm.ram[h] {
      FwCfg.TransferAt(vm.fw, vm.core.kvm.ram, e.req, e.fault, h);
      assert LandsAt(vm, e, h) == None;
    }
    RamLive(vm.core, t.ram);
    RamInv(vm.core, t.ram);
    var mid := vm.(core := vm.core.(kvm := vm.core.kvm.(ram := t.ram)));
    CarryCpus(g, vm, mid);
    var c := KernelLoaded(mid.core, e.mapped);
    if c.kvm == mid.core.kvm {
      FlagsLive(mid.core, c);
    } else {
      RearmKeepsLive(g, mid, e.mapped, c);
    }
  }

  lemma StepLive<R(!new)>(g: Guest<R>, vm: Vm<R>, e: Event)
    requires Inv(g, vm) && CodeOnly(g, vm.core.cfg.Hooks()) && Live(vm.core) && Quiet(vm, e)
    ensures Inv(g, Step(g, vm, e)) && Live(Step(g, vm, e).core)
  {
    StepInv(g, vm, e);
    match e
    case Run(v) =>
      if CanRun(vm, v) && !Traps(g, vm, v) {
        var m := g.step(vm.cpus[v].regs, vm.core.kvm.ram).1;
        assert SameOn(vm.core.kvm.ram, m, vm.core.cfg.Hooks());
        RamLive(vm.core, m);
      }
    case Handle(v, mapped) => if CanHandle(vm, v) { HandleLive(g, vm, v); }
    case Tick(_) => TimerLive(g, vm, e);
    case Resume(_) => TimerLive(g, vm, e);
    case Dma(v, req, fault, mapped) => if CanRun(vm, v) { DmaLive(g, vm, e); }
  }

  /** Once live, in every run and for any number of vCPUs: each hook is planted with a single user exactly
      when no vCPU is stepping over it, and at most one vCPU ever is (the latter is part of `Inv`). */
  lemma {:induction false} LiveForever<R(!new)>(g: Guest<R>, vm: Vm<R>, es: seq<Event>)
    requires Inv(g, vm) && CodeOnly(g, vm.core.cfg.Hooks()) && Live(vm.core) && QuietRun(g, vm, es)
    ensures var vm' := Exec(g, vm, es);
            Inv(g, vm') && Live(vm'.core) && vm'.core.cfg == vm.core.cfg
  {
    if es != [] {
      LiveForever(g, vm, es[..|es| - 1]);
      StepLive(g, Exec(g, vm, es[..|es| - 1]), es[|es| - 1]);
      CfgFixed(g, Exec(g, vm, es[..|es| - 1]), es[|es| - 1]);
    }
  }

  /** A successful arming before any hit, by boot-sync or by the poll timer, makes the hooks live. */
  lemma ArmedIsLive(c: Core, c': Core)
    requires ListOk(c) && c.cfg.enabled && !c.firstHit
    requires forall v :: 0 <= v < |c.dbg| ==> !c.dbg[v].stepping
    requires c'.cfg == c.cfg && c'.dbg == c.dbg && c'.kvm == ArmOnce(c.cfg, c.kvm, true).0
    ensures Live(c')
  {
    ArmOnceEffect(c.cfg, c.kvm, true);
  }

  /** The case the handler checks rather than assumes, a trap at a hook on a vCPU that is mid-step-over, is
      unreachable for any number of vCPUs; and so is handing the VM to a debugger. */
  lemma NoTrapWhileStepping<R(!new)>(g: Guest<R>, vm: Vm<R>, es: seq<Event>, v: nat)
    requires Init(vm) && CodeOnly(g, vm.core.cfg.Hooks()) && CleanRun(g, vm, es) && v < |vm.cpus|
    ensures var vm' := Exec(g, vm, es);
            && !vm'.stopped
            && |vm'.cpus| == |vm'.core.dbg| == |vm.cpus|
            && (vm'.core.dbg[v].stepping ==> !vm'.cpus[v].exit.AtHook?)
            && (vm'.core.dbg[v].stepping <==> vm'.core.dbg[v].singleStep)
  {
    RunKeepsInv(g, vm, es);
    assert CpuOk(g, Exec(g, vm, es), v);
  }

  /** With a second user on the hook, say a debugger's own breakpoint there, the step-over fails: removing
      only lowers the count, the vCPU re-traps while stepping, and the VM stops. The pass completes exactly
      when the monitor is the only user. */
  lemma PassIffSoleUser<R(!new)>(g: Guest<R>, vm: Vm<R>, v: nat)
    requires CodeOnly(g, vm.core.cfg.Hooks())
    requires CanHandle(vm, v) && !vm.core.dbg[v].stepping
    requires vm.cpus[v].exit == AtHook(g.pc(vm.cpus[v].regs)) && vm.cpus[v].exit.pc in vm.core.cfg.Hooks()
    requires Planted(vm.core.kvm, vm.cpus[v].exit.pc) && vm.core.kvm.bps[vm.cpus[v].exit.pc].saved != INT3
    requires vm.core.kvm.bps[vm.cpus[v].exit.pc].uses > 0
    ensures var end := Step(g, Step(g, Step(g, vm, Handle(v, true)), Run(v)), Handle(v, true));
            && (vm.core.kvm.bps[vm.cpus[v].exit.pc].uses == 1 <==> !end.stopped)
            && (!end.stopped ==> end.passes == vm.passes + 1 && !end.core.dbg[v].stepping
                                 && Planted(end.core.kvm, vm.cpus[v].exit.pc))
            && (end.stopped ==> end.core.dbg[v].stepping && end.cpus[v].regs == vm.cpus[v].regs)
  {
    var pc, regs := vm.cpus[v].exit.pc, vm.cpus[v].regs;
    var vm1 := Step(g, vm, Handle(v, true));
    assert vm1.core.dbg[v] == Dbg(true, pc, true);
    assert SameOn(vm1.core.kvm.ram, g.step(regs, vm1.core.kvm.ram).1, vm.core.cfg.Hooks());
    var vm2 := Step(g, vm1, Run(v));
    if vm.core.kvm.bps[pc].uses == 1 {
      RemoveEffect(vm.core.kvm, pc, true);
      assert vm2.cpus[v].exit == Stepped;
    } else {
      assert vm2.cpus[v].exit == AtHook(pc);
    }
  }

  /** When the trap byte cannot be lifted, the hit is logged and the vCPU traps on it again: guest and list are
      back where they were, and the only trace is a duplicate line. */
  lemma UnmappedHitRepeats<R>(g: Guest<R>, vm: Vm<R>, v: nat)
    requires Inv(g, vm) && CanHandle(vm, v) && vm.cpus[v].exit.AtHook? && Planted(vm.core.kvm, vm.cpus[v].exit.pc)
    ensures var end := Step(g, Step(g, vm, Handle(v, false)), Run(v));
            && end.cpus == vm.cpus && end.core.kvm == vm.core.kvm && end.core.dbg == vm.core.dbg
            && end.hits == vm.hits + [HitAt(v, vm.cpus[v].exit.pc, vm.cpus[v].regs)]
  {
    assert CpuOk(g, vm, v);
    RemoveEffect(vm.core.kvm, vm.cpus[v].exit.pc, false);
    assert vm.cpus[v := vm.cpus[v].(exit := NoExit)][v := vm.cpus[v]] == vm.cpus;
  }

  // ---------------------------------------------------------------- a re-insertion that fails

  /** The hook is off the list, nobody is about to plant it again, and arming is over. */
  ghost predicate Lifted(c: Core, h: Addr) {
    c.firstHit && h !in c.kvm.bps && !SteppingOver(c, h)
  }

  /** When the trap byte cannot be planted again after the step, the vCPU goes on with the hook lifted. */
  lemma UnmappedStepLifts<R>(g: Guest<R>, vm: Vm<R>, v: nat)
    requires Inv(g, vm) && CanHandle(vm, v) && vm.cpus[v].exit.Stepped?
    ensures var end := Step(g, vm, Handle(v, false));
            && Lifted(end.core, vm.core.dbg[v].stepAddr) && end.core.kvm == vm.core.kvm
            && end.cpus == vm.cpus[v := vm.cpus[v].(exit := NoExit)] && !end.core.dbg[v].stepping
  {
    assert CpuOk(g, vm, v);
  }

  lemma LiftedStep<R>(g: Guest<R>, vm: Vm<R>, e: Event, h: Addr)
    requires Inv(g, vm) && Lifted(vm.core, h)
    ensures Lifted(Step(g, vm, e).core, h)
    ensures var hits' := Step(g, vm, e).hits;
            hits' == vm.hits || exists x :: hits' == vm.hits + [x] && x.pc != h
  {
    if e.Handle? && CanHandle(vm, e.v) {
      assert CpuOk(g, vm, e.v);
      LiftedHandle(g, vm, e.v, e.mapped, h);
    } else {
      var c, c' := vm.core, Step(g, vm, e).core;
      forall w | 0 <= w < |c'.dbg| ensures c'.dbg[w] == c.dbg[w] {}
    }
  }

  lemma LiftedHandle<R>(g: Guest<R>, vm: Vm<R>, v: nat, mapped: bool, h: Addr)
    requires Inv(g, vm) && Lifted(vm.core, h) && CanHandle(vm, v)
    ensures Lifted(HandleExit(g, vm, v, mapped).core, h)
    ensures var hits' := HandleExit(g, vm, v, mapped).hits;
            hits' == vm.hits || exists x :: hits' == vm.hits + [x] && x.pc != h
  {
    assert CpuOk(g, vm, v);
    var c, c' := vm.core, HandleExit(g, vm, v, mapped).core;
    forall w | 0 <= w < |c'.dbg| ensures !(c'.dbg[w].stepping && c'.dbg[w].stepAddr == h) {
      assert w != v ==> c'.dbg[w] == c.dbg[w];
    }
  }

  /** Then the hook is lifted for good: in every run that follows, none of its arrivals is logged again. */
  lemma {:induction false} LiftedForGood<R(!new)>(g: Guest<R>, vm: Vm<R>, es: seq<Event>, h: Addr)
    requires Inv(g, vm) && CodeOnly(g, vm.core.cfg.Hooks()) && CleanRun(g, vm, es) && Lifted(vm.core, h)
    ensures var end := Exec(g, vm, es);
            && Inv(g, end) && Lifted(end.core, h) && end.core.cfg == vm.core.cfg && vm.hits <= end.hits
            && forall i :: |vm.hits| <= i < |end.hits| ==> end.hits[i].pc != h
  {
    if es != [] {
      var front, e := es[..|es| - 1], es[|es| - 1];
      LiftedForGood(g, vm, front, h);
      var s := Exec(g, vm, front);
      StepInv(g, s, e);
      CfgFixed(g, s, e);
      LiftedStep(g, s, e, h);
    }
  }
}
