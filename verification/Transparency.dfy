/** The guest cannot tell it is watched: the monitored machine simulates the bare one. */
module Transparency {
  import opened Options
  import opened Kvm
  import opened Monitor
  import opened Machine
  import FwCfg

  /** The machine without a monitor. `arrivals` is the history of instructions executed at the hooks. */
  datatype Bare<R> = Bare(ram: Ram, regs: seq<R>, fw: FwCfg.Device, arrivals: seq<HitAt<R>>)

  datatype BareEvent = Instr(v: nat) | Request(req: FwCfg.Request, fault: FwCfg.Fault)

  function BareStep<R>(g: Guest<R>, hooks: set<Addr>, u: Bare<R>, e: BareEvent): Bare<R> {
    match e
    case Instr(v) =>
      if v >= |u.regs| then u
      else
        var r := u.regs[v];
        var (r', m) := g.step(r, u.ram);
        u.(ram := m, regs := u.regs[v := r'],
           arrivals := if g.pc(r) in hooks then u.arrivals + [HitAt(v, g.pc(r), r)] else u.arrivals)
    case Request(req, fault) =>
      var t := FwCfg.Transfer(u.fw, u.ram, req, fault);
      u.(ram := t.ram, fw := t.dev)
  }

  function BareExec<R>(g: Guest<R>, hooks: set<Addr>, u: Bare<R>, es: seq<BareEvent>): Bare<R> {
    if es == [] then u else BareStep(g, hooks, BareExec(g, hooks, u, es[..|es| - 1]), es[|es| - 1])
  }

  /** The bare event a monitored step stands for, if it is not pure handler work. */
  function Shadow<R>(g: Guest<R>, vm: Vm<R>, e: Event): seq<BareEvent> {
    match e
    case Run(v) => if CanRun(vm, v) && !Traps(g, vm, v) then [Instr(v)] else []
    case Dma(v, req, fault, _) => if CanRun(vm, v) then [Request(req, fault)] else []
    case _ => []
  }

  /** Erase the handler steps of a run. */
  function Erase<R>(g: Guest<R>, vm: Vm<R>, es: seq<Event>): seq<BareEvent> {
    if es == [] then []
    else Erase(g, vm, es[..|es| - 1]) + Shadow(g, Exec(g, vm, es[..|es| - 1]), es[|es| - 1])
  }

  function Unmonitored<R>(vm: Vm<R>): Bare<R> {
    Bare(vm.core.kvm.ram, seq(|vm.cpus|, v requires 0 <= v < |vm.cpus| => vm.cpus[v].regs), vm.fw, [])
  }

  /** Same registers on every vCPU, same device, and the same RAM once planted bytes are read as saved. */
  ghost predicate Sim<R>(vm: Vm<R>, u: Bare<R>) {
    && View(vm.core.kvm) == u.ram
    && vm.fw == u.fw
    && |u.regs| == |vm.cpus|
    && forall v :: 0 <= v < |vm.cpus| ==> u.regs[v] == vm.cpus[v].regs
  }

  /** The run without a monitor that the monitored run corresponds to. */
  function Ghostly<R>(g: Guest<R>, vm: Vm<R>, es: seq<Event>): Bare<R> {
    BareExec(g, vm.core.cfg.Hooks(), Unmonitored(vm), Erase(g, vm, es))
  }

  /** The bare machine after the step. */
  function After<R>(g: Guest<R>, vm: Vm<R>, u: Bare<R>, e: Event): Bare<R> {
    var s := Shadow(g, vm, e);
    if s == [] then u else BareStep(g, vm.core.cfg.Hooks(), u, s[0])
  }

  lemma GhostlyStep<R>(g: Guest<R>, vm: Vm<R>, es: seq<Event>)
    requires es != []
    ensures var s, u := Exec(g, vm, es[..|es| - 1]), Ghostly(g, vm, es[..|es| - 1]);
            s.core.cfg == vm.core.cfg ==> Ghostly(g, vm, es) == After(g, s, u, es[|es| - 1])
  {
    var front := es[..|es| - 1];
    var s := Shadow(g, Exec(g, vm, front), es[|es| - 1]);
    if s == [] {
      assert Erase(g, vm, es) == Erase(g, vm, front);
    } else {
      assert Erase(g, vm, es) == Erase(g, vm, front) + [s[0]];
      assert Erase(g, vm, es)[..|Erase(g, vm, es)| - 1] == Erase(g, vm, front);
    }
  }

  // ---------------------------------------------------------------- one step

  /** The instruction runs identically on patched RAM and on the RAM the guest should see. */
  lemma InstrSim<R(!new)>(g: Guest<R>, vm: Vm<R>, u: Bare<R>, v: nat)
    requires Inv(g, vm) && CodeOnly(g, vm.core.cfg.Hooks()) && Sim(vm, u)
    requires CanRun(vm, v) && !Traps(g, vm, v)
    ensures Sim(RunCpu(g, vm, v), BareStep(g, vm.core.cfg.Hooks(), u, Instr(v)))
  {
    var r, hooks, k := vm.cpus[v].regs, vm.core.cfg.Hooks(), vm.core.kvm;
    assert SameOff(k.ram, u.ram, hooks - {g.pc(r)}) by {
      forall a | 0 <= a < |k.ram| && a !in hooks - {g.pc(r)} ensures k.ram[a] == View(k)[a] {}
    }
    var m, n := g.step(r, k.ram).1, g.step(r, u.ram).1;
    assert SameOff(m, n, hooks) && SameOn(k.ram, m, hooks) && SameOn(u.ram, n, hooks);
    var k' := k.(ram := m);
    forall a | 0 <= a < |m| ensures View(k')[a] == n[a] {
      if a in hooks {
        assert View(k')[a] == View(k)[a];
      }
    }
  }

  /** The copy loop leaves the same bytes in the view as in bare RAM. */
  lemma CopySim<R>(g: Guest<R>, vm: Vm<R>, u: Bare<R>, e: Event)
    requires Inv(g, vm) && Sim(vm, u) && e.Dma? && CanRun(vm, e.v) && CleanDma(vm, e)
    ensures var k' := vm.core.kvm.(ram := FwCfg.Transfer(vm.fw, vm.core.kvm.ram, e.req, e.fault).ram);
            View(k') == FwCfg.Transfer(u.fw, u.ram, e.req, e.fault).ram
  {
    var k := vm.core.kvm;
    var k' := k.(ram := FwCfg.Transfer(vm.fw, k.ram, e.req, e.fault).ram);
    forall a | 0 <= a < |k.ram| ensures View(k')[a] == FwCfg.Transfer(u.fw, u.ram, e.req, e.fault).ram[a] {
      FwCfg.TransferAt(vm.fw, k.ram, e.req, e.fault, a);
      FwCfg.TransferAt(vm.fw, u.ram, e.req, e.fault, a);
      if a in vm.core.cfg.Hooks() {
        assert LandsAt(vm, e, a) != Some(INT3);
      }
      assert View(k)[a] == u.ram[a];
    }
  }

  lemma DmaSim<R>(g: Guest<R>, vm: Vm<R>, u: Bare<R>, e: Event)
    requires Inv(g, vm) && Sim(vm, u) && e.Dma? && CanRun(vm, e.v) && CleanDma(vm, e)
    ensures Sim(ServeDma(vm, e.req, e.fault, e.mapped), BareStep(g, vm.core.cfg.Hooks(), u, Request(e.req, e.fault)))
  {
    CopySim(g, vm, u, e);
    FwCfg.TransferBlind(vm.fw, vm.core.kvm.ram, u.ram, e.req, e.fault);
    var t := FwCfg.Transfer(vm.fw, vm.core.kvm.ram, e.req, e.fault);
    var c := vm.core.(kvm := vm.core.kvm.(ram := t.ram));
    if KernelLoaded(c, e.mapped).kvm != c.kvm {
      ArmOnceEffect(c.cfg, c.kvm, e.mapped);
    }
  }

  /** Re-arming from the timer is invisible. */
  lemma TimerSim<R>(g: Guest<R>, vm: Vm<R>, u: Bare<R>, e: Event)
    requires Inv(g, vm) && Sim(vm, u) && (e.Tick? || e.Resume?)
    ensures Sim(Step(g, vm, e), u)
  {
    if vm.core.cfg.enabled {
      ArmOnceEffect(vm.core.cfg, vm.core.kvm, e.mapped);
    }
  }

  /** The exit to be handled is a trap whose breakpoint another vCPU has lifted in the meantime. */
  predicate Strays<R>(vm: Vm<R>, e: Event) {
    e.Handle? && CanHandle(vm, e.v) && vm.cpus[e.v].exit.AtHook? && vm.cpus[e.v].exit.pc !in vm.core.kvm.bps
  }

  /** The exception that a stray trap delivers to the guest changes nothing. */
  ghost predicate Harmless<R>(g: Guest<R>, vm: Vm<R>, e: Event) {
    Strays(vm, e) ==>
      var regs, ram := vm.cpus[e.v].regs, vm.core.kvm.ram;
      g.inject(regs, ram) == (regs, ram)
  }

  /** Lifting a trap and planting it again are invisible. */
  lemma HandleSim<R>(g: Guest<R>, vm: Vm<R>, u: Bare<R>, v: nat, mapped: bool)
    requires Inv(g, vm) && Sim(vm, u) && CanHandle(vm, v) && !Strays(vm, Handle(v, mapped))
    ensures Sim(HandleExit(g, vm, v, mapped), u)
  {
    assert CpuOk(g, vm, v);
    var k, k' := vm.core.kvm, HandleExit(g, vm, v, mapped).core.kvm;
    if vm.cpus[v].exit.AtHook? {
      RemoveEffect(k, vm.cpus[v].exit.pc, mapped);
    }
    assert forall a :: 0 <= a < |k.ram| ==> View(k')[a] == View(k)[a];
  }

  /** A stray trap is delivered to the guest, and that shows exactly when the delivery changes anything. */
  lemma StraySim<R(!new)>(g: Guest<R>, vm: Vm<R>, u: Bare<R>, e: Event)
    requires Inv(g, vm) && CodeOnly(g, vm.core.cfg.Hooks()) && Sim(vm, u) && Strays(vm, e)
    ensures Sim(Step(g, vm, e), u) <==> Harmless(g, vm, e)
    ensures Step(g, vm, e).stale
  {
    assert CpuOk(g, vm, e.v);
    var cpu, k := vm.cpus[e.v], vm.core.kvm;
    var (r, m) := g.inject(cpu.regs, k.ram);
    var vm' := Step(g, vm, e);
    assert vm'.core.kvm == k.(ram := m) && vm'.cpus == vm.cpus[e.v := Cpu(r, NoExit)];
    assert SameOn(k.ram, m, vm.core.cfg.Hooks());
    if View(vm'.core.kvm) == View(k) {
      forall a | 0 <= a < |m| ensures m[a] == k.ram[a] {
        if a !in vm.core.cfg.Hooks() {
          assert View(vm'.core.kvm)[a] == m[a] && View(k)[a] == k.ram[a];
        }
      }
      assert m == k.ram;
    }
  }

  /** Every step but the delivery of a stray trap leaves everything the guest has as on the bare machine. */
  lemma StepSim<R(!new)>(g: Guest<R>, vm: Vm<R>, u: Bare<R>, e: Event)
    requires Inv(g, vm) && CodeOnly(g, vm.core.cfg.Hooks()) && CleanDma(vm, e) && Sim(vm, u)
    ensures Sim(Step(g, vm, e), After(g, vm, u, e)) <==> Harmless(g, vm, e)
  {
    match e
    case Run(v) => if CanRun(vm, v) && !Traps(g, vm, v) { InstrSim(g, vm, u, v); }
    case Handle(v, mapped) =>
      if Strays(vm, e) {
        StraySim(g, vm, u, e);
      } else if CanHandle(vm, v) {
        HandleSim(g, vm, u, v, mapped);
      }
    case Tick(_) => TimerSim(g, vm, u, e);
    case Resume(_) => TimerSim(g, vm, u, e);
    case Dma(v, req, fault, mapped) => if CanRun(vm, v) { DmaSim(g, vm, u, e); }
  }

  // ---------------------------------------------------------------- whole runs

  /** At every point of the run so far the monitored machine is the bare one in disguise. */
  ghost predicate AlwaysSim<R>(g: Guest<R>, vm: Vm<R>, es: seq<Event>) {
    Sim(Exec(g, vm, es), Ghostly(g, vm, es)) && (es != [] ==> AlwaysSim(g, vm, es[..|es| - 1]))
  }

  ghost predicate AllHarmless<R>(g: Guest<R>, vm: Vm<R>, es: seq<Event>) {
    es != [] ==> AllHarmless(g, vm, es[..|es| - 1]) && Harmless(g, Exec(g, vm, es[..|es| - 1]), es[|es| - 1])
  }

  /** For every guest, every number of vCPUs and every interleaving: the guest sees no difference at any point
      of the run if and only if every stray trap delivered to it changed nothing. */
  lemma {:induction false} TransparentIff<R(!new)>(g: Guest<R>, vm: Vm<R>, es: seq<Event>)
    requires Init(vm) && CodeOnly(g, vm.core.cfg.Hooks()) && CleanRun(g, vm, es)
    ensures AlwaysSim(g, vm, es) <==> AllHarmless(g, vm, es)
  {
    if es == [] {
      assert View(vm.core.kvm) == vm.core.kvm.ram;
    } else {
      var front, e := es[..|es| - 1], es[|es| - 1];
      TransparentIff(g, vm, front);
      if AlwaysSim(g, vm, front) {
        RunKeepsInv(g, vm, front);
        StepSim(g, Exec(g, vm, front), Ghostly(g, vm, front), e);
        GhostlyStep(g, vm, es);
      }
    }
  }

  lemma StaleStays<R>(g: Guest<R>, vm: Vm<R>, e: Event)
    requires vm.stale || (Strays(vm, e) && vm.core.dbg[e.v].stepping == vm.core.dbg[e.v].singleStep)
    ensures Step(g, vm, e).stale
  {
  }

  lemma {:induction false} NoStrays<R(!new)>(g: Guest<R>, vm: Vm<R>, es: seq<Event>)
    requires Init(vm) && CodeOnly(g, vm.core.cfg.Hooks()) && CleanRun(g, vm, es)
    requires !Exec(g, vm, es).stale
    ensures AllHarmless(g, vm, es)
  {
    if es != [] {
      var front, e := es[..|es| - 1], es[|es| - 1];
      var s := Exec(g, vm, front);
      RunKeepsInv(g, vm, front);
      if Strays(s, e) {
        assert CpuOk(g, s, e.v);
      }
      if s.stale || Strays(s, e) {
        StaleStays(g, s, e);
      }
      NoStrays(g, vm, front);
    }
  }

  /** In particular, as long as no stray trap is delivered the monitored machine is the unmonitored one in
      disguise. */
  lemma Transparent<R(!new)>(g: Guest<R>, vm: Vm<R>, es: seq<Event>)
    requires Init(vm) && CodeOnly(g, vm.core.cfg.Hooks()) && CleanRun(g, vm, es)
    requires !Exec(g, vm, es).stale
    ensures Sim(Exec(g, vm, es), Ghostly(g, vm, es))
  {
    NoStrays(g, vm, es);
    TransparentIff(g, vm, es);
  }

  /** One more event, on both machines. */
  lemma Snoc<R>(g: Guest<R>, vm: Vm<R>, es: seq<Event>, e: Event)
    requires Exec(g, vm, es).core.cfg == vm.core.cfg
    ensures Exec(g, vm, es + [e]) == Step(g, Exec(g, vm, es), e)
    ensures Ghostly(g, vm, es + [e]) == After(g, Exec(g, vm, es), Ghostly(g, vm, es), e)
    ensures Step(g, Exec(g, vm, es), e).core.cfg == vm.core.cfg
    ensures CleanRun(g, vm, es + [e]) <==> CleanRun(g, vm, es) && CleanDma(Exec(g, vm, es), e)
  {
    assert (es + [e])[..|es|] == es;
    GhostlyStep(g, vm, es + [e]);
    CfgFixed(g, Exec(g, vm, es), e);
  }

  // ---------------------------------------------------------------- hook bytes

  /** At the hooks the guest finds what the bare machine has there. */
  ghost predicate HookSim<R>(vm: Vm<R>, u: Bare<R>) {
    && |u.ram| == |vm.core.kvm.ram| && u.fw == vm.fw
    && forall h :: h in vm.core.cfg.Hooks() ==> h < |u.ram| && ViewByte(vm.core.kvm, h) == u.ram[h]
  }

  lemma RunHooks<R(!new)>(g: Guest<R>, vm: Vm<R>, u: Bare<R>, v: nat)
    requires Inv(g, vm) && CodeOnly(g, vm.core.cfg.Hooks()) && HookSim(vm, u) && CanRun(vm, v)
    ensures HookSim(RunCpu(g, vm, v), After(g, vm, u, Run(v)))
  {
    if !Traps(g, vm, v) {
      assert SameOn(vm.core.kvm.ram, g.step(vm.cpus[v].regs, vm.core.kvm.ram).1, vm.core.cfg.Hooks());
      if v < |u.regs| {
        assert SameOn(u.ram, g.step(u.regs[v], u.ram).1, vm.core.cfg.Hooks());
      }
    }
  }

  lemma HitHooks<R>(g: Guest<R>, vm: Vm<R>, u: Bare<R>, v: nat, mapped: bool)
    requires Inv(g, vm) && HookSim(vm, u) && CanHandle(vm, v)
    requires vm.cpus[v].exit.AtHook? && vm.cpus[v].exit.pc in vm.core.kvm.bps
    ensures HookSim(HandleExit(g, vm, v, mapped), u)
  {
    assert CpuOk(g, vm, v);
    RemoveEffect(vm.core.kvm, vm.cpus[v].exit.pc, mapped);
  }

  lemma StrayHooks<R(!new)>(g: Guest<R>, vm: Vm<R>, u: Bare<R>, e: Event)
    requires Inv(g, vm) && CodeOnly(g, vm.core.cfg.Hooks()) && HookSim(vm, u) && Strays(vm, e)
    ensures HookSim(Step(g, vm, e), u)
  {
    assert CpuOk(g, vm, e.v);
    var regs, k := vm.cpus[e.v].regs, vm.core.kvm;
    var m := g.inject(regs, k.ram).1;
    assert Step(g, vm, e).core.kvm == k.(ram := m) && SameOn(k.ram, m, vm.core.cfg.Hooks());
  }

  lemma StepDoneHooks<R>(g: Guest<R>, vm: Vm<R>, u: Bare<R>, v: nat, mapped: bool)
    requires Inv(g, vm) && HookSim(vm, u) && CanHandle(vm, v) && vm.cpus[v].exit.Stepped?
    ensures HookSim(HandleExit(g, vm, v, mapped), u)
  {
    assert CpuOk(g, vm, v);
  }

  lemma HandleHooks<R(!new)>(g: Guest<R>, vm: Vm<R>, u: Bare<R>, v: nat, mapped: bool)
    requires Inv(g, vm) && CodeOnly(g, vm.core.cfg.Hooks()) && HookSim(vm, u) && CanHandle(vm, v)
    ensures HookSim(HandleExit(g, vm, v, mapped), u)
  {
    if vm.cpus[v].exit.Stepped? {
      StepDoneHooks(g, vm, u, v, mapped);
    } else if vm.cpus[v].exit.pc in vm.core.kvm.bps {
      HitHooks(g, vm, u, v, mapped);
    } else {
      StrayHooks(g, vm, u, Handle(v, mapped));
    }
  }

  lemma TimerHooks<R>(g: Guest<R>, vm: Vm<R>, u: Bare<R>, e: Event)
    requires Inv(g, vm) && HookSim(vm, u) && (e.Tick? || e.Resume?)
    ensures HookSim(Step(g, vm, e), u)
  {
    if vm.core.cfg.enabled {
      ArmOnceEffect(vm.core.cfg, vm.core.kvm, e.mapped);
      SameViews(vm.core.kvm, Step(g, vm, e).core.kvm);
    }
  }

  lemma SameViews(k: State, k': State)
    ensures View(k) == View(k') ==>
              |k.ram| == |k'.ram| && forall a :: 0 <= a < |k.ram| ==> ViewByte(k, a) == ViewByte(k', a)
  {
    if View(k) == View(k') {
      forall a | 0 <= a < |k.ram| ensures ViewByte(k, a) == ViewByte(k', a) {
        assert View(k)[a] == View(k')[a];
      }
    }
  }

  lemma LandHooks<R>(g: Guest<R>, vm: Vm<R>, u: Bare<R>, e: Event, h: Addr)
    requires Inv(g, vm) && HookSim(vm, u) && e.Dma? && CanRun(vm, e.v) && CleanDma(vm, e) && h in vm.core.cfg.Hooks()
    ensures var k' := vm.core.kvm.(ram := FwCfg.Transfer(vm.fw, vm.core.kvm.ram, e.req, e.fault).ram);
            ViewByte(k', h) == FwCfg.Transfer(u.fw, u.ram, e.req, e.fault).ram[h]
  {
    FwCfg.TransferAt(vm.fw, vm.core.kvm.ram, e.req, e.fault, h);
    FwCfg.TransferAt(vm.fw, u.ram, e.req, e.fault, h);
    assert LandsAt(vm, e, h) != Some(INT3);
  }

  lemma DmaHooks<R>(g: Guest<R>, vm: Vm<R>, u: Bare<R>, e: Event)
    requires Inv(g, vm) && HookSim(vm, u) && e.Dma? && CanRun(vm, e.v) && CleanDma(vm, e)
    ensures HookSim(ServeDma(vm, e.req, e.fault, e.mapped), After(g, vm, u, e))
  {
    var t := FwCfg.Transfer(vm.fw, vm.core.kvm.ram, e.req, e.fault);
    var c := vm.core.(kvm := vm.core.kvm.(ram := t.ram));
    FwCfg.TransferBlind(vm.fw, vm.core.kvm.ram, u.ram, e.req, e.fault);
    forall h | h in c.cfg.Hooks()
      ensures ViewByte(c.kvm, h) == FwCfg.Transfer(u.fw, u.ram, e.req, e.fault).ram[h]
    {
      LandHooks(g, vm, u, e, h);
    }
    if KernelLoaded(c, e.mapped).kvm != c.kvm {
      ArmOnceEffect(c.cfg, c.kvm, e.mapped);
      SameViews(c.kvm, KernelLoaded(c, e.mapped).kvm);
    }
  }

  /** Every step, stray deliveries included, treats hook bytes as the bare machine does. */
  lemma StepHooks<R(!new)>(g: Guest<R>, vm: Vm<R>, u: Bare<R>, e: Event)
    requires Inv(g, vm) && CodeOnly(g, vm.core.cfg.Hooks()) && CleanDma(vm, e) && HookSim(vm, u)
    ensures HookSim(Step(g, vm, e), After(g, vm, u, e))
  {
    match e
    case Run(v) => if CanRun(vm, v) { RunHooks(g, vm, u, v); }
    case Handle(v, mapped) => if CanHandle(vm, v) { HandleHooks(g, vm, u, v, mapped); }
    case Tick(_) => TimerHooks(g, vm, u, e);
    case Resume(_) => TimerHooks(g, vm, u, e);
    case Dma(v, _, _, _) => if CanRun(vm, v) { DmaHooks(g, vm, u, e); }
  }

  lemma {:induction false} HookRun<R(!new)>(g: Guest<R>, vm: Vm<R>, es: seq<Event>)
    requires Init(vm) && CodeOnly(g, vm.core.cfg.Hooks()) && CleanRun(g, vm, es)
    ensures HookSim(Exec(g, vm, es), Ghostly(g, vm, es))
  {
    if es != [] {
      var front, e := es[..|es| - 1], es[|es| - 1];
      HookRun(g, vm, front);
      RunKeepsInv(g, vm, front);
      StepHooks(g, Exec(g, vm, front), Ghostly(g, vm, front), e);
      GhostlyStep(g, vm, es);
    }
  }

  /** No stale restore, for any number of vCPUs and however arm attempts, loads, hits, step completions and
      stray traps interleave: at every point of every run, a hook byte is either the trap byte, with the bare
      machine's byte saved for it, or the bare machine's byte itself. */
  lemma NoStaleRestore<R(!new)>(g: Guest<R>, vm: Vm<R>, es: seq<Event>, h: Addr)
    requires Init(vm) && CodeOnly(g, vm.core.cfg.Hooks()) && CleanRun(g, vm, es) && h in vm.core.cfg.Hooks()
    ensures var k, m := Exec(g, vm, es).core.kvm, Ghostly(g, vm, es).ram;
            && h < |k.ram| == |m|
            && m[h] != INT3
            && (if k.ram[h] == INT3 then h in k.bps && k.bps[h].saved == m[h] else k.ram[h] == m[h])
  {
    HookRun(g, vm, es);
    RunKeepsInv(g, vm, es);
  }

  // ---------------------------------------------------------------- one vCPU

  /** With a single vCPU a reported trap is still planted when its handler runs. */
  ghost predicate Solo<R>(vm: Vm<R>) {
    && |vm.cpus| == 1
    && !vm.stale
    && (vm.cpus[0].exit.AtHook? ==> Planted(vm.core.kvm, vm.cpus[0].exit.pc))
  }

  lemma SoloTimer<R>(g: Guest<R>, vm: Vm<R>, e: Event)
    requires Inv(g, vm) && Solo(vm) && (e.Tick? || e.Resume?)
    ensures Solo(Step(g, vm, e))
  {
    if vm.core.cfg.enabled {
      ArmOnceEffect(vm.core.cfg, vm.core.kvm, e.mapped);
    }
    assert CpuOk(g, vm, 0);
  }

  lemma SoloRunCpu<R(!new)>(g: Guest<R>, vm: Vm<R>, v: nat)
    requires Inv(g, vm) && CodeOnly(g, vm.core.cfg.Hooks()) && Solo(vm) && CanRun(vm, v)
    ensures Solo(RunCpu(g, vm, v))
  {
    assert CpuOk(g, vm, 0);
  }

  lemma SoloHandle<R>(g: Guest<R>, vm: Vm<R>, v: nat, mapped: bool)
    requires Inv(g, vm) && Solo(vm) && CanHandle(vm, v)
    ensures Solo(HandleExit(g, vm, v, mapped))
  {
    assert CpuOk(g, vm, 0);
  }

  lemma SoloStep<R(!new)>(g: Guest<R>, vm: Vm<R>, e: Event)
    requires Inv(g, vm) && CodeOnly(g, vm.core.cfg.Hooks()) && CleanDma(vm, e) && Solo(vm)
    ensures Solo(Step(g, vm, e))
  {
    match e
    case Run(v) => if CanRun(vm, v) { SoloRunCpu(g, vm, v); }
    case Handle(v, mapped) => if CanHandle(vm, v) { SoloHandle(g, vm, v, mapped); }
    case Tick(_) => SoloTimer(g, vm, e);
    case Resume(_) => SoloTimer(g, vm, e);
    case Dma(_, _, _, _) =>
  }

  lemma {:induction false} SoloRun<R(!new)>(g: Guest<R>, vm: Vm<R>, es: seq<Event>)
    requires Init(vm) && CodeOnly(g, vm.core.cfg.Hooks()) && CleanRun(g, vm, es) && |vm.cpus| == 1
    ensures Solo(Exec(g, vm, es))
  {
    if es != [] {
      SoloRun(g, vm, es[..|es| - 1]);
      RunKeepsInv(g, vm, es[..|es| - 1]);
      SoloStep(g, Exec(g, vm, es[..|es| - 1]), es[|es| - 1]);
    }
  }

  /** The build's setting: with one vCPU every run is transparent, with no proviso. */
  lemma SoloTransparent<R(!new)>(g: Guest<R>, vm: Vm<R>, es: seq<Event>)
    requires Init(vm) && CodeOnly(g, vm.core.cfg.Hooks()) && CleanRun(g, vm, es) && |vm.cpus| == 1
    ensures Sim(Exec(g, vm, es), Ghostly(g, vm, es)) && !Exec(g, vm, es).stale
  {
    SoloRun(g, vm, es);
    Transparent(g, vm, es);
  }

  // ---------------------------------------------------------------- monitor off

  /** With the monitor off, whole runs leave no trace: the list stays empty, nothing is logged or claimed, and
      RAM itself is the bare machine's. */
  lemma DisabledInert<R(!new)>(g: Guest<R>, vm: Vm<R>, es: seq<Event>)
    requires Init(vm) && !vm.core.cfg.enabled && CodeOnly(g, vm.core.cfg.Hooks())
    ensures var s := Exec(g, vm, es);
            && s.core.kvm == State(Ghostly(g, vm, es).ram, map[]) && s.hits == [] && s.consumed == 0
            && |s.cpus| == |Ghostly(g, vm, es).regs|
            && forall v :: 0 <= v < |s.cpus| ==> s.cpus[v].regs == Ghostly(g, vm, es).regs[v]
  {
    DisabledRun(g, vm, es);
    Transparent(g, vm, es);
    var s := Exec(g, vm, es);
    assert View(s.core.kvm) == s.core.kvm.ram;
  }

  lemma {:induction false} DisabledRun<R(!new)>(g: Guest<R>, vm: Vm<R>, es: seq<Event>)
    requires Init(vm) && !vm.core.cfg.enabled && CodeOnly(g, vm.core.cfg.Hooks())
    ensures CleanRun(g, vm, es)
    ensures var s := Exec(g, vm, es);
            Inv(g, s) && s.core.cfg == vm.core.cfg && s.core.kvm.bps == map[]
            && s.hits == [] && s.consumed == 0 && !s.stale
  {
    if es != [] {
      var front, e := es[..|es| - 1], es[|es| - 1];
      DisabledRun(g, vm, front);
      var s := Exec(g, vm, front);
      assert vm.core.cfg.Hooks() == {};
      forall v | 0 <= v < |s.cpus| ensures s.cpus[v].exit.NoExit? {
        assert CpuOk(g, s, v);
      }
    }
    RunKeepsInv(g, vm, es);
  }
}
