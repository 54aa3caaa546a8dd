/** The whole virtual machine: any number of vCPUs running an arbitrary guest over shared RAM, with the
    monitor's handlers, the poll timer and DMA requests interleaved as atomic steps. */
module Machine {
  import opened Basic
  import opened Options
  import opened Kvm
  import opened Monitor
  import FwCfg

  type Ram = seq<Byte>

  /** The guest: an arbitrary instruction step over registers and RAM, and the delivery of a breakpoint
      exception to it. */
  datatype Guest<!R> = Guest(pc: R -> Addr, step: (R, Ram) -> (R, Ram), inject: (R, Ram) -> (R, Ram))

  ghost predicate SameOff(m: Ram, n: Ram, hidden: set<Addr>) {
    |m| == |n| && forall a :: 0 <= a < |m| && a !in hidden ==> m[a] == n[a]
  }

  ghost predicate SameOn(m: Ram, n: Ram, shown: set<Addr>) {
    |m| == |n| && forall a :: a in shown && a < |m| ==> m[a] == n[a]
  }

  /** The guest treats hook bytes as code only: it writes none of them, and an instruction depends on no
      hook byte but the one it is fetched from. */
  ghost predicate CodeOnly<R(!new)>(g: Guest<R>, hooks: set<Addr>) {
    && (forall r, m :: SameOn(m, g.step(r, m).1, hooks))
    && (forall r, m :: SameOn(m, g.inject(r, m).1, hooks))
    && (forall r, m, n :: SameOff(m, n, hooks - {g.pc(r)}) ==>
          g.step(r, m).0 == g.step(r, n).0 && SameOff(g.step(r, m).1, g.step(r, n).1, hooks))
  }

  /** A debug exit reported by KVM and not yet handled: a trap byte at a hook, or a finished single step. */
  datatype Exit = NoExit | AtHook(pc: Addr) | Stepped

  datatype Cpu<R> = Cpu(regs: R, exit: Exit)

  /** A logged hit: the vCPU, the hook and the registers found there. */
  datatype HitAt<R> = HitAt(cpu: nat, pc: Addr, regs: R)

  /** `hits` is the history of logged hits, `consumed` counts exits the monitor claimed, `passes` counts
      finished step-overs, `stopped` says the VM was handed to a debugger, and `stale` says that a trap taken
      at a hook was handled after another vCPU had lifted it, so that the guest received the exception. */
  datatype Vm<R> = Vm(
    core: Core,
    cpus: seq<Cpu<R>>,
    fw: FwCfg.Device,
    hits: seq<HitAt<R>>,
    consumed: nat,
    passes: nat,
    stopped: bool,
    stale: bool)

  /** `mapped` says whether address translation for the hooks is established when the handler runs. */
  datatype Event =
    | Run(v: nat)
    | Handle(v: nat, mapped: bool)
    | Tick(mapped: bool)
    | Resume(mapped: bool)
    | Dma(v: nat, req: FwCfg.Request, fault: FwCfg.Fault, mapped: bool)

  predicate CanRun<R>(vm: Vm<R>, v: nat) {
    !vm.stopped && v < |vm.cpus| && v < |vm.core.dbg| && vm.cpus[v].exit.NoExit?
  }

  /** The next fetch on `v` finds the trap byte at a hook. */
  predicate Traps<R>(g: Guest<R>, vm: Vm<R>, v: nat)
    requires v < |vm.cpus|
  {
    var pc := g.pc(vm.cpus[v].regs);
    pc in vm.core.cfg.Hooks() && pc < |vm.core.kvm.ram| && vm.core.kvm.ram[pc] == INT3
  }

  function RunCpu<R>(g: Guest<R>, vm: Vm<R>, v: nat): Vm<R>
    requires CanRun(vm, v)
  {
    var cpu := vm.cpus[v];
    if Traps(g, vm, v) then
      vm.(cpus := vm.cpus[v := cpu.(exit := AtHook(g.pc(cpu.regs)))])
    else
      var (r, m) := g.step(cpu.regs, vm.core.kvm.ram);
      vm.(core := vm.core.(kvm := vm.core.kvm.(ram := m)),
          cpus := vm.cpus[v := Cpu(r, if vm.core.dbg[v].singleStep then Stepped else NoExit)])
  }

  function InfoOf(e: Exit): DebugInfo {
    if e.AtHook? then DebugInfo(false, false, false, e.pc) else DebugInfo(true, true, false, 0)
  }

  predicate CanHandle<R>(vm: Vm<R>, v: nat) {
    !vm.stopped && v < |vm.cpus| && v < |vm.core.dbg| && !vm.cpus[v].exit.NoExit?
  }

  function HandleExit<R>(g: Guest<R>, vm: Vm<R>, v: nat, mapped: bool): Vm<R>
    requires CanHandle(vm, v)
  {
    var cpu := vm.cpus[v];
    var (c, o) := HandleDebug(vm.core, v, InfoOf(cpu.exit), mapped);
    var vm' := vm.(core := c, cpus := vm.cpus[v := cpu.(exit := NoExit)]);
    match o
    case Hit => vm'.(hits := vm.hits + [HitAt(v, InfoOf(cpu.exit).pc, cpu.regs)], consumed := vm.consumed + 1)
    case StepDone => vm'.(consumed := vm.consumed + 1, passes := vm.passes + 1)
    case ExcpDebug => vm'.(stopped := true)
    case Reinject =>
      var (r, m) := g.inject(cpu.regs, c.kvm.ram);
      vm'.(core := c.(kvm := c.kvm.(ram := m)), cpus := vm.cpus[v := Cpu(r, NoExit)], stale := true)
  }

  function ServeDma<R>(vm: Vm<R>, req: FwCfg.Request, fault: FwCfg.Fault, mapped: bool): Vm<R> {
    var t := FwCfg.Transfer(vm.fw, vm.core.kvm.ram, req, fault);
    var c := vm.core.(kvm := vm.core.kvm.(ram := t.ram));
    vm.(fw := t.dev, core := if FwCfg.Fires(req, t) then KernelLoaded(c, mapped) else c)
  }

  /** One atomic step; an event that is not enabled changes nothing. */
  function Step<R>(g: Guest<R>, vm: Vm<R>, e: Event): Vm<R> {
    match e
    case Run(v) => if CanRun(vm, v) then RunCpu(g, vm, v) else vm
    case Handle(v, mapped) => if CanHandle(vm, v) then HandleExit(g, vm, v, mapped) else vm
    case Tick(mapped) => if vm.core.timer then vm.(core := TryArm(vm.core, mapped)) else vm
    case Resume(mapped) => vm.(core := Running(vm.core, mapped))
    case Dma(v, req, fault, mapped) => if CanRun(vm, v) then ServeDma(vm, req, fault, mapped) else vm
  }

  function Exec<R>(g: Guest<R>, vm: Vm<R>, es: seq<Event>): Vm<R> {
    if es == [] then vm else Step(g, Exec(g, vm, es[..|es| - 1]), es[|es| - 1])
  }

  // ---------------------------------------------------------------- the invariant

  ghost predicate CpuOk<R>(g: Guest<R>, vm: Vm<R>, v: nat)
    requires v < |vm.cpus| == |vm.core.dbg|
  {
    var d, cpu := vm.core.dbg[v], vm.cpus[v];
    && d.stepping == d.singleStep
    && (d.stepping ==>
          && vm.core.firstHit
          && d.stepAddr in vm.core.cfg.Hooks()
          && d.stepAddr !in vm.core.kvm.bps
          && (cpu.exit.Stepped? || (cpu.exit.NoExit? && g.pc(cpu.regs) == d.stepAddr)))
    && (cpu.exit.Stepped? ==> d.stepping)
    && (cpu.exit.AtHook? ==> cpu.exit.pc == g.pc(cpu.regs) && cpu.exit.pc in vm.core.cfg.Hooks())
  }

  /** The list is the monitor's alone, and a trap byte at a hook is always a registered one. */
  ghost predicate ListOk(c: Core) {
    && c.cfg.Valid()
    && (forall h :: h in c.cfg.Hooks() ==> h < |c.kvm.ram|)
    && SoleUser(c.kvm, c.cfg.Hooks())
    && (forall h :: h in c.cfg.Hooks() && c.kvm.ram[h] == INT3 ==> h in c.kvm.bps)
    && (forall a :: a in c.kvm.bps ==> c.kvm.bps[a].saved != INT3)
    && (c.timer ==> c.cfg.enabled && c.attempts < MAX_ATTEMPTS)
  }

  /** Every vCPU is consistent with the list, and no hook is being stepped over twice at once. */
  ghost predicate CpusOk<R>(g: Guest<R>, vm: Vm<R>) {
    && |vm.cpus| == |vm.core.dbg|
    && (forall v :: 0 <= v < |vm.cpus| ==> CpuOk(g, vm, v))
    && (forall v, w :: 0 <= v < w < |vm.cpus| && vm.core.dbg[v].stepping && vm.core.dbg[w].stepping ==>
          vm.core.dbg[v].stepAddr != vm.core.dbg[w].stepAddr)
  }

  ghost predicate Inv<R>(g: Guest<R>, vm: Vm<R>) {
    !vm.stopped && ListOk(vm.core) && CpusOk(g, vm)
  }

  /** Before the VM first runs: nothing planted, nobody stepping, no true trap byte at a hook. */
  ghost predicate Init<R>(vm: Vm<R>) {
    var c := vm.core;
    && c.cfg.Valid() && |vm.cpus| == |c.dbg| && !vm.stopped && !vm.stale
    && c.kvm.bps == map[] && !c.firstHit && !c.bootSync && !c.timer
    && (forall h :: h in c.cfg.Hooks() ==> h < |c.kvm.ram| && c.kvm.ram[h] != INT3)
    && (forall v :: 0 <= v < |vm.cpus| ==> vm.cpus[v].exit.NoExit? && !c.dbg[v].stepping && !c.dbg[v].singleStep)
    && vm.hits == [] && vm.consumed == 0 && vm.passes == 0
  }

  function LandsAt<R>(vm: Vm<R>, e: Event, h: Addr): Option<Byte>
    requires e.Dma?
  {
    FwCfg.Landed(vm.fw, |vm.core.kvm.ram|, e.req, e.fault, h)
  }

  /** A DMA request may overwrite a hook, but never with the trap byte itself. */
  ghost predicate CleanDma<R>(vm: Vm<R>, e: Event) {
    e.Dma? && CanRun(vm, e.v) ==> forall h :: h in vm.core.cfg.Hooks() ==> LandsAt(vm, e, h) != Some(INT3)
  }

  ghost predicate CleanRun<R>(g: Guest<R>, vm: Vm<R>, es: seq<Event>) {
    es != [] ==> CleanRun(g, vm, es[..|es| - 1]) && CleanDma(Exec(g, vm, es[..|es| - 1]), es[|es| - 1])
  }

  // ---------------------------------------------------------------- every step keeps the invariant

  /** RAM changed, but not at the hooks. */
  lemma RamInv(c: Core, m: Ram)
    requires ListOk(c) && SameOn(c.kvm.ram, m, c.cfg.Hooks())
    ensures ListOk(c.(kvm := c.kvm.(ram := m)))
  {
  }

  /** The vCPUs stay consistent when only RAM, flags or list entries nobody steps over change. */
  lemma CarryCpus<R>(g: Guest<R>, vm: Vm<R>, vm': Vm<R>)
    requires CpusOk(g, vm)
    requires vm'.cpus == vm.cpus && vm'.core.dbg == vm.core.dbg && vm'.core.cfg == vm.core.cfg
    requires vm'.core.firstHit == vm.core.firstHit
    requires vm'.core.kvm.bps == vm.core.kvm.bps || !vm.core.firstHit
    ensures CpusOk(g, vm')
  {
    forall w | 0 <= w < |vm.cpus| ensures CpuOk(g, vm', w) {
      assert CpuOk(g, vm, w);
    }
  }

  lemma RunInv<R(!new)>(g: Guest<R>, vm: Vm<R>, v: nat)
    requires Inv(g, vm) && CodeOnly(g, vm.core.cfg.Hooks()) && CanRun(vm, v)
    ensures Inv(g, RunCpu(g, vm, v))
  {
    var cpu, vm' := vm.cpus[v], RunCpu(g, vm, v);
    if !Traps(g, vm, v) {
      assert SameOn(vm.core.kvm.ram, g.step(cpu.regs, vm.core.kvm.ram).1, vm.core.cfg.Hooks());
      RamInv(vm.core, vm'.core.kvm.ram);
    }
    assert CpuOk(g, vm, v);
    forall w | 0 <= w < |vm'.cpus| ensures CpuOk(g, vm', w) {
      assert CpuOk(g, vm, w);
    }
  }

  lemma HitInv<R>(g: Guest<R>, vm: Vm<R>, v: nat, mapped: bool)
    requires Inv(g, vm) && CanHandle(vm, v) && vm.cpus[v].exit.AtHook? && vm.cpus[v].exit.pc in vm.core.kvm.bps
    ensures Inv(g, HandleExit(g, vm, v, mapped))
    ensures HandleExit(g, vm, v, mapped).hits == vm.hits + [HitAt(v, vm.cpus[v].exit.pc, vm.cpus[v].regs)]
  {
    var pc, vm' := vm.cpus[v].exit.pc, HandleExit(g, vm, v, mapped);
    assert CpuOk(g, vm, v);
    RemoveEffect(vm.core.kvm, pc, mapped);
    forall w | 0 <= w < |vm'.cpus|
      ensures CpuOk(g, vm', w) && (vm.core.dbg[w].stepping ==> vm.core.dbg[w].stepAddr != pc)
    {
      assert CpuOk(g, vm, w);
    }
  }

  lemma StepDoneInv<R>(g: Guest<R>, vm: Vm<R>, v: nat, mapped: bool)
    requires Inv(g, vm) && CanHandle(vm, v) && vm.cpus[v].exit.Stepped?
    ensures Inv(g, HandleExit(g, vm, v, mapped))
  {
    var vm' := HandleExit(g, vm, v, mapped);
    assert CpuOk(g, vm, v);
    forall w | 0 <= w < |vm'.cpus| ensures CpuOk(g, vm', w) {
      assert CpuOk(g, vm, w);
    }
  }

  lemma StaleInv<R(!new)>(g: Guest<R>, vm: Vm<R>, v: nat, mapped: bool)
    requires Inv(g, vm) && CodeOnly(g, vm.core.cfg.Hooks()) && CanHandle(vm, v)
    requires vm.cpus[v].exit.AtHook? && vm.cpus[v].exit.pc !in vm.core.kvm.bps
    ensures Inv(g, HandleExit(g, vm, v, mapped)) && HandleExit(g, vm, v, mapped).stale
  {
    var cpu, vm' := vm.cpus[v], HandleExit(g, vm, v, mapped);
    assert CpuOk(g, vm, v);
    assert SameOn(vm.core.kvm.ram, g.inject(cpu.regs, vm.core.kvm.ram).1, vm.core.cfg.Hooks());
    forall w | 0 <= w < |vm'.cpus| ensures CpuOk(g, vm', w) {
      assert CpuOk(g, vm, w);
    }
  }

  /** Re-arming happens only before the first hit, hence while nobody is stepping. */
  lemma RearmInv<R>(g: Guest<R>, vm: Vm<R>, mapped: bool, c: Core)
    requires Inv(g, vm) && vm.core.cfg.enabled && !vm.core.firstHit
    requires c == vm.core.(kvm := ArmOnce(vm.core.cfg, vm.core.kvm, mapped).0,
                           attempts := c.attempts, timer := c.timer, bootSync := c.bootSync)
    requires c.timer ==> c.attempts < MAX_ATTEMPTS
    ensures Inv(g, vm.(core := c))
  {
    ArmOnceEffect(vm.core.cfg, vm.core.kvm, mapped);
    CarryCpus(g, vm, vm.(core := c));
  }

  lemma TryArmInv<R>(g: Guest<R>, vm: Vm<R>, mapped: bool)
    requires Inv(g, vm) && vm.core.timer
    ensures Inv(g, vm.(core := TryArm(vm.core, mapped)))
  {
    if vm.core.firstHit || vm.core.bootSync {
      CarryCpus(g, vm, vm.(core := TryArm(vm.core, mapped)));
    } else {
      RearmInv(g, vm, mapped, TryArm(vm.core, mapped));
    }
  }

  lemma ResumeInv<R>(g: Guest<R>, vm: Vm<R>, mapped: bool)
    requires Inv(g, vm)
    ensures Inv(g, vm.(core := Running(vm.core, mapped)))
  {
    if vm.core.cfg.enabled && !vm.core.timer {
      var c := vm.core.(attempts := 0, timer := true);
      CarryCpus(g, vm, vm.(core := c));
      TryArmInv(g, vm.(core := c), mapped);
    }
  }

  lemma DmaInv<R>(g: Guest<R>, vm: Vm<R>, e: Event)
    requires Inv(g, vm) && e.Dma? && CanRun(vm, e.v) && CleanDma(vm, e)
    ensures Inv(g, ServeDma(vm, e.req, e.fault, e.mapped))
  {
    var t := FwCfg.Transfer(vm.fw, vm.core.kvm.ram, e.req, e.fault);
    var mid := vm.(fw := t.dev, core := vm.core.(kvm := vm.core.kvm.(ram := t.ram)));
    forall h | h in vm.core.cfg.Hooks() ensures t.ram[h] == INT3 ==> vm.core.kvm.ram[h] == INT3 {
      FwCfg.TransferAt(vm.fw, vm.core.kvm.ram, e.req, e.fault, h);
      assert LandsAt(vm, e, h) != Some(INT3);
    }
    CarryCpus(g, vm, mid);
    LoadedInv(g, mid, e.mapped);
  }

  lemma LoadedInv<R>(g: Guest<R>, vm: Vm<R>, mapped: bool)
    requires Inv(g, vm)
    ensures Inv(g, vm.(core := KernelLoaded(vm.core, mapped)))
  {
    var c := KernelLoaded(vm.core, mapped);
    if c != vm.core {
      RearmInv(g, vm, mapped, c);
    }
  }

  lemma HandleInv<R(!new)>(g: Guest<R>, vm: Vm<R>, v: nat, mapped: bool)
    requires Inv(g, vm) && CodeOnly(g, vm.core.cfg.Hooks()) && CanHandle(vm, v)
    ensures Inv(g, HandleExit(g, vm, v, mapped))
  {
    if vm.cpus[v].exit.Stepped? {
      StepDoneInv(g, vm, v, mapped);
    } else if vm.cpus[v].exit.pc in vm.core.kvm.bps {
      HitInv(g, vm, v, mapped);
    } else {
      StaleInv(g, vm, v, mapped);
    }
  }

  lemma HandlerKeepsCfg(c: Core, v: nat, info: DebugInfo, mapped: bool)
    requires v < |c.dbg|
    ensures HandleDebug(c, v, info, mapped).0.cfg == c.cfg
  {
  }

  lemma CfgFixed<R>(g: Guest<R>, vm: Vm<R>, e: Event)
    ensures Step(g, vm, e).core.cfg == vm.core.cfg
    ensures |Step(g, vm, e).cpus| == |vm.cpus|
  {
    if e.Handle? && CanHandle(vm, e.v) {
      HandlerKeepsCfg(vm.core, e.v, InfoOf(vm.cpus[e.v].exit), e.mapped);
    }
  }

  /** The shared-list invariant is kept by every step, for any number of vCPUs. */
  lemma StepInv<R(!new)>(g: Guest<R>, vm: Vm<R>, e: Event)
    requires Inv(g, vm) && CodeOnly(g, vm.core.cfg.Hooks()) && CleanDma(vm, e)
    ensures Inv(g, Step(g, vm, e))
  {
    match e
    case Run(v) => if CanRun(vm, v) { RunInv(g, vm, v); }
    case Handle(v, mapped) => if CanHandle(vm, v) { HandleInv(g, vm, v, mapped); }
    case Tick(mapped) => if vm.core.timer { TryArmInv(g, vm, mapped); }
    case Resume(mapped) => ResumeInv(g, vm, mapped);
    case Dma(v, req, fault, mapped) => if CanRun(vm, v) { DmaInv(g, vm, e); }
  }

  lemma {:induction false} RunKeepsInv<R(!new)>(g: Guest<R>, vm: Vm<R>, es: seq<Event>)
    requires Init(vm) && CodeOnly(g, vm.core.cfg.Hooks()) && CleanRun(g, vm, es)
    ensures var vm' := Exec(g, vm, es);
            Inv(g, vm') && vm'.core.cfg == vm.core.cfg && |vm'.cpus| == |vm.cpus|
  {
    if es != [] {
      RunKeepsInv(g, vm, es[..|es| - 1]);
      StepInv(g, Exec(g, vm, es[..|es| - 1]), es[|es| - 1]);
      CfgFixed(g, Exec(g, vm, es[..|es| - 1]), es[|es| - 1]);
    }
  }
}
