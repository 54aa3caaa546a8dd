/** Exactly what is captured, and from when: the arming race between the poll timer, the kernel load and
    boot-sync, over every interleaving on one vCPU. */
module Capture {
  import opened Options
  import opened Kvm
  import opened Monitor
  import opened Machine
  import opened SharedList
  import opened Transparency
  import FwCfg

  /** The run up to its `k`th event. */
  function At<R>(g: Guest<R>, vm: Vm<R>, es: seq<Event>, k: nat): Vm<R>
    requires k <= |es|
  {
    Exec(g, vm, es[..k])
  }

  /** How many instructions had been executed at the hooks by then. */
  function ArrivedBy<R>(g: Guest<R>, vm: Vm<R>, es: seq<Event>, k: nat): nat
    requires k <= |es|
  {
    |Ghostly(g, vm, es[..k]).arrivals|
  }

  /** The hit of `v` that is logged while its instruction is yet to be executed. */
  function Begun<R>(vm: Vm<R>, v: nat): seq<HitAt<R>> {
    if v < |vm.cpus| && v < |vm.core.dbg| && vm.core.dbg[v].stepping && vm.cpus[v].exit.NoExit?
    then [HitAt(v, vm.core.dbg[v].stepAddr, vm.cpus[v].regs)] else []
  }

  function InFlight<R>(vm: Vm<R>): seq<HitAt<R>> {
    Begun(vm, 0)
  }

  /** A one-vCPU run of a code-only guest from power-on, where DMA never writes a trap byte onto a hook. */
  ghost predicate SoloRunOf<R(!new)>(g: Guest<R>, vm: Vm<R>, es: seq<Event>) {
    Init(vm) && vm.core.cfg.enabled && |vm.cpus| == 1 && CodeOnly(g, vm.core.cfg.Hooks()) && CleanRun(g, vm, es)
  }

  ghost predicate QuietFrom<R>(g: Guest<R>, vm: Vm<R>, es: seq<Event>, k: nat)
    requires k <= |es|
  {
    forall j {:trigger At(g, vm, es, j)} :: k <= j < |es| ==> Quiet(At(g, vm, es, j), es[j])
  }

  /** Nothing was logged yet and the hooks have just become live. */
  ghost predicate ArmedAt<R>(g: Guest<R>, vm: Vm<R>, es: seq<Event>, k: nat)
    requires k <= |es|
  {
    var s := At(g, vm, es, k);
    Live(s.core) && s.hits == [] && InFlight(s) == []
  }

  lemma {:induction false} CleanPrefix<R>(g: Guest<R>, vm: Vm<R>, es: seq<Event>, k: nat)
    requires CleanRun(g, vm, es) && k <= |es|
    ensures CleanRun(g, vm, es[..k])
    decreases |es|
  {
    if k == |es| {
      assert es[..k] == es;
    } else {
      assert es[..|es| - 1][..k] == es[..k];
      CleanPrefix(g, vm, es[..|es| - 1], k);
    }
  }

  /** The last event of a run, seen from its own prefix. */
  lemma LastOf<R>(g: Guest<R>, vm: Vm<R>, es: seq<Event>, k: nat)
    requires k < |es|
    ensures es[..k + 1][..k] == es[..k] && es[..k + 1][k] == es[k]
    ensures At(g, vm, es, k + 1) == Step(g, At(g, vm, es, k), es[k])
  {
  }

  lemma QuietPrefix<R>(g: Guest<R>, vm: Vm<R>, es: seq<Event>, k: nat)
    requires k < |es| && QuietFrom(g, vm, es, k)
    ensures QuietFrom(g, vm, es[..|es| - 1], k)
    ensures Quiet(Exec(g, vm, es[..|es| - 1]), es[|es| - 1])
  {
    var front := es[..|es| - 1];
    forall j | k <= j < |front| ensures Quiet(At(g, vm, front, j), front[j]) {
      assert front[..j] == es[..j];
      assert Quiet(At(g, vm, es, j), es[j]);
    }
    assert At(g, vm, es, |front|) == Exec(g, vm, front);
  }

  // ---------------------------------------------------------------- live from k on

  /** Live hooks trap every arrival that is not already being stepped over. */
  lemma RunLive<R>(g: Guest<R>, vm: Vm<R>, u: Bare<R>, v: nat)
    requires Inv(g, vm) && Solo(vm) && Live(vm.core) && Sim(vm, u) && CanRun(vm, v)
    ensures After(g, vm, u, Run(v)).arrivals + InFlight(RunCpu(g, vm, v)) == u.arrivals + InFlight(vm)
    ensures u.arrivals <= After(g, vm, u, Run(v)).arrivals
  {
    var regs := vm.cpus[0].regs;
    var pc := g.pc(regs);
    assert CpuOk(g, vm, 0);
    if vm.core.dbg[0].stepping {
      assert !Traps(g, vm, v) && InFlight(vm) == [HitAt(0, pc, regs)];
      assert After(g, vm, u, Run(v)).arrivals == u.arrivals + [HitAt(0, pc, regs)];
    } else if pc in vm.core.cfg.Hooks() {
      assert !SteppingOver(vm.core, pc);
      assert Traps(g, vm, v);
    }
  }

  lemma HandleLogs<R>(g: Guest<R>, vm: Vm<R>, v: nat)
    requires Inv(g, vm) && Solo(vm) && CanHandle(vm, v)
    ensures HandleExit(g, vm, v, true).hits + InFlight(vm) == vm.hits + InFlight(HandleExit(g, vm, v, true))
  {
    assert CpuOk(g, vm, 0);
    if vm.cpus[0].exit.AtHook? {
      RemoveEffect(vm.core.kvm, vm.cpus[0].exit.pc, true);
    }
  }

  /** The log is `log`, then the arrivals noted since `u`, then the hit in flight. */
  ghost predicate Extends<R>(log: seq<HitAt<R>>, u: Bare<R>, u': Bare<R>, vm': Vm<R>) {
    u.arrivals <= u'.arrivals && vm'.hits == log + u'.arrivals[|u.arrivals|..] + InFlight(vm')
  }

  lemma RunExtends<R>(g: Guest<R>, vm: Vm<R>, u: Bare<R>, v: nat, log: seq<HitAt<R>>)
    requires Inv(g, vm) && Solo(vm) && Live(vm.core) && Sim(vm, u) && CanRun(vm, v)
    requires vm.hits == log + InFlight(vm)
    ensures Extends(log, u, After(g, vm, u, Run(v)), RunCpu(g, vm, v))
  {
    var u', vm' := After(g, vm, u, Run(v)), RunCpu(g, vm, v);
    RunLive(g, vm, u, v);
    var more := u'.arrivals[|u.arrivals|..];
    assert more + InFlight(vm') == InFlight(vm) by {
      assert (u.arrivals + InFlight(vm))[|u.arrivals|..] == InFlight(vm);
      assert (u'.arrivals + InFlight(vm'))[|u.arrivals|..] == more + InFlight(vm');
    }
    assert log + more + InFlight(vm') == log + (more + InFlight(vm'));
  }

  lemma HandleExtends<R>(g: Guest<R>, vm: Vm<R>, u: Bare<R>, v: nat, log: seq<HitAt<R>>)
    requires Inv(g, vm) && Solo(vm) && CanHandle(vm, v) && vm.hits == log + InFlight(vm)
    ensures Extends(log, u, u, HandleExit(g, vm, v, true))
  {
    HandleLogs(g, vm, v);
    assert CpuOk(g, vm, 0);
    assert InFlight(vm) == [] && u.arrivals[|u.arrivals|..] == [];
    assert vm.hits == log;
  }

  /** Timer and DMA steps, and events that are not enabled, log nothing and execute nothing. */
  lemma OtherExtends<R>(g: Guest<R>, vm: Vm<R>, u: Bare<R>, e: Event, log: seq<HitAt<R>>)
    requires vm.hits == log + InFlight(vm)
    requires e.Run? ==> !CanRun(vm, e.v)
    requires e.Handle? ==> !CanHandle(vm, e.v)
    ensures Extends(log, u, After(g, vm, u, e), Step(g, vm, e))
  {
    var u', vm' := After(g, vm, u, e), Step(g, vm, e);
    assert vm'.hits == vm.hits && vm'.cpus == vm.cpus && vm'.core.dbg == vm.core.dbg;
    assert u'.arrivals == u.arrivals && u.arrivals[|u.arrivals|..] == [];
    assert log + [] == log;
  }

  /** One live step: a hit is logged exactly when the arrival that follows it will be executed. */
  lemma LiveStep<R>(g: Guest<R>, vm: Vm<R>, u: Bare<R>, e: Event, log: seq<HitAt<R>>)
    requires Inv(g, vm) && Solo(vm) && Live(vm.core) && Quiet(vm, e) && Sim(vm, u)
    requires vm.hits == log + InFlight(vm)
    ensures Extends(log, u, After(g, vm, u, e), Step(g, vm, e))
  {
    if e.Run? && CanRun(vm, e.v) {
      RunExtends(g, vm, u, e.v, log);
    } else if e.Handle? && CanHandle(vm, e.v) {
      HandleExtends(g, vm, u, e.v, log);
    } else {
      OtherExtends(g, vm, u, e, log);
    }
  }

  /** What earlier modules establish of such a run. */
  lemma SoloFacts<R(!new)>(g: Guest<R>, vm: Vm<R>, es: seq<Event>)
    requires SoloRunOf(g, vm, es)
    ensures var s := Exec(g, vm, es);
            Inv(g, s) && Solo(s) && Sim(s, Ghostly(g, vm, es)) && s.core.cfg == vm.core.cfg
  {
    RunKeepsInv(g, vm, es);
    SoloRun(g, vm, es);
    SoloTransparent(g, vm, es);
  }

  /** The log is what arrived since `base`, and the hooks are live. */
  ghost predicate Captured<R>(g: Guest<R>, vm: Vm<R>, es: seq<Event>, base: nat) {
    var s, u := Exec(g, vm, es), Ghostly(g, vm, es);
    Live(s.core) && base <= |u.arrivals| && s.hits == u.arrivals[base..] + InFlight(s)
  }

  /** From the moment the hooks are live, the log is the sequence of arrivals: none missed, none doubled,
      none out of order. */
  lemma {:induction false} CaptureFrom<R(!new)>(g: Guest<R>, vm: Vm<R>, es: seq<Event>, k: nat)
    requires SoloRunOf(g, vm, es) && k <= |es| && ArmedAt(g, vm, es, k) && QuietFrom(g, vm, es, k)
    ensures Captured(g, vm, es, ArrivedBy(g, vm, es, k))
    decreases |es|
  {
    if k == |es| {
      CaptureStart(g, vm, es);
    } else {
      var front := es[..|es| - 1];
      assert front[..k] == es[..k];
      QuietPrefix(g, vm, es, k);
      CaptureFrom(g, vm, front, k);
      CaptureStep(g, vm, es, ArrivedBy(g, vm, es, k));
    }
  }

  lemma CaptureStart<R>(g: Guest<R>, vm: Vm<R>, es: seq<Event>)
    requires ArmedAt(g, vm, es, |es|)
    ensures Captured(g, vm, es, ArrivedBy(g, vm, es, |es|))
  {
    assert es[..|es|] == es;
  }

  lemma CaptureStep<R(!new)>(g: Guest<R>, vm: Vm<R>, es: seq<Event>, base: nat)
    requires es != [] && SoloRunOf(g, vm, es[..|es| - 1]) && Captured(g, vm, es[..|es| - 1], base)
    requires Quiet(Exec(g, vm, es[..|es| - 1]), es[|es| - 1])
    ensures Captured(g, vm, es, base)
  {
    var s, u, e := Exec(g, vm, es[..|es| - 1]), Ghostly(g, vm, es[..|es| - 1]), es[|es| - 1];
    SoloFacts(g, vm, es[..|es| - 1]);
    StepLive(g, s, e);
    LiveStep(g, s, u, e, u.arrivals[base..]);
    GhostlyStep(g, vm, es);
    Extend(u.arrivals, After(g, s, u, e).arrivals, base);
  }

  lemma Extend<T>(xs: seq<T>, ys: seq<T>, n: nat)
    requires xs <= ys && n <= |xs|
    ensures ys[n..] == xs[n..] + ys[|xs|..]
  {
  }

  /** Progress: by the time another hit is logged, the instruction behind the previous one was executed. */
  lemma NoRetrapBeforeExecution<R(!new)>(g: Guest<R>, vm: Vm<R>, es: seq<Event>, k: nat)
    requires SoloRunOf(g, vm, es) && k <= |es| && ArmedAt(g, vm, es, k) && QuietFrom(g, vm, es, k)
    ensures var executed := |Ghostly(g, vm, es).arrivals| - ArrivedBy(g, vm, es, k);
            executed <= |Exec(g, vm, es).hits| <= executed + 1
  {
    CaptureFrom(g, vm, es, k);
  }

  // ---------------------------------------------------------------- before the first hit

  lemma FirstHitStep<R>(g: Guest<R>, vm: Vm<R>, e: Event)
    ensures vm.core.firstHit ==> Step(g, vm, e).core.firstHit
    ensures Step(g, vm, e).core.firstHit != vm.core.firstHit ==> Step(g, vm, e).hits != []
    ensures Step(g, vm, e).core.firstHit || Step(g, vm, e).hits == vm.hits
    ensures vm.hits <= Step(g, vm, e).hits
  {
  }

  /** The first-hit flag says exactly whether anything was logged. */
  lemma {:induction false} FirstHitIffLogged<R>(g: Guest<R>, vm: Vm<R>, es: seq<Event>)
    requires Init(vm)
    ensures Exec(g, vm, es).core.firstHit <==> Exec(g, vm, es).hits != []
  {
    if es != [] {
      FirstHitIffLogged(g, vm, es[..|es| - 1]);
      FirstHitStep(g, Exec(g, vm, es[..|es| - 1]), es[|es| - 1]);
    }
  }

  /** The step re-arms the hooks successfully. */
  ghost predicate Rearms<R>(vm: Vm<R>, e: Event) {
    && vm.core.cfg.enabled && !vm.core.firstHit && !vm.core.bootSync
    && match e
       case Tick(mapped) => vm.core.timer && mapped
       case Resume(mapped) => !vm.core.timer && mapped
       case Dma(v, req, fault, mapped) =>
         mapped && CanRun(vm, v) && FwCfg.Fires(req, FwCfg.Transfer(vm.fw, vm.core.kvm.ram, req, fault))
       case _ => false
  }

  /** Boot-sync succeeded in this step. */
  ghost predicate BootSyncs<R>(vm: Vm<R>, e: Event) {
    e.Dma? && Rearms(vm, e)
  }

  /** A successful re-arming of either kind makes the hooks live. */
  lemma RearmLive<R>(g: Guest<R>, vm: Vm<R>, e: Event)
    requires Inv(g, vm) && Rearms(vm, e) && CleanDma(vm, e)
    ensures Live(Step(g, vm, e).core) && !Step(g, vm, e).core.firstHit && Step(g, vm, e).hits == vm.hits
    ensures forall v :: 0 <= v < |vm.core.dbg| ==> !Step(g, vm, e).core.dbg[v].stepping
    ensures Step(g, vm, e).core.bootSync == BootSyncs(vm, e)
  {
    var c := vm.core;
    forall v | 0 <= v < |vm.core.dbg| ensures !c.dbg[v].stepping {
      assert CpuOk(g, vm, v);
    }
    if e.Dma? {
      var t := FwCfg.Transfer(vm.fw, c.kvm.ram, e.req, e.fault);
      c := c.(kvm := c.kvm.(ram := t.ram));
      forall h | h in c.cfg.Hooks() ensures t.ram[h] == INT3 ==> vm.core.kvm.ram[h] == INT3 {
        FwCfg.TransferAt(vm.fw, vm.core.kvm.ram, e.req, e.fault, h);
        assert LandsAt(vm, e, h) != Some(INT3);
      }
    }
    ArmOnceEffect(c.cfg, c.kvm, true);
    ArmedIsLive(c, Step(g, vm, e).core);
  }

  /** Exact capture from the first syscall: when boot-sync succeeds in step `k`, the log from then on is
      exactly the sequence of arrivals after the load, whatever the poll timer did before. */
  lemma CaptureFromBootSync<R(!new)>(g: Guest<R>, vm: Vm<R>, es: seq<Event>, k: nat)
    requires SoloRunOf(g, vm, es) && k < |es| && BootSyncs(At(g, vm, es, k), es[k])
    requires QuietFrom(g, vm, es, k + 1)
    ensures ArrivedBy(g, vm, es, k + 1) <= |Ghostly(g, vm, es).arrivals|
    ensures var end := Exec(g, vm, es);
            end.hits == Ghostly(g, vm, es).arrivals[ArrivedBy(g, vm, es, k + 1)..] + InFlight(end)
  {
    CaptureAfterRearm(g, vm, es, k);
  }

  lemma CaptureAfterRearm<R(!new)>(g: Guest<R>, vm: Vm<R>, es: seq<Event>, k: nat)
    requires SoloRunOf(g, vm, es) && k < |es| && Rearms(At(g, vm, es, k), es[k])
    requires QuietFrom(g, vm, es, k + 1)
    ensures ArrivedBy(g, vm, es, k + 1) <= |Ghostly(g, vm, es).arrivals|
    ensures var end := Exec(g, vm, es);
            end.hits == Ghostly(g, vm, es).arrivals[ArrivedBy(g, vm, es, k + 1)..] + InFlight(end)
  {
    CleanPrefix(g, vm, es, k);
    CleanPrefix(g, vm, es, k + 1);
    LastOf(g, vm, es, k);
    RunKeepsInv(g, vm, es[..k]);
    FirstHitIffLogged(g, vm, es[..k]);
    RearmLive(g, At(g, vm, es, k), es[k]);
    CaptureFrom(g, vm, es, k + 1);
  }

  lemma {:induction false} QuietSuffix<R>(g: Guest<R>, vm: Vm<R>, es: seq<Event>, k: nat)
    requires k <= |es| && QuietFrom(g, vm, es, k)
    ensures Exec(g, At(g, vm, es, k), es[k..]) == Exec(g, vm, es)
    ensures QuietRun(g, At(g, vm, es, k), es[k..])
    decreases |es|
  {
    if k == |es| {
      assert es[..k] == es && es[k..] == [];
    } else {
      var front, rest := es[..|es| - 1], es[k..];
      assert front[..k] == es[..k] && rest[..|rest| - 1] == front[k..];
      QuietPrefix(g, vm, es, k);
      QuietSuffix(g, vm, front, k);
      assert At(g, vm, es, |front|) == Exec(g, vm, front);
    }
  }

  /** From power-on, with any number of vCPUs: after a successful arm, by the timer or by boot-sync, each hook
      is at every later point planted with a single user exactly when no vCPU is stepping over it. */
  lemma LiveAfterArm<R(!new)>(g: Guest<R>, vm: Vm<R>, es: seq<Event>, k: nat)
    requires Init(vm) && CodeOnly(g, vm.core.cfg.Hooks()) && CleanRun(g, vm, es)
    requires k < |es| && Rearms(At(g, vm, es, k), es[k]) && QuietFrom(g, vm, es, k + 1)
    ensures Inv(g, Exec(g, vm, es)) && Live(Exec(g, vm, es).core)
  {
    CleanPrefix(g, vm, es, k);
    CleanPrefix(g, vm, es, k + 1);
    LastOf(g, vm, es, k);
    RunKeepsInv(g, vm, es[..k]);
    RunKeepsInv(g, vm, es[..k + 1]);
    RearmLive(g, At(g, vm, es, k), es[k]);
    QuietSuffix(g, vm, es, k + 1);
    LiveForever(g, At(g, vm, es, k + 1), es[k + 1..]);
  }

  // ---------------------------------------------------------------- polling alone

  /** The load has overwritten whatever was planted and nobody is mid-step-over. */
  ghost predicate Blank<R>(vm: Vm<R>) {
    && (forall h :: h in vm.core.cfg.Hooks() && h < |vm.core.kvm.ram| ==> vm.core.kvm.ram[h] != INT3)
    && (forall v :: 0 <= v < |vm.core.dbg| ==> !vm.core.dbg[v].stepping)
    && (forall v :: 0 <= v < |vm.cpus| ==> vm.cpus[v].exit.NoExit?)
  }

  ghost predicate NoRearm<R>(g: Guest<R>, vm: Vm<R>, es: seq<Event>, l: nat)
    requires l <= |es|
  {
    forall j {:trigger At(g, vm, es, j)} :: l <= j < |es| ==>
      Quiet(At(g, vm, es, j), es[j]) && !Rearms(At(g, vm, es, j), es[j])
  }

  lemma BlankStep<R(!new)>(g: Guest<R>, vm: Vm<R>, e: Event)
    requires Inv(g, vm) && CodeOnly(g, vm.core.cfg.Hooks()) && Blank(vm) && Quiet(vm, e) && !Rearms(vm, e)
    ensures Blank(Step(g, vm, e)) && Step(g, vm, e).hits == vm.hits
    ensures Step(g, vm, e).core.firstHit == vm.core.firstHit
  {
    match e
    case Run(v) => if CanRun(vm, v) { RunBlank(g, vm, v); }
    case Handle(_, _) =>
    case Tick(_) => TimerBlank(g, vm, e);
    case Resume(_) => TimerBlank(g, vm, e);
    case Dma(v, _, _, _) => if CanRun(vm, v) { DmaBlank(g, vm, e); }
  }

  lemma RunBlank<R(!new)>(g: Guest<R>, vm: Vm<R>, v: nat)
    requires Inv(g, vm) && CodeOnly(g, vm.core.cfg.Hooks()) && Blank(vm) && CanRun(vm, v)
    ensures Blank(RunCpu(g, vm, v))
  {
    assert CpuOk(g, vm, v);
    assert SameOn(vm.core.kvm.ram, g.step(vm.cpus[v].regs, vm.core.kvm.ram).1, vm.core.cfg.Hooks());
  }

  lemma TimerBlank<R>(g: Guest<R>, vm: Vm<R>, e: Event)
    requires Inv(g, vm) && Blank(vm) && (e.Tick? || e.Resume?) && !Rearms(vm, e)
    ensures Blank(Step(g, vm, e)) && Step(g, vm, e).core.firstHit == vm.core.firstHit
  {
    if vm.core.cfg.enabled {
      ArmOnceEffect(vm.core.cfg, vm.core.kvm, e.mapped);
    }
  }

  lemma DmaBlank<R>(g: Guest<R>, vm: Vm<R>, e: Event)
    requires Inv(g, vm) && Blank(vm) && Quiet(vm, e) && !Rearms(vm, e) && e.Dma? && CanRun(vm, e.v)
    ensures Blank(ServeDma(vm, e.req, e.fault, e.mapped))
  {
    var t := FwCfg.Transfer(vm.fw, vm.core.kvm.ram, e.req, e.fault);
    forall h | h in vm.core.cfg.Hooks() ensures t.ram[h] == vm.core.kvm.ram[h] {
      FwCfg.TransferAt(vm.fw, vm.core.kvm.ram, e.req, e.fault, h);
      assert LandsAt(vm, e, h) == None;
    }
    var c := vm.core.(kvm := vm.core.kvm.(ram := t.ram));
    if c.cfg.enabled {
      ArmOnceEffect(c.cfg, c.kvm, e.mapped);
    }
  }

  lemma NoRearmFront<R>(g: Guest<R>, vm: Vm<R>, es: seq<Event>, l: nat)
    requires l < |es| && NoRearm(g, vm, es, l)
    ensures var front, e := es[..|es| - 1], es[|es| - 1];
            NoRearm(g, vm, front, l) && Quiet(Exec(g, vm, front), e) && !Rearms(Exec(g, vm, front), e)
  {
    var front := es[..|es| - 1];
    forall j | l <= j < |front|
      ensures Quiet(At(g, vm, front, j), front[j]) && !Rearms(At(g, vm, front, j), front[j])
    {
      assert front[..j] == es[..j];
      assert Quiet(At(g, vm, es, j), es[j]);
    }
    assert At(g, vm, es, |front|) == Exec(g, vm, front);
  }

  /** Nothing is logged between the load and the first re-arming that follows it. */
  lemma {:induction false} SilentUntilRearm<R(!new)>(g: Guest<R>, vm: Vm<R>, es: seq<Event>, l: nat)
    requires Init(vm) && CodeOnly(g, vm.core.cfg.Hooks()) && CleanRun(g, vm, es)
    requires l <= |es| && Blank(At(g, vm, es, l)) && NoRearm(g, vm, es, l)
    ensures var end := Exec(g, vm, es);
            Blank(end) && end.hits == At(g, vm, es, l).hits && end.core.firstHit == At(g, vm, es, l).core.firstHit
    decreases |es|
  {
    if l == |es| {
      assert es[..l] == es;
    } else {
      var front := es[..|es| - 1];
      assert front[..l] == es[..l];
      NoRearmFront(g, vm, es, l);
      SilentUntilRearm(g, vm, front, l);
      RunKeepsInv(g, vm, front);
      BlankStep(g, Exec(g, vm, front), es[|es| - 1]);
    }
  }

  /** The arming race decided: if nothing was hit before the load (complete at `l`), let `k` be the first
      successful re-arming after it, by the timer or by boot-sync. The log is exactly the arrivals after `k`;
      if there is none, for instance because the attempts ran out, the log is empty. */
  lemma {:induction false} CaptureFromPolling<R(!new)>(g: Guest<R>, vm: Vm<R>, es: seq<Event>, l: nat) returns (k: nat)
    requires SoloRunOf(g, vm, es) && l <= |es| && QuietFrom(g, vm, es, l)
    requires Blank(At(g, vm, es, l)) && !At(g, vm, es, l).core.firstHit
    ensures l <= k <= |es| && NoRearm(g, vm, es[..k], l)
    ensures k < |es| ==>
              && Rearms(At(g, vm, es, k), es[k])
              && ArrivedBy(g, vm, es, k + 1) <= |Ghostly(g, vm, es).arrivals|
              && var end := Exec(g, vm, es);
                 end.hits == Ghostly(g, vm, es).arrivals[ArrivedBy(g, vm, es, k + 1)..] + InFlight(end)
    ensures k == |es| ==> Exec(g, vm, es).hits == []
  {
    k := FirstRearm(g, vm, es, l);
    NoRearmUpTo(g, vm, es, l, k);
    if k < |es| {
      CaptureAfterRearm(g, vm, es, k);
    } else {
      assert es[..k] == es;
      FirstHitIffLogged(g, vm, es[..l]);
      SilentUntilRearm(g, vm, es, l);
    }
  }

  /** The first successful re-arming from `l` on, or the end of the run. */
  ghost function FirstRearm<R>(g: Guest<R>, vm: Vm<R>, es: seq<Event>, l: nat): (k: nat)
    requires l <= |es|
    ensures l <= k <= |es| && (k < |es| ==> Rearms(At(g, vm, es, k), es[k]))
    ensures forall j :: l <= j < k ==> !Rearms(At(g, vm, es, j), es[j])
    decreases |es| - l
  {
    if l == |es| || Rearms(At(g, vm, es, l), es[l]) then l else FirstRearm(g, vm, es, l + 1)
  }

  lemma NoRearmUpTo<R>(g: Guest<R>, vm: Vm<R>, es: seq<Event>, l: nat, k: nat)
    requires l <= k <= |es| && QuietFrom(g, vm, es, l)
    requires forall j :: l <= j < k ==> !Rearms(At(g, vm, es, j), es[j])
    ensures NoRearm(g, vm, es[..k], l)
  {
    forall j | l <= j < k
      ensures Quiet(At(g, vm, es[..k], j), es[..k][j]) && !Rearms(At(g, vm, es[..k], j), es[..k][j])
    {
      assert es[..k][..j] == es[..j];
      assert Quiet(At(g, vm, es, j), es[j]);
    }
  }

  /** A hit before the load switches every arming path off, so that the load then blinds the monitor for
      good: capture after the load is possible exactly when no hit preceded it. */
  lemma EarlyHitBlinds<R(!new)>(g: Guest<R>, vm: Vm<R>, es: seq<Event>, l: nat)
    requires Init(vm) && CodeOnly(g, vm.core.cfg.Hooks()) && CleanRun(g, vm, es)
    requires l <= |es| && Blank(At(g, vm, es, l)) && At(g, vm, es, l).core.firstHit && QuietFrom(g, vm, es, l)
    ensures Exec(g, vm, es).hits == At(g, vm, es, l).hits
  {
    forall j | l <= j < |es| ensures !Rearms(At(g, vm, es, j), es[j]) {
      FirstHitStays(g, vm, es, l, j);
    }
    assert forall j {:trigger At(g, vm, es, j)} :: l <= j < |es| ==> Quiet(At(g, vm, es, j), es[j]);
    SilentUntilRearm(g, vm, es, l);
  }

  lemma {:induction false} FirstHitRun<R>(g: Guest<R>, vm: Vm<R>, es: seq<Event>, l: nat)
    requires l <= |es| && At(g, vm, es, l).core.firstHit
    ensures Exec(g, vm, es).core.firstHit
    decreases |es|
  {
    if l == |es| {
      assert es[..l] == es;
    } else {
      assert es[..|es| - 1][..l] == es[..l];
      FirstHitRun(g, vm, es[..|es| - 1], l);
      FirstHitStep(g, Exec(g, vm, es[..|es| - 1]), es[|es| - 1]);
    }
  }

  lemma FirstHitStays<R>(g: Guest<R>, vm: Vm<R>, es: seq<Event>, l: nat, j: nat)
    requires l <= j <= |es| && At(g, vm, es, l).core.firstHit
    ensures At(g, vm, es, j).core.firstHit
  {
    assert es[..j][..l] == es[..l];
    FirstHitRun(g, vm, es[..j], l);
  }

  /** The guest is at the entry hook with one vCPU, and `req` is a request that overwrites every hook. */
  ghost predicate HitThenLoad<R(!new)>(g: Guest<R>, vm: Vm<R>, req: FwCfg.Request) {
    && SoloRunOf(g, vm, []) && g.pc(vm.cpus[0].regs) == vm.core.cfg.entry
    && forall h :: h in vm.core.cfg.Hooks() ==>
         var w := FwCfg.Landed(vm.fw, |vm.core.kvm.ram|, req, FwCfg.NO_FAULT, h);
         w.Some? && w.value != INT3
  }

  const EARLY: seq<Event> := [Resume(true)] + [Run(0)] + [Handle(0, true)] + [Run(0)] + [Handle(0, true)]

  /** A pass through the hook before the load. */
  lemma EarlyPass<R(!new)>(g: Guest<R>, vm: Vm<R>, req: FwCfg.Request)
    requires HitThenLoad(g, vm, req)
    ensures var s := Exec(g, vm, EARLY);
            && CleanRun(g, vm, EARLY) && Inv(g, s) && s.core.cfg == vm.core.cfg && s.core.firstHit
            && s.hits == [HitAt(0, vm.core.cfg.entry, vm.cpus[0].regs)]
            && |s.cpus| == 1 && s.cpus[0].exit.NoExit? && !s.core.dbg[0].stepping
            && s.fw == vm.fw && |s.core.kvm.ram| == |vm.core.kvm.ram|
  {
    var h := vm.core.cfg.entry;
    assert [] + [Resume(true)] == [Resume(true)];
    Snoc(g, vm, [], Resume(true));
    ArmOnceEffect(vm.core.cfg, vm.core.kvm, true);
    var s1 := Exec(g, vm, [Resume(true)]);
    assert Planted(s1.core.kvm, h) && s1.cpus == vm.cpus && s1.hits == [];
    Snoc(g, vm, [Resume(true)], Run(0));
    var s2 := Step(g, s1, Run(0));
    assert s2.cpus[0] == Cpu(vm.cpus[0].regs, AtHook(h));
    Snoc(g, vm, [Resume(true)] + [Run(0)], Handle(0, true));
    Snoc(g, vm, [Resume(true)] + [Run(0)] + [Handle(0, true)], Run(0));
    Snoc(g, vm, [Resume(true)] + [Run(0)] + [Handle(0, true)] + [Run(0)], Handle(0, true));
    PassDone(g, s2, h);
    RunKeepsInv(g, vm, EARLY);
  }

  /** The four steps of a pass, from the trap on. */
  lemma PassDone<R(!new)>(g: Guest<R>, vm: Vm<R>, h: Addr)
    requires |vm.cpus| == |vm.core.dbg| == 1 && !vm.stopped && CodeOnly(g, vm.core.cfg.Hooks())
    requires h in vm.core.cfg.Hooks() && Planted(vm.core.kvm, h)
    requires vm.core.kvm.bps[h].uses == 1 && vm.core.kvm.bps[h].saved != INT3
    requires !vm.core.dbg[0].stepping && vm.cpus[0].exit == AtHook(h) && g.pc(vm.cpus[0].regs) == h
    ensures var end := Step(g, Step(g, Step(g, vm, Handle(0, true)), Run(0)), Handle(0, true));
            && end.core.firstHit && end.hits == vm.hits + [HitAt(0, h, vm.cpus[0].regs)] && end.fw == vm.fw
            && |end.cpus| == 1 && end.cpus[0].exit.NoExit? && !end.core.dbg[0].stepping
            && |end.core.kvm.ram| == |vm.core.kvm.ram|
  {
    RemoveEffect(vm.core.kvm, h, true);
    var s := Step(g, vm, Handle(0, true));
    assert s.core.dbg[0] == Dbg(true, h, true) && s.cpus[0] == Cpu(vm.cpus[0].regs, NoExit);
    assert !Traps(g, s, 0);
    assert SameOn(s.core.kvm.ram, g.step(s.cpus[0].regs, s.core.kvm.ram).1, vm.core.cfg.Hooks());
    assert Step(g, s, Run(0)).cpus[0].exit == Stepped;
  }

  lemma EarlyLoad<R(!new)>(g: Guest<R>, vm: Vm<R>, req: FwCfg.Request)
    requires HitThenLoad(g, vm, req)
    ensures var es := EARLY + [Dma(0, req, FwCfg.NO_FAULT, true)];
            var s := Exec(g, vm, es);
            && CleanRun(g, vm, es) && Blank(s) && s.core.firstHit
            && s.hits == [HitAt(0, vm.core.cfg.entry, vm.cpus[0].regs)]
  {
    EarlyPass(g, vm, req);
    Snoc(g, vm, EARLY, Dma(0, req, FwCfg.NO_FAULT, true));
    WipedByLoad(g, Exec(g, vm, EARLY), Dma(0, req, FwCfg.NO_FAULT, true));
  }

  /** It does happen: whatever the guest, if it runs into an armed hook before the load, the log ends with that
      one hit, in every run that goes on from there. */
  lemma EarlyHitHappens<R(!new)>(g: Guest<R>, vm: Vm<R>, req: FwCfg.Request, es: seq<Event>)
    requires HitThenLoad(g, vm, req) && |es| >= 6 && es[..6] == EARLY + [Dma(0, req, FwCfg.NO_FAULT, true)]
    ensures CleanRun(g, vm, es[..6])
    ensures CleanRun(g, vm, es) && QuietFrom(g, vm, es, 6) ==>
              Exec(g, vm, es).hits == [HitAt(0, vm.core.cfg.entry, vm.cpus[0].regs)]
  {
    EarlyLoad(g, vm, req);
    if CleanRun(g, vm, es) && QuietFrom(g, vm, es, 6) {
      EarlyHitBlinds(g, vm, es, 6);
    }
  }

  lemma WipedByLoad<R>(g: Guest<R>, vm: Vm<R>, e: Event)
    requires Inv(g, vm) && vm.core.firstHit && e.Dma? && CanRun(vm, e.v)
    requires forall h :: h in vm.core.cfg.Hooks() ==> LandsAt(vm, e, h).Some? && LandsAt(vm, e, h).value != INT3
    requires |vm.cpus| == 1 && vm.cpus[0].exit.NoExit? && !vm.core.dbg[0].stepping
    ensures CleanDma(vm, e) && Blank(Step(g, vm, e)) && Step(g, vm, e).hits == vm.hits
    ensures Step(g, vm, e).core.firstHit
  {
    var t := FwCfg.Transfer(vm.fw, vm.core.kvm.ram, e.req, e.fault);
    forall h | h in vm.core.cfg.Hooks() ensures t.ram[h] != INT3 {
      FwCfg.TransferAt(vm.fw, vm.core.kvm.ram, e.req, e.fault, h);
      assert LandsAt(vm, e, h) == FwCfg.Landed(vm.fw, |vm.core.kvm.ram|, e.req, e.fault, h);
    }
    var c := vm.core.(kvm := vm.core.kvm.(ram := t.ram));
    assert KernelLoaded(c, e.mapped) == c;
    assert Step(g, vm, e) == vm.(fw := t.dev, core := c);
  }

  /** Arming is over. */
  predicate Settled<R>(vm: Vm<R>) {
    vm.core.firstHit || vm.core.bootSync
  }

  /** Once a hit was seen or boot-sync succeeded, at every later point of every run neither the timer nor a VM
      state change nor another load writes a hook or touches the list. */
  lemma ArmingOver<R>(g: Guest<R>, vm: Vm<R>, es: seq<Event>, l: nat, j: nat)
    requires l <= j < |es| && Settled(At(g, vm, es, l))
    ensures var s, s' := At(g, vm, es, j), At(g, vm, es, j + 1);
            && (es[j].Tick? || es[j].Resume? ==> s'.core.kvm == s.core.kvm)
            && (es[j].Dma? && CanRun(s, es[j].v) ==>
                  var t := FwCfg.Transfer(s.fw, s.core.kvm.ram, es[j].req, es[j].fault);
                  s'.core.kvm == State(t.ram, s.core.kvm.bps))
  {
    assert es[..j][..l] == es[..l];
    SettledRun(g, vm, es[..j], l);
    LastOf(g, vm, es, j);
    var s, e := At(g, vm, es, j), es[j];
    if e.Tick? || e.Resume? {
      StandDown(s.core, e.mapped);
    } else if e.Dma? && CanRun(s, e.v) {
      var t := FwCfg.Transfer(s.fw, s.core.kvm.ram, e.req, e.fault);
      StandDown(s.core.(kvm := s.core.kvm.(ram := t.ram)), e.mapped);
    }
  }

  lemma {:induction false} SettledRun<R>(g: Guest<R>, vm: Vm<R>, es: seq<Event>, l: nat)
    requires l <= |es| && Settled(At(g, vm, es, l))
    ensures Settled(Exec(g, vm, es))
    decreases |es|
  {
    if l == |es| {
      assert es[..l] == es;
    } else {
      assert es[..|es| - 1][..l] == es[..l];
      SettledRun(g, vm, es[..|es| - 1], l);
      SettledStep(g, Exec(g, vm, es[..|es| - 1]), es[|es| - 1]);
    }
  }

  lemma SettledStep<R>(g: Guest<R>, vm: Vm<R>, e: Event)
    requires Settled(vm)
    ensures Settled(Step(g, vm, e))
  {
  }
}
