/** The monitor inside QEMU: arming, the boot-sync hook, and its two branches of the debug-exit handler. */
module Monitor {
  import opened Options
  import opened Kvm

  const MAX_ATTEMPTS: nat := 100

  /** What the environment variables set up: the entry hook and, optionally, the return hook. */
  datatype Config = Config(enabled: bool, entry: Addr, ret: Option<Addr>) {
    /** A return hook equal to the entry hook is rejected at start-up. */
    predicate Valid() {
      ret.Some? ==> ret.value != entry
    }

    function Hooks(): set<Addr> {
      if !enabled then {} else if ret.Some? then {entry, ret.value} else {entry}
    }
  }

  /** vmi_monitor_init(): the monitor is on when an entry address is given and the log opens; a return hook
      that is zero or the entry itself is dropped. */
  function Setup(entry: Option<Addr>, ret: Option<Addr>, logOpens: bool): (cfg: Config)
    ensures cfg.Valid()
    ensures cfg.enabled <==> entry.Some? && entry.value != 0 && logOpens
    ensures cfg.enabled ==> entry.value in cfg.Hooks() && 0 !in cfg.Hooks()
    ensures cfg.enabled ==>
              cfg.Hooks() == {entry.value} + (if ret.Some? && ret.value != 0 then {ret.value} else {})
    ensures cfg.enabled ==> cfg.entry == entry.value
  {
    if entry.None? || entry.value == 0 then Config(false, 0, None)
    else
      var usable := ret.Some? && ret.value != 0 && ret.value != entry.value;
      Config(logOpens, entry.value, if usable then ret else None)
  }

  /** The per-vCPU record: VMI_STEPPING or VMI_NORMAL, the hook being stepped over, KVM's single-step flag. */
  datatype Dbg = Dbg(stepping: bool, stepAddr: Addr, singleStep: bool)

  datatype Core = Core(
    cfg: Config,
    kvm: State,
    firstHit: bool,
    bootSync: bool,
    timer: bool,
    attempts: nat,
    dbg: seq<Dbg>)

  // ---------------------------------------------------------------- arming

  /** Remove, insert, read back; a failed read-back undoes the insertion. */
  function ArmAddr(k: State, a: Addr, mapped: bool): (State, bool) {
    var k1 := Remove(k, a, mapped).0;
    var (k2, inserted) := Insert(k1, a, mapped);
    if !inserted then (k2, false)
    else if !Reachable(k2, a, mapped) || k2.ram[a] != INT3 then (Remove(k2, a, mapped).0, false)
    else (k2, true)
  }

  function ArmOnce(cfg: Config, k: State, mapped: bool): (State, bool) {
    var (k1, ok) := ArmAddr(k, cfg.entry, mapped);
    if !ok then (k1, false)
    else if cfg.ret.None? then (k1, true)
    else
      var (k2, ok2) := ArmAddr(k1, cfg.ret.value, mapped);
      if !ok2 then (Remove(k2, cfg.entry, mapped).0, false) else (k2, true)
  }

  /** One poll tick: stand down once a hit or boot-sync proved the trap live, else re-arm. */
  function TryArm(c: Core, mapped: bool): Core {
    if c.firstHit || c.bootSync then c.(timer := false)
    else
      var n := c.attempts + 1;
      c.(kvm := ArmOnce(c.cfg, c.kvm, mapped).0, attempts := n, timer := n < MAX_ATTEMPTS)
  }

  /** The VM entered the running state. */
  function Running(c: Core, mapped: bool): Core {
    if !c.cfg.enabled || c.timer then c
    else TryArm(c.(attempts := 0, timer := true), mapped)
  }

  /** The kernel image is complete in RAM. */
  function KernelLoaded(c: Core, mapped: bool): Core {
    if !c.cfg.enabled || c.bootSync || c.firstHit then c
    else
      var (k, ok) := ArmOnce(c.cfg, c.kvm, mapped);
      if ok then c.(kvm := k, bootSync := true, timer := false) else c.(kvm := k)
  }

  // ---------------------------------------------------------------- the debug exit

  /** What KVM reports: a debug exception (single-step or hardware match) or a trap byte at `pc`. */
  datatype DebugInfo = DebugInfo(db: bool, bs: bool, hwMatch: bool, pc: Addr)

  datatype Outcome = Hit | StepDone | ExcpDebug | Reinject {
    predicate Consumed() { Hit? || StepDone? }
  }

  function BreakpointHit(c: Core, v: nat, pc: Addr, mapped: bool): Core
    requires v < |c.dbg|
  {
    var c1 := c.(firstHit := true, timer := c.timer && c.firstHit);
    var (k, ok) := Remove(c1.kvm, pc, mapped);
    if !ok then c1
    else c1.(kvm := k, dbg := c1.dbg[v := Dbg(true, pc, true)])
  }

  function StepComplete(c: Core, v: nat, mapped: bool): Core
    requires v < |c.dbg|
  {
    var d := c.dbg[v];
    c.(kvm := Insert(c.kvm, d.stepAddr, mapped).0, dbg := c.dbg[v := d.(stepping := false, singleStep := false)])
  }

  /** kvm_handle_debug() before the patch. */
  function StockHandle(k: State, singleStep: bool, info: DebugInfo): Outcome {
    if info.db then
      if (if info.bs then singleStep else info.hwMatch) then ExcpDebug else Reinject
    else if info.pc in k.bps then ExcpDebug
    else Reinject
  }

  /** kvm_handle_debug() after the patch. */
  function HandleDebug(c: Core, v: nat, info: DebugInfo, mapped: bool): (Core, Outcome)
    requires v < |c.dbg|
  {
    if info.db && info.bs && c.cfg.enabled && c.dbg[v].stepping then
      (StepComplete(c, v, mapped), StepDone)
    else if !info.db && info.pc in c.kvm.bps && info.pc in c.cfg.Hooks() && !c.dbg[v].stepping then
      (BreakpointHit(c, v, info.pc, mapped), Hit)
    else
      (c, StockHandle(c.kvm, c.dbg[v].singleStep, info))
  }

  // ---------------------------------------------------------------- what arming does

  /** One arm: with translation established it leaves a fresh trap whose saved byte is the viewed byte
      (so a clobbered or live earlier trap makes no difference); otherwise nothing at all changes. */
  lemma ArmAddrEffect(k: State, a: Addr, mapped: bool)
    requires a in k.bps ==> a < |k.ram| && k.bps[a].uses == 1
    ensures !Reachable(k, a, mapped) ==> ArmAddr(k, a, mapped) == (k, false)
    ensures Reachable(k, a, mapped) ==>
              ArmAddr(k, a, mapped) == (State(k.ram[a := INT3], k.bps[a := Bp(ViewByte(k, a), 1)]), true)
  {
    if !Reachable(k, a, mapped) {
      if a in k.bps {
        var bp := k.bps[a];
        assert k.bps[a := bp.(uses := 2)][a := bp] == k.bps;
      }
    } else if a in k.bps {
      RemoveEffect(k, a, mapped);
      assert (k.bps - {a})[a := Bp(ViewByte(k, a), 1)] == k.bps[a := Bp(ViewByte(k, a), 1)];
      assert k.ram[a := ViewByte(k, a)][a := INT3] == k.ram[a := INT3];
    }
  }

  /** A fresh trap leaves the view and every other address alone. */
  lemma PlantEffect(k: State, a: Addr, hooks: set<Addr>)
    requires SoleUser(k, hooks) && a in hooks && a < |k.ram|
    ensures var k' := State(k.ram[a := INT3], k.bps[a := Bp(ViewByte(k, a), 1)]);
            && View(k') == View(k)
            && SoleUser(k', hooks)
            && Planted(k', a)
            && forall b :: 0 <= b < |k.ram| && b != a ==> k'.ram[b] == k.ram[b] && ViewByte(k', b) == ViewByte(k, b)
  {
    var k' := State(k.ram[a := INT3], k.bps[a := Bp(ViewByte(k, a), 1)]);
    assert forall b :: 0 <= b < |k.ram| ==> View(k')[b] == View(k)[b];
  }

  /** Arming all hooks never changes what the guest sees; it plants all of them or changes nothing. */
  lemma ArmOnceEffect(cfg: Config, k: State, mapped: bool)
    requires cfg.Valid() && cfg.enabled && SoleUser(k, cfg.Hooks())
    requires forall h :: h in cfg.Hooks() ==> h < |k.ram|
    ensures var (k', ok) := ArmOnce(cfg, k, mapped);
            && ok == mapped
            && |k'.ram| == |k.ram|
            && View(k') == View(k)
            && SoleUser(k', cfg.Hooks())
            && (forall a :: 0 <= a < |k.ram| && a !in cfg.Hooks() ==> k'.ram[a] == k.ram[a])
            && (!ok ==> k' == k)
            && (ok ==> k'.bps.Keys == cfg.Hooks())
            && (ok ==> forall h :: h in cfg.Hooks() ==> Planted(k', h) && k'.bps[h].saved == ViewByte(k, h))
  {
    ArmAddrEffect(k, cfg.entry, mapped);
    if mapped {
      PlantEffect(k, cfg.entry, cfg.Hooks());
      if cfg.ret.Some? {
        var k1 := ArmAddr(k, cfg.entry, mapped).0;
        ArmAddrEffect(k1, cfg.ret.value, mapped);
        PlantEffect(k1, cfg.ret.value, cfg.Hooks());
      }
    }
  }

  /** Arming succeeds exactly when every hook can be reached. When the return hook cannot, the entry hook is not
      left armed alone: it is taken out, and the byte there is the one the guest should see. */
  lemma ArmOnceFails(cfg: Config, k: State, mapped: bool)
    requires cfg.Valid() && cfg.enabled && SoleUser(k, cfg.Hooks())
    ensures var (k', ok) := ArmOnce(cfg, k, mapped);
            && (ok <==> forall h :: h in cfg.Hooks() ==> mapped && h < |k.ram|)
            && (!ok ==>
                  k' == if mapped && cfg.entry < |k.ram|
                        then State(k.ram[cfg.entry := ViewByte(k, cfg.entry)], k.bps - {cfg.entry}) else k)
  {
    ArmAddrEffect(k, cfg.entry, mapped);
    if mapped && cfg.entry < |k.ram| && cfg.ret.Some? {
      PlantEffect(k, cfg.entry, cfg.Hooks());
      var k1 := ArmAddr(k, cfg.entry, mapped).0;
      ArmAddrEffect(k1, cfg.ret.value, mapped);
      if cfg.ret.value >= |k.ram| {
        RemoveEffect(k1, cfg.entry, mapped);
        assert k1.bps - {cfg.entry} == k.bps - {cfg.entry};
        assert k1.ram[cfg.entry := ViewByte(k, cfg.entry)] == k.ram[cfg.entry := ViewByte(k, cfg.entry)];
      }
    }
  }

  /** Boot-sync: it counts as done exactly when it armed, and only then stops the timer. */
  lemma BootSyncOutcome(c: Core, mapped: bool)
    requires c.cfg.Valid() && c.cfg.enabled && SoleUser(c.kvm, c.cfg.Hooks()) && !c.bootSync && !c.firstHit
    requires forall h :: h in c.cfg.Hooks() ==> h < |c.kvm.ram|
    ensures var c' := KernelLoaded(c, mapped);
            && c'.bootSync == mapped && !c'.firstHit && c'.dbg == c.dbg && c'.attempts == c.attempts
            && (mapped ==> !c'.timer && forall h :: h in c.cfg.Hooks() ==> Planted(c'.kvm, h))
            && (!mapped ==> c' == c)
  {
    ArmOnceEffect(c.cfg, c.kvm, mapped);
  }

  /** A hit: the first one stops the timer. The trap is lifted and the vCPU, and only that one, is stepping over
      it, unless the trap cannot be lifted. */
  lemma HitOutcome(c: Core, v: nat, pc: Addr, mapped: bool)
    requires v < |c.dbg| && Planted(c.kvm, pc) && c.kvm.bps[pc].uses == 1
    ensures var c' := BreakpointHit(c, v, pc, mapped);
            && c'.firstHit && c'.timer == (c.firstHit && c.timer) && c'.bootSync == c.bootSync
            && c'.attempts == c.attempts && c'.cfg == c.cfg
            && (mapped ==> && pc !in c'.kvm.bps && c'.kvm.ram == c.kvm.ram[pc := c.kvm.bps[pc].saved]
                           && c'.dbg == c.dbg[v := Dbg(true, pc, true)])
            && (!mapped ==> c'.kvm == c.kvm && c'.dbg == c.dbg)
  {
  }

  /** A whole pass leaves memory and list as they were, and the vCPU in NORMAL with single-step off. */
  lemma PassRestores(c: Core, v: nat, pc: Addr)
    requires v < |c.dbg| && Planted(c.kvm, pc) && c.kvm.bps[pc].uses == 1 && !c.dbg[v].stepping
    ensures var c' := StepComplete(BreakpointHit(c, v, pc, true), v, true);
            && c'.kvm == c.kvm && c'.dbg == c.dbg[v := Dbg(false, pc, false)]
            && c'.timer == (c.firstHit && c.timer) && c'.bootSync == c.bootSync
  {
    var k := BreakpointHit(c, v, pc, true).kvm;
    assert k.ram[pc := INT3] == c.kvm.ram;
    assert k.bps[pc := c.kvm.bps[pc]] == c.kvm.bps;
  }

  // ---------------------------------------------------------------- the handler on every exit

  /** Disabled, the patched handler is the stock one on every exit: it hands over to the debugger a single-step
      that one asked for, a hardware breakpoint that matches and a trap at a registered address, and delivers
      every other exception to the guest. */
  lemma DisabledIsStock(c: Core, v: nat, info: DebugInfo, mapped: bool)
    requires v < |c.dbg| && !c.cfg.enabled
    ensures HandleDebug(c, v, info, mapped) == (c, StockHandle(c.kvm, c.dbg[v].singleStep, info))
    ensures StockHandle(c.kvm, c.dbg[v].singleStep, info)
         == if (info.db && info.bs && c.dbg[v].singleStep) || (info.db && !info.bs && info.hwMatch)
               || (!info.db && info.pc in c.kvm.bps)
            then ExcpDebug else Reinject
  {
  }

  /** Enabled, the handler departs from stock exactly on the two exits the monitor owns; every other exit,
      including another debugger's, leaves all monitor state alone and ends as stock ends it: with the debugger
      for the three cases that are a debugger's, in the guest otherwise. */
  lemma ClaimedExactly(c: Core, v: nat, info: DebugInfo, mapped: bool)
    requires v < |c.dbg| && c.cfg.enabled
    ensures var (c', o) := HandleDebug(c, v, info, mapped);
            && (o.StepDone? <==> info.db && info.bs && c.dbg[v].stepping)
            && (o.Hit? <==> !info.db && info.pc in c.kvm.bps && info.pc in c.cfg.Hooks() && !c.dbg[v].stepping)
            && (!o.Consumed() ==> c' == c && o == StockHandle(c.kvm, c.dbg[v].singleStep, info))
            && (!o.Consumed() ==>
                  (o.ExcpDebug? <==> || (info.db && info.bs && c.dbg[v].singleStep)
                                     || (info.db && !info.bs && info.hwMatch)
                                     || (!info.db && info.pc in c.kvm.bps)))
  {
  }

  /** Once a hit was seen or boot-sync succeeded, polling changes neither memory nor the list, and neither
      does the boot-sync hook firing again. */
  lemma StandDown(c: Core, mapped: bool)
    requires c.firstHit || c.bootSync
    ensures TryArm(c, mapped) == c.(timer := false)
    ensures Running(c, mapped).kvm == c.kvm
    ensures KernelLoaded(c, mapped) == c
  {
  }

  /** The timer's ticks, one per element, while it is running. */
  function Ticks(c: Core, mapped: seq<bool>): Core {
    if mapped == [] then c
    else
      var c1 := Ticks(c, mapped[..|mapped| - 1]);
      if c1.timer then TryArm(c1, mapped[|mapped| - 1]) else c1
  }

  /** Left to itself the timer makes its hundred attempts, successful or not, and then gives up. */
  lemma {:induction false} GivesUp(c: Core, mapped: seq<bool>)
    requires !c.firstHit && !c.bootSync && c.timer && c.attempts < 100
    ensures var c' := Ticks(c, mapped);
            && c'.attempts == (if c.attempts + |mapped| < 100 then c.attempts + |mapped| else 100)
            && c'.timer == (c.attempts + |mapped| < 100)
            && !c'.firstHit && !c'.bootSync
  {
    if mapped != [] {
      GivesUp(c, mapped[..|mapped| - 1]);
    }
  }

  /** Each time the VM starts to run with no timer going, whatever earlier sequences did, a new sequence of a
      hundred attempts begins, the first of them at once. */
  lemma FreshSequence(c: Core, now: bool, mapped: seq<bool>)
    requires c.cfg.enabled && !c.timer && !c.firstHit && !c.bootSync
    ensures Running(c, now).kvm == ArmOnce(c.cfg, c.kvm, now).0
    ensures var c' := Ticks(Running(c, now), mapped);
            && c'.attempts == (if 1 + |mapped| < 100 then 1 + |mapped| else 100)
            && c'.timer == (1 + |mapped| < 100)
  {
    GivesUp(Running(c, now), mapped);
  }

  /** A sequence that is under way is left alone, and so is everything with the monitor off. */
  lemma NoSecondSequence(c: Core, mapped: bool)
    requires c.timer || !c.cfg.enabled
    ensures Running(c, mapped) == c
  {
  }
}
