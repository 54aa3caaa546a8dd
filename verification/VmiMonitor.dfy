/** The monitor as QEMU runs it: fields and guest RAM updated in place, each operation proved to have the
    effect its specification in `Monitor` states. */
module VmiMonitor {
  import opened Basic
  import opened Kvm
  import opened Monitor

  class Vmi {
    const cfg: Config
    const ram: array<Byte>
    var bps: map<Addr, Bp>
    var firstHit: bool
    var bootSync: bool
    var timer: bool
    var attempts: nat
    var dbg: seq<Dbg>

    ghost function Memory(): State
      reads this, ram
    {
      State(ram[..], bps)
    }

    ghost function Abs(): Core
      reads this, ram
    {
      Core(cfg, Memory(), firstHit, bootSync, timer, attempts, dbg)
    }

    constructor (cfg: Config, ram: array<Byte>, vcpus: nat)
      ensures this.ram == ram
      ensures Abs() == Core(cfg, State(ram[..], map[]), false, false, false, 0, seq(vcpus, _ => Dbg(false, 0, false)))
    {
      this.cfg, this.ram := cfg, ram;
      bps, firstHit, bootSync, timer, attempts := map[], false, false, false, 0;
      dbg := seq(vcpus, _ => Dbg(false, 0, false));
    }

    method InsertBreakpoint(a: Addr, mapped: bool) returns (ok: bool)
      modifies `bps, ram
      ensures (Memory(), ok) == Insert(old(Memory()), a, mapped)
    {
      if a in bps {
        bps := bps[a := bps[a].(uses := bps[a].uses + 1)];
        return true;
      }
      if !mapped || a >= ram.Length {
        return false;
      }
      bps := bps[a := Bp(ram[a], 1)];
      ram[a] := INT3;
      return true;
    }

    method RemoveBreakpoint(a: Addr, mapped: bool) returns (ok: bool)
      modifies `bps, ram
      ensures (Memory(), ok) == Remove(old(Memory()), a, mapped)
    {
      if a !in bps {
        return false;
      }
      if bps[a].uses > 1 {
        bps := bps[a := bps[a].(uses := bps[a].uses - 1)];
        return true;
      }
      if !mapped || a >= ram.Length {
        return false;
      }
      if ram[a] == INT3 {
        ram[a] := bps[a].saved;
      }
      bps := bps - {a};
      return true;
    }

    method ArmAddr(a: Addr, mapped: bool) returns (ok: bool)
      modifies `bps, ram
      ensures (Memory(), ok) == Monitor.ArmAddr(old(Memory()), a, mapped)
    {
      var _ := RemoveBreakpoint(a, mapped);
      ok := InsertBreakpoint(a, mapped);
      if ok && (!mapped || a >= ram.Length || ram[a] != INT3) {
        var _ := RemoveBreakpoint(a, mapped);
        ok := false;
      }
    }

    /** Arms every configured hook or none. */
    method ArmOnce(mapped: bool) returns (ok: bool)
      modifies `bps, ram
      ensures (Memory(), ok) == Monitor.ArmOnce(cfg, old(Memory()), mapped)
    {
      ok := ArmAddr(cfg.entry, mapped);
      if ok && cfg.ret.Some? {
        ok := ArmAddr(cfg.ret.value, mapped);
        if !ok {
          var _ := RemoveBreakpoint(cfg.entry, mapped);
        }
      }
    }

    /** The poll timer's callback. */
    method TryArm(mapped: bool)
      modifies this, ram
      ensures Abs() == Monitor.TryArm(old(Abs()), mapped)
    {
      if firstHit || bootSync {
        timer := false;
        return;
      }
      attempts := attempts + 1;
      var _ := ArmOnce(mapped);
      timer := attempts < MAX_ATTEMPTS;
    }

    /** The VM entered the running state. */
    method StateChange(mapped: bool)
      modifies this, ram
      ensures Abs() == Running(old(Abs()), mapped)
    {
      if !cfg.enabled || timer {
        return;
      }
      attempts, timer := 0, true;
      TryArm(mapped);
    }

    /** Called at the end of the DMA request that completes the kernel image. */
    method KernelLoaded(mapped: bool)
      modifies this, ram
      ensures Abs() == Monitor.KernelLoaded(old(Abs()), mapped)
    {
      if !cfg.enabled || bootSync || firstHit {
        return;
      }
      var ok := ArmOnce(mapped);
      if ok {
        bootSync, timer := true, false;
      }
    }

    method BreakpointHit(v: nat, pc: Addr, mapped: bool)
      requires v < |dbg|
      modifies this, ram
      ensures Abs() == Monitor.BreakpointHit(old(Abs()), v, pc, mapped)
    {
      if !firstHit {
        firstHit, timer := true, false;
      }
      var removed := RemoveBreakpoint(pc, mapped);
      if removed {
        dbg := dbg[v := Dbg(true, pc, true)];
      }
    }

    method StepComplete(v: nat, mapped: bool)
      requires v < |dbg|
      modifies this, ram
      ensures Abs() == Monitor.StepComplete(old(Abs()), v, mapped)
    {
      var addr := dbg[v].stepAddr;
      dbg := dbg[v := dbg[v].(singleStep := false)];
      var _ := InsertBreakpoint(addr, mapped);
      dbg := dbg[v := dbg[v].(stepping := false)];
    }

    /** kvm_handle_debug(): every exit is claimed by the monitor, handed to the debugger, or reinjected into
        the guest, and never two of these. */
    method HandleDebug(v: nat, info: DebugInfo, mapped: bool)
      returns (excpDebug: bool, claimed: bool, reinjected: bool)
      requires v < |dbg|
      modifies this, ram
      ensures var (c, o) := Monitor.HandleDebug(old(Abs()), v, info, mapped);
              Abs() == c && claimed == o.Consumed() && excpDebug == o.ExcpDebug? && reinjected == o.Reinject?
      ensures claimed ==> !excpDebug && !reinjected
      ensures claimed || excpDebug || reinjected
      ensures claimed <==>
                || (info.db && info.bs && cfg.enabled && old(dbg[v].stepping))
                || (!info.db && info.pc in old(bps) && info.pc in cfg.Hooks() && !old(dbg[v].stepping))
      ensures !claimed ==>
                && Abs() == old(Abs())
                && (excpDebug <==> || (info.db && info.bs && old(dbg[v].singleStep))
                                   || (info.db && !info.bs && info.hwMatch)
                                   || (!info.db && info.pc in old(bps)))
                && reinjected == !excpDebug
    {
      excpDebug, claimed := false, false;
      if info.db {
        if info.bs {
          if cfg.enabled && dbg[v].stepping {
            StepComplete(v, mapped);
            claimed := true;
          } else if dbg[v].singleStep {
            excpDebug := true;
          }
        } else if info.hwMatch {
          excpDebug := true;
        }
      } else if info.pc in bps {
        if info.pc in cfg.Hooks() && !dbg[v].stepping {
          BreakpointHit(v, info.pc, mapped);
          claimed := true;
        } else {
          excpDebug := true;
        }
      }
      reinjected := !excpDebug && !claimed;
    }
  }
}
