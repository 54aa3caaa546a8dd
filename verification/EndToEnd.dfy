/** From the guest's instructions to the log file: capture and pairing put together. */
module EndToEnd {
  import opened Options
  import opened Monitor
  import opened Machine
  import opened Capture
  import opened ManyCpus
  import opened Kvm
  import Accounting
  import Pending
  import Pairing

  /** What the handlers read from the registers at a hook: the pairing key, and what goes into the line. */
  datatype Reader<!R, P, V> = Reader(key: R -> Pending.Key, payload: HitAt<R> -> P, result: R -> V)

  /** A hit at the return hook is a return, any other is an entry. */
  function Report<R, P, V>(cfg: Config, rd: Reader<R, P, V>, h: HitAt<R>): Pending.Hook<P, V> {
    if cfg.ret == Some(h.pc) then Pending.Return(rd.key(h.regs), rd.result(h.regs))
    else Pending.Entry(rd.key(h.regs), rd.payload(h))
  }

  function Reports<R, P, V>(cfg: Config, rd: Reader<R, P, V>, hs: seq<HitAt<R>>): seq<Pending.Hook<P, V>> {
    seq(|hs|, i requires 0 <= i < |hs| => Report(cfg, rd, hs[i]))
  }

  /** The log the monitor has written, in the mode it is configured for. */
  function Written<R, P, V>(vm: Vm<R>, rd: Reader<R, P, V>): Pending.Table<P, V> {
    Pending.RunIn(vm.core.cfg.ret.Some?, Reports(vm.core.cfg, rd, vm.hits))
  }

  /** What the guest did at the hooks from event `k` on, up to the instruction it is just being let through. */
  function Done<R>(g: Guest<R>, vm: Vm<R>, es: seq<Event>, k: nat): seq<HitAt<R>>
    requires k <= |es|
  {
    ArrivalsSince(g, vm, es, k) + InFlight(Exec(g, vm, es))
  }

  /** Boot-sync succeeded in event `k`, and the guest has been left alone since. */
  ghost predicate SyncedAt<R(!new)>(g: Guest<R>, vm: Vm<R>, es: seq<Event>, k: nat) {
    SoloRunOf(g, vm, es) && k < |es| && BootSyncs(At(g, vm, es, k), es[k]) && QuietFrom(g, vm, es, k + 1)
  }

  lemma WrittenIs<R(!new), P, V>(g: Guest<R>, vm: Vm<R>, es: seq<Event>, k: nat, rd: Reader<R, P, V>)
    requires SyncedAt(g, vm, es, k)
    ensures Written(Exec(g, vm, es), rd)
         == Pending.RunIn(vm.core.cfg.ret.Some?, Reports(vm.core.cfg, rd, Done(g, vm, es, k + 1)))
  {
    CaptureFromBootSync(g, vm, es, k);
    SoloFacts(g, vm, es);
  }

  function PayloadsOf<R, P, V>(rd: Reader<R, P, V>, hs: seq<HitAt<R>>): seq<P> {
    seq(|hs|, i requires 0 <= i < |hs| => rd.payload(hs[i]))
  }

  lemma {:induction false} AllEntered<R, P, V>(cfg: Config, rd: Reader<R, P, V>, hs: seq<HitAt<R>>)
    requires cfg.ret.None?
    ensures Pending.Entered(Reports(cfg, rd, hs)) == PayloadsOf(rd, hs)
  {
    if hs != [] {
      var front := hs[..|hs| - 1];
      AllEntered(cfg, rd, front);
      assert Reports(cfg, rd, hs)[..|hs| - 1] == Reports(cfg, rd, front);
      assert PayloadsOf(rd, hs) == PayloadsOf(rd, front) + [rd.payload(hs[|hs| - 1])];
    }
  }

  /** Entry-only mode: after boot-sync the file is, in order, the calls the unmonitored guest itself made since
      the kernel was loaded, one line each. */
  lemma EntryOnlyFile<R(!new), P, V>(g: Guest<R>, vm: Vm<R>, es: seq<Event>, k: nat, rd: Reader<R, P, V>)
    requires SyncedAt(g, vm, es, k) && vm.core.cfg.ret.None?
    ensures Written(Exec(g, vm, es), rd)
         == Pending.Table([], Pending.PlainLines(PayloadsOf(rd, Done(g, vm, es, k + 1))))
  {
    WrittenIs(g, vm, es, k, rd);
    PlainFile(vm.core.cfg, rd, Done(g, vm, es, k + 1));
  }

  lemma PlainFile<R, P, V>(cfg: Config, rd: Reader<R, P, V>, hs: seq<HitAt<R>>)
    requires cfg.ret.None?
    ensures Pending.RunIn(false, Reports(cfg, rd, hs))
         == Pending.Table([], Pending.PlainLines(PayloadsOf(rd, hs)))
  {
    Pending.EntryOnlyLog(Reports(cfg, rd, hs));
    AllEntered(cfg, rd, hs);
  }

  // ---------------------------------------------------------------- with the return hook

  /** What the guest did is at the hooks, and is what was logged. */
  lemma DoneIsLogged<R(!new)>(g: Guest<R>, vm: Vm<R>, es: seq<Event>, k: nat)
    requires SyncedAt(g, vm, es, k)
    ensures Done(g, vm, es, k + 1) == Exec(g, vm, es).hits && Exec(g, vm, es).core.cfg == vm.core.cfg
    ensures AtHooks(vm.core.cfg, Done(g, vm, es, k + 1))
  {
    CaptureFromBootSync(g, vm, es, k);
    Accounting.HitsAreHooks(g, vm, es);
  }

  ghost predicate AtHooks<R>(cfg: Config, hs: seq<HitAt<R>>) {
    cfg.Valid() && forall i :: 0 <= i < |hs| ==> hs[i].pc in cfg.Hooks()
  }

  /** Those at `a`, in order. */
  function Among<R>(hs: seq<HitAt<R>>, a: Addr): seq<HitAt<R>> {
    if hs == [] then []
    else Among(hs[..|hs| - 1], a) + if hs[|hs| - 1].pc == a then [hs[|hs| - 1]] else []
  }

  /** The calls that entered are the hits at the entry address, in order. */
  lemma {:induction false} EnteredAtEntry<R, P, V>(cfg: Config, rd: Reader<R, P, V>, hs: seq<HitAt<R>>)
    requires cfg.enabled && cfg.ret.Some? && AtHooks(cfg, hs)
    ensures Pending.Entered(Reports(cfg, rd, hs)) == PayloadsOf(rd, Among(hs, cfg.entry))
  {
    if hs != [] {
      var front, h := hs[..|hs| - 1], hs[|hs| - 1];
      EnteredAtEntry(cfg, rd, front);
      assert Reports(cfg, rd, hs)[..|hs| - 1] == Reports(cfg, rd, front);
      assert h.pc == cfg.entry ==>
               PayloadsOf(rd, Among(hs, cfg.entry)) == PayloadsOf(rd, Among(front, cfg.entry)) + [rd.payload(h)];
      assert h.pc != cfg.entry ==> Among(hs, cfg.entry) == Among(front, cfg.entry);
    }
  }

  /** A line with a result belongs to one call: `p` is what was read at the entry address, `v` what was read later
      at the return address under the same key, with nothing under that key in between. */
  ghost predicate OneCall<R, P, V>(cfg: Config, rd: Reader<R, P, V>, hs: seq<HitAt<R>>, p: P, v: V, i: nat, j: nat) {
    && i < j < |hs| && hs[i].pc == cfg.entry && Some(hs[j].pc) == cfg.ret
    && rd.key(hs[i].regs) == rd.key(hs[j].regs)
    && (forall m :: i < m < j ==> rd.key(hs[m].regs) != rd.key(hs[i].regs))
    && p == rd.payload(hs[i]) && v == rd.result(hs[j].regs)
  }

  lemma LineIsOneCall<R, P, V>(cfg: Config, rd: Reader<R, P, V>, hs: seq<HitAt<R>>, n: nat) returns (i: nat, j: nat)
    requires cfg.enabled && cfg.ret.Some? && AtHooks(cfg, hs)
    requires n < |Pending.Run(Reports(cfg, rd, hs)).log| && Pending.Run(Reports(cfg, rd, hs)).log[n].Returned?
    ensures var line := Pending.Run(Reports(cfg, rd, hs)).log[n];
            OneCall(cfg, rd, hs, line.payload, line.ret, i, j)
  {
    var rs := Reports(cfg, rd, hs);
    i, j := Pending.LineOrigin(rs, n);
    forall m | 0 <= m < |hs| ensures rs[m].key == rd.key(hs[m].regs) && (rs[m].Entry? <==> hs[m].pc == cfg.entry) {
      assert hs[m].pc in cfg.Hooks();
    }
  }

  /** With the return hook: after boot-sync, once flushed, the file has exactly one line for every call the
      unmonitored guest made at the entry address since the kernel was loaded, and every line with a result is
      one call's own, read at the two addresses. */
  lemma FileIsFaithful<R(!new), P, V>(g: Guest<R>, vm: Vm<R>, es: seq<Event>, k: nat, rd: Reader<R, P, V>)
    requires SyncedAt(g, vm, es, k) && vm.core.cfg.ret.Some?
    ensures var done, t := Done(g, vm, es, k + 1), Written(Exec(g, vm, es), rd);
            var calls := Among(done, vm.core.cfg.entry);
            && t == Pending.Run(Reports(vm.core.cfg, rd, done))
            && multiset(Pending.Payloads(Pending.Flush(t).log)) == multiset(PayloadsOf(rd, calls))
            && |Pending.Flush(t).log| == |calls|
            && forall n :: 0 <= n < |t.log| && t.log[n].Returned? ==>
                 exists i, j :: OneCall(vm.core.cfg, rd, done, t.log[n].payload, t.log[n].ret, i, j)
  {
    var cfg, done := vm.core.cfg, Done(g, vm, es, k + 1);
    var truth := Reports(cfg, rd, done);
    WrittenIs(g, vm, es, k, rd);
    DoneIsLogged(g, vm, es, k);
    Pending.RunInPairing(truth);
    Pending.FlushedIsPermutation(truth);
    EnteredAtEntry(cfg, rd, done);
    var log := Pending.Run(truth).log;
    forall n | 0 <= n < |log| && log[n].Returned?
      ensures exists i, j :: OneCall(cfg, rd, done, log[n].payload, log[n].ret, i, j)
    {
      var i, j := LineIsOneCall(cfg, rd, done, n);
    }
  }

  /** The guest did `acts`: call `c` enters at the entry address and comes back at the return address, both under
      its key, with its payload at the one and its result at the other. */
  ghost predicate Did<R, P, V>(
      cfg: Config, rd: Reader<R, P, V>, hs: seq<HitAt<R>>,
      keys: nat -> Pending.Key, payload: nat -> P, result: nat -> V, acts: seq<Pairing.Act>)
  {
    |hs| == |acts| && forall i :: 0 <= i < |hs| ==>
      && rd.key(hs[i].regs) == keys(acts[i].c)
      && match acts[i]
         case Enter(c) => hs[i].pc == cfg.entry && rd.payload(hs[i]) == payload(c)
         case Leave(c) => Some(hs[i].pc) == cfg.ret && rd.result(hs[i].regs) == result(c)
  }

  lemma {:induction false} SeenAt(keys: nat -> Pending.Key, acts: seq<Pairing.Act>)
    ensures var seen := Pairing.SeenAll(keys, acts);
            |seen| == |acts| && forall i :: 0 <= i < |acts| ==> seen[i] == Pairing.Seen(keys, acts[i])
  {
    if acts != [] {
      SeenAt(keys, acts[..|acts| - 1]);
    }
  }

  lemma ReportsAre<R, P, V>(
      cfg: Config, rd: Reader<R, P, V>, hs: seq<HitAt<R>>,
      keys: nat -> Pending.Key, payload: nat -> P, result: nat -> V, acts: seq<Pairing.Act>)
    requires cfg.Valid() && Did(cfg, rd, hs, keys, payload, result, acts)
    ensures Reports(cfg, rd, hs)
         == Pairing.Map(h => Pairing.MapHook(payload, result, h), Pairing.SeenAll(keys, acts))
  {
    SeenAt(keys, acts);
    var truth := Pairing.Map(h => Pairing.MapHook(payload, result, h), Pairing.SeenAll(keys, acts));
    forall i | 0 <= i < |hs| ensures Reports(cfg, rd, hs)[i] == truth[i] {
      assert truth[i] == Pairing.MapHook(payload, result, Pairing.Seen(keys, acts[i]));
    }
  }

  /** And if what the guest did is `acts`, calls with distinct keys of which at most 64 are in progress at a
      time, the file is one line per call that came back, in completion order, each with the arguments and
      the result of that same call. */
  lemma FileIsComplete<R(!new), P, V>(
      g: Guest<R>, vm: Vm<R>, es: seq<Event>, k: nat, rd: Reader<R, P, V>,
      keys: nat -> Pending.Key, payload: nat -> P, result: nat -> V, acts: seq<Pairing.Act>)
    requires SyncedAt(g, vm, es, k) && vm.core.cfg.ret.Some?
    requires Pairing.Proper(keys, acts) && Pairing.AtMost64(acts)
    requires Did(vm.core.cfg, rd, Done(g, vm, es, k + 1), keys, payload, result, acts)
    ensures Written(Exec(g, vm, es), rd).log
         == Pairing.Map(c => Pending.Returned(payload(c), result(c)), Pairing.Finished(acts))
  {
    WrittenIs(g, vm, es, k, rd);
    Pending.RunInPairing(Reports(vm.core.cfg, rd, Done(g, vm, es, k + 1)));
    ReportsAre(vm.core.cfg, rd, Done(g, vm, es, k + 1), keys, payload, result, acts);
    Pairing.RealLogComplete(keys, payload, result, acts);
  }
}
