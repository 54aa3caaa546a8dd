/** What is captured with any number of vCPUs: each vCPU's hits against what it executed at the hooks, the
    exact condition under which they agree, and the runs that break it. */
module ManyCpus {
  import opened Kvm
  import opened Monitor
  import opened Machine
  import opened SharedList
  import opened Transparency
  import opened Capture

  /** The hits of one vCPU, in order. */
  function Of<R>(hs: seq<HitAt<R>>, v: nat): seq<HitAt<R>> {
    if hs == [] then []
    else Of(hs[..|hs| - 1], v) + if hs[|hs| - 1].cpu == v then [hs[|hs| - 1]] else []
  }

  /** The instruction that the step executes at a hook, if it does. */
  function Arrival<R>(g: Guest<R>, vm: Vm<R>, e: Event): seq<HitAt<R>> {
    if e.Run? && CanRun(vm, e.v) && !Traps(g, vm, e.v) && g.pc(vm.cpus[e.v].regs) in vm.core.cfg.Hooks()
    then [HitAt(e.v, g.pc(vm.cpus[e.v].regs), vm.cpus[e.v].regs)] else []
  }

  /** It is executed by a vCPU that did not trap on it. */
  predicate Slips<R>(g: Guest<R>, vm: Vm<R>, e: Event) {
    e.Run? && CanRun(vm, e.v) && !vm.core.dbg[e.v].stepping && Arrival(g, vm, e) != []
  }

  /** A trap is logged although its byte cannot be lifted, so that it will be taken again. */
  predicate Repeats<R>(vm: Vm<R>, e: Event) {
    e.Handle? && !e.mapped && CanHandle(vm, e.v) && vm.cpus[e.v].exit.AtHook?
    && vm.cpus[e.v].exit.pc in vm.core.kvm.bps
  }

  /** What one step executes at hooks, how much of it under the monitor's eyes and how much slips through, and
      what is logged only to be logged again. */
  datatype Account<R> = Account(
    executed: seq<HitAt<R>>,
    watched: seq<HitAt<R>>,
    slipped: seq<HitAt<R>>,
    repeated: seq<HitAt<R>>)

  function AccountOf<R>(g: Guest<R>, vm: Vm<R>, e: Event): Account<R> {
    var a := Arrival(g, vm, e);
    Account(
      a,
      if Slips(g, vm, e) then [] else a,
      if Slips(g, vm, e) then a else [],
      if Repeats(vm, e) then [HitAt(e.v, vm.cpus[e.v].exit.pc, vm.cpus[e.v].regs)] else [])
  }

  /** The same for the events from `k` on. */
  function Since<R>(g: Guest<R>, vm: Vm<R>, es: seq<Event>, k: nat): Account<R> {
    if |es| <= k then Account([], [], [], [])
    else
      var sofar, now := Since(g, vm, es[..|es| - 1], k), AccountOf(g, Exec(g, vm, es[..|es| - 1]), es[|es| - 1]);
      Account(sofar.executed + now.executed, sofar.watched + now.watched,
              sofar.slipped + now.slipped, sofar.repeated + now.repeated)
  }

  lemma {:induction false} OfConcat<R>(s: seq<HitAt<R>>, t: seq<HitAt<R>>, v: nat)
    ensures Of(s + t, v) == Of(s, v) + Of(t, v)
  {
    if t == [] {
      assert s + t == s;
    } else {
      assert (s + t)[..|s + t| - 1] == s + t[..|t| - 1];
      OfConcat(s, t[..|t| - 1], v);
    }
  }

  // ---------------------------------------------------------------- one step

  /** What the bare machine notes is what the step executes at a hook. */
  lemma ArrivalNoted<R>(g: Guest<R>, vm: Vm<R>, u: Bare<R>, e: Event)
    requires Sim(vm, u)
    ensures After(g, vm, u, e).arrivals == u.arrivals + Arrival(g, vm, e)
  {
    assert u.arrivals + [] == u.arrivals;
  }

  /** What the step adds to the log. */
  function Logged<R>(g: Guest<R>, vm: Vm<R>, e: Event): seq<HitAt<R>> {
    if e.Handle? && CanHandle(vm, e.v) && HandleDebug(vm.core, e.v, InfoOf(vm.cpus[e.v].exit), e.mapped).1.Hit?
    then [HitAt(e.v, vm.cpus[e.v].exit.pc, vm.cpus[e.v].regs)] else []
  }

  lemma LoggedIs<R>(g: Guest<R>, vm: Vm<R>, e: Event)
    requires Inv(g, vm)
    ensures Step(g, vm, e).hits == vm.hits + Logged(g, vm, e)
  {
    if e.Handle? && CanHandle(vm, e.v) {
      assert CpuOk(g, vm, e.v);
    }
    assert vm.hits + [] == vm.hits;
  }

  lemma OfOne<R>(h: HitAt<R>, v: nat)
    ensures Of([h], v) == if h.cpu == v then [h] else []
  {
    assert [h][..0] == [];
  }

  lemma RunBalance<R>(g: Guest<R>, vm: Vm<R>, w: nat, v: nat)
    requires Inv(g, vm) && CanRun(vm, w)
    ensures Begun(vm, v) == Of(AccountOf(g, vm, Run(w)).watched, v) + Begun(RunCpu(g, vm, w), v)
  {
    assert CpuOk(g, vm, w);
    var pc, regs := g.pc(vm.cpus[w].regs), vm.cpus[w].regs;
    var watched, after := AccountOf(g, vm, Run(w)).watched, Begun(RunCpu(g, vm, w), v);
    if vm.core.dbg[w].stepping {
      assert !Traps(g, vm, w);
      OfOne(HitAt(w, pc, regs), v);
      assert watched == [HitAt(w, pc, regs)];
      assert w == v ==> Begun(vm, v) == watched && after == [];
      assert w != v ==> after == Begun(vm, v);
    } else {
      assert watched == [] && after == Begun(vm, v);
    }
  }

  /** A hit: logged, and then begun, or to be repeated if the byte cannot be lifted. */
  lemma HitBalance<R>(g: Guest<R>, vm: Vm<R>, w: nat, mapped: bool, v: nat)
    requires Inv(g, vm) && CanHandle(vm, w) && vm.cpus[w].exit.AtHook? && vm.cpus[w].exit.pc in vm.core.kvm.bps
    ensures var e := Handle(w, mapped);
            Begun(vm, v) + Of(Logged(g, vm, e), v)
            == Begun(HandleExit(g, vm, w, mapped), v) + Of(AccountOf(g, vm, e).repeated, v)
  {
    assert CpuOk(g, vm, w);
    var e, h := Handle(w, mapped), HitAt(w, vm.cpus[w].exit.pc, vm.cpus[w].regs);
    RemoveEffect(vm.core.kvm, vm.cpus[w].exit.pc, mapped);
    OfOne(h, v);
    var before, after := Begun(vm, v), Begun(HandleExit(g, vm, w, mapped), v);
    assert Logged(g, vm, e) == [h];
    assert AccountOf(g, vm, e).repeated == if mapped then [] else [h];
    assert w == v ==> before == [] && after == if mapped then [h] else [];
    assert w != v ==> after == before;
  }

  lemma HandleBalance<R>(g: Guest<R>, vm: Vm<R>, w: nat, mapped: bool, v: nat)
    requires Inv(g, vm) && CanHandle(vm, w)
    ensures var e := Handle(w, mapped);
            Begun(vm, v) + Of(Logged(g, vm, e), v)
            == Begun(HandleExit(g, vm, w, mapped), v) + Of(AccountOf(g, vm, e).repeated, v)
  {
    if vm.cpus[w].exit.AtHook? && vm.cpus[w].exit.pc in vm.core.kvm.bps {
      HitBalance(g, vm, w, mapped, v);
    } else {
      assert CpuOk(g, vm, w);
      var e := Handle(w, mapped);
      assert Logged(g, vm, e) == [] && AccountOf(g, vm, e).repeated == [];
      assert Begun(HandleExit(g, vm, w, mapped), v) == Begun(vm, v);
    }
  }

  lemma OtherBalance<R>(g: Guest<R>, vm: Vm<R>, e: Event, v: nat)
    requires e.Run? ==> !CanRun(vm, e.v)
    requires e.Handle? ==> !CanHandle(vm, e.v)
    ensures Step(g, vm, e).cpus == vm.cpus && Step(g, vm, e).core.dbg == vm.core.dbg
    ensures AccountOf(g, vm, e) == Account([], [], [], []) && Logged(g, vm, e) == []
  {
  }

  /** One step of any vCPU, seen from `v`: hits begun and not finished before, plus hits logged, are arrivals
      watched, plus hits unfinished after, plus repetitions. */
  lemma StepBalance<R>(g: Guest<R>, vm: Vm<R>, e: Event, v: nat)
    requires Inv(g, vm)
    ensures var now := AccountOf(g, vm, e);
            Begun(vm, v) + Of(Logged(g, vm, e), v)
            == Of(now.watched, v) + Begun(Step(g, vm, e), v) + Of(now.repeated, v)
  {
    if e.Run? && CanRun(vm, e.v) {
      RunBalance(g, vm, e.v, v);
      assert Logged(g, vm, e) == [] && !Repeats(vm, e) && Step(g, vm, e) == RunCpu(g, vm, e.v);
    } else if e.Handle? && CanHandle(vm, e.v) {
      HandleBalance(g, vm, e.v, e.mapped, v);
      assert AccountOf(g, vm, e).watched == [] && Step(g, vm, e) == HandleExit(g, vm, e.v, e.mapped);
    } else {
      OtherBalance(g, vm, e, v);
    }
  }

  // ---------------------------------------------------------------- whole runs

  ghost predicate FairRun<R(!new)>(g: Guest<R>, vm: Vm<R>, es: seq<Event>) {
    Init(vm) && CodeOnly(g, vm.core.cfg.Hooks()) && CleanRun(g, vm, es)
  }

  /** The hits logged, and the arrivals the bare machine notes, from event `k` on. */
  function HitsSince<R>(g: Guest<R>, vm: Vm<R>, es: seq<Event>, k: nat): seq<HitAt<R>>
    requires k <= |es|
  {
    var n := |At(g, vm, es, k).hits|;
    if n <= |Exec(g, vm, es).hits| then Exec(g, vm, es).hits[n..] else []
  }

  function ArrivalsSince<R>(g: Guest<R>, vm: Vm<R>, es: seq<Event>, k: nat): seq<HitAt<R>>
    requires k <= |es|
  {
    var n, all := ArrivedBy(g, vm, es, k), Ghostly(g, vm, es).arrivals;
    if n <= |all| then all[n..] else []
  }

  lemma {:induction false} HitsGrow<R>(g: Guest<R>, vm: Vm<R>, es: seq<Event>, k: nat)
    requires k <= |es|
    ensures At(g, vm, es, k).hits <= Exec(g, vm, es).hits
    decreases |es|
  {
    if k == |es| {
      assert es[..k] == es;
    } else {
      assert es[..|es| - 1][..k] == es[..k];
      HitsGrow(g, vm, es[..|es| - 1], k);
      FirstHitStep(g, Exec(g, vm, es[..|es| - 1]), es[|es| - 1]);
    }
  }

  lemma DropConcat<T>(s: seq<T>, t: seq<T>, n: nat)
    requires n <= |s|
    ensures (s + t)[n..] == s[n..] + t
  {
  }

  lemma HitsNext<R(!new)>(g: Guest<R>, vm: Vm<R>, es: seq<Event>, k: nat)
    requires k < |es| && FairRun(g, vm, es)
    ensures var front := es[..|es| - 1];
            HitsSince(g, vm, es, k)
            == HitsSince(g, vm, front, k) + Logged(g, Exec(g, vm, front), es[|es| - 1])
  {
    var front := es[..|es| - 1];
    assert front[..k] == es[..k];
    RunKeepsInv(g, vm, front);
    LoggedIs(g, Exec(g, vm, front), es[|es| - 1]);
    HitsGrow(g, vm, front, k);
    DropConcat(Exec(g, vm, front).hits, Logged(g, Exec(g, vm, front), es[|es| - 1]), |At(g, vm, es, k).hits|);
  }

  lemma ArrivalsNext<R(!new)>(g: Guest<R>, vm: Vm<R>, es: seq<Event>)
    requires es != [] && FairRun(g, vm, es) && AlwaysSim(g, vm, es)
    ensures var front := es[..|es| - 1];
            Ghostly(g, vm, es).arrivals
            == Ghostly(g, vm, front).arrivals + Arrival(g, Exec(g, vm, front), es[|es| - 1])
  {
    var front := es[..|es| - 1];
    RunKeepsInv(g, vm, front);
    GhostlyStep(g, vm, es);
    ArrivalNoted(g, Exec(g, vm, front), Ghostly(g, vm, front), es[|es| - 1]);
  }

  lemma {:induction false} ArrivalsGrow<R(!new)>(g: Guest<R>, vm: Vm<R>, es: seq<Event>, k: nat)
    requires k <= |es| && FairRun(g, vm, es) && AlwaysSim(g, vm, es)
    ensures ArrivedBy(g, vm, es, k) <= |Ghostly(g, vm, es).arrivals|
    decreases |es|
  {
    if k == |es| {
      assert es[..k] == es;
    } else {
      assert es[..|es| - 1][..k] == es[..k];
      ArrivalsGrow(g, vm, es[..|es| - 1], k);
      ArrivalsNext(g, vm, es);
    }
  }

  lemma ArrivalsSinceNext<R(!new)>(g: Guest<R>, vm: Vm<R>, es: seq<Event>, k: nat)
    requires k < |es| && FairRun(g, vm, es) && AlwaysSim(g, vm, es)
    ensures var front := es[..|es| - 1];
            ArrivalsSince(g, vm, es, k)
            == ArrivalsSince(g, vm, front, k) + Arrival(g, Exec(g, vm, front), es[|es| - 1])
  {
    var front := es[..|es| - 1];
    assert front[..k] == es[..k];
    ArrivalsGrow(g, vm, front, k);
    ArrivalsNext(g, vm, es);
    var before, now := Ghostly(g, vm, front).arrivals, Arrival(g, Exec(g, vm, front), es[|es| - 1]);
    DropConcat(before, now, ArrivedBy(g, vm, es, k));
  }

  /** `all` is made of `watched` and `slipped`, and in order if nothing slipped. */
  ghost predicate MadeOf<T>(all: seq<T>, watched: seq<T>, slipped: seq<T>) {
    multiset(all) == multiset(watched) + multiset(slipped) && (slipped == [] ==> all == watched)
  }

  lemma MadeOfMore<T>(all: seq<T>, watched: seq<T>, slipped: seq<T>, x: seq<T>, y: seq<T>, z: seq<T>)
    requires MadeOf(all, watched, slipped) && MadeOf(x, y, z) && (y == [] || z == [])
    ensures MadeOf(all + x, watched + y, slipped + z)
  {
  }

  lemma ArrivalNow<R>(g: Guest<R>, vm: Vm<R>, e: Event, v: nat)
    ensures var now := AccountOf(g, vm, e);
            && MadeOf(Of(now.executed, v), Of(now.watched, v), Of(now.slipped, v))
            && (Of(now.watched, v) == [] || Of(now.slipped, v) == [])
  {
  }

  lemma SinceNext<R>(g: Guest<R>, vm: Vm<R>, es: seq<Event>, k: nat, v: nat)
    requires k < |es|
    ensures var front := es[..|es| - 1];
            var now := AccountOf(g, Exec(g, vm, front), es[|es| - 1]);
            var was, sum := Since(g, vm, front, k), Since(g, vm, es, k);
            && Of(sum.executed, v) == Of(was.executed, v) + Of(now.executed, v)
            && Of(sum.watched, v) == Of(was.watched, v) + Of(now.watched, v)
            && Of(sum.slipped, v) == Of(was.slipped, v) + Of(now.slipped, v)
            && Of(sum.repeated, v) == Of(was.repeated, v) + Of(now.repeated, v)
  {
    var front := es[..|es| - 1];
    var was, now := Since(g, vm, front, k), AccountOf(g, Exec(g, vm, front), es[|es| - 1]);
    OfConcat(was.executed, now.executed, v);
    OfConcat(was.watched, now.watched, v);
    OfConcat(was.slipped, now.slipped, v);
    OfConcat(was.repeated, now.repeated, v);
  }

  /** What is executed at the hooks is watched or slips through. */
  lemma {:induction false} ExecutedSplit<R>(g: Guest<R>, vm: Vm<R>, es: seq<Event>, k: nat, v: nat)
    ensures var since := Since(g, vm, es, k);
            MadeOf(Of(since.executed, v), Of(since.watched, v), Of(since.slipped, v))
    decreases |es|
  {
    if k < |es| {
      var front, e := es[..|es| - 1], es[|es| - 1];
      ExecutedSplit(g, vm, front, k, v);
      SinceNext(g, vm, es, k, v);
      ArrivalNow(g, Exec(g, vm, front), e, v);
      var was, now := Since(g, vm, front, k), AccountOf(g, Exec(g, vm, front), e);
      MadeOfMore(Of(was.executed, v), Of(was.watched, v), Of(was.slipped, v),
                 Of(now.executed, v), Of(now.watched, v), Of(now.slipped, v));
    }
  }

  /** Hits begun before and hits logged are arrivals watched, hits unfinished after and repetitions, and in
      order if nothing was repeated. */
  ghost predicate Adds<T>(before: seq<T>, hits: seq<T>, watched: seq<T>, after: seq<T>, repeated: seq<T>) {
    && multiset(before) + multiset(hits) == multiset(watched) + multiset(after) + multiset(repeated)
    && (repeated == [] ==> before + hits == watched + after)
  }

  lemma AddsMore<T>(before: seq<T>, hits: seq<T>, watched: seq<T>, mid: seq<T>, repeated: seq<T>,
                    x: seq<T>, y: seq<T>, after: seq<T>, z: seq<T>)
    requires Adds(before, hits, watched, mid, repeated) && mid + x == y + after + z
    ensures Adds(before, hits + x, watched + y, after, repeated + z)
  {
    Counts(mid, x);
    Counts(y, after);
    Counts(y + after, z);
    Counts(hits, x);
    Counts(watched, y);
    Counts(repeated, z);
    AddsCounts(multiset(before), multiset(hits), multiset(watched), multiset(mid), multiset(repeated),
               multiset(x), multiset(y), multiset(after), multiset(z));
    if repeated + z == [] {
      assert repeated == [] && z == [] && y + after + z == y + after;
      assert before + (hits + x) == (before + hits) + x;
      assert watched + mid + x == watched + (mid + x);
      assert watched + (y + after) == watched + y + after;
      assert before + (hits + x) == watched + y + after;
    }
  }

  lemma AddsCounts<T>(b: multiset<T>, h: multiset<T>, w: multiset<T>, m: multiset<T>, r: multiset<T>,
                      x: multiset<T>, y: multiset<T>, a: multiset<T>, z: multiset<T>)
    requires b + h == w + m + r && m + x == y + a + z
    ensures b + (h + x) == w + y + a + (r + z)
  {
    forall t: T ensures (b + (h + x))[t] == (w + y + a + (r + z))[t] {
      assert (b + h)[t] == (w + m + r)[t] && (m + x)[t] == (y + a + z)[t];
    }
  }

  lemma Counts<T>(s: seq<T>, t: seq<T>)
    ensures multiset(s + t) == multiset(s) + multiset(t)
  {
  }

  /** Conservation for each vCPU, in every run and from any point `k` on, whether memory is mapped or not and
      whatever exceptions are delivered: hits begun before, plus hits logged, plus what slipped through, are
      what was executed at the hooks, plus hits whose instruction is still to come, plus repetitions. */
  lemma Ledger<R(!new)>(g: Guest<R>, vm: Vm<R>, es: seq<Event>, k: nat, v: nat)
    requires k <= |es| && FairRun(g, vm, es)
    ensures var since := Since(g, vm, es, k);
            multiset(Begun(At(g, vm, es, k), v)) + multiset(Of(HitsSince(g, vm, es, k), v))
            + multiset(Of(since.slipped, v))
            == multiset(Of(since.executed, v)) + multiset(Begun(Exec(g, vm, es), v))
            + multiset(Of(since.repeated, v))
  {
    ExecutedSplit(g, vm, es, k, v);
    HitsBalance(g, vm, es, k, v);
  }

  lemma {:induction false} HitsBalance<R(!new)>(g: Guest<R>, vm: Vm<R>, es: seq<Event>, k: nat, v: nat)
    requires k <= |es| && FairRun(g, vm, es)
    ensures var since := Since(g, vm, es, k);
            Adds(Begun(At(g, vm, es, k), v), Of(HitsSince(g, vm, es, k), v), Of(since.watched, v),
                 Begun(Exec(g, vm, es), v), Of(since.repeated, v))
    decreases |es|
  {
    if k == |es| {
      assert es[..k] == es;
    } else {
      var front, e := es[..|es| - 1], es[|es| - 1];
      assert front[..k] == es[..k];
      HitsBalance(g, vm, front, k, v);
      HitsNext(g, vm, es, k);
      RunKeepsInv(g, vm, front);
      var s, since := Exec(g, vm, front), Since(g, vm, front, k);
      var now, hits := AccountOf(g, s, e), HitsSince(g, vm, front, k);
      StepBalance(g, s, e, v);
      SinceNext(g, vm, es, k, v);
      OfConcat(hits, Logged(g, s, e), v);
      AddsMore(Begun(At(g, vm, es, k), v), Of(hits, v), Of(since.watched, v), Begun(s, v), Of(since.repeated, v),
               Of(Logged(g, s, e), v), Of(now.watched, v), Begun(Step(g, s, e), v), Of(now.repeated, v));
    }
  }

  /** Exact capture for one of any number of vCPUs, in order and from any point on: its log is what it executed
      at the hooks if and only if none of that slipped through. */
  lemma ExactIff<R(!new)>(g: Guest<R>, vm: Vm<R>, es: seq<Event>, k: nat, v: nat)
    requires k <= |es| && FairRun(g, vm, es) && Of(Since(g, vm, es, k).repeated, v) == []
    ensures var since := Since(g, vm, es, k);
            Begun(At(g, vm, es, k), v) + Of(HitsSince(g, vm, es, k), v)
            == Of(since.executed, v) + Begun(Exec(g, vm, es), v)
            <==> Of(since.slipped, v) == []
  {
    ExecutedSplit(g, vm, es, k, v);
    HitsBalance(g, vm, es, k, v);
    var since := Since(g, vm, es, k);
    MadeOfSize(Of(since.executed, v), Of(since.watched, v), Of(since.slipped, v));
  }

  lemma MadeOfSize<T>(all: seq<T>, watched: seq<T>, slipped: seq<T>)
    requires MadeOf(all, watched, slipped)
    ensures |all| == |watched| + |slipped|
  {
    assert |multiset(all)| == |all| && |multiset(watched) + multiset(slipped)| == |watched| + |slipped|;
  }

  /** While the two machines agree, what the guest executes at the hooks is what the bare machine executes. */
  lemma {:induction false} ExecutedIsBare<R(!new)>(g: Guest<R>, vm: Vm<R>, es: seq<Event>, k: nat)
    requires k <= |es| && FairRun(g, vm, es) && AlwaysSim(g, vm, es)
    ensures Since(g, vm, es, k).executed == ArrivalsSince(g, vm, es, k)
    decreases |es|
  {
    if k == |es| {
      assert es[..k] == es;
    } else {
      ExecutedIsBare(g, vm, es[..|es| - 1], k);
      ArrivalsSinceNext(g, vm, es, k);
    }
  }

  lemma LedgerOnBare<R(!new)>(g: Guest<R>, vm: Vm<R>, es: seq<Event>, k: nat, v: nat)
    requires k <= |es| && FairRun(g, vm, es) && AllHarmless(g, vm, es)
    ensures var since := Since(g, vm, es, k);
            multiset(Begun(At(g, vm, es, k), v)) + multiset(Of(HitsSince(g, vm, es, k), v))
            + multiset(Of(since.slipped, v))
            == multiset(Of(ArrivalsSince(g, vm, es, k), v)) + multiset(Begun(Exec(g, vm, es), v))
            + multiset(Of(since.repeated, v))
  {
    TransparentIff(g, vm, es);
    ExecutedIsBare(g, vm, es, k);
    Ledger(g, vm, es, k, v);
  }

  lemma ExactIffOnBare<R(!new)>(g: Guest<R>, vm: Vm<R>, es: seq<Event>, k: nat, v: nat)
    requires k <= |es| && FairRun(g, vm, es) && AllHarmless(g, vm, es)
    requires Of(Since(g, vm, es, k).repeated, v) == []
    ensures Begun(At(g, vm, es, k), v) + Of(HitsSince(g, vm, es, k), v)
         == Of(ArrivalsSince(g, vm, es, k), v) + Begun(Exec(g, vm, es), v)
       <==> Of(Since(g, vm, es, k).slipped, v) == []
  {
    TransparentIff(g, vm, es);
    ExecutedIsBare(g, vm, es, k);
    ExactIff(g, vm, es, k, v);
  }

  // ---------------------------------------------------------------- after an arm

  /** A vCPU executes the instruction at a hook while another one is stepping over it. */
  ghost predicate Overlaps<R>(g: Guest<R>, vm: Vm<R>, e: Event) {
    e.Run? && Arrival(g, vm, e) != []
    && exists w :: 0 <= w < |vm.core.dbg| && w != e.v && vm.core.dbg[w].stepping
                   && vm.core.dbg[w].stepAddr == g.pc(vm.cpus[e.v].regs)
  }

  ghost predicate NoOverlap<R>(g: Guest<R>, vm: Vm<R>, es: seq<Event>, k: nat) {
    |es| > k ==>
      NoOverlap(g, vm, es[..|es| - 1], k) && !Overlaps(g, Exec(g, vm, es[..|es| - 1]), es[|es| - 1])
  }

  /** While the hooks are live, that is the only way an arrival slips through. */
  lemma SlipIffOverlap<R>(g: Guest<R>, vm: Vm<R>, e: Event)
    requires Inv(g, vm) && Live(vm.core)
    ensures Slips(g, vm, e) <==> Overlaps(g, vm, e)
  {
    if e.Run? && Arrival(g, vm, e) != [] {
      var pc := g.pc(vm.cpus[e.v].regs);
      assert CpuOk(g, vm, e.v) && SteppingOver(vm.core, pc);
      var w :| 0 <= w < |vm.core.dbg| && vm.core.dbg[w].stepping && vm.core.dbg[w].stepAddr == pc;
    }
  }

  ghost predicate ArmsAt<R>(g: Guest<R>, vm: Vm<R>, es: seq<Event>, k: nat) {
    k < |es| && Rearms(At(g, vm, es, k), es[k]) && QuietFrom(g, vm, es, k + 1)
  }

  lemma {:induction false} SlippedIff<R(!new)>(g: Guest<R>, vm: Vm<R>, es: seq<Event>, k: nat)
    requires FairRun(g, vm, es) && ArmsAt(g, vm, es, k)
    ensures Since(g, vm, es, k + 1).slipped == [] <==> NoOverlap(g, vm, es, k + 1)
    ensures Since(g, vm, es, k + 1).repeated == []
    decreases |es|
  {
    if k + 1 < |es| {
      var front, e := es[..|es| - 1], es[|es| - 1];
      assert front[..k] == es[..k];
      QuietPrefix(g, vm, es, k + 1);
      SlippedIff(g, vm, front, k);
      LiveAfterArm(g, vm, front, k);
      SlipIffOverlap(g, Exec(g, vm, front), e);
    }
  }

  lemma AllOf<R>(hs: seq<HitAt<R>>)
    ensures (forall v: nat :: Of(hs, v) == []) <==> hs == []
  {
    if hs != [] {
      assert Of(hs, hs[|hs| - 1].cpu) != [];
    }
  }

  /** The first arm that succeeds leaves nothing logged and nobody mid-step. */
  lemma ArmStartsClean<R(!new)>(g: Guest<R>, vm: Vm<R>, es: seq<Event>, k: nat, v: nat)
    requires FairRun(g, vm, es) && k < |es| && Rearms(At(g, vm, es, k), es[k])
    ensures At(g, vm, es, k + 1).hits == [] && Begun(At(g, vm, es, k + 1), v) == []
    ensures Of(HitsSince(g, vm, es, k + 1), v) == Of(Exec(g, vm, es).hits, v)
  {
    CleanPrefix(g, vm, es, k);
    CleanPrefix(g, vm, es, k + 1);
    LastOf(g, vm, es, k);
    RunKeepsInv(g, vm, es[..k]);
    FirstHitIffLogged(g, vm, es[..k]);
    RearmLive(g, At(g, vm, es, k), es[k]);
    HitsGrow(g, vm, es, k + 1);
  }

  /** The log holds for every vCPU what it executed at the hooks among `done`, and the hit it is at. */
  ghost predicate AllExact<R>(vm: Vm<R>, done: seq<HitAt<R>>) {
    forall v: nat :: Of(vm.hits, v) == Of(done, v) + Begun(vm, v)
  }

  lemma ExactForOne<R(!new)>(g: Guest<R>, vm: Vm<R>, es: seq<Event>, k: nat, v: nat)
    requires FairRun(g, vm, es) && ArmsAt(g, vm, es, k)
    requires Since(g, vm, es, k + 1).repeated == []
    ensures var end, since := Exec(g, vm, es), Since(g, vm, es, k + 1);
            Of(end.hits, v) == Of(since.executed, v) + Begun(end, v) <==> Of(since.slipped, v) == []
  {
    ArmStartsClean(g, vm, es, k, v);
    ExactIff(g, vm, es, k + 1, v);
    var hits := Of(Exec(g, vm, es).hits, v);
    assert [] + hits == hits;
  }

  /** Exact capture with any number of vCPUs: from a successful arm on, the log holds for every vCPU exactly
      what it executed at the hooks, in order, if and only if no vCPU executes a hook's instruction while
      another one is stepping over it. */
  lemma ExactAfterArm<R(!new)>(g: Guest<R>, vm: Vm<R>, es: seq<Event>, k: nat)
    requires FairRun(g, vm, es) && ArmsAt(g, vm, es, k)
    ensures AllExact(Exec(g, vm, es), Since(g, vm, es, k + 1).executed) <==> NoOverlap(g, vm, es, k + 1)
  {
    SlippedIff(g, vm, es, k);
    var end, since := Exec(g, vm, es), Since(g, vm, es, k + 1);
    AllOf(since.slipped);
    forall v: nat
      ensures Of(end.hits, v) == Of(since.executed, v) + Begun(end, v) <==> Of(since.slipped, v) == []
    {
      ExactForOne(g, vm, es, k, v);
    }
  }

  /** The whole promise, with its exact price: from a successful arm on, the guest never sees a difference and
      the log holds for every vCPU, in order, what the unmonitored guest does at the hooks, if and only if every
      stray trap is harmless and no vCPU executes a hook's instruction while another one is stepping over it. */
  lemma FaithfulIff<R(!new)>(g: Guest<R>, vm: Vm<R>, es: seq<Event>, k: nat)
    requires FairRun(g, vm, es) && ArmsAt(g, vm, es, k)
    ensures AlwaysSim(g, vm, es) && AllExact(Exec(g, vm, es), ArrivalsSince(g, vm, es, k + 1))
       <==> AllHarmless(g, vm, es) && NoOverlap(g, vm, es, k + 1)
  {
    TransparentIff(g, vm, es);
    ExactAfterArm(g, vm, es, k);
    if AlwaysSim(g, vm, es) {
      ExecutedIsBare(g, vm, es, k + 1);
    }
  }

  // ---------------------------------------------------------------- two vCPUs

  /** Power-on with two vCPUs about to enter the same hook. */
  ghost predicate TwoAtEntry<R(!new)>(g: Guest<R>, vm: Vm<R>) {
    && Init(vm) && vm.core.cfg.enabled && |vm.cpus| == 2 && CodeOnly(g, vm.core.cfg.Hooks())
    && g.pc(vm.cpus[0].regs) == vm.core.cfg.entry == g.pc(vm.cpus[1].regs)
  }

  /** The timer plants the hook and the first vCPU traps on it. */
  lemma FirstTrapped<R(!new)>(g: Guest<R>, vm: Vm<R>)
    requires TwoAtEntry(g, vm)
    ensures var s, h := Exec(g, vm, [Resume(true)] + [Run(0)]), vm.core.cfg.entry;
            && Inv(g, s) && CleanRun(g, vm, [Resume(true)] + [Run(0)])
            && !s.stale && s.hits == [] && Planted(s.core.kvm, h) && s.core.cfg == vm.core.cfg
            && s.cpus == [Cpu(vm.cpus[0].regs, AtHook(h)), Cpu(vm.cpus[1].regs, NoExit)]
            && Ghostly(g, vm, [Resume(true)] + [Run(0)]) == Unmonitored(vm)
  {
    assert [] + [Resume(true)] == [Resume(true)];
    Snoc(g, vm, [], Resume(true));
    Snoc(g, vm, [Resume(true)], Run(0));
    ArmOnceEffect(vm.core.cfg, vm.core.kvm, true);
    RunKeepsInv(g, vm, []);
    StepInv(g, vm, Resume(true));
    StepInv(g, Step(g, vm, Resume(true)), Run(0));
  }

  /** Both vCPUs trap, the first lifts the hook, and the second's trap finds no breakpoint and is delivered to
      the guest as an exception of its own. The guest can tell exactly if that exception changes anything. */
  lemma SecondVcpuGetsException<R(!new)>(g: Guest<R>, vm: Vm<R>)
    requires TwoAtEntry(g, vm)
    ensures var es := [Resume(true)] + [Run(0)] + [Run(1)] + [Handle(0, true)];
            var s, end := Exec(g, vm, es), Exec(g, vm, es + [Handle(1, true)]);
            var regs, ram := vm.cpus[1].regs, s.core.kvm.ram;
            && end.stale && CleanRun(g, vm, es + [Handle(1, true)])
            && (Sim(end, Ghostly(g, vm, es + [Handle(1, true)])) <==> g.inject(regs, ram) == (regs, ram))
  {
    var es := [Resume(true)] + [Run(0)] + [Run(1)] + [Handle(0, true)];
    SecondStrays(g, vm);
    Snoc(g, vm, es, Handle(1, true));
    Transparent(g, vm, es);
    RunKeepsInv(g, vm, es);
    StraySim(g, Exec(g, vm, es), Ghostly(g, vm, es), Handle(1, true));
  }

  lemma SecondStrays<R(!new)>(g: Guest<R>, vm: Vm<R>)
    requires TwoAtEntry(g, vm)
    ensures var es := [Resume(true)] + [Run(0)] + [Run(1)] + [Handle(0, true)];
            var s := Exec(g, vm, es);
            && CleanRun(g, vm, es) && s.core.cfg == vm.core.cfg && !s.stale
            && Strays(s, Handle(1, true)) && s.cpus[1].regs == vm.cpus[1].regs
  {
    var es := [Resume(true)] + [Run(0)];
    FirstTrapped(g, vm);
    Snoc(g, vm, es, Run(1));
    Snoc(g, vm, es + [Run(1)], Handle(0, true));
    StepInv(g, Exec(g, vm, es), Run(1));
    LateTrapStrays(g, Exec(g, vm, es + [Run(1)]));
  }

  lemma LateTrapStrays<R>(g: Guest<R>, vm: Vm<R>)
    requires Inv(g, vm) && |vm.cpus| == 2 && vm.cpus[0].exit.AtHook?
    requires vm.cpus[1].exit == vm.cpus[0].exit && Planted(vm.core.kvm, vm.cpus[0].exit.pc)
    ensures var s := Step(g, vm, Handle(0, true));
            Strays(s, Handle(1, true)) && s.stale == vm.stale && s.cpus[1] == vm.cpus[1]
  {
    assert CpuOk(g, vm, 0) && CpuOk(g, vm, 1);
    RemoveEffect(vm.core.kvm, vm.cpus[0].exit.pc, true);
  }

  /** And while the first vCPU steps over the lifted hook, the second executes it unseen. */
  lemma SecondVcpuUnseen<R(!new)>(g: Guest<R>, vm: Vm<R>)
    requires TwoAtEntry(g, vm)
    ensures var es := [Resume(true)] + [Run(0)] + [Handle(0, true)] + [Run(1)];
            && Exec(g, vm, es).hits == [HitAt(0, vm.core.cfg.entry, vm.cpus[0].regs)]
            && Ghostly(g, vm, es).arrivals == [HitAt(1, vm.core.cfg.entry, vm.cpus[1].regs)]
  {
    var es := [Resume(true)] + [Run(0)];
    FirstTrapped(g, vm);
    Snoc(g, vm, es, Handle(0, true));
    Snoc(g, vm, es + [Handle(0, true)], Run(1));
    PassesUnseen(g, Exec(g, vm, es), Unmonitored(vm), vm.core.cfg.entry);
  }

  lemma PassesUnseen<R>(g: Guest<R>, vm: Vm<R>, u: Bare<R>, h: Addr)
    requires Inv(g, vm) && |vm.cpus| == 2 && Planted(vm.core.kvm, h) && |u.regs| == 2 && u.arrivals == []
    requires vm.cpus[0].exit == AtHook(h) && vm.cpus[1].exit == NoExit && g.pc(vm.cpus[1].regs) == h
    requires u.regs[1] == vm.cpus[1].regs && vm.hits == []
    ensures var s := Step(g, vm, Handle(0, true));
            && Step(g, s, Run(1)).hits == [HitAt(0, h, vm.cpus[0].regs)]
            && After(g, s, After(g, vm, u, Handle(0, true)), Run(1)).arrivals == [HitAt(1, h, vm.cpus[1].regs)]
  {
    assert CpuOk(g, vm, 0) && CpuOk(g, vm, 1);
    RemoveEffect(vm.core.kvm, h, true);
    var s := Step(g, vm, Handle(0, true));
    assert s.hits == [HitAt(0, h, vm.cpus[0].regs)] && s.cpus[1] == vm.cpus[1];
    assert !Traps(g, s, 1);
  }
}
