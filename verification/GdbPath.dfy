/** The gdb-script capture path: filter, event budget, and the log they leave. */
module GdbPath {
  import opened Options
  import opened Naming
  import opened Filter

  /** The environment settings: numbers to keep, numbers to skip, and the event budget. */
  datatype Settings = Settings(keep: Option<set<int>>, skip: set<int>, budget: Option<int>)

  predicate Passes(s: Settings, r: Regs) {
    (s.keep.Some? ==> Signed(r.rax) in s.keep.value) && Signed(r.rax) !in s.skip
  }

  /** The hits that pass the filter, in order. */
  function Passing(s: Settings, hits: seq<Regs>): (p: seq<Regs>)
    ensures forall r :: r in p ==> r in hits && Passes(s, r)
  {
    if hits == [] then []
    else Passing(s, hits[..|hits| - 1]) + if Passes(s, hits[|hits| - 1]) then [hits[|hits| - 1]] else []
  }

  /** The filter, on the number as gdb reads it: in the keep list if there is one, and not in the skip list. */
  ghost predicate Kept(s: Settings, r: Regs) {
    var n := if r.rax < 0x8000_0000_0000_0000 then r.rax else r.rax - 0x1_0000_0000_0000_0000;
    (s.keep == None || n in s.keep.value) && n !in s.skip
  }

  lemma PassingNext(s: Settings, front: seq<Regs>, r: Regs)
    ensures Passing(s, front + [r]) == if Kept(s, r) then Passing(s, front) + [r] else Passing(s, front)
  {
    PassesIffKept(s, r);
    assert (front + [r])[..|front|] == front;
  }

  /** The hits that pass are those the filter keeps, in order. */
  lemma {:induction false} PassingAre(s: Settings, hits: seq<Regs>) returns (idx: seq<nat>)
    ensures ArePlaces(r => Kept(s, r), hits, idx) && Passing(s, hits) == Pick(hits, idx)
  {
    idx := [];
    if hits != [] {
      var front, r := hits[..|hits| - 1], hits[|hits| - 1];
      idx := PassingAre(s, front);
      assert hits == front + [r];
      PassingNext(s, front, r);
      OneMore(r => Kept(s, r), front, r, idx);
      PickMore(front, r, idx);
      if Kept(s, r) {
        idx := idx + [|front|];
      }
    }
  }

  lemma PassesIffKept(s: Settings, r: Regs)
    ensures Passes(s, r) <==> Kept(s, r)
  {
  }

  function Events(table: seq<Info>, hits: seq<Regs>): seq<Event>
    requires forall r :: r in hits ==> r.Valid()
  {
    seq(|hits|, i requires 0 <= i < |hits| => GdbEvent(table, hits[i]))
  }

  /** The budget is tested after an event is written, so even a budget below one lets one event through. */
  function Allowed(s: Settings, passing: nat): nat {
    if s.budget.None? then passing
    else
      var n := if s.budget.value < 1 then 1 else s.budget.value;
      if passing < n then passing else n
  }

  /** What the log should be: the first passing hits, as many as the budget allows. */
  function Expected(s: Settings, table: seq<Info>, hits: seq<Regs>): seq<Event>
    requires forall r :: r in hits ==> r.Valid()
  {
    Events(table, Passing(s, hits)[..Allowed(s, |Passing(s, hits)|)])
  }

  /** The budget is not spent yet, so a passing hit adds its event. */
  lemma ExpectedNext(s: Settings, table: seq<Info>, hits: seq<Regs>, r: Regs)
    requires r.Valid() && forall q :: q in hits ==> q.Valid()
    requires s.budget.Some? ==> Expected(s, table, hits) == [] || |Expected(s, table, hits)| < s.budget.value
    ensures Expected(s, table, hits + [r])
         == Expected(s, table, hits) + if Passes(s, r) then [GdbEvent(table, r)] else []
  {
    assert (hits + [r])[..|hits|] == hits;
    var p, p' := Passing(s, hits), Passing(s, hits + [r]);
    assert Allowed(s, |p|) == |p| && p[..|p|] == p;
    assert Allowed(s, |p'|) == |p'| && p'[..|p'|] == p';
  }

  /** The log of a session: `idx` are the positions, in order, of the first hits the filter keeps; there is one
      event for each; and a kept hit is missing only if the budget was spent on earlier ones. The budget counts as
      one if it is less. */
  ghost predicate SessionLog(s: Settings, table: seq<Info>, hits: seq<Regs>, log: seq<Event>, idx: seq<nat>)
    requires forall r :: r in hits ==> r.Valid()
  {
    && |idx| == |log|
    && (s.budget.Some? ==> |log| <= 1 || |log| <= s.budget.value)
    && (forall k :: 0 <= k < |idx| ==> idx[k] < |hits| && Kept(s, hits[idx[k]]))
    && (forall k :: 0 <= k < |idx| ==> GdbRecord(table, hits[idx[k]], log[k]))
    && (forall k, l :: 0 <= k < l < |idx| ==> idx[k] < idx[l])
    && (forall i :: 0 <= i < |hits| && Kept(s, hits[i]) && i !in idx ==>
          s.budget.Some? && |log| >= 1 && |log| >= s.budget.value && forall k :: 0 <= k < |idx| ==> idx[k] < i)
  }

  lemma ExpectedIs(s: Settings, table: seq<Info>, hits: seq<Regs>) returns (idx: seq<nat>)
    requires forall r :: r in hits ==> r.Valid()
    ensures SessionLog(s, table, hits, Expected(s, table, hits), idx)
  {
    var p := Passing(s, hits);
    var all := PassingAre(s, hits);
    var n := Allowed(s, |p|);
    idx := all[..n];
    assert forall k :: 0 <= k < n ==> idx[k] == all[k];
    forall k | 0 <= k < n ensures GdbRecord(table, hits[idx[k]], Expected(s, table, hits)[k]) {
      GdbEventIs(table, p[k]);
    }
    forall i | 0 <= i < |hits| && Kept(s, hits[i]) && i !in idx
      ensures n < |all| && forall k :: 0 <= k < n ==> idx[k] < i
    {
      FirstPlaces(r => Kept(s, r), hits, all, n, i);
    }
  }

  class SyscallBreakpoint {
    const settings: Settings
    const table: seq<Info>
    var log: seq<Event>
    var eventCount: nat
    var detached: bool
    ghost var seen: seq<Regs>

    /** The log is right for the hits delivered so far, and gdb lets go once the budget is spent. */
    ghost predicate Valid()
      reads this
    {
      && ValidTable(table)
      && (forall r :: r in seen ==> r.Valid())
      && eventCount == |log|
      && log == Expected(settings, table, seen)
      && detached == (settings.budget.Some? && log != [] && |log| >= settings.budget.value)
    }

    constructor (settings: Settings, table: seq<Info>)
      requires ValidTable(table)
      ensures Valid() && seen == [] && this.settings == settings && this.table == table
    {
      this.settings, this.table := settings, table;
      log, eventCount, detached, seen := [], 0, false, [];
    }

    /** stop(), called by gdb on each hit until it detaches; always auto-continues. */
    method Stop(r: Regs) returns (stopInferior: bool)
      requires Valid() && r.Valid() && !detached
      modifies this
      ensures Valid() && seen == old(seen) + [r] && !stopInferior
      ensures if Kept(settings, r) then
                && |log| == |old(log)| + 1 && log[..|old(log)|] == old(log)
                && GdbRecord(table, r, log[|old(log)|])
                && detached == (settings.budget.Some? && |log| >= settings.budget.value)
              else log == old(log) && !detached
    {
      PassesIffKept(settings, r);
      GdbEventIs(table, r);
      ExpectedNext(settings, table, seen, r);
      seen := seen + [r];
      var rax := Signed(r.rax);
      if (settings.keep.Some? && rax !in settings.keep.value) || rax in settings.skip {
        return false;
      }
      var found := Find(table, rax);
      log := log + [Event(rax, found, SignedAll(r.args[..Argc(found)]))];
      eventCount := eventCount + 1;
      if settings.budget.Some? && eventCount >= settings.budget.value {
        detached := true;
      }
      return false;
    }
  }

  /** Hits after the budget is spent change nothing, so not receiving them loses nothing. */
  lemma SpentIsFinal(s: Settings, table: seq<Info>, hits: seq<Regs>, r: Regs)
    requires r.Valid() && forall q :: q in hits ==> q.Valid()
    requires s.budget.Some? && Expected(s, table, hits) != [] && |Expected(s, table, hits)| >= s.budget.value
    ensures Expected(s, table, hits + [r]) == Expected(s, table, hits)
  {
    assert (hits + [r])[..|hits|] == hits;
    var p, p' := Passing(s, hits), Passing(s, hits + [r]);
    var n := Allowed(s, |p|);
    assert Allowed(s, |p'|) == n;
    assert p'[..n] == p[..n];
  }

  /** A whole session: for every hit sequence and every budget, the log is the first hits that pass the
      filter, in order, as many as the budget allows. */
  method Session(settings: Settings, table: seq<Info>, hits: seq<Regs>) returns (log: seq<Event>)
    requires ValidTable(table) && forall r :: r in hits ==> r.Valid()
    ensures log == Expected(settings, table, hits)
    ensures exists idx :: SessionLog(settings, table, hits, log, idx)
  {
    var bp := new SyscallBreakpoint(settings, table);
    assert hits[..0] == [];
    for i := 0 to |hits|
      invariant bp.Valid() && fresh(bp) && bp.settings == settings && bp.table == table
      invariant forall r :: r in hits[..i] ==> r.Valid()
      invariant bp.log == Expected(settings, table, hits[..i])
      invariant !bp.detached ==> bp.seen == hits[..i]
    {
      assert hits[..i + 1] == hits[..i] + [hits[i]];
      if bp.detached {
        SpentIsFinal(settings, table, hits[..i], hits[i]);
      } else {
        var _ := bp.Stop(hits[i]);
      }
    }
    assert hits[..|hits|] == hits;
    log := bp.log;
    ghost var idx := ExpectedIs(settings, table, hits);
  }
}
