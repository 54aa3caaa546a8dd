/** Entry/return pairing: calls held from the entry hook until the return hook, in the order they entered. */
module Pending {

  const PENDING_MAX: nat := 64

  /** The application's stack pointer and return address, the same at both hooks. */
  datatype Key = Key(rsp: nat, rcx: nat)

  /** What the two hooks report; the payload stands for number and arguments, `V` for the return value. */
  datatype Hook<+P, +V> = Entry(key: Key, payload: P) | Return(key: Key, ret: V)

  datatype Why = Superseded | Evicted | Shutdown

  /** A log line: at entry only, or with its return value, or given up. */
  datatype Line<+P, +V> = Plain(payload: P) | Returned(payload: P, ret: V) | Unfinished(payload: P, why: Why)

  datatype Call<+P> = Call(key: Key, payload: P)

  /** The calls still pending, oldest first, and the lines written so far. */
  datatype Table<+P, +V> = Table(calls: seq<Call<P>>, log: seq<Line<P, V>>)

  /** Where `key` is pending, or the number of calls if it is not. */
  function IndexOf<P>(calls: seq<Call<P>>, key: Key): (i: nat)
    ensures i <= |calls|
    ensures i < |calls| ==> calls[i].key == key
    ensures forall j :: 0 <= j < i ==> calls[j].key != key
  {
    if calls == [] || calls[0].key == key then 0 else 1 + IndexOf(calls[1..], key)
  }

  function Without<T>(s: seq<T>, i: nat): seq<T>
    requires i < |s|
  {
    s[..i] + s[i + 1..]
  }

  function OnEntry<P, V>(t: Table<P, V>, key: Key, p: P): Table<P, V> {
    var i := IndexOf(t.calls, key);
    if i < |t.calls| then
      Table(Without(t.calls, i) + [Call(key, p)], t.log + [Unfinished(t.calls[i].payload, Superseded)])
    else if |t.calls| >= PENDING_MAX then
      Table(t.calls[1..] + [Call(key, p)], t.log + [Unfinished(t.calls[0].payload, Evicted)])
    else
      Table(t.calls + [Call(key, p)], t.log)
  }

  function OnReturn<P, V>(t: Table<P, V>, key: Key, ret: V): Table<P, V> {
    var i := IndexOf(t.calls, key);
    if i < |t.calls| then Table(Without(t.calls, i), t.log + [Returned(t.calls[i].payload, ret)]) else t
  }

  function OnHook<P, V>(t: Table<P, V>, h: Hook<P, V>): Table<P, V> {
    match h
    case Entry(key, p) => OnEntry(t, key, p)
    case Return(key, ret) => OnReturn(t, key, ret)
  }

  /** One hit in either mode: without a return hook each entry is written at once and nothing pends. */
  function OnHit<P, V>(pairing: bool, t: Table<P, V>, h: Hook<P, V>): Table<P, V> {
    if pairing || h.Return? then OnHook(t, h) else t.(log := t.log + [Plain(h.payload)])
  }

  function RunIn<P, V>(pairing: bool, hs: seq<Hook<P, V>>): Table<P, V> {
    if hs == [] then Table([], []) else OnHit(pairing, RunIn(pairing, hs[..|hs| - 1]), hs[|hs| - 1])
  }

  function Abandon<P, V>(calls: seq<Call<P>>, why: Why): seq<Line<P, V>> {
    seq(|calls|, i requires 0 <= i < |calls| => Unfinished(calls[i].payload, why))
  }

  /** VM shutdown: everything still pending is written, oldest first. */
  function Flush<P, V>(t: Table<P, V>): Table<P, V> {
    Table([], t.log + Abandon(t.calls, Shutdown))
  }

  function Run<P, V>(hs: seq<Hook<P, V>>): Table<P, V> {
    if hs == [] then Table([], []) else OnHook(Run(hs[..|hs| - 1]), hs[|hs| - 1])
  }

  /** Entry-only mode: the payloads in the order the calls entered. */
  function Entered<P, V>(hs: seq<Hook<P, V>>): seq<P> {
    if hs == [] then []
    else Entered(hs[..|hs| - 1]) + if hs[|hs| - 1].Entry? then [hs[|hs| - 1].payload] else []
  }

  lemma {:induction false} RunInPairing<P, V>(hs: seq<Hook<P, V>>)
    ensures RunIn(true, hs) == Run(hs)
  {
    if hs != [] {
      RunInPairing(hs[..|hs| - 1]);
    }
  }

  function PlainLines<P, V>(payloads: seq<P>): seq<Line<P, V>> {
    seq(|payloads|, i requires 0 <= i < |payloads| => Plain(payloads[i]))
  }

  /** Entry-only mode: the log is the calls in the order they entered, and nothing ever pends. */
  lemma {:induction false} EntryOnlyLog<P, V>(hs: seq<Hook<P, V>>)
    requires forall i :: 0 <= i < |hs| ==> hs[i].Entry?
    ensures RunIn(false, hs) == Table([], PlainLines(Entered(hs)))
  {
    if hs != [] {
      EntryOnlyLog(hs[..|hs| - 1]);
    }
  }

  // ---------------------------------------------------------------- shape of the table

  ghost predicate Distinct<P>(calls: seq<Call<P>>) {
    forall i, j :: 0 <= i < j < |calls| ==> calls[i].key != calls[j].key
  }

  ghost predicate Shape<P, V>(t: Table<P, V>) {
    |t.calls| <= PENDING_MAX && Distinct(t.calls) && forall i :: 0 <= i < |t.log| ==> !t.log[i].Plain?
  }

  lemma WithoutDistinct<P>(calls: seq<Call<P>>, i: nat)
    requires i < |calls| && Distinct(calls)
    ensures Distinct(Without(calls, i))
    ensures forall j :: 0 <= j < |calls| - 1 ==> Without(calls, i)[j].key != calls[i].key
  {
    assert forall j :: 0 <= j < |calls| - 1 ==> Without(calls, i)[j] == calls[if j < i then j else j + 1];
  }

  lemma EntryShape<P, V>(t: Table<P, V>, key: Key, p: P)
    requires Shape(t)
    ensures Shape(OnEntry(t, key, p))
  {
    var i := IndexOf(t.calls, key);
    if i < |t.calls| {
      WithoutDistinct(t.calls, i);
    }
  }

  lemma ReturnShape<P, V>(t: Table<P, V>, key: Key, ret: V)
    requires Shape(t)
    ensures Shape(OnReturn(t, key, ret))
  {
    var i := IndexOf(t.calls, key);
    if i < |t.calls| {
      WithoutDistinct(t.calls, i);
    }
  }

  /** At most 64 calls pend, never two with one key, and every line says how its call ended. */
  lemma {:induction false} TableShape<P, V>(hs: seq<Hook<P, V>>)
    ensures Shape(Run(hs))
  {
    if hs != [] {
      var t, h := Run(hs[..|hs| - 1]), hs[|hs| - 1];
      TableShape(hs[..|hs| - 1]);
      if h.Entry? {
        EntryShape(t, h.key, h.payload);
      } else {
        ReturnShape(t, h.key, h.ret);
      }
    }
  }

  // ---------------------------------------------------------------- conservation

  function Payloads<P, V>(log: seq<Line<P, V>>): seq<P> {
    seq(|log|, i requires 0 <= i < |log| => log[i].payload)
  }

  function Held<P>(calls: seq<Call<P>>): seq<P> {
    seq(|calls|, i requires 0 <= i < |calls| => calls[i].payload)
  }

  function Returns<P, V>(log: seq<Line<P, V>>): nat {
    if log == [] then 0 else Returns(log[..|log| - 1]) + if log[|log| - 1].Returned? then 1 else 0
  }

  function Unfinisheds<P, V>(log: seq<Line<P, V>>): nat {
    if log == [] then 0 else Unfinisheds(log[..|log| - 1]) + if log[|log| - 1].Unfinished? then 1 else 0
  }

  lemma {:induction false} KindsAddUp<P, V>(log: seq<Line<P, V>>)
    requires forall i :: 0 <= i < |log| ==> !log[i].Plain?
    ensures Returns(log) + Unfinisheds(log) == |log|
  {
    if log != [] {
      KindsAddUp(log[..|log| - 1]);
    }
  }

  lemma WithoutHeld<P>(calls: seq<Call<P>>, i: nat)
    requires i < |calls|
    ensures Held(Without(calls, i)) == Without(Held(calls), i)
    ensures multiset(Held(calls)) == multiset(Held(Without(calls, i))) + multiset{calls[i].payload}
  {
    var h := Held(calls);
    assert Held(Without(calls, i)) == Without(h, i);
    assert h == h[..i] + [h[i]] + h[i + 1..];
  }

  /** Taking out call `i` and writing its line, with perhaps a newcomer at the end. */
  lemma RetireConserves<P, V>(t: Table<P, V>, i: nat, line: Line<P, V>, came: seq<Call<P>>)
    requires i < |t.calls| && line.payload == t.calls[i].payload
    ensures multiset(Payloads(t.log + [line])) + multiset(Held(Without(t.calls, i) + came))
         == multiset(Payloads(t.log)) + multiset(Held(t.calls)) + multiset(Held(came))
  {
    WithoutHeld(t.calls, i);
    assert Payloads(t.log + [line]) == Payloads(t.log) + [line.payload];
    assert Held(Without(t.calls, i) + came) == Held(Without(t.calls, i)) + Held(came);
  }

  /** One hook: the newcomer, if any, joins; whatever leaves the table is written. */
  lemma HookConserves<P, V>(t: Table<P, V>, h: Hook<P, V>)
    ensures var t' := OnHook(t, h);
            var came := if h.Entry? then [Call(h.key, h.payload)] else [];
            multiset(Payloads(t'.log)) + multiset(Held(t'.calls))
            == multiset(Payloads(t.log)) + multiset(Held(t.calls)) + multiset(Held(came))
  {
    var t' := OnHook(t, h);
    var i := IndexOf(t.calls, h.key);
    var came := if h.Entry? then [Call(h.key, h.payload)] else [];
    if i < |t.calls| {
      assert t'.calls == Without(t.calls, i) + came;
      RetireConserves(t, i, t'.log[|t.log|], came);
    } else if h.Entry? && |t.calls| >= PENDING_MAX {
      assert t'.calls == Without(t.calls, 0) + came;
      RetireConserves(t, 0, t'.log[|t.log|], came);
    } else {
      assert t'.calls == t.calls + came;
      assert Held(t'.calls) == Held(t.calls) + Held(came);
    }
  }

  /** Conservation at every point of every run, down to the individual calls: the calls that entered are
      exactly those with a line plus those still pending. */
  lemma {:induction false} Conservation<P, V>(hs: seq<Hook<P, V>>)
    ensures multiset(Entered(hs)) == multiset(Payloads(Run(hs).log)) + multiset(Held(Run(hs).calls))
    ensures |Entered(hs)| == Returns(Run(hs).log) + Unfinisheds(Run(hs).log) + |Run(hs).calls|
  {
    if hs != [] {
      Conservation(hs[..|hs| - 1]);
      HookConserves(Run(hs[..|hs| - 1]), hs[|hs| - 1]);
      var h := hs[|hs| - 1];
      assert h.Entry? ==> Held([Call(h.key, h.payload)]) == [h.payload];
    }
    TableShape(hs);
    KindsAddUp(Run(hs).log);
    assert |multiset(Entered(hs))| == |Entered(hs)|;
  }

  /** The flush adds, oldest first, one line for each pending call, marked as cut off by the shutdown. */
  lemma FlushedLines<P, V>(t: Table<P, V>, i: nat)
    requires i < |t.calls|
    ensures |Flush(t).log| == |t.log| + |t.calls| && t.log <= Flush(t).log
    ensures Flush(t).log[|t.log| + i] == Unfinished(t.calls[i].payload, Shutdown)
  {
  }

  lemma FlushedPayloads<P, V>(t: Table<P, V>)
    ensures Payloads(Flush(t).log) == Payloads(t.log) + Held(t.calls)
  {
  }

  /** After the shutdown flush there is exactly one line per entry: dropping the results from the return-mode
      log gives a permutation of the entry-only log of the same run. */
  lemma FlushedIsPermutation<P, V>(hs: seq<Hook<P, V>>)
    ensures multiset(Payloads(Flush(Run(hs)).log)) == multiset(Entered(hs))
    ensures |Flush(Run(hs)).log| == |Entered(hs)| && Flush(Run(hs)).calls == []
  {
    Conservation(hs);
    FlushedPayloads(Run(hs));
    assert |multiset(Entered(hs))| == |Entered(hs)|;
  }

  /** What a monitor without the return hook sees of the same run. */
  function EntriesOf<P, V>(hs: seq<Hook<P, V>>): (es: seq<Hook<P, V>>)
    ensures forall i :: 0 <= i < |es| ==> es[i].Entry?
  {
    if hs == [] then []
    else EntriesOf(hs[..|hs| - 1]) + if hs[|hs| - 1].Entry? then [hs[|hs| - 1]] else []
  }

  lemma {:induction false} EnteredTwice<P, V>(hs: seq<Hook<P, V>>)
    ensures Entered(EntriesOf(hs)) == Entered(hs)
  {
    if hs != [] {
      var front := EntriesOf(hs[..|hs| - 1]);
      EnteredTwice(hs[..|hs| - 1]);
      assert (front + [hs[|hs| - 1]])[..|front|] == front && front + [] == front;
    }
  }

  /** Return mode against entry-only mode: for every run, dropping the results from the flushed return-mode log
      gives a permutation of the log the entry-only monitor writes. */
  lemma ModesAgree<P, V>(hs: seq<Hook<P, V>>)
    ensures multiset(Payloads(Flush(RunIn(true, hs)).log)) == multiset(Payloads(RunIn(false, EntriesOf(hs)).log))
  {
    RunInPairing(hs);
    FlushedIsPermutation(hs);
    EntryOnlyLog(EntriesOf(hs));
    EnteredTwice(hs);
    assert Payloads(PlainLines<P, V>(Entered(hs))) == Entered(hs);
  }

  // ---------------------------------------------------------------- where lines come from

  /** A call in the table after a hook is the newcomer, or was there before under another key. */
  lemma Survivor<P, V>(t: Table<P, V>, h: Hook<P, V>, n: nat) returns (m: nat)
    requires Distinct(t.calls) && n < |OnHook(t, h).calls|
    ensures var c := OnHook(t, h).calls[n];
            || (h.Entry? && c == Call(h.key, h.payload))
            || (c.key != h.key && m < |t.calls| && t.calls[m] == c)
  {
    var calls', gone := OnHook(t, h).calls, IndexOf(t.calls, h.key);
    m := 0;
    if gone < |t.calls| {
      if n < |t.calls| - 1 {
        m := if n < gone then n else n + 1;
      }
    } else if h.Return? || n < |calls'| - 1 {
      m := n + |t.calls| - |calls'| + if h.Entry? then 1 else 0;
    }
  }

  /** Hook `i` is an entry, and nothing with its key came between it and hook `j`. */
  ghost predicate Waits<P, V>(hs: seq<Hook<P, V>>, i: nat, j: nat) {
    i < j <= |hs| && hs[i].Entry? && forall m :: i < m < j ==> hs[m].key != hs[i].key
  }

  lemma WaitsOn<P, V>(front: seq<Hook<P, V>>, h: Hook<P, V>, i: nat)
    requires Waits(front, i, |front|) && h.key != front[i].key
    ensures Waits(front + [h], i, |front| + 1)
  {
    assert forall m :: 0 <= m < |front| ==> (front + [h])[m] == front[m];
  }

  /** What pends is a call that entered and has waited since. */
  lemma {:induction false} PendingOrigin<P, V>(hs: seq<Hook<P, V>>, n: nat) returns (i: nat)
    requires n < |Run(hs).calls|
    ensures Waits(hs, i, |hs|) && Run(hs).calls[n] == Call(hs[i].key, hs[i].payload)
  {
    var front, h := hs[..|hs| - 1], hs[|hs| - 1];
    TableShape(front);
    var m := Survivor(Run(front), h, n);
    if h.Entry? && Run(hs).calls[n] == Call(h.key, h.payload) {
      i := |hs| - 1;
    } else {
      i := PendingOrigin(front, m);
      assert hs == front + [h];
      WaitsOn(front, h, i);
    }
  }

  /** Why line `line` was written at hook `j`, about a call that entered at hook `i`. */
  ghost predicate Explains<P, V>(hs: seq<Hook<P, V>>, line: Line<P, V>, i: nat, j: nat) {
    && Waits(hs, i, j) && j < |hs| && line.payload == hs[i].payload
    && match line
       case Plain(_) => false
       case Returned(_, v) => hs[j] == Return(hs[i].key, v)
       case Unfinished(_, Superseded) => hs[j].Entry? && hs[j].key == hs[i].key
       case Unfinished(_, Evicted) =>
         var calls := Run(hs[..j]).calls;
         && hs[j].Entry? && |calls| == 64 && calls[0] == Call(hs[i].key, hs[i].payload)
         && forall m :: 0 <= m < 64 ==> calls[m].key != hs[j].key
       case Unfinished(_, Shutdown) => false
  }

  /** A hook writes at most one line, about a call that was pending. */
  lemma NewLine<P, V>(t: Table<P, V>, h: Hook<P, V>) returns (m: nat)
    requires Shape(t) && OnHook(t, h).log != t.log
    ensures m < |t.calls| && |OnHook(t, h).log| == |t.log| + 1 && OnHook(t, h).log[..|t.log|] == t.log
    ensures var line := OnHook(t, h).log[|t.log|];
            && line.payload == t.calls[m].payload
            && match line
               case Plain(_) => false
               case Returned(_, v) => h == Return(t.calls[m].key, v)
               case Unfinished(_, Superseded) => h.Entry? && h.key == t.calls[m].key
               case Unfinished(_, Evicted) =>
                 h.Entry? && m == 0 && |t.calls| == 64 && forall l :: 0 <= l < 64 ==> t.calls[l].key != h.key
               case Unfinished(_, Shutdown) => false
  {
    var i := IndexOf(t.calls, h.key);
    m := if i < |t.calls| then i else 0;
  }

  lemma ExplainsLater<P, V>(front: seq<Hook<P, V>>, h: Hook<P, V>, line: Line<P, V>, i: nat, j: nat)
    requires Explains(front, line, i, j)
    ensures Explains(front + [h], line, i, j)
  {
    assert front[..j] == (front + [h])[..j];
    assert forall m :: 0 <= m < |front| ==> (front + [h])[m] == front[m];
  }

  lemma ExplainsNow<P, V>(front: seq<Hook<P, V>>, h: Hook<P, V>) returns (i: nat)
    requires OnHook(Run(front), h).log != Run(front).log
    ensures |OnHook(Run(front), h).log| == |Run(front).log| + 1
    ensures Explains(front + [h], OnHook(Run(front), h).log[|Run(front).log|], i, |front|)
  {
    TableShape(front);
    var m := NewLine(Run(front), h);
    i := PendingOrigin(front, m);
    assert (front + [h])[..|front|] == front;
  }

  /** Where each line comes from: a result is that of the return that came under the call's key with nothing
      under it in between; a superseded call was entered again under its key, an evicted one was the oldest of
      64 when another key came. */
  lemma {:induction false} LineOrigin<P, V>(hs: seq<Hook<P, V>>, n: nat) returns (i: nat, j: nat)
    requires n < |Run(hs).log|
    ensures Explains(hs, Run(hs).log[n], i, j)
  {
    var front, h := hs[..|hs| - 1], hs[|hs| - 1];
    assert hs == front + [h];
    LogGrows(Run(front), h);
    if n < |Run(front).log| {
      i, j := LineOrigin(front, n);
      ExplainsLater(front, h, Run(hs).log[n], i, j);
    } else {
      i := ExplainsNow(front, h);
      j := |front|;
    }
  }

  // ---------------------------------------------------------------- order

  /** The position in the table that the hook takes out of it, if it takes anything. */
  function Retires<P, V>(t: Table<P, V>, h: Hook<P, V>): nat {
    var i := IndexOf(t.calls, h.key);
    if i < |t.calls| then i else 0
  }

  /** Calls finish in the order they entered. */
  ghost predicate InOrder<P, V>(hs: seq<Hook<P, V>>) {
    hs != [] ==> InOrder(hs[..|hs| - 1]) && Retires(Run(hs[..|hs| - 1]), hs[|hs| - 1]) == 0
  }

  ghost predicate NoRepeats<T>(s: seq<T>) {
    forall i, j :: 0 <= i < j < |s| ==> s[i] != s[j]
  }

  /** Taking the oldest call out moves it from the front of the table to the end of the log. */
  lemma HeadRetires<P, V>(t: Table<P, V>, h: Hook<P, V>)
    requires Retires(t, h) == 0
    ensures var t' := OnHook(t, h);
            var came := if h.Entry? then [h.payload] else [];
            Payloads(t'.log) + Held(t'.calls) == Payloads(t.log) + Held(t.calls) + came
  {
    var t', log, held := OnHook(t, h), Payloads(t.log), Held(t.calls);
    var came := if h.Entry? then [h.payload] else [];
    if |t'.log| > |t.log| {
      assert Payloads(t'.log) == log + [held[0]];
      assert Held(t'.calls) == held[1..] + came;
      assert log + [held[0]] + (held[1..] + came) == log + ([held[0]] + held[1..]) + came;
      assert held == [held[0]] + held[1..];
    } else {
      assert Payloads(t'.log) == log && Held(t'.calls) == held + came;
      assert log + (held + came) == log + held + came;
    }
  }

  lemma {:induction false} InOrderQueue<P, V>(hs: seq<Hook<P, V>>)
    requires InOrder(hs)
    ensures Payloads(Run(hs).log) + Held(Run(hs).calls) == Entered(hs)
  {
    if hs != [] {
      InOrderQueue(hs[..|hs| - 1]);
      HeadRetires(Run(hs[..|hs| - 1]), hs[|hs| - 1]);
    }
  }

  /** A written line stays where it is. */
  lemma LogGrows<P, V>(t: Table<P, V>, h: Hook<P, V>)
    ensures t.log <= OnHook(t, h).log
  {
  }

  /** Once a call overtakes an older one, the log differs from the entry order at that line for good. */
  lemma {:induction false} OvertakenShows<P, V>(hs: seq<Hook<P, V>>) returns (n: nat)
    requires !InOrder(hs) && NoRepeats(Entered(hs))
    ensures n < |Run(hs).log| && n < |Entered(hs)| && Run(hs).log[n].payload != Entered(hs)[n]
  {
    var front, h := hs[..|hs| - 1], hs[|hs| - 1];
    var t := Run(front);
    assert Entered(front) <= Entered(hs);
    if !InOrder(front) {
      assert forall i, j :: 0 <= i < j < |Entered(front)| ==> Entered(hs)[i] != Entered(hs)[j];
      n := OvertakenShows(front);
      LogGrows(t, h);
    } else {
      n := |t.log|;
      InOrderQueue(front);
      var i := IndexOf(t.calls, h.key);
      assert Entered(front)[n + i] == Held(t.calls)[i] && Entered(front)[n] == Held(t.calls)[0];
      assert Entered(hs)[n + i] == Entered(front)[n + i] && Entered(hs)[n] == Entered(front)[n];
    }
  }

  /** The flushed return-mode log lists the calls in entry order exactly when no call overtakes an older one. */
  lemma OrderIff<P, V>(hs: seq<Hook<P, V>>)
    requires NoRepeats(Entered(hs))
    ensures Payloads(Flush(Run(hs)).log) == Entered(hs) <==> InOrder(hs)
  {
    FlushedPayloads(Run(hs));
    if InOrder(hs) {
      InOrderQueue(hs);
    } else {
      var n := OvertakenShows(hs);
      assert Payloads(Flush(Run(hs)).log)[n] == Run(hs).log[n].payload;
    }
  }

  /** No two calls overlap: whenever a call enters, nothing is pending. */
  ghost predicate OneAtATime<P, V>(hs: seq<Hook<P, V>>) {
    hs != [] ==> OneAtATime(hs[..|hs| - 1]) && (hs[|hs| - 1].Entry? ==> Run(hs[..|hs| - 1]).calls == [])
  }

  /** Without overlap the two modes list the calls identically. */
  lemma {:induction false} NoOverlapSameOrder<P, V>(hs: seq<Hook<P, V>>)
    requires OneAtATime(hs)
    ensures InOrder(hs) && |Run(hs).calls| <= 1
    ensures Payloads(Flush(Run(hs)).log) == Entered(hs)
  {
    if hs != [] {
      NoOverlapSameOrder(hs[..|hs| - 1]);
    }
    InOrderQueue(hs);
    FlushedPayloads(Run(hs));
  }
}
