/** Pairing against the truth: threads that enter, block and return in any interleaving. */
module Pairing {
  import opened Options
  import opened Pending

  /** What the guest really does: call `c` enters, or comes back. */
  datatype Act = Enter(c: nat) | Leave(c: nat)

  /** The hooks see keys only; entries and returns are labelled here with the call they belong to. */
  function Seen(keys: nat -> Key, a: Act): Hook<nat, nat> {
    match a
    case Enter(c) => Entry(keys(c), c)
    case Leave(c) => Return(keys(c), c)
  }

  function SeenAll(keys: nat -> Key, acts: seq<Act>): seq<Hook<nat, nat>> {
    if acts == [] then [] else SeenAll(keys, acts[..|acts| - 1]) + [Seen(keys, acts[|acts| - 1])]
  }

  function Log(keys: nat -> Key, acts: seq<Act>): Table<nat, nat> {
    Run(SeenAll(keys, acts))
  }

  lemma LogStep(keys: nat -> Key, acts: seq<Act>)
    requires acts != []
    ensures Log(keys, acts) == OnHook(Log(keys, acts[..|acts| - 1]), Seen(keys, acts[|acts| - 1]))
  {
    var front := SeenAll(keys, acts[..|acts| - 1]);
    assert SeenAll(keys, acts)[..|front|] == front;
  }

  /** Every line with a return value carries the call and the result of one and the same call. */
  ghost predicate AllPaired(t: Table<nat, nat>) {
    forall i :: 0 <= i < |t.log| && t.log[i].Returned? ==> t.log[i].payload == t.log[i].ret
  }

  /** The call that last entered with this key, unless something has come back with the key since. */
  function Open(keys: nat -> Key, acts: seq<Act>, key: Key): Option<nat> {
    if acts == [] then None
    else
      var a := acts[|acts| - 1];
      if keys(a.c) != key then Open(keys, acts[..|acts| - 1], key) else if a.Enter? then Some(a.c) else None
  }

  /** The keys other calls have entered with since, and not come back with. */
  function Younger(keys: nat -> Key, acts: seq<Act>, key: Key): set<Key> {
    if acts == [] then {}
    else
      var a := acts[|acts| - 1];
      var sofar := Younger(keys, acts[..|acts| - 1], key);
      if keys(a.c) == key then {} else if a.Enter? then sofar + {keys(a.c)} else sofar - {keys(a.c)}
  }

  /** A call with this key entered, nothing has come back with the key since, and at no time since have 64
      younger keys been in use. */
  predicate Held(keys: nat -> Key, acts: seq<Act>, key: Key) {
    acts != [] &&
      var a := acts[|acts| - 1];
      if keys(a.c) == key then a.Enter?
      else Held(keys, acts[..|acts| - 1], key) && |Younger(keys, acts, key)| < PENDING_MAX
  }

  /** Nobody comes back under a key that is held for a different call. */
  ghost predicate Fair(keys: nat -> Key, acts: seq<Act>) {
    acts != [] ==>
      var front, a := acts[..|acts| - 1], acts[|acts| - 1];
      && Fair(keys, front)
      && (a.Leave? && Held(keys, front, keys(a.c)) ==> Open(keys, front, keys(a.c)) == Some(a.c))
  }

  // ---------------------------------------------------------------- what the table holds

  function KeySet(calls: seq<Call<nat>>): set<Key> {
    if calls == [] then {} else {calls[0].key} + KeySet(calls[1..])
  }

  /** The keys behind `key` in the queue. */
  function Behind(calls: seq<Call<nat>>, key: Key): set<Key> {
    if calls == [] then {} else if calls[0].key == key then KeySet(calls[1..]) else Behind(calls[1..], key)
  }

  lemma {:induction false} PendsIff(calls: seq<Call<nat>>, key: Key)
    ensures key in KeySet(calls) <==> IndexOf(calls, key) < |calls|
  {
    if calls != [] {
      PendsIff(calls[1..], key);
    }
  }

  lemma DistinctTail(calls: seq<Call<nat>>)
    requires Distinct(calls) && calls != []
    ensures Distinct(calls[1..]) && calls[0].key !in KeySet(calls[1..])
  {
    var rest := calls[1..];
    assert forall i :: 0 <= i < |rest| ==> rest[i] == calls[i + 1];
    PendsIff(rest, calls[0].key);
  }

  lemma {:induction false} KeySetSize(calls: seq<Call<nat>>)
    requires Distinct(calls)
    ensures |KeySet(calls)| == |calls|
  {
    if calls != [] {
      DistinctTail(calls);
      KeySetSize(calls[1..]);
    }
  }

  lemma {:induction false} BehindIsSmaller(calls: seq<Call<nat>>, key: Key)
    requires Distinct(calls) && key in KeySet(calls)
    ensures |Behind(calls, key)| < |calls|
    ensures calls[0].key == key ==> |Behind(calls, key)| == |calls| - 1
    ensures Behind(calls, key) <= KeySet(calls)
  {
    DistinctTail(calls);
    if calls[0].key == key {
      KeySetSize(calls[1..]);
    } else {
      BehindIsSmaller(calls[1..], key);
    }
  }

  lemma WithoutTail<T>(s: seq<T>, n: nat)
    requires 0 < n < |s|
    ensures Without(s, n)[0] == s[0] && Without(s, n)[1..] == Without(s[1..], n - 1)
  {
    assert s[..n][1..] == s[1..][..n - 1] && s[1..][n..] == s[n + 1..];
  }

  /** Taking another call out of the queue. */
  lemma {:induction false} BehindWithout(calls: seq<Call<nat>>, key: Key, other: Key)
    requires Distinct(calls) && IndexOf(calls, other) < |calls| && other != key
    ensures var rest := Without(calls, IndexOf(calls, other));
            KeySet(rest) == KeySet(calls) - {other} && Behind(rest, key) == Behind(calls, key) - {other}
  {
    DistinctTail(calls);
    var n, rest := IndexOf(calls, other), Without(calls, IndexOf(calls, other));
    if n == 0 {
      assert rest == calls[1..];
      if calls[0].key != key && key in KeySet(calls) {
        BehindIsSmaller(calls[1..], key);
      }
      BehindAbsent(calls[1..], key);
    } else {
      BehindWithout(calls[1..], key, other);
      WithoutTail(calls, n);
    }
  }

  lemma {:induction false} BehindAbsent(calls: seq<Call<nat>>, key: Key)
    ensures key !in KeySet(calls) ==> Behind(calls, key) == {}
  {
    if calls != [] {
      BehindAbsent(calls[1..], key);
    }
  }

  /** Another call joins the queue. */
  lemma {:induction false} BehindSnoc(calls: seq<Call<nat>>, key: Key, c: Call<nat>)
    ensures KeySet(calls + [c]) == KeySet(calls) + {c.key}
    ensures key in KeySet(calls) ==> Behind(calls + [c], key) == Behind(calls, key) + {c.key}
    ensures key !in KeySet(calls) ==> Behind(calls + [c], key) == {}
  {
    if calls == [] {
      assert calls + [c] == [c] && [c][1..] == [];
    } else {
      assert (calls + [c])[1..] == calls[1..] + [c];
      BehindSnoc(calls[1..], key, c);
    }
  }

  /** What the trace says about `key` is how things stand in the table. */
  ghost predicate Tracks(keys: nat -> Key, acts: seq<Act>, calls: seq<Call<nat>>, key: Key) {
    && (Held(keys, acts, key) <==> key in KeySet(calls))
    && (Held(keys, acts, key) ==> Behind(calls, key) == Younger(keys, acts, key))
  }

  /** The queue after the act, of which `key` is the key. */
  lemma OwnQueue(t: Table<nat, nat>, h: Hook<nat, nat>)
    requires Shape(t)
    ensures var calls := OnHook(t, h).calls;
            && (h.key in KeySet(calls) <==> h.Entry?)
            && (h.Entry? ==> Behind(calls, h.key) == {})
  {
    var n, calls := IndexOf(t.calls, h.key), OnHook(t, h).calls;
    PendsIff(t.calls, h.key);
    var others := if n < |t.calls| then Without(t.calls, n)
                  else if h.Entry? && |t.calls| >= PENDING_MAX then t.calls[1..] else t.calls;
    if n < |t.calls| {
      WithoutDistinct(t.calls, n);
    }
    assert forall j :: 0 <= j < |others| ==> others[j].key != h.key;
    PendsIff(others, h.key);
    if h.Entry? {
      BehindSnoc(others, h.key, Call(h.key, h.payload));
    }
  }

  /** The queue after an act with another key. */
  lemma LeaveQueue(t: Table<nat, nat>, other: Key, ret: nat, key: Key)
    requires Shape(t) && other != key
    ensures var calls := OnReturn(t, other, ret).calls;
            && (key in KeySet(calls) <==> key in KeySet(t.calls))
            && Behind(calls, key) == Behind(t.calls, key) - {other}
  {
    PendsIff(t.calls, other);
    if other in KeySet(t.calls) {
      BehindWithout(t.calls, key, other);
    } else if key in KeySet(t.calls) {
      BehindIsSmaller(t.calls, key);
    } else {
      BehindAbsent(t.calls, key);
    }
  }

  /** Where `key` stands when `c` joins: it pends if it did and fewer than 64 keys come behind it. */
  ghost predicate Joined(calls: seq<Call<nat>>, calls': seq<Call<nat>>, c: Key, key: Key) {
    && (key in KeySet(calls') <==> key in KeySet(calls) && |Behind(calls, key) + {c}| < PENDING_MAX)
    && (key in KeySet(calls') ==> Behind(calls', key) == Behind(calls, key) + {c})
  }

  lemma SupersedeQueue(calls: seq<Call<nat>>, c: Call<nat>, key: Key)
    requires Distinct(calls) && |calls| <= PENDING_MAX && c.key != key && IndexOf(calls, c.key) < |calls|
    ensures Joined(calls, Without(calls, IndexOf(calls, c.key)) + [c], c.key, key)
  {
    var rest := Without(calls, IndexOf(calls, c.key));
    BehindWithout(calls, key, c.key);
    BehindSnoc(rest, key, c);
    assert Behind(calls, key) - {c.key} + {c.key} == Behind(calls, key) + {c.key};
    if key in KeySet(calls) {
      WithoutDistinct(calls, IndexOf(calls, c.key));
      BehindIsSmaller(rest, key);
    }
  }

  lemma AppendQueue(calls: seq<Call<nat>>, c: Call<nat>, key: Key)
    requires Distinct(calls) && |calls| < PENDING_MAX && c.key != key
    ensures Joined(calls, calls + [c], c.key, key)
  {
    BehindSnoc(calls, key, c);
    if key in KeySet(calls) {
      BehindIsSmaller(calls, key);
    }
  }

  /** The full table: the oldest call goes, and exactly that call has 64 keys behind it then. */
  lemma EvictQueue(calls: seq<Call<nat>>, c: Call<nat>, key: Key)
    requires Distinct(calls) && |calls| == PENDING_MAX && c.key != key && c.key !in KeySet(calls)
    ensures Joined(calls, calls[1..] + [c], c.key, key)
  {
    DistinctTail(calls);
    BehindSnoc(calls[1..], key, c);
    if calls[0].key == key {
      BehindIsSmaller(calls, key);
      assert |Behind(calls, key) + {c.key}| == PENDING_MAX;
    } else if key in KeySet(calls) {
      BehindIsSmaller(calls[1..], key);
    }
  }

  lemma EnterQueue(t: Table<nat, nat>, c: Call<nat>, key: Key)
    requires Shape(t) && c.key != key
    ensures Joined(t.calls, OnEntry(t, c.key, c.payload).calls, c.key, key)
  {
    PendsIff(t.calls, c.key);
    if c.key in KeySet(t.calls) {
      SupersedeQueue(t.calls, c, key);
    } else if |t.calls| >= PENDING_MAX {
      EvictQueue(t.calls, c, key);
    } else {
      AppendQueue(t.calls, c, key);
    }
  }

  lemma TracksStep(keys: nat -> Key, acts: seq<Act>, t: Table<nat, nat>, key: Key)
    requires acts != [] && Shape(t) && Tracks(keys, acts[..|acts| - 1], t.calls, key)
    ensures Tracks(keys, acts, OnHook(t, Seen(keys, acts[|acts| - 1])).calls, key)
  {
    var a := acts[|acts| - 1];
    if keys(a.c) == key {
      OwnQueue(t, Seen(keys, a));
    } else if a.Enter? {
      EnterQueue(t, Call(keys(a.c), a.c), key);
    } else {
      LeaveQueue(t, keys(a.c), a.c, key);
      if key in KeySet(t.calls) {
        BehindIsSmaller(t.calls, key);
        Fewer(Behind(t.calls, key), keys(a.c));
      }
    }
  }

  lemma Fewer(s: set<Key>, key: Key)
    ensures |s - {key}| <= |s|
  {
    assert s == (s - {key}) + (s * {key});
  }

  /** For every trace, overflow included: a key pends exactly when the trace holds it. A call is given up for
      lack of room exactly when 64 younger keys come to be in use. */
  lemma {:induction false} PendsIffHeld(keys: nat -> Key, acts: seq<Act>, key: Key)
    ensures Tracks(keys, acts, Log(keys, acts).calls, key)
    ensures Held(keys, acts, key) <==> IndexOf(Log(keys, acts).calls, key) < |Log(keys, acts).calls|
  {
    if acts != [] {
      var front := acts[..|acts| - 1];
      PendsIffHeld(keys, front, key);
      TableShape(SeenAll(keys, front));
      LogStep(keys, acts);
      TracksStep(keys, acts, Log(keys, front), key);
    }
    PendsIff(Log(keys, acts).calls, key);
  }

  /** What pends under a key is the open call of that key. */
  ghost predicate HoldsOpen(keys: nat -> Key, acts: seq<Act>) {
    var calls := Log(keys, acts).calls;
    forall i :: 0 <= i < |calls| ==>
      calls[i].key == keys(calls[i].payload) && Open(keys, acts, calls[i].key) == Some(calls[i].payload)
  }

  lemma HoldsOpenStep(keys: nat -> Key, acts: seq<Act>)
    requires acts != [] && HoldsOpen(keys, acts[..|acts| - 1]) && Distinct(Log(keys, acts[..|acts| - 1]).calls)
    ensures HoldsOpen(keys, acts)
  {
    var front, a := acts[..|acts| - 1], acts[|acts| - 1];
    LogStep(keys, acts);
    var t, t' := Log(keys, front), Log(keys, acts);
    forall i | 0 <= i < |t'.calls|
      ensures t'.calls[i].key == keys(t'.calls[i].payload)
      ensures Open(keys, acts, t'.calls[i].key) == Some(t'.calls[i].payload)
    {
      var _ := Survivor(t, Seen(keys, a), i);
    }
  }

  lemma {:induction false} TableHoldsOpen(keys: nat -> Key, acts: seq<Act>)
    ensures HoldsOpen(keys, acts)
  {
    if acts != [] {
      TableHoldsOpen(keys, acts[..|acts| - 1]);
      TableShape(SeenAll(keys, acts[..|acts| - 1]));
      HoldsOpenStep(keys, acts);
    }
  }

  /** Pairing is right for every interleaving, with no last-in-first-out assumption and however many calls
      pend, as long as the trace is fair. */
  lemma {:induction false} FairIsPaired(keys: nat -> Key, acts: seq<Act>)
    requires Fair(keys, acts)
    ensures AllPaired(Log(keys, acts))
  {
    if acts != [] {
      var front, a := acts[..|acts| - 1], acts[|acts| - 1];
      FairIsPaired(keys, front);
      TableHoldsOpen(keys, front);
      PendsIffHeld(keys, front, keys(a.c));
      LogStep(keys, acts);
    }
  }

  /** An unfair return leaves a wrong line behind, for good. */
  lemma {:induction false} UnfairIsMispaired(keys: nat -> Key, acts: seq<Act>)
    requires !Fair(keys, acts)
    ensures !AllPaired(Log(keys, acts))
  {
    var front, a := acts[..|acts| - 1], acts[|acts| - 1];
    LogStep(keys, acts);
    var t, t' := Log(keys, front), Log(keys, acts);
    if !Fair(keys, front) {
      UnfairIsMispaired(keys, front);
      var i :| 0 <= i < |t.log| && t.log[i].Returned? && t.log[i].payload != t.log[i].ret;
      assert t'.log[i] == t.log[i];
    } else {
      PendsIffHeld(keys, front, keys(a.c));
      TableHoldsOpen(keys, front);
      assert t'.log[|t.log|].payload != t'.log[|t.log|].ret;
    }
  }

  /** The exact condition, for every trace: all lines are paired rightly if and only if no call returns under
      a key that is held for another one. */
  lemma PairedIffFair(keys: nat -> Key, acts: seq<Act>)
    ensures AllPaired(Log(keys, acts)) <==> Fair(keys, acts)
  {
    if Fair(keys, acts) {
      FairIsPaired(keys, acts);
    } else {
      UnfairIsMispaired(keys, acts);
    }
  }

  // ---------------------------------------------------------------- when nothing is lost

  /** The keys in use. */
  function OpenKeys(keys: nat -> Key, acts: seq<Act>): set<Key> {
    if acts == [] then {}
    else
      var sofar, a := OpenKeys(keys, acts[..|acts| - 1]), acts[|acts| - 1];
      if a.Enter? then sofar + {keys(a.c)} else sofar - {keys(a.c)}
  }

  ghost predicate AtMost64Keys(keys: nat -> Key, acts: seq<Act>) {
    |OpenKeys(keys, acts)| <= PENDING_MAX && (acts != [] ==> AtMost64Keys(keys, acts[..|acts| - 1]))
  }

  lemma {:induction false} YoungerAreOpen(keys: nat -> Key, acts: seq<Act>, key: Key)
    ensures Open(keys, acts, key).Some? <==> key in OpenKeys(keys, acts)
    ensures Younger(keys, acts, key) <= OpenKeys(keys, acts) - {key}
  {
    if acts != [] {
      YoungerAreOpen(keys, acts[..|acts| - 1], key);
    }
  }

  lemma SmallerSet(a: set<Key>, b: set<Key>, key: Key)
    requires a <= b - {key} && key in b
    ensures |a| < |b|
  {
    assert b - {key} == a + (b - {key} - a);
    assert |b - {key}| == |b| - 1;
  }

  /** With at most 64 keys in use at any time, the table loses no call: a key pends exactly while it is open. */
  lemma {:induction false} NothingLost(keys: nat -> Key, acts: seq<Act>, key: Key)
    requires AtMost64Keys(keys, acts)
    ensures Held(keys, acts, key) <==> Open(keys, acts, key).Some?
  {
    if acts != [] {
      NothingLost(keys, acts[..|acts| - 1], key);
      YoungerAreOpen(keys, acts, key);
      if key in OpenKeys(keys, acts) {
        SmallerSet(Younger(keys, acts, key), OpenKeys(keys, acts), key);
      }
    }
  }

  // ---------------------------------------------------------------- the intended situation

  /** The calls in progress, in the order they entered. */
  function InProgress(acts: seq<Act>): seq<nat> {
    if acts == [] then []
    else
      var live, a := InProgress(acts[..|acts| - 1]), acts[|acts| - 1];
      if a.Enter? then live + [a.c] else Drop(live, a.c)
  }

  function Position(s: seq<nat>, c: nat): (i: nat)
    requires c in s
    ensures i < |s| && s[i] == c
  {
    if s[0] == c then 0 else 1 + Position(s[1..], c)
  }

  function Drop(s: seq<nat>, c: nat): seq<nat> {
    if c in s then Without(s, Position(s, c)) else s
  }

  function Finished(acts: seq<Act>): seq<nat> {
    if acts == [] then []
    else Finished(acts[..|acts| - 1]) + if acts[|acts| - 1].Leave? then [acts[|acts| - 1].c] else []
  }

  /** Calls in progress have distinct keys, and only calls in progress come back. */
  ghost predicate Proper(keys: nat -> Key, acts: seq<Act>) {
    acts != [] ==>
      var front, a := acts[..|acts| - 1], acts[|acts| - 1];
      && Proper(keys, front)
      && (a.Enter? ==> forall c :: c in InProgress(front) ==> keys(c) != keys(a.c))
      && (a.Leave? ==> a.c in InProgress(front))
  }

  ghost predicate AtMost64(acts: seq<Act>) {
    |InProgress(acts)| <= PENDING_MAX && (acts != [] ==> AtMost64(acts[..|acts| - 1]))
  }

  function CallsOf(keys: nat -> Key, live: seq<nat>): seq<Call<nat>> {
    seq(|live|, i requires 0 <= i < |live| => Call(keys(live[i]), live[i]))
  }

  ghost predicate KeysDiffer(keys: nat -> Key, live: seq<nat>) {
    forall i, j :: 0 <= i < j < |live| ==> keys(live[i]) != keys(live[j])
  }

  lemma EnterProper(keys: nat -> Key, t: Table<nat, nat>, live: seq<nat>, c: nat)
    requires t.calls == CallsOf(keys, live) && KeysDiffer(keys, live) && |live| < PENDING_MAX
    requires forall d :: d in live ==> keys(d) != keys(c)
    ensures OnHook(t, Entry(keys(c), c)) == Table(CallsOf(keys, live + [c]), t.log)
    ensures KeysDiffer(keys, live + [c])
  {
    assert forall i :: 0 <= i < |t.calls| ==> live[i] in live && t.calls[i].key == keys(live[i]);
    assert CallsOf(keys, live + [c]) == CallsOf(keys, live) + [Call(keys(c), c)];
  }

  lemma LeaveProper(keys: nat -> Key, t: Table<nat, nat>, live: seq<nat>, c: nat)
    requires t.calls == CallsOf(keys, live) && KeysDiffer(keys, live) && c in live
    ensures OnHook(t, Return(keys(c), c)) == Table(CallsOf(keys, Drop(live, c)), t.log + [Returned(c, c)])
    ensures KeysDiffer(keys, Drop(live, c))
  {
    var i := Position(live, c);
    assert t.calls[i] == Call(keys(c), c);
    assert IndexOf(t.calls, keys(c)) == i;
    assert CallsOf(keys, Without(live, i)) == Without(t.calls, i);
  }

  /** Completeness: with distinct keys and at most 64 calls in progress, the log is precisely one line per
      call that came back, in completion order, each with its own result. */
  lemma {:induction false} CompletionLog(keys: nat -> Key, acts: seq<Act>)
    requires Proper(keys, acts) && AtMost64(acts)
    ensures KeysDiffer(keys, InProgress(acts))
    ensures Log(keys, acts).calls == CallsOf(keys, InProgress(acts))
    ensures Log(keys, acts).log == seq(|Finished(acts)|, i requires 0 <= i < |Finished(acts)| =>
                                         Returned(Finished(acts)[i], Finished(acts)[i]))
  {
    if acts != [] {
      var front, a := acts[..|acts| - 1], acts[|acts| - 1];
      CompletionLog(keys, front);
      LogStep(keys, acts);
      if a.Enter? {
        EnterProper(keys, Log(keys, front), InProgress(front), a.c);
      } else {
        LeaveProper(keys, Log(keys, front), InProgress(front), a.c);
      }
    }
  }

  lemma {:induction false} ProperKeys(keys: nat -> Key, acts: seq<Act>)
    requires Proper(keys, acts)
    ensures KeysDiffer(keys, InProgress(acts))
  {
    if acts != [] {
      ProperKeys(keys, acts[..|acts| - 1]);
      var live, a := InProgress(acts[..|acts| - 1]), acts[|acts| - 1];
      if a.Enter? {
        KeysSnoc(keys, live, a.c);
      } else {
        KeysWithout(keys, live, Position(live, a.c));
      }
    }
  }

  lemma KeysSnoc(keys: nat -> Key, live: seq<nat>, c: nat)
    requires KeysDiffer(keys, live) && forall d :: d in live ==> keys(d) != keys(c)
    ensures KeysDiffer(keys, live + [c])
  {
    assert forall i :: 0 <= i < |live| ==> live[i] in live;
  }

  lemma KeysWithout(keys: nat -> Key, live: seq<nat>, k: nat)
    requires KeysDiffer(keys, live) && k < |live|
    ensures KeysDiffer(keys, Without(live, k))
    ensures forall d :: d in live && d != live[k] ==> d in Without(live, k)
  {
    var rest := Without(live, k);
    assert forall i :: 0 <= i < |rest| ==> rest[i] == live[if i < k then i else i + 1];
    forall d | d in live && d != live[k] ensures d in rest {
      var i := Position(live, d);
      assert rest[if i < k then i else i - 1] == d;
    }
  }

  /** An open call is in progress. */
  lemma {:induction false} OpenInProgress(keys: nat -> Key, acts: seq<Act>, key: Key)
    requires Proper(keys, acts) && Open(keys, acts, key).Some?
    ensures Open(keys, acts, key).value in InProgress(acts) && keys(Open(keys, acts, key).value) == key
  {
    var front, a := acts[..|acts| - 1], acts[|acts| - 1];
    if keys(a.c) != key {
      OpenInProgress(keys, front, key);
      ProperKeys(keys, front);
      if a.Leave? {
        KeysWithout(keys, InProgress(front), Position(InProgress(front), a.c));
      }
    }
  }

  lemma {:induction false} HeldIsOpen(keys: nat -> Key, acts: seq<Act>, key: Key)
    requires Held(keys, acts, key)
    ensures Open(keys, acts, key).Some?
  {
    if keys(acts[|acts| - 1].c) != key {
      HeldIsOpen(keys, acts[..|acts| - 1], key);
    }
  }

  /** Distinct keys alone, with any number of calls in progress, make a trace fair and so all pairs right;
      calls pushed out of a full table are reported as unfinished, never with another call's result. */
  lemma {:induction false} ProperIsPaired(keys: nat -> Key, acts: seq<Act>)
    requires Proper(keys, acts)
    ensures Fair(keys, acts) && AllPaired(Log(keys, acts))
  {
    if acts != [] {
      var front, a := acts[..|acts| - 1], acts[|acts| - 1];
      ProperIsPaired(keys, front);
      if a.Leave? && Held(keys, front, keys(a.c)) {
        ProperKeys(keys, front);
        HeldIsOpen(keys, front, keys(a.c));
        var live, o := InProgress(front), Open(keys, front, keys(a.c));
        if o.Some? {
          OpenInProgress(keys, front, keys(a.c));
          assert live[Position(live, o.value)] == o.value && live[Position(live, a.c)] == a.c;
        }
      }
    }
    FairIsPaired(keys, acts);
  }

  // ---------------------------------------------------------------- from labels to real values

  function MapHook<A, B, C, D>(f: A -> C, r: B -> D, h: Hook<A, B>): Hook<C, D> {
    match h
    case Entry(key, p) => Entry(key, f(p))
    case Return(key, v) => Return(key, r(v))
  }

  function MapLine<A, B, C, D>(f: A -> C, r: B -> D, l: Line<A, B>): Line<C, D> {
    match l
    case Plain(p) => Plain(f(p))
    case Returned(p, v) => Returned(f(p), r(v))
    case Unfinished(p, why) => Unfinished(f(p), why)
  }

  function MapCall<A, C>(f: A -> C, c: Call<A>): Call<C> {
    Call(c.key, f(c.payload))
  }

  function Map<S, T>(f: S -> T, s: seq<S>): seq<T> {
    seq(|s|, i requires 0 <= i < |s| => f(s[i]))
  }

  function MapTable<A, B, C, D>(f: A -> C, r: B -> D, t: Table<A, B>): Table<C, D> {
    Table(Map(c => MapCall(f, c), t.calls), Map(l => MapLine(f, r, l), t.log))
  }

  lemma {:induction false} SameIndex<A, C>(f: A -> C, calls: seq<Call<A>>, key: Key)
    ensures IndexOf(Map(c => MapCall(f, c), calls), key) == IndexOf(calls, key)
  {
    if calls != [] {
      SameIndex(f, calls[1..], key);
      assert Map(c => MapCall(f, c), calls)[1..] == Map(c => MapCall(f, c), calls[1..]);
    }
  }

  lemma MapWithout<S, T>(f: S -> T, s: seq<S>, i: nat)
    requires i < |s|
    ensures Map(f, Without(s, i)) == Without(Map(f, s), i)
  {
  }

  lemma MapConcat<S, T>(f: S -> T, s: seq<S>, t: seq<S>)
    ensures Map(f, s + t) == Map(f, s) + Map(f, t)
  {
  }

  /** A call leaves the table with its line, and perhaps a newcomer joins. */
  lemma RetireNatural<A, B, C, D>(
      f: A -> C, r: B -> D, t: Table<A, B>, i: nat, line: Line<A, B>, came: seq<Call<A>>)
    requires i < |t.calls| && |came| <= 1
    ensures var m := MapTable(f, r, t);
            MapTable(f, r, Table(Without(t.calls, i) + came, t.log + [line]))
            == Table(Without(m.calls, i) + Map(c => MapCall(f, c), came), m.log + [MapLine(f, r, line)])
  {
    var fc := (c: Call<A>) => MapCall(f, c);
    MapConcat(fc, Without(t.calls, i), came);
    MapWithout(fc, t.calls, i);
    MapConcat(l => MapLine(f, r, l), t.log, [line]);
  }

  lemma EntryNatural<A, B, C, D>(f: A -> C, r: B -> D, t: Table<A, B>, key: Key, p: A)
    ensures OnEntry(MapTable(f, r, t), key, f(p)) == MapTable(f, r, OnEntry(t, key, p))
  {
    var i, c := IndexOf(t.calls, key), Call(key, p);
    SameIndex(f, t.calls, key);
    assert Map(c => MapCall(f, c), [c]) == [MapCall(f, c)];
    if i < |t.calls| {
      RetireNatural(f, r, t, i, Unfinished(t.calls[i].payload, Superseded), [c]);
    } else if |t.calls| >= PENDING_MAX {
      assert t.calls[1..] == Without(t.calls, 0);
      assert MapTable(f, r, t).calls[1..] == Without(MapTable(f, r, t).calls, 0);
      RetireNatural(f, r, t, 0, Unfinished(t.calls[0].payload, Evicted), [c]);
    } else {
      MapConcat((c: Call<A>) => MapCall(f, c), t.calls, [c]);
    }
  }

  lemma ReturnNatural<A, B, C, D>(f: A -> C, r: B -> D, t: Table<A, B>, key: Key, v: B)
    ensures OnReturn(MapTable(f, r, t), key, r(v)) == MapTable(f, r, OnReturn(t, key, v))
  {
    var i := IndexOf(t.calls, key);
    SameIndex(f, t.calls, key);
    if i < |t.calls| {
      RetireNatural(f, r, t, i, Returned(t.calls[i].payload, v), []);
      assert Without(t.calls, i) + [] == Without(t.calls, i);
      assert Without(MapTable(f, r, t).calls, i) + [] == Without(MapTable(f, r, t).calls, i);
    }
  }

  lemma HookNatural<A, B, C, D>(f: A -> C, r: B -> D, t: Table<A, B>, h: Hook<A, B>)
    ensures OnHook(MapTable(f, r, t), MapHook(f, r, h)) == MapTable(f, r, OnHook(t, h))
  {
    match h
    case Entry(key, p) => EntryNatural(f, r, t, key, p);
    case Return(key, v) => ReturnNatural(f, r, t, key, v);
  }

  /** The table never looks at payloads or results, so what holds of the labels holds of the real numbers,
      arguments and return values: the real log is the labelled log with labels replaced. */
  lemma {:induction false} RunNatural<A, B, C, D>(f: A -> C, r: B -> D, hs: seq<Hook<A, B>>)
    ensures Run(Map(h => MapHook(f, r, h), hs)) == MapTable(f, r, Run(hs))
  {
    var hs' := Map(h => MapHook(f, r, h), hs);
    if hs != [] {
      var front := hs[..|hs| - 1];
      RunNatural(f, r, front);
      assert hs'[..|hs| - 1] == Map(h => MapHook(f, r, h), front);
      HookNatural(f, r, Run(front), hs[|hs| - 1]);
    }
  }

  /** Every line of the real log that has a return value is some one call's own arguments with that same
      call's own result, for every interleaving of calls with distinct keys. */
  lemma RealLinesPaired<P, V>(keys: nat -> Key, payload: nat -> P, result: nat -> V, acts: seq<Act>, i: nat)
    requires Proper(keys, acts)
    requires var log := Run(Map(h => MapHook(payload, result, h), SeenAll(keys, acts))).log;
             i < |log| && log[i].Returned?
    ensures var log := Run(Map(h => MapHook(payload, result, h), SeenAll(keys, acts))).log;
            exists c :: log[i] == Returned(payload(c), result(c))
  {
    RunNatural(payload, result, SeenAll(keys, acts));
    ProperIsPaired(keys, acts);
    var line := Log(keys, acts).log[i];
    assert line == Returned(line.payload, line.payload);
  }

  /** And with at most 64 calls in progress it is exactly the calls that came back, in completion order. */
  lemma RealLogComplete<P, V>(keys: nat -> Key, payload: nat -> P, result: nat -> V, acts: seq<Act>)
    requires Proper(keys, acts) && AtMost64(acts)
    ensures Run(Map(h => MapHook(payload, result, h), SeenAll(keys, acts))).log
         == Map(c => Returned(payload(c), result(c)), Finished(acts))
  {
    RunNatural(payload, result, SeenAll(keys, acts));
    CompletionLog(keys, acts);
  }
}
