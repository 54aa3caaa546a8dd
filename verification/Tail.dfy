/** Following the log file while it grows, and the live view printed from it. */
module Tail {
  import opened Options
  import opened Filter

  /** Offset of the first newline, or the length of `s`. */
  function FirstNewline(s: string): (n: nat)
    ensures n <= |s|
    ensures forall i :: 0 <= i < n ==> s[i] != '\n'
    ensures n < |s| ==> s[n] == '\n'
  {
    if s == [] || s[0] == '\n' then 0 else 1 + FirstNewline(s[1..])
  }

  /** The newline-terminated lines of a file, in order. */
  function Lines(s: string): seq<string>
    decreases |s|
  {
    var n := FirstNewline(s);
    if n == |s| then [] else [s[..n + 1]] + Lines(s[n + 1..])
  }

  function Join(ls: seq<string>): string {
    if ls == [] then "" else ls[0] + Join(ls[1..])
  }

  ghost predicate Complete(l: string) {
    l != "" && l[|l| - 1] == '\n' && forall i :: 0 <= i < |l| - 1 ==> l[i] != '\n'
  }

  ghost predicate AllComplete(ls: seq<string>) {
    forall i :: 0 <= i < |ls| ==> Complete(ls[i])
  }

  ghost predicate Growing(views: seq<string>) {
    forall i, j :: 0 <= i <= j < |views| ==> views[i] <= views[j]
  }

  /** What one readline() returns from `pos`. */
  function ReadLine(file: string, pos: nat): string
    requires pos <= |file|
  {
    var n := FirstNewline(file[pos..]);
    if pos + n < |file| then file[pos..pos + n + 1] else file[pos..]
  }

  // ---------------------------------------------------------------- the lines of a file

  lemma {:induction false} JoinAppend(ls: seq<string>, l: string)
    ensures Join(ls + [l]) == Join(ls) + l
  {
    if ls == [] {
      assert ls + [l] == [l];
      assert Join([l]) == l + Join([]);
    } else {
      assert (ls + [l])[1..] == ls[1..] + [l];
      JoinAppend(ls[1..], l);
      assert ls[0] + (Join(ls[1..]) + l) == ls[0] + Join(ls[1..]) + l;
    }
  }

  lemma LineThenRest(l: string, t: string)
    requires Complete(l)
    ensures FirstNewline(l + t) == |l| - 1 && Lines(l + t) == [l] + Lines(t)
  {
    var s := l + t;
    var n := FirstNewline(s);
    assert s[|l| - 1] == '\n' && forall i :: 0 <= i < |l| - 1 ==> s[i] != '\n';
    assert n == |l| - 1;
    assert s[..n + 1] == l && s[n + 1..] == t;
  }

  lemma Assoc<T>(a: seq<T>, b: seq<T>, c: seq<T>)
    ensures a + b + c == a + (b + c)
  {
  }

  /** Complete lines followed by anything: they are the first lines of the whole. */
  lemma {:induction false} LinesOfJoin(ls: seq<string>, t: string)
    requires AllComplete(ls)
    ensures Lines(Join(ls) + t) == ls + Lines(t)
  {
    if ls == [] {
      assert Join(ls) + t == t;
    } else {
      var l, tail := ls[0], ls[1..];
      LinesOfJoin(tail, t);
      assert Join(ls) + t == l + (Join(tail) + t) by {
        Assoc(l, Join(tail), t);
      }
      LineThenRest(l, Join(tail) + t);
      assert [l] + (tail + Lines(t)) == ls + Lines(t) by {
        Assoc([l], tail, Lines(t));
        assert [l] + tail == ls;
      }
    }
  }

  // ---------------------------------------------------------------- the follower

  function Last(views: seq<string>): string {
    if views == [] then "" else views[|views| - 1]
  }

  /** How many lines the first `i` polls yield, each finding the file as `views` says. */
  function Yielded(views: seq<string>, i: nat): nat
    requires i <= |views|
  {
    if i == 0 then 0
    else
      var k := Yielded(views, i - 1);
      if k < |Lines(views[i - 1])| then k + 1 else k
  }

  /** The follower has read `lines`, all of them complete, and stands right behind them in `file`. */
  ghost predicate Passed(file: string, lines: seq<string>, pos: nat) {
    pos <= |file| && file[..pos] == Join(lines) && AllComplete(lines)
  }

  /** What was read are the first lines of the file. */
  lemma PassedLines(file: string, lines: seq<string>, pos: nat)
    requires Passed(file, lines, pos)
    ensures Lines(file) == lines + Lines(file[pos..])
  {
    assert file == file[..pos] + file[pos..];
    LinesOfJoin(lines, file[pos..]);
  }

  lemma PassedLine(file: string, lines: seq<string>, pos: nat, l: string)
    requires Passed(file, lines, pos) && Complete(l) && l <= file[pos..]
    ensures Passed(file, lines + [l], pos + |l|)
  {
    JoinAppend(lines, l);
    assert file[..pos + |l|] == file[..pos] + file[pos..][..|l|];
  }

  /** Whether readline() came back with a whole line. */
  predicate Ended(l: string) {
    l != "" && l[|l| - 1] == '\n'
  }

  /** readline() finds a complete line exactly when one is left. */
  lemma ReadLineNext(file: string, pos: nat)
    requires pos <= |file|
    ensures var l, t := ReadLine(file, pos), file[pos..];
            && (Ended(l) ==> Complete(l) && l <= t && Lines(t) != [])
            && (!Ended(l) ==> '\n' !in t && Lines(t) == [])
  {
    var t, l := file[pos..], ReadLine(file, pos);
    var n := FirstNewline(t);
    if n < |t| {
      assert l == t[..n + 1];
    } else {
      assert l == t;
    }
  }

  lemma PassedNext(file: string, lines: seq<string>, pos: nat)
    requires Passed(file, lines, pos)
    ensures var l := ReadLine(file, pos);
            if Ended(l) then |lines| < |Lines(file)| && Passed(file, lines + [l], pos + |l|)
            else |lines| == |Lines(file)| && '\n' !in file[pos..]
  {
    PassedLines(file, lines, pos);
    ReadLineNext(file, pos);
    if Ended(ReadLine(file, pos)) {
      PassedLine(file, lines, pos, ReadLine(file, pos));
    }
  }

  /** After `i` polls the follower has yielded `lines` and stands at `pos`. */
  ghost predicate Following(views: seq<string>, i: nat, lines: seq<string>, pos: nat) {
    i <= |views| && Passed(Last(views[..i]), lines, pos) && |lines| == Yielded(views, i)
  }

  lemma NothingRead(views: seq<string>)
    ensures Following(views, 0, [], 0)
  {
  }

  lemma PollGrows(views: seq<string>, i: nat, lines: seq<string>, pos: nat)
    requires Growing(views) && i < |views| && Following(views, i, lines, pos)
    ensures Passed(views[i], lines, pos)
  {
    var was := Last(views[..i]);
    assert was <= views[i];
    assert views[i][..pos] == was[..pos];
  }

  lemma ViewedNext(views: seq<string>, i: nat)
    requires i < |views|
    ensures Last(views[..i + 1]) == views[i]
  {
  }

  /** One poll. */
  lemma Poll(views: seq<string>, i: nat, lines: seq<string>, pos: nat)
    requires Growing(views) && i < |views| && Following(views, i, lines, pos)
    ensures pos <= |views[i]|
    ensures var l := ReadLine(views[i], pos);
            if Ended(l) then Following(views, i + 1, lines + [l], pos + |l|)
            else Following(views, i + 1, lines, pos)
  {
    PollGrows(views, i, lines, pos);
    ViewedNext(views, i);
    PassedNext(views[i], lines, pos);
  }

  /** Appends have stopped for the last `m` polls, and these are enough for the lines left over before. */
  ghost predicate Idle(views: seq<string>, m: nat) {
    && m <= |views|
    && (forall i :: |views| - m <= i < |views| ==> views[i] == Last(views))
    && Yielded(views, |views| - m) + m >= |Lines(Last(views))|
  }

  ghost predicate EnoughPolls(views: seq<string>) {
    exists m :: Idle(views, m)
  }

  lemma PollsEnd(views: seq<string>, lines: seq<string>, pos: nat)
    requires Following(views, |views|, lines, pos)
    ensures Passed(Last(views), lines, pos) && lines <= Lines(Last(views))
    ensures EnoughPolls(views) ==> lines == Lines(Last(views)) && '\n' !in Last(views)[pos..]
  {
    assert views[..|views|] == views;
    PassedLines(Last(views), lines, pos);
    if EnoughPolls(views) {
      AllYielded(views);
      CaughtUp(Last(views), lines, pos);
    }
  }

  lemma AllYielded(views: seq<string>)
    requires EnoughPolls(views)
    ensures Yielded(views, |views|) >= |Lines(Last(views))|
  {
    var m :| Idle(views, m);
    CatchesUp(views, |Lines(Last(views))|, |views| - m, |views|);
  }

  /** The body of the loop: readline, and yield the line or rewind. */
  method PollOnce(views: seq<string>, i: nat, lines: seq<string>, pos: nat) returns (lines': seq<string>, pos': nat)
    requires Growing(views) && i < |views| && Following(views, i, lines, pos)
    ensures Following(views, i + 1, lines', pos')
  {
    Poll(views, i, lines, pos);
    var line := ReadLine(views[i], pos);
    if Ended(line) {
      return lines + [line], pos + |line|;
    }
    return lines, pos;
  }

  /** tail_lines(): one readline per poll until the deadline, rewinding when the line is not complete. For
      every way the file grows between polls, the lines yielded are the first lines of the file, each of
      them complete, and the read position is exactly behind them. Once appends stop, one poll for each line
      left is enough to have only an unterminated remainder unread. */
  method TailLines(views: seq<string>) returns (lines: seq<string>, pos: nat)
    requires Growing(views)
    ensures Passed(Last(views), lines, pos)
    ensures |lines| == Yielded(views, |views|) && lines <= Lines(Last(views))
    ensures EnoughPolls(views) ==> lines == Lines(Last(views)) && '\n' !in Last(views)[pos..]
  {
    lines, pos := [], 0;
    NothingRead(views);
    var i := 0;
    while i < |views|
      invariant 0 <= i <= |views|
      invariant Following(views, i, lines, pos)
    {
      lines, pos := PollOnce(views, i, lines, pos);
      i := i + 1;
    }
    PollsEnd(views, lines, pos);
  }

  /** While the file has `n` lines, each poll yields a line until none is left. */
  lemma {:induction false} CatchesUp(views: seq<string>, n: nat, i: nat, j: nat)
    requires i <= j <= |views|
    requires forall k :: i <= k < j ==> |Lines(views[k])| == n
    ensures Yielded(views, j) >= Yielded(views, i) + (j - i) || (i < j && Yielded(views, j) >= n)
    decreases j
  {
    if i != j {
      CatchesUp(views, n, i, j - 1);
    }
  }

  lemma CaughtUp(file: string, lines: seq<string>, pos: nat)
    requires Passed(file, lines, pos) && |lines| >= |Lines(file)|
    ensures lines == Lines(file) && '\n' !in file[pos..]
  {
    PassedLines(file, lines, pos);
    PassedNext(file, lines, pos);
  }

  // ---------------------------------------------------------------- the live view

  /** The decodable events among the lines. */
  function Decoded<T>(decode: string -> Option<T>, lines: seq<string>): seq<T> {
    if lines == [] then []
    else
      var d := decode(lines[|lines| - 1]);
      Decoded(decode, lines[..|lines| - 1]) + if d.Some? then [d.value] else []
  }

  ghost predicate Decodes<T>(decode: string -> Option<T>, lines: seq<string>, events: seq<T>) {
    |lines| == |events| && forall k :: 0 <= k < |lines| ==> decode(lines[k]) == Some(events[k])
  }

  /** `idx` are the places, in order, of all decodable lines, and `events` what these decode to. */
  ghost predicate AreDecoded<T>(decode: string -> Option<T>, lines: seq<string>, events: seq<T>, idx: seq<nat>) {
    ArePlaces(l => decode(l).Some?, lines, idx) && Decodes(decode, Pick(lines, idx), events)
  }

  lemma DecodesMore<T>(decode: string -> Option<T>, lines: seq<string>, events: seq<T>, l: string)
    requires Decodes(decode, lines, events) && decode(l).Some?
    ensures Decodes(decode, lines + [l], events + [decode(l).value])
  {
  }

  lemma {:induction false} DecodedAre<T>(decode: string -> Option<T>, lines: seq<string>) returns (idx: seq<nat>)
    ensures AreDecoded(decode, lines, Decoded(decode, lines), idx)
  {
    idx := [];
    if lines != [] {
      var front, l := lines[..|lines| - 1], lines[|lines| - 1];
      idx := DecodedAre(decode, front);
      assert lines == front + [l];
      OneMore(l => decode(l).Some?, front, l, idx);
      PickMore(front, l, idx);
      if decode(l).Some? {
        DecodesMore(decode, Pick(front, idx), Decoded(decode, front), l);
        idx := idx + [|front|];
      }
    }
  }

  /** How many events precede the first ready one. */
  function BeforeReady<T>(ready: T -> bool, events: seq<T>): (k: nat)
    ensures k <= |events| && forall j :: 0 <= j < k ==> !ready(events[j])
    ensures k < |events| ==> ready(events[k])
  {
    if events == [] || ready(events[0]) then 0 else 1 + BeforeReady(ready, events[1..])
  }

  /** The display so far: events before the first ready one are held back, if asked for. */
  ghost predicate Display<T>(ready: T -> bool, events: seq<T>, after: bool, seen: bool, printed: seq<T>) {
    if after then printed == events[BeforeReady(ready, events)..] && seen == (printed != [])
    else seen && printed == events
  }

  lemma DisplayNext<T>(ready: T -> bool, events: seq<T>, after: bool, seen: bool, printed: seq<T>, e: T)
    requires Display(ready, events, after, seen, printed)
    ensures var seen' := seen || ready(e);
            Display(ready, events + [e], after, seen', if seen' then printed + [e] else printed)
  {
    var k := BeforeReady(ready, events);
    assert forall j :: 0 <= j < |events| ==> (events + [e])[j] == events[j];
    assert (events + [e])[|events|] == e;
    var k' := BeforeReady(ready, events + [e]);
    if k < |events| {
      assert k' == k && (events + [e])[k..] == events[k..] + [e];
    } else if ready(e) {
      assert k' == |events| && (events + [e])[k'..] == [e];
    } else {
      assert k' == |events| + 1 && (events + [e])[k'..] == [];
    }
  }

  lemma DecodedNext<T>(decode: string -> Option<T>, lines: seq<string>, i: nat)
    requires i < |lines|
    ensures var d, before := decode(lines[i]), Decoded(decode, lines[..i]);
            Decoded(decode, lines[..i + 1]) == if d.Some? then before + [d.value] else before
  {
    assert lines[..i + 1][..i] == lines[..i];
  }

  /** The loop of run_interactive() over the lines it is given. */
  method ShowLines<T>(lines: seq<string>, decode: string -> Option<T>, ready: T -> bool, showAfterReady: bool)
    returns (count: nat, printed: seq<T>)
    ensures var events := Decoded(decode, lines);
            && count == |events|
            && printed == if showAfterReady then events[BeforeReady(ready, events)..] else events
    ensures exists idx :: AreDecoded(decode, lines, Decoded(decode, lines), idx)
  {
    var readySeen := !showAfterReady;
    count, printed := 0, [];
    ghost var events: seq<T> := [];
    for i := 0 to |lines|
      invariant events == Decoded(decode, lines[..i]) && count == |events|
      invariant Display(ready, events, showAfterReady, readySeen, printed)
    {
      DecodedNext(decode, lines, i);
      var evt := decode(lines[i]);
      if evt.Some? {
        DisplayNext(ready, events, showAfterReady, readySeen, printed, evt.value);
        events := events + [evt.value];
        count := count + 1;
        readySeen := readySeen || ready(evt.value);
        if readySeen {
          printed := printed + [evt.value];
        }
      }
    }
    assert lines[..|lines|] == lines;
    ghost var idx := DecodedAre(decode, lines);
  }

  /** run_interactive() over a growing file: the count is the number of decodable lines in a prefix of the
      log's lines, and what is printed is all of them, or with the ready filter those from the first
      accepted connection on. */
  method RunInteractive<T>(views: seq<string>, decode: string -> Option<T>, ready: T -> bool, showAfterReady: bool)
    returns (count: nat, printed: seq<T>)
    requires Growing(views)
    ensures Yielded(views, |views|) <= |Lines(Last(views))|
    ensures var events := Decoded(decode, Lines(Last(views))[..Yielded(views, |views|)]);
            && count == |events|
            && printed == if showAfterReady then events[BeforeReady(ready, events)..] else events
  {
    var lines, _ := TailLines(views);
    assert lines == Lines(Last(views))[..Yielded(views, |views|)];
    count, printed := ShowLines(lines, decode, ready, showAfterReady);
  }
}
