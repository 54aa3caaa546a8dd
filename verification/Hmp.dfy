/** Talking to QEMU's text monitor: collecting a reply up to the prompt from arbitrarily cut chunks, and
    recovering its text from a stream mixed with terminal escape sequences. */
module Hmp {
  import opened Basic
  import opened Options

  type Bytes = seq<Byte>

  const ESC: Byte := 0x1b
  const BRACKET: Byte := 0x5b
  const CR: Byte := 0x0d
  const LF: Byte := 0x0a
  const PROMPT: Bytes := [0x28, 0x71, 0x65, 0x6d, 0x75, 0x29, 0x20]  // "(qemu) "

  predicate EndsWith(s: Bytes, t: Bytes) {
    |t| <= |s| && s[|s| - |t|..] == t
  }

  // ---------------------------------------------------------------- receiving

  function Concat(chunks: seq<Bytes>): Bytes {
    if chunks == [] then [] else chunks[0] + Concat(chunks[1..])
  }

  /** The text up to the first chunk boundary at which it ends with the prompt; none if the peer closes the
      connection (an empty chunk, or no more chunks) before that. */
  function Received(buf: Bytes, chunks: seq<Bytes>): Option<Bytes>
    decreases |chunks|
  {
    if EndsWith(buf, PROMPT) then Some(buf)
    else if chunks == [] || chunks[0] == [] then None
    else Received(buf + chunks[0], chunks[1..])
  }

  /** `n` chunks came in, none of them empty, and at no chunk boundary before did the text end with "(qemu) ". */
  ghost predicate Waited(chunks: seq<Bytes>, n: nat) {
    n <= |chunks| && forall i :: 0 <= i < n ==>
      chunks[i] != [] && !EndsWith(Concat(chunks[..i]), [0x28, 0x71, 0x65, 0x6d, 0x75, 0x29, 0x20])
  }

  /** What is received: the text up to the first chunk boundary at which it ends with the prompt, or nothing if
      the peer closes the connection (an empty chunk, or no more) first. */
  ghost predicate IsReceived(chunks: seq<Bytes>, reply: Option<Bytes>, n: nat) {
    && Waited(chunks, n)
    && var buf := Concat(chunks[..n]);
       if EndsWith(buf, [0x28, 0x71, 0x65, 0x6d, 0x75, 0x29, 0x20]) then reply == Some(buf)
       else reply == None && (n == |chunks| || chunks[n] == [])
  }

  lemma {:induction false} ConcatSnoc(chunks: seq<Bytes>, c: Bytes)
    ensures Concat(chunks + [c]) == Concat(chunks) + c
  {
    if chunks == [] {
      assert [c][1..] == [] && Concat([c]) == c + [];
    } else {
      assert (chunks + [c])[1..] == chunks[1..] + [c];
      ConcatSnoc(chunks[1..], c);
      assert chunks[0] + (Concat(chunks[1..]) + c) == chunks[0] + Concat(chunks[1..]) + c;
    }
  }

  /** _recv_until_prompt() */
  method RecvUntilPrompt(chunks: seq<Bytes>) returns (reply: Option<Bytes>)
    ensures reply == Received([], chunks)
    ensures exists n :: IsReceived(chunks, reply, n)
  {
    var buf: Bytes := [];
    var i := 0;
    while !EndsWith(buf, PROMPT)
      invariant i <= |chunks| && Received([], chunks) == Received(buf, chunks[i..])
      invariant Waited(chunks, i) && buf == Concat(chunks[..i])
      decreases |chunks| - i
    {
      if i == |chunks| || chunks[i] == [] {
        assert IsReceived(chunks, None, i);
        return None;
      }
      assert chunks[i..][1..] == chunks[i + 1..];
      ConcatSnoc(chunks[..i], chunks[i]);
      assert chunks[..i + 1] == chunks[..i] + [chunks[i]];
      buf := buf + chunks[i];
      i := i + 1;
    }
    assert IsReceived(chunks, Some(buf), i);
    return Some(buf);
  }

  ghost predicate Chunking(chunks: seq<Bytes>, raw: Bytes) {
    Concat(chunks) == raw && forall i :: 0 <= i < |chunks| ==> chunks[i] != []
  }

  /** No part of the stream looks finished before its end. */
  ghost predicate PromptOnlyAtEnd(raw: Bytes) {
    EndsWith(raw, [0x28, 0x71, 0x65, 0x6d, 0x75, 0x29, 0x20])
    && forall n :: 0 <= n < |raw| ==> !EndsWith(raw[..n], PROMPT)
  }

  lemma {:induction false} ReceivedAll(buf: Bytes, chunks: seq<Bytes>)
    requires PromptOnlyAtEnd(buf + Concat(chunks))
    requires forall i :: 0 <= i < |chunks| ==> chunks[i] != []
    ensures Received(buf, chunks) == Some(buf + Concat(chunks))
    decreases |chunks|
  {
    var raw := buf + Concat(chunks);
    if chunks == [] {
      assert raw == buf;
    } else {
      assert raw == buf + chunks[0] + Concat(chunks[1..]);
      assert raw[..|buf|] == buf && |buf| < |raw|;
      ReceivedAll(buf + chunks[0], chunks[1..]);
    }
  }

  /** A stream that ends with the prompt is received whole under every way of cutting it, also inside the
      prompt, exactly when no shorter prefix of it ends with the prompt. */
  lemma WholeUnderAllCuts(raw: Bytes)
    requires EndsWith(raw, PROMPT)
    ensures PromptOnlyAtEnd(raw) <==> forall chunks :: Chunking(chunks, raw) ==> Received([], chunks) == Some(raw)
  {
    if PromptOnlyAtEnd(raw) {
      forall chunks | Chunking(chunks, raw) ensures Received([], chunks) == Some(raw) {
        assert [] + Concat(chunks) == raw;
        ReceivedAll([], chunks);
      }
    } else {
      var n :| 0 <= n < |raw| && EndsWith(raw[..n], PROMPT);
      var chunks := [raw[..n], raw[n..]];
      assert chunks[1..] == [raw[n..]] && chunks[1..][1..] == [];
      assert Concat(chunks[1..]) == raw[n..];
      assert Chunking(chunks, raw);
      assert [] + chunks[0] == raw[..n];
      assert Received([], chunks) == Received(raw[..n], chunks[1..]) == Some(raw[..n]);
    }
  }

  // ---------------------------------------------------------------- escape sequences

  predicate IsParam(b: Byte) {
    0x30 <= b <= 0x39 || b == 0x3b
  }

  predicate IsLetter(b: Byte) {
    0x41 <= b <= 0x5a || 0x61 <= b <= 0x7a
  }

  function ParamRun(s: Bytes): (n: nat)
    ensures n <= |s|
  {
    if s == [] || !IsParam(s[0]) then 0 else 1 + ParamRun(s[1..])
  }

  /** Length of the escape sequence `s` starts with, or 0. */
  function EscapeLen(s: Bytes): (n: nat)
    ensures n <= |s|
  {
    if |s| < 2 || s[0] != ESC || s[1] != BRACKET then 0
    else
      var k := ParamRun(s[2..]);
      if 2 + k < |s| && IsLetter(s[2 + k]) then 3 + k else 0
  }

  /** ESC, `[`, digits and semicolons, one letter. */
  ghost predicate IsEscape(t: Bytes) {
    && |t| > 2 && t[0] == 0x1b && t[1] == 0x5b
    && (forall i :: 2 <= i < |t| - 1 ==> 0x30 <= t[i] <= 0x39 || t[i] == 0x3b)
    && (0x41 <= t[|t| - 1] <= 0x5a || 0x61 <= t[|t| - 1] <= 0x7a)
  }

  lemma {:induction false} ParamRunIs(s: Bytes)
    ensures forall i :: 0 <= i < ParamRun(s) ==> 0x30 <= s[i] <= 0x39 || s[i] == 0x3b
    ensures ParamRun(s) < |s| ==> !(0x30 <= s[ParamRun(s)] <= 0x39 || s[ParamRun(s)] == 0x3b)
  {
    if s != [] && IsParam(s[0]) {
      ParamRunIs(s[1..]);
    }
  }

  /** A match starts here if and only if some escape sequence does, and it is that sequence. */
  lemma EscapeLenIff(s: Bytes, n: nat)
    requires n <= |s|
    ensures EscapeLen(s) == n && n > 0 <==> IsEscape(s[..n])
  {
    if |s| > 1 {
      var k := ParamRun(s[2..]);
      ParamRunIs(s[2..]);
      assert forall i :: 0 <= i < |s| - 2 ==> s[2..][i] == s[2 + i];
      if IsEscape(s[..n]) {
        assert s[n - 1] == s[..n][n - 1] && forall i :: 2 <= i < n - 1 ==> s[i] == s[..n][i];
        assert k == n - 3;
      }
    }
  }

  /** Substituting nothing for every match, scanning left to right. */
  function Clean(s: Bytes): Bytes
    decreases |s|
  {
    if s == [] then []
    else if EscapeLen(s) > 0 then Clean(s[EscapeLen(s)..])
    else [s[0]] + Clean(s[1..])
  }

  /** A terminal stream: runs of plain text and complete escape sequences. */
  datatype Piece = Text(bytes: Bytes) | Escape(params: Bytes, final: Byte)

  ghost predicate WellFormed(p: Piece) {
    match p
    case Text(bytes) => 0x1b !in bytes
    case Escape(params, final) =>
      && (0x41 <= final <= 0x5a || 0x61 <= final <= 0x7a)
      && forall i :: 0 <= i < |params| ==> 0x30 <= params[i] <= 0x39 || params[i] == 0x3b
  }

  function RenderOne(p: Piece): Bytes {
    match p
    case Text(bytes) => bytes
    case Escape(params, final) => [0x1b, 0x5b] + params + [final]
  }

  function Render(ps: seq<Piece>): Bytes {
    if ps == [] then [] else RenderOne(ps[0]) + Render(ps[1..])
  }

  function PlainText(ps: seq<Piece>): Bytes {
    if ps == [] then [] else (if ps[0].Text? then ps[0].bytes else []) + PlainText(ps[1..])
  }

  lemma {:induction false} CleanText(t: Bytes, s: Bytes)
    requires ESC !in t
    ensures Clean(t + s) == t + Clean(s)
  {
    if t == [] {
      assert t + s == s;
    } else {
      assert (t + s)[1..] == t[1..] + s;
      assert t[0] != ESC && (t + s)[0] == t[0];
      CleanText(t[1..], s);
      assert [t[0]] + (t[1..] + Clean(s)) == t + Clean(s);
    }
  }

  lemma {:induction false} ParamRunOf(params: Bytes, s: Bytes)
    requires forall i :: 0 <= i < |params| ==> IsParam(params[i])
    requires s == [] || !IsParam(s[0])
    ensures ParamRun(params + s) == |params|
  {
    if params == [] {
      assert params + s == s;
    } else {
      assert (params + s)[1..] == params[1..] + s;
      ParamRunOf(params[1..], s);
    }
  }

  lemma CleanEscape(params: Bytes, final: Byte, s: Bytes)
    requires WellFormed(Escape(params, final))
    ensures Clean(RenderOne(Escape(params, final)) + s) == Clean(s)
  {
    var e := RenderOne(Escape(params, final)) + s;
    assert e[2..] == params + ([final] + s);
    ParamRunOf(params, [final] + s);
    assert e[2 + |params|] == final;
    assert EscapeLen(e) == 3 + |params|;
    assert e[3 + |params|..] == s;
  }

  /** Cleaning undoes any interleaving of complete escape sequences with escape-free text. */
  lemma {:induction false} CleanRender(ps: seq<Piece>)
    requires forall i :: 0 <= i < |ps| ==> WellFormed(ps[i])
    ensures Clean(Render(ps)) == PlainText(ps)
  {
    if ps != [] {
      CleanRender(ps[1..]);
      CleanPiece(ps[0], Render(ps[1..]));
    }
  }

  lemma CleanPiece(p: Piece, s: Bytes)
    requires WellFormed(p)
    ensures Clean(RenderOne(p) + s) == (if p.Text? then p.bytes else []) + Clean(s)
  {
    if p.Text? {
      CleanText(p.bytes, s);
    } else {
      CleanEscape(p.params, p.final, s);
      assert [] + Clean(s) == Clean(s);
    }
  }

  /** No complete escape sequence anywhere. */
  ghost predicate EscapeFree(s: Bytes) {
    forall i :: 0 <= i < |s| ==> EscapeLen(s[i..]) == 0
  }

  lemma EscapeFreeTail(s: Bytes)
    requires s != []
    ensures EscapeFree(s) <==> EscapeLen(s) == 0 && EscapeFree(s[1..])
  {
    assert s[0..] == s;
    assert forall i :: 0 <= i < |s| - 1 ==> s[1..][i..] == s[i + 1..];
    assert forall i :: 0 < i < |s| ==> s[1..][i - 1..] == s[i..];
  }

  lemma {:induction false} CleanShrinks(s: Bytes)
    ensures |Clean(s)| <= |s|
    decreases |s|
  {
    if s != [] {
      CleanShrinks(if EscapeLen(s) > 0 then s[EscapeLen(s)..] else s[1..]);
    }
  }

  /** Cleaning leaves a text alone exactly when it holds no complete escape sequence; so one cleaning is enough
      exactly when it left none behind. */
  lemma {:induction false} CleanFixedIff(s: Bytes)
    ensures Clean(s) == s <==> EscapeFree(s)
    decreases |s|
  {
    if s != [] {
      EscapeFreeTail(s);
      if EscapeLen(s) > 0 {
        CleanShrinks(s[EscapeLen(s)..]);
      } else {
        CleanFixedIff(s[1..]);
        assert s == [s[0]] + s[1..];
        assert Clean(s)[1..] == Clean(s[1..]);
      }
    }
  }

  /** On a terminal stream one cleaning is enough. */
  lemma CleanOnce(ps: seq<Piece>)
    requires forall i :: 0 <= i < |ps| ==> WellFormed(ps[i])
    ensures Clean(Clean(Render(ps))) == Clean(Render(ps))
  {
    CleanRender(ps);
    PlainIsEscapeFree(ps);
    PlainStays(PlainText(ps));
  }

  lemma {:induction false} PlainIsEscapeFree(ps: seq<Piece>)
    requires forall i :: 0 <= i < |ps| ==> WellFormed(ps[i])
    ensures ESC !in PlainText(ps)
  {
    if ps != [] {
      PlainIsEscapeFree(ps[1..]);
    }
  }

  /** An opening that is followed by an escape character stays. */
  lemma OpeningStays(t: Bytes)
    requires t != [] && t[0] == ESC
    ensures Clean([ESC, BRACKET] + t) == [ESC] + ([BRACKET] + Clean(t))
  {
    CleanText([BRACKET], t);
    HeadStays([ESC, BRACKET] + t, [BRACKET] + t, [BRACKET] + Clean(t));
  }

  lemma HeadStays(s: Bytes, tail: Bytes, cleaned: Bytes)
    requires |s| > 2 && s[0] == s[2] == ESC && s[1..] == tail && Clean(tail) == cleaned
    ensures Clean(s) == [ESC] + cleaned
  {
    NoEscapeHere(s);
  }

  lemma NoEscapeHere(s: Bytes)
    requires |s| > 2 && s[2] == ESC
    ensures EscapeLen(s) == 0 && Clean(s) == [s[0]] + Clean(s[1..])
  {
    assert s[2..][0] == ESC;
  }

  lemma PlainStays(t: Bytes)
    requires ESC !in t
    ensures Clean(t) == t
  {
    CleanText(t, []);
    assert t + [] == t;
  }

  lemma EscapeGoes(e: Piece)
    requires e.Escape? && WellFormed(e)
    ensures Clean(RenderOne(e)) == []
  {
    CleanEscape(e.params, e.final, []);
    assert RenderOne(e) + [] == RenderOne(e);
  }

  lemma InnerGoes(inner: Piece, rest: Bytes)
    requires inner.Escape? && WellFormed(inner) && ESC !in rest
    ensures Clean([ESC, BRACKET] + (RenderOne(inner) + rest)) == [ESC] + ([BRACKET] + rest)
  {
    OpeningStays(RenderOne(inner) + rest);
    CleanEscape(inner.params, inner.final, rest);
    PlainStays(rest);
  }

  /** Off it, not: put any escape sequence inside any other right after its opening, and one cleaning leaves a
      complete sequence behind. */
  lemma CleanNotIdempotent(inner: Piece, outer: Piece)
    requires inner.Escape? && outer.Escape? && WellFormed(inner) && WellFormed(outer)
    ensures Clean([ESC, BRACKET] + (RenderOne(inner) + (outer.params + [outer.final]))) == RenderOne(outer)
    ensures Clean(RenderOne(outer)) == []
  {
    InnerGoes(inner, outer.params + [outer.final]);
    EscapeGoes(outer);
    assert [ESC] + ([BRACKET] + (outer.params + [outer.final])) == RenderOne(outer);
  }

  /** How much of an escape sequence the bytes kept so far end with. */
  datatype Tail = NoTail | AfterEsc | InParams

  function Extend(t: Tail, b: Byte): Tail {
    if b == ESC then AfterEsc
    else if (t == AfterEsc && b == BRACKET) || (t == InParams && IsParam(b)) then InParams
    else NoTail
  }

  /** One pass over `s`, stepping over its complete escape sequences: do the bytes in between, joined, make up
      a sequence that was not there? `t` says what the bytes before `s` end with. */
  predicate Joins(s: Bytes, t: Tail)
    decreases |s|
  {
    if s == [] then false
    else if EscapeLen(s) > 0 then Joins(s[EscapeLen(s)..], t)
    else (t == InParams && IsLetter(s[0])) || Joins(s[1..], Extend(t, s[0]))
  }

  /** The same pass over a text whose sequences are not stepped over. */
  predicate Holds(s: Bytes, t: Tail) {
    s != [] && ((t == InParams && IsLetter(s[0])) || Holds(s[1..], Extend(t, s[0])))
  }

  lemma {:induction false} JoinsIsHolds(s: Bytes, t: Tail)
    ensures Joins(s, t) <==> Holds(Clean(s), t)
    decreases |s|
  {
    if s != [] {
      if EscapeLen(s) > 0 {
        JoinsIsHolds(s[EscapeLen(s)..], t);
      } else {
        JoinsIsHolds(s[1..], Extend(t, s[0]));
        assert Clean(s)[0] == s[0] && Clean(s)[1..] == Clean(s[1..]);
      }
    }
  }

  /** `s` goes on from `t` to a complete sequence. */
  predicate Completes(s: Bytes, t: Tail) {
    match t
    case NoTail => false
    case AfterEsc => s != [] && s[0] == BRACKET && Completes(s[1..], InParams)
    case InParams => var k := ParamRun(s); k < |s| && IsLetter(s[k])
  }

  lemma CompletesNext(s: Bytes, t: Tail)
    requires s != []
    ensures Completes(s, t)
       <==> (t == InParams && IsLetter(s[0])) || (s[0] != ESC && Completes(s[1..], Extend(t, s[0])))
  {
    if t == InParams && IsParam(s[0]) {
      assert ParamRun(s) == 1 + ParamRun(s[1..]);
    }
  }

  lemma EscapeCompletes(s: Bytes)
    requires s != []
    ensures EscapeLen(s) > 0 <==> s[0] == ESC && Completes(s[1..], AfterEsc)
  {
    if |s| > 1 {
      assert s[1..][1..] == s[2..];
    }
  }

  lemma {:induction false} HoldsIff(s: Bytes, t: Tail)
    ensures Holds(s, t) <==> Completes(s, t) || !EscapeFree(s)
  {
    if s != [] {
      HoldsIff(s[1..], Extend(t, s[0]));
      CompletesNext(s, t);
      EscapeFreeTail(s);
      EscapeCompletes(s);
    }
  }

  /** The exact condition, on the text itself: one cleaning is enough if and only if no sequence joins up across
      the ones that are removed. */
  lemma OnceIff(s: Bytes)
    ensures Clean(Clean(s)) == Clean(s) <==> !Joins(s, NoTail)
  {
    CleanFixedIff(Clean(s));
    HoldsIff(Clean(s), NoTail);
    JoinsIsHolds(s, NoTail);
  }

  // ---------------------------------------------------------------- the reply

  /** Index of the first CR LF, or the length. */
  function FindCrlf(s: Bytes): (n: nat)
    ensures n <= |s|
    ensures n < |s| ==> n + 1 < |s| && s[n] == CR && s[n + 1] == LF
    ensures forall i :: 0 <= i < n && i + 1 < |s| ==> !(s[i] == CR && s[i + 1] == LF)
  {
    if |s| < 2 then |s| else if s[0] == CR && s[1] == LF then 0 else 1 + FindCrlf(s[1..])
  }

  predicate IsSpace(b: Byte) {
    0x09 <= b <= 0x0d || 0x1c <= b <= 0x20
  }

  function StripLeft(s: Bytes): (r: Bytes)
    ensures |r| <= |s| && r == s[|s| - |r|..] && (r != [] ==> !IsSpace(r[0]))
    ensures forall i :: 0 <= i < |s| - |r| ==> IsSpace(s[i])
  {
    if s == [] || !IsSpace(s[0]) then s else StripLeft(s[1..])
  }

  function StripRight(s: Bytes): (r: Bytes)
    ensures r <= s && (r != [] ==> !IsSpace(r[|r| - 1]))
    ensures forall i :: |r| <= i < |s| ==> IsSpace(s[i])
  {
    if s == [] || !IsSpace(s[|s| - 1]) then s else StripRight(s[..|s| - 1])
  }

  function Strip(s: Bytes): Bytes {
    StripRight(StripLeft(s))
  }

  /** What hmp_command() makes of the bytes it received. */
  function Reply(raw: Bytes): Bytes {
    var cleaned := Clean(raw);
    var n := FindCrlf(cleaned);
    var rest := if n < |cleaned| then cleaned[n + 2..] else [];
    Strip(if EndsWith(rest, PROMPT) then rest[..|rest| - |PROMPT|] else rest)
  }

  ghost predicate NoLineEnd(s: Bytes) {
    forall i :: 0 <= i < |s| - 1 ==> !(s[i] == 0x0d && s[i + 1] == 0x0a)
  }

  lemma FindCrlfAt(echo: Bytes, s: Bytes)
    requires NoLineEnd(echo)
    ensures FindCrlf(echo + [0x0d, 0x0a] + s) == |echo|
  {
    var t := echo + [0x0d, 0x0a] + s;
    assert t[|echo|] == CR && t[|echo| + 1] == LF;
    assert forall i :: 0 <= i < |echo| ==> t[i] == echo[i];
  }

  ghost predicate Blank(s: Bytes) {
    forall i :: 0 <= i < |s| ==> 0x09 <= s[i] <= 0x0d || 0x1c <= s[i] <= 0x20
  }

  ghost predicate Trimmed(s: Bytes) {
    s == [] || (!Blank([s[0]]) && !Blank([s[|s| - 1]]))
  }

  /** Stripping takes away exactly the blanks on either side. */
  lemma StripIs(left: Bytes, core: Bytes, right: Bytes)
    requires Blank(left) && Blank(right) && Trimmed(core)
    ensures Strip(left + core + right) == core
  {
    if core == [] {
      AllBlank(left + core + right);
    } else {
      var tail := core + right;
      assert tail[0] == core[0] && left + core + right == left + tail;
      assert StripLeft(left + tail) == tail by {
        SkipLeft(left, tail);
      }
      SkipRight(core, right);
    }
  }

  lemma {:induction false} AllBlank(s: Bytes)
    requires Blank(s)
    ensures StripLeft(s) == []
  {
    if s != [] {
      AllBlank(s[1..]);
    }
  }

  lemma {:induction false} SkipLeft(left: Bytes, s: Bytes)
    requires Blank(left) && s != [] && !Blank([s[0]])
    ensures StripLeft(left + s) == s
  {
    if left == [] {
      assert left + s == s;
    } else {
      assert (left + s)[1..] == left[1..] + s;
      SkipLeft(left[1..], s);
    }
  }

  lemma {:induction false} SkipRight(s: Bytes, right: Bytes)
    requires Blank(right) && s != [] && !Blank([s[|s| - 1]])
    ensures StripRight(s + right) == s
  {
    if right == [] {
      assert s + right == s;
    } else {
      assert (s + right)[..|s + right| - 1] == s + right[..|right| - 1];
      SkipRight(s, right[..|right| - 1]);
    }
  }

  /** What the command makes of any received text with an echoed line: what follows that line, without the
      prompt if that is at its end, and without the blanks around it. */
  lemma ReplyIs(raw: Bytes, echo: Bytes, left: Bytes, core: Bytes, right: Bytes, prompted: bool)
    requires NoLineEnd(echo) && Blank(left) && Blank(right) && Trimmed(core)
    requires !prompted ==> !EndsWith(left + core + right, [0x28, 0x71, 0x65, 0x6d, 0x75, 0x29, 0x20])
    requires var prompt := if prompted then [0x28, 0x71, 0x65, 0x6d, 0x75, 0x29, 0x20] else [];
             Clean(raw) == echo + [0x0d, 0x0a] + (left + core + right + prompt)
    ensures Reply(raw) == core
  {
    var reply, prompt := left + core + right, if prompted then PROMPT else [];
    var rest := reply + prompt;
    FindCrlfAt(echo, rest);
    assert Clean(raw)[|echo| + 2..] == rest;
    assert prompted ==> rest[|reply|..] == PROMPT && rest[..|reply|] == reply;
    assert !prompted ==> rest == reply;
    StripIs(left, core, right);
  }

  /** Without an echoed line there is no reply. */
  lemma NoLineNoReply(raw: Bytes)
    requires NoLineEnd(Clean(raw))
    ensures Reply(raw) == []
  {
    var cleaned := Clean(raw);
    assert FindCrlf(cleaned) == |cleaned|;
  }

  /** Reply recovery: however the stream is cut and however escape sequences are mixed into it, the command
      returns the reply that follows the echoed line, without the blanks around it. */
  lemma ReplyRecovered(
      ps: seq<Piece>, echo: Bytes, left: Bytes, core: Bytes, right: Bytes, chunks: seq<Bytes>)
    requires forall i :: 0 <= i < |ps| ==> WellFormed(ps[i])
    requires NoLineEnd(echo) && Blank(left) && Blank(right) && Trimmed(core)
    requires PlainText(ps)
          == echo + [0x0d, 0x0a] + (left + core + right + [0x28, 0x71, 0x65, 0x6d, 0x75, 0x29, 0x20])
    requires PromptOnlyAtEnd(Render(ps)) && Chunking(chunks, Render(ps))
    ensures Received([], chunks) == Some(Render(ps)) && Reply(Render(ps)) == core
  {
    WholeUnderAllCuts(Render(ps));
    CleanRender(ps);
    ReplyIs(Render(ps), echo, left, core, right, true);
  }
}
