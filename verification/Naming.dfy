/** Naming a hit: the generated syscall table, its binary search, and the events the two capture paths write. */
module Naming {
  import opened Options

  datatype Info = Info(nr: int, name: string, argc: nat)

  const TWO63: nat := 0x8000_0000_0000_0000
  const TWO64: nat := 0x1_0000_0000_0000_0000

  /** The registers at the entry hook: the number, and the six argument registers in call order
      (rdi, rsi, rdx, r10, r8, r9). */
  datatype Regs = Regs(rax: nat, args: seq<nat>) {
    ghost predicate Valid() {
      rax < TWO64 && |args| == 6 && forall i :: 0 <= i < 6 ==> args[i] < TWO64
    }
  }

  /** A logged event: a table entry, or none for a number the table does not have. */
  datatype Event = Event(num: int, info: Option<Info>, args: seq<int>)

  /** The generated table: strictly increasing numbers, all of them non-negative 32-bit ints. */
  ghost predicate ValidTable(table: seq<Info>) {
    && (forall i, j :: 0 <= i < j < |table| ==> table[i].nr < table[j].nr)
    && (forall i :: 0 <= i < |table| ==> 0 <= table[i].nr < 0x8000_0000)
  }

  ghost predicate Names(table: seq<Info>, nr: int, found: Option<Info>) {
    match found
    case Some(info) => info in table && info.nr == nr
    case None => forall i :: 0 <= i < |table| ==> table[i].nr != nr
  }

  /** vmi_syscall_lookup(): binary search. */
  method Lookup(table: seq<Info>, nr: int) returns (found: Option<Info>)
    requires ValidTable(table)
    ensures Names(table, nr, found) && found == Find(table, nr)
  {
    var lo, hi := 0, |table|;
    while lo < hi
      invariant 0 <= lo <= hi <= |table|
      invariant forall i :: 0 <= i < lo ==> table[i].nr < nr
      invariant forall i :: hi <= i < |table| ==> table[i].nr > nr
    {
      var mid := (lo + hi) / 2;
      if table[mid].nr == nr {
        NamesUnique(table, nr, Some(table[mid]), Find(table, nr));
        return Some(table[mid]);
      } else if table[mid].nr < nr {
        lo := mid + 1;
      } else {
        hi := mid;
      }
    }
    NamesUnique(table, nr, None, Find(table, nr));
    return None;
  }

  /** The table as a dictionary. */
  function Find(table: seq<Info>, nr: int): (found: Option<Info>)
    ensures Names(table, nr, found)
  {
    if table == [] then None
    else if table[0].nr == nr then Some(table[0])
    else Find(table[1..], nr)
  }

  /** In a valid table the search has only one right answer, so the binary search is the dictionary. */
  lemma NamesUnique(table: seq<Info>, nr: int, a: Option<Info>, b: Option<Info>)
    requires ValidTable(table) && Names(table, nr, a) && Names(table, nr, b)
    ensures a == b
  {
    if a.Some? && b.Some? {
      var i :| 0 <= i < |table| && table[i] == a.value;
      var j :| 0 <= j < |table| && table[j] == b.value;
      assert i == j;
    }
  }

  /** The C cast of a 64-bit register to int. */
  function ToInt32(n: nat): (r: int)
    ensures -0x8000_0000 <= r < 0x8000_0000 && (n - r) % 0x1_0000_0000 == 0
  {
    var low := n % 0x1_0000_0000;
    if low < 0x8000_0000 then low else low - 0x1_0000_0000
  }

  function Argc(found: Option<Info>): nat {
    if found.Some? && found.value.argc < 6 then found.value.argc else 6
  }

  /** What the monitor inside QEMU writes: unsigned registers, and the number cut to an int for the search. */
  function InlineEvent(table: seq<Info>, r: Regs): Event
    requires r.Valid()
  {
    var found := Find(table, ToInt32(r.rax));
    Event(r.rax, found, r.args[..Argc(found)])
  }

  /** gdb's registers are signed 64-bit integers. */
  function Signed(n: nat): int {
    if n < TWO63 then n else n - TWO64
  }

  function SignedAll(ns: seq<nat>): (s: seq<int>)
    ensures |s| == |ns| && forall i :: 0 <= i < |s| ==> s[i] == Signed(ns[i])
  {
    seq(|ns|, i requires 0 <= i < |ns| => Signed(ns[i]))
  }

  /** What the gdb script writes: signed registers, and the whole number looked up. */
  function GdbEvent(table: seq<Info>, r: Regs): Event
    requires r.Valid()
  {
    var found := Find(table, Signed(r.rax));
    Event(Signed(r.rax), found, SignedAll(r.args[..Argc(found)]))
  }

  /** An event has as many arguments as its table entry says, at most six, or six without an entry. */
  ghost predicate Counted(e: Event) {
    match e.info
    case Some(info) => |e.args| == (if info.argc <= 6 then info.argc else 6)
    case None => |e.args| == 6
  }

  /** The monitor's event of a call: the number and the first argument registers as they are, named by the table
      entry whose number agrees with the register in the low 32 bits, if there is one. */
  ghost predicate InlineRecord(table: seq<Info>, r: Regs, e: Event)
    requires r.Valid()
  {
    && e.num == r.rax && Counted(e)
    && (forall i :: 0 <= i < |e.args| ==> e.args[i] == r.args[i])
    && match e.info
       case Some(info) => info in table && (r.rax - info.nr) % 0x1_0000_0000 == 0
       case None => forall j :: 0 <= j < |table| ==> (r.rax - table[j].nr) % 0x1_0000_0000 != 0
  }

  lemma InlineEventIs(table: seq<Info>, r: Regs)
    requires ValidTable(table) && r.Valid()
    ensures InlineRecord(table, r, InlineEvent(table, r))
  {
    var low, found := r.rax % 0x1_0000_0000, Find(table, ToInt32(r.rax));
    assert r.rax == r.rax / 0x1_0000_0000 * 0x1_0000_0000 + low;
    if found.Some? {
      SameLowBits(r.rax, found.value.nr);
    } else {
      forall j | 0 <= j < |table| ensures (r.rax - table[j].nr) % 0x1_0000_0000 != 0 {
        SameLowBits(r.rax, table[j].nr);
      }
    }
  }

  lemma SameLowBits(n: nat, nr: int)
    requires 0 <= nr < 0x8000_0000
    ensures ToInt32(n) == nr <==> (n - nr) % 0x1_0000_0000 == 0
  {
    var q, low := n / 0x1_0000_0000, n % 0x1_0000_0000;
    assert n - nr == q * 0x1_0000_0000 + (low - nr);
    if low >= nr {
      assert (n - nr) / 0x1_0000_0000 == q && (n - nr) % 0x1_0000_0000 == low - nr;
    } else {
      assert n - nr == (q - 1) * 0x1_0000_0000 + (low - nr + 0x1_0000_0000);
      assert (n - nr) % 0x1_0000_0000 == low - nr + 0x1_0000_0000;
    }
  }

  /** What a 64-bit register stands for when it is read as signed. */
  ghost predicate ReadSigned(n: nat, s: int) {
    s == if n < 0x8000_0000_0000_0000 then n else n - 0x1_0000_0000_0000_0000
  }

  /** The gdb script's event of a call: the same with signed registers and the whole number looked up. */
  ghost predicate GdbRecord(table: seq<Info>, r: Regs, e: Event)
    requires r.Valid()
  {
    && ReadSigned(r.rax, e.num) && Counted(e)
    && (forall i :: 0 <= i < |e.args| ==> ReadSigned(r.args[i], e.args[i]))
    && Names(table, e.num, e.info)
  }

  lemma GdbEventIs(table: seq<Info>, r: Regs)
    requires r.Valid()
    ensures GdbRecord(table, r, GdbEvent(table, r))
  {
  }

  /** The two paths write the same event exactly when the number and the arguments logged are below 2^63, and
      cutting the number to 32 bits does not turn an unknown number into a known one. */
  lemma PathsAgreeIff(table: seq<Info>, r: Regs)
    requires ValidTable(table) && r.Valid()
    ensures var found := Find(table, ToInt32(r.rax));
            InlineEvent(table, r) == GdbEvent(table, r)
            <==> && r.rax < 0x8000_0000_0000_0000
                 && (r.rax < 0x8000_0000 || found.None?)
                 && forall i :: 0 <= i < |InlineEvent(table, r).args| ==> r.args[i] < 0x8000_0000_0000_0000
  {
    var found := Find(table, ToInt32(r.rax));
    if r.rax >= 0x8000_0000 {
      NamesUnique(table, Signed(r.rax), Find(table, Signed(r.rax)), None);
    }
    if r.rax < TWO63 && (r.rax < 0x8000_0000 || found.None?) {
      assert Find(table, Signed(r.rax)) == found;
      ArgumentsAgreeIff(r.args[..Argc(found)]);
    }
  }

  lemma ArgumentsAgreeIff(ns: seq<nat>)
    requires forall i :: 0 <= i < |ns| ==> ns[i] < TWO64
    ensures ns == SignedAll(ns) <==> forall i :: 0 <= i < |ns| ==> ns[i] < TWO63
  {
    if exists i :: 0 <= i < |ns| && ns[i] >= TWO63 {
      var i :| 0 <= i < |ns| && ns[i] >= TWO63;
      assert SignedAll(ns)[i] != ns[i];
    }
  }
}
