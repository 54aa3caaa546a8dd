/** The fw_cfg device: DMA reads that copy an entry into guest RAM, and the test at the end of a request
    that tells the monitor the kernel image is complete. */
module FwCfg {
  import opened Basic
  import opened Options
  import opened Kvm

  type Selector = nat
  const KERNEL_DATA: Selector := 0x11

  /** One DMA request. A request that is not a read moves the offset without touching guest RAM. */
  datatype Request = Request(select: Option<Selector>, read: bool, length: nat, address: Addr)

  /** Which of a request's two kinds of access to guest RAM are refused. */
  datatype Fault = Fault(data: bool, fill: bool)

  const NO_FAULT: Fault := Fault(false, false)

  datatype Device = Device(entries: map<Selector, seq<Byte>>, cur: Selector, offset: nat) {
    function Data(): seq<Byte> {
      if cur in entries then entries[cur] else []
    }

    function Left(): nat {
      if offset < |Data()| then |Data()| - offset else 0
    }

    /** The next `n` bytes of the entry. */
    function Ahead(n: nat): (bytes: seq<Byte>)
      requires n <= Left()
      ensures |bytes| == n
    {
      if n == 0 then [] else Data()[offset..offset + n]
    }
  }

  datatype Result = Result(dev: Device, ram: seq<Byte>, error: bool)

  function Min(a: nat, b: nat): nat {
    if a < b then a else b
  }

  function Max(a: nat, b: nat): nat {
    if a < b then b else a
  }

  function Select(d: Device, s: Option<Selector>): Device {
    if s.Some? then d.(cur := s.value, offset := 0) else d
  }

  function Zeros(n: nat): (z: seq<Byte>)
    ensures |z| == n && forall i :: 0 <= i < n ==> z[i] == 0
  {
    seq(n, _ => 0)
  }

  /** `ram` with `bytes` written at `a`. */
  function Overlay(ram: seq<Byte>, a: Addr, bytes: seq<Byte>): (m: seq<Byte>)
    requires a + |bytes| <= |ram|
    ensures |m| == |ram|
  {
    ram[..a] + bytes + ram[a + |bytes|..]
  }

  lemma OverlayPointwise(ram: seq<Byte>, a: Addr, bytes: seq<Byte>, m: seq<Byte>)
    requires a + |bytes| <= |ram| == |m|
    ensures m == Overlay(ram, a, bytes) <==>
              forall i :: 0 <= i < |m| ==> m[i] == if a <= i < a + |bytes| then bytes[i - a] else ram[i]
  {
    var o := Overlay(ram, a, bytes);
    assert forall i :: 0 <= i < |o| ==> o[i] == if a <= i < a + |bytes| then bytes[i - a] else ram[i];
  }

  /** One access: all bytes land, or it is refused. */
  function Put(ram: seq<Byte>, a: Addr, bytes: seq<Byte>, fault: bool): (r: (seq<Byte>, bool))
    ensures |r.0| == |ram|
  {
    if bytes == [] then (ram, false)
    else if fault || a + |bytes| > |ram| then (ram, true)
    else (Overlay(ram, a, bytes), false)
  }

  lemma PutAt(ram: seq<Byte>, a: Addr, bytes: seq<Byte>, fault: bool, i: Addr)
    requires i < |ram|
    ensures var put := Put(ram, a, bytes, fault);
            && put.1 == (bytes != [] && (fault || a + |bytes| > |ram|))
            && put.0[i] == if !put.1 && a <= i < a + |bytes| then bytes[i - a] else ram[i]
  {
  }

  /** A read: `data` at `a`, then `zeros` zeros, unless the first access is refused. */
  function Fetch(ram: seq<Byte>, a: Addr, data: seq<Byte>, zeros: nat, fault: Fault): (r: (seq<Byte>, bool))
    ensures |r.0| == |ram|
  {
    var (m, refused) := Put(ram, a, data, fault.data);
    if refused then (m, true) else Put(m, a + |data|, Zeros(zeros), fault.fill)
  }

  lemma FetchAt(ram: seq<Byte>, a: Addr, data: seq<Byte>, zeros: nat, fault: Fault, i: Addr)
    requires i < |ram|
    ensures var n, size := |data|, |ram|;
            Fetch(ram, a, data, zeros, fault).0[i]
            == if n > 0 && (fault.data || a + n > size) then ram[i]
               else if a <= i < a + n then data[i - a]
               else if a + n <= i < a + n + zeros && !fault.fill && a + n + zeros <= size then 0
               else ram[i]
  {
    PutAt(ram, a, data, fault.data, i);
    PutAt(Put(ram, a, data, fault.data).0, a + |data|, Zeros(zeros), fault.fill, i);
  }

  /** One request: what is left of the entry, then zeros for the part of a read that goes past its end. The
      offset advances by what the request covers even when the write to RAM is refused. */
  function Transfer(d0: Device, ram: seq<Byte>, req: Request, fault: Fault): (r: Result)
    ensures |r.ram| == |ram|
  {
    var d := Select(d0, req.select);
    var n := Min(req.length, d.Left());
    var d' := d.(offset := d.offset + n);
    if !req.read then Result(d', ram, false)
    else
      var (m, refused) := Fetch(ram, req.address, d.Ahead(n), req.length - n, fault);
      Result(d', m, refused)
  }

  /** The byte a request puts at `a`, if it writes there at all. */
  function Landed(d0: Device, size: nat, req: Request, fault: Fault, a: Addr): Option<Byte> {
    var d := Select(d0, req.select);
    var n := Min(req.length, d.Left());
    if !req.read || (n > 0 && (fault.data || req.address + n > size)) then None
    else if req.address <= a < req.address + n then Some(d.Ahead(n)[a - req.address])
    else if req.address + n <= a < req.address + req.length && !fault.fill && req.address + req.length <= size
    then Some(0) else None
  }

  lemma TransferAt(d: Device, ram: seq<Byte>, req: Request, fault: Fault, a: Addr)
    requires a < |ram|
    ensures var w := Landed(d, |ram|, req, fault, a);
            Transfer(d, ram, req, fault).ram[a] == if w.Some? then w.value else ram[a]
  {
    var d' := Select(d, req.select);
    var n := Min(req.length, d'.Left());
    FetchAt(ram, req.address, d'.Ahead(n), req.length - n, fault, a);
  }

  /** The device's own state does not depend on what RAM holds. */
  lemma TransferBlind(d: Device, m: seq<Byte>, n: seq<Byte>, req: Request, fault: Fault)
    requires |m| == |n|
    ensures var r, s := Transfer(d, m, req, fault), Transfer(d, n, req, fault);
            r.dev == s.dev && r.error == s.error && (Fires(req, r) <==> Fires(req, s))
  {
  }

  /** The completion test placed after the copy loop. */
  predicate Fires(req: Request, r: Result) {
    req.read && !r.error && r.dev.cur == KERNEL_DATA && KERNEL_DATA in r.dev.entries
    && r.dev.offset >= |r.dev.entries[KERNEL_DATA]|
  }

  /** Past the end of the entry a request is all zeros. */
  lemma PastEnd(d: Device, ram: seq<Byte>, req: Request, fault: Fault)
    requires req.select.None? && (d.Left() == 0 || req.length == 0)
    ensures var put := Put(ram, req.address, Zeros(req.length), fault.fill);
            Transfer(d, ram, req, fault) == if req.read then Result(d, put.0, put.1) else Result(d, ram, false)
  {
    assert Min(req.length, d.Left()) == 0 && d.(offset := d.offset + 0) == d;
  }

  /** What one pass of the copy loop covers, the device after it, and the request that is left. */
  function Chunk(d: Device, req: Request): (bytes: seq<Byte>)
    ensures |bytes| <= req.length && (req.length > 0 ==> |bytes| > 0)
  {
    if d.Left() == 0 then Zeros(req.length) else d.Ahead(Min(req.length, d.Left()))
  }

  function Next(d: Device, req: Request): Device {
    if d.Left() == 0 then d else d.(offset := d.offset + Min(req.length, d.Left()))
  }

  function Rest(d: Device, req: Request): Request {
    var n := |Chunk(d, req)|;
    Request(None, req.read, req.length - n, req.address + n)
  }

  /** One pass of the copy loop followed by a request for the rest is the whole request. */
  lemma OneChunk(d: Device, ram: seq<Byte>, req: Request, fault: Fault, m: seq<Byte>, refused: bool)
    requires req.select.None? && req.read
    requires (m, refused) == Put(ram, req.address, Chunk(d, req), if d.Left() == 0 then fault.fill else fault.data)
    ensures Transfer(d, ram, req, fault)
         == if refused then Result(Next(d, req), m, true) else Transfer(Next(d, req), m, Rest(d, req), fault)
  {
    if d.Left() == 0 {
      FillThenRest(d, ram, req, fault, m, refused, Rest(d, req));
    } else if refused {
      ReadRequest(d, ram, req, fault);
    } else {
      DataThenRest(d, ram, req, fault, Next(d, req), m, Rest(d, req));
    }
  }

  lemma FillThenRest(d: Device, ram: seq<Byte>, req: Request, fault: Fault, m: seq<Byte>, refused: bool, rest: Request)
    requires req.select.None? && d.Left() == 0 && req.read
    requires (m, refused) == Put(ram, req.address, Zeros(req.length), fault.fill)
    requires rest.select.None? && rest.read && rest.length == 0
    ensures Transfer(d, ram, req, fault) == if refused then Result(d, m, true) else Transfer(d, m, rest, fault)
  {
    PastEnd(d, ram, req, fault);
    PastEnd(d, m, rest, fault);
  }

  lemma DataThenRest(d: Device, ram: seq<Byte>, req: Request, fault: Fault, next: Device, m: seq<Byte>, rest: Request)
    requires req.select.None? && d.Left() > 0 && req.read
    requires var n := Min(req.length, d.Left());
             && next == d.(offset := d.offset + n)
             && rest == Request(None, true, req.length - n, req.address + n)
             && (m, false) == Put(ram, req.address, d.Ahead(n), fault.data)
    ensures Transfer(d, ram, req, fault) == Transfer(next, m, rest, fault)
  {
    ReadRequest(d, ram, req, fault);
    RestOfRead(next, m, rest, fault);
  }

  lemma SkipRest(d: Device, ram: seq<Byte>, req: Request, fault: Fault)
    requires req.select.None? && !req.read
    ensures Transfer(d, ram, req, fault) == Transfer(Next(d, req), ram, Rest(d, req), fault)
  {
    PastEnd(Next(d, req), ram, Rest(d, req), fault);
  }

  lemma ReadRequest(d: Device, ram: seq<Byte>, req: Request, fault: Fault)
    requires req.select.None? && req.read
    ensures var n := Min(req.length, d.Left());
            var put := Put(ram, req.address, d.Ahead(n), fault.data);
            var put' := Put(put.0, req.address + n, Zeros(req.length - n), fault.fill);
            Transfer(d, ram, req, fault)
            == if put.1 then Result(d.(offset := d.offset + n), put.0, true)
               else Result(d.(offset := d.offset + n), put'.0, put'.1)
  {
  }

  lemma RestOfRead(d: Device, ram: seq<Byte>, req: Request, fault: Fault)
    requires req.select.None? && req.read && (d.Left() == 0 || req.length == 0)
    ensures var put := Put(ram, req.address, Zeros(req.length), fault.fill);
            Transfer(d, ram, req, fault) == Result(d, put.0, put.1)
  {
    PastEnd(d, ram, req, fault);
  }

  /** The device whose request is being served: its copy loop works on RAM in place. */
  class Dma {
    const ram: array<Byte>
    var dev: Device

    constructor (ram: array<Byte>, dev: Device)
      ensures this.ram == ram && this.dev == dev
    {
      this.ram, this.dev := ram, dev;
    }

    /** dma_memory_write() and dma_memory_set(): all bytes land, or the access is refused. */
    method WriteRam(a: Addr, bytes: seq<Byte>, fault: bool) returns (refused: bool)
      modifies ram
      ensures var put := Put(old(ram[..]), a, bytes, fault); ram[..] == put.0 && refused == put.1
    {
      refused := bytes != [] && (fault || a + |bytes| > ram.Length);
      if bytes != [] && !refused {
        forall i | 0 <= i < |bytes| {
          ram[a + i] := bytes[i];
        }
        OverlayPointwise(old(ram[..]), a, bytes, ram[..]);
      }
    }

    /** One pass of the copy loop. */
    method CopyChunk(req: Request, fault: Fault) returns (error: bool, rest: Request)
      requires req.select.None? && req.length > 0
      modifies this`dev, ram
      ensures Transfer(old(dev), old(ram[..]), req, fault)
           == if error then Result(dev, ram[..], true) else Transfer(dev, ram[..], rest, fault)
      ensures rest.select.None? && rest.length < req.length
    {
      ghost var d, m := dev, ram[..];
      var bytes, refuse := Chunk(dev, req), if dev.Left() == 0 then fault.fill else fault.data;
      rest := Rest(dev, req);
      dev := Next(dev, req);
      error := false;
      if req.read {
        error := WriteRam(req.address, bytes, refuse);
        OneChunk(d, m, req, fault, ram[..], error);
      } else {
        SkipRest(d, m, req, fault);
      }
    }

    /** The copy loop. */
    method Copy(req: Request, fault: Fault) returns (error: bool)
      requires req.select.None?
      modifies this`dev, ram
      ensures Result(dev, ram[..], error) == Transfer(old(dev), old(ram[..]), req, fault)
    {
      ghost var goal := Transfer(dev, ram[..], req, fault);
      var rest := req;
      error := false;
      while rest.length > 0 && !error
        invariant rest.select.None?
        invariant goal == if error then Result(dev, ram[..], true) else Transfer(dev, ram[..], rest, fault)
        decreases rest.length
      {
        error, rest := CopyChunk(rest, fault);
      }
    }

    /** fw_cfg_dma_transfer(): select, copy, then the completion test. */
    method Serve(req: Request, fault: Fault) returns (error: bool, fires: bool)
      modifies this`dev, ram
      ensures Result(dev, ram[..], error) == Transfer(old(dev), old(ram[..]), req, fault)
      ensures fires == Fires(req, Result(dev, ram[..], error))
    {
      dev := Select(dev, req.select);
      error := Copy(req.(select := None), fault);
      fires := req.read && !error && dev.cur == KERNEL_DATA && KERNEL_DATA in dev.entries
               && dev.offset >= |dev.entries[KERNEL_DATA]|;
    }
  }

  /** The option ROM's one request: whatever entry the device stands on and wherever in it, a read that selects
      an entry and asks for all of it puts that entry, all of it and nothing else, where it asks; and it fires
      the hook exactly if the entry is the kernel image. */
  lemma SelectedLoad(d: Device, ram: seq<Byte>, s: Selector, a: Addr)
    requires s in d.entries && a + |d.entries[s]| <= |ram|
    ensures var req := Request(Some(s), true, |d.entries[s]|, a);
            var r := Transfer(d, ram, req, NO_FAULT);
            && r.ram == ram[..a] + d.entries[s] + ram[a + |d.entries[s]|..]
            && r.dev == Device(d.entries, s, |d.entries[s]|) && !r.error
            && (Fires(req, r) <==> s == 0x11)
  {
    var data := d.entries[s];
    var d' := Select(d, Some(s));
    assert d'.Ahead(|data|) == data && Zeros(0) == [];
    assert data == [] ==> ram[..a] + data + ram[a + |data|..] == ram;
  }

  /** With the kernel entry behind it, wherever exactly the device stands, every read that is not refused fires
      the hook again, and it changes nothing in RAM but to zeros. */
  lemma FiresAgain(d: Device, ram: seq<Byte>, req: Request, fault: Fault)
    requires req.select.None? && req.read && d.cur == 0x11 && 0x11 in d.entries && d.offset >= |d.entries[0x11]|
    ensures var r := Transfer(d, ram, req, fault);
            && (Fires(req, r) <==> !r.error) && r.dev == d
            && (r.error <==> req.length > 0 && (fault.fill || req.address + req.length > |ram|))
            && forall a :: 0 <= a < |ram| ==>
                 r.ram[a] == if !r.error && req.address <= a < req.address + req.length then 0 else ram[a]
  {
    PastEnd(d, ram, req, fault);
    forall a | 0 <= a < |ram| {
      PutAt(ram, req.address, Zeros(req.length), fault.fill, a);
    }
  }

  // ---------------------------------------------------------------- loading the image in pieces

  /** The boot ROM's next request over the kernel entry, and which of its accesses fail. */
  datatype Piece = Read(n: nat, fault: Fault) | Skipped(n: nat)

  function RequestOf(d: Device, base: Addr, p: Piece): Request {
    Request(None, p.Read?, p.n, base + d.offset)
  }

  function FaultOf(p: Piece): Fault {
    if p.Read? then p.fault else NO_FAULT
  }

  /** The device and RAM after the pieces, each read aimed at its own place in the image. */
  function Load(d: Device, ram: seq<Byte>, base: Addr, ps: seq<Piece>): (r: Result)
    ensures |r.ram| == |ram|
  {
    if ps == [] then Result(d, ram, false)
    else
      var r := Load(d, ram, base, ps[..|ps| - 1]);
      var p := ps[|ps| - 1];
      Transfer(r.dev, r.ram, RequestOf(r.dev, base, p), FaultOf(p))
  }

  predicate FiresAt(d: Device, ram: seq<Byte>, base: Addr, ps: seq<Piece>, i: nat)
    requires i < |ps|
  {
    Fires(RequestOf(Load(d, ram, base, ps[..i]).dev, base, ps[i]), Load(d, ram, base, ps[..i + 1]))
  }

  function Total(ps: seq<Piece>): nat {
    if ps == [] then 0 else Total(ps[..|ps| - 1]) + ps[|ps| - 1].n
  }

  function Marks(n: nat, b: bool): (m: seq<bool>)
    ensures |m| == n && forall i :: 0 <= i < n ==> m[i] == b
  {
    seq(n, _ => b)
  }

  /** The image's length and how much RAM lies behind its place. */
  datatype Extent = Extent(size: nat, room: nat)

  /** How far a piece that starts `o` bytes into the image goes past its end. */
  function Over(x: Extent, o: nat, p: Piece): nat
    requires o <= x.size
  {
    p.n - Min(p.n, x.size - o)
  }

  /** A piece that starts `o` bytes into the image ends in an error. */
  predicate Refused(x: Extent, o: nat, p: Piece)
    requires o <= x.size
  {
    p.Read? && if p.fault.data && p.n > 0 && o < x.size then true
               else Over(x, o, p) > 0 && (p.fault.fill || Over(x, o, p) > x.room)
  }

  /** How many zeros it leaves behind the image. */
  function Fill(x: Extent, o: nat, p: Piece): nat
    requires o <= x.size
  {
    if p.Read? && !Refused(x, o, p) then Over(x, o, p) else 0
  }

  /** For each image byte passed so far, whether a successful access covered it. */
  function Covered(ps: seq<Piece>, size: nat): (c: seq<bool>)
    ensures |c| == Min(Total(ps), size)
  {
    if ps == [] then []
    else
      var c, p := Covered(ps[..|ps| - 1], size), ps[|ps| - 1];
      c + Marks(Min(p.n, size - |c|), p.Read? && !p.fault.data)
  }

  /** How many bytes behind the image were set to zero. */
  function Spill(ps: seq<Piece>, x: Extent): nat {
    if ps == [] then 0
    else
      var q, p := ps[..|ps| - 1], ps[|ps| - 1];
      Max(Spill(q, x), Fill(x, Min(Total(q), x.size), p))
  }

  ghost predicate AtStart(d: Device, ram: seq<Byte>, base: Addr) {
    d.cur == KERNEL_DATA && KERNEL_DATA in d.entries && d.offset == 0
    && base + |d.entries[KERNEL_DATA]| <= |ram|
  }

  ghost function ExtentOf(d: Device, ram: seq<Byte>, base: Addr): Extent
    requires KERNEL_DATA in d.entries && base + |d.entries[KERNEL_DATA]| <= |ram|
  {
    Extent(|d.entries[KERNEL_DATA]|, |ram| - base - |d.entries[KERNEL_DATA]|)
  }

  /** `m` is `ram` with the image bytes marked in `c` put in place and `z` zeros behind the image. */
  ghost predicate Patched(m: seq<Byte>, ram: seq<Byte>, base: Addr, img: seq<Byte>, c: seq<bool>, z: nat) {
    |m| == |ram| && |c| <= |img| && base + |img| + z <= |ram|
    && forall a :: 0 <= a < |ram| ==> m[a] == PatchedByte(ram, base, img, c, z, a)
  }

  function PatchedByte(ram: seq<Byte>, base: Addr, img: seq<Byte>, c: seq<bool>, z: nat, a: Addr): Byte
    requires |c| <= |img| && a < |ram|
  {
    if base <= a < base + |c| && c[a - base] then img[a - base]
    else if base + |img| <= a < base + |img| + z then 0
    else ram[a]
  }

  /** One piece moves the offset over the bytes still left, and ends in an error as foretold. */
  lemma PieceDevice(d: Device, ram: seq<Byte>, base: Addr, p: Piece)
    requires d.cur == KERNEL_DATA && KERNEL_DATA in d.entries && d.offset <= |d.entries[KERNEL_DATA]|
    requires base + |d.entries[KERNEL_DATA]| <= |ram|
    ensures var r := Transfer(d, ram, RequestOf(d, base, p), FaultOf(p));
            && r.dev == d.(offset := d.offset + Min(p.n, |d.entries[KERNEL_DATA]| - d.offset))
            && r.error == Refused(ExtentOf(d, ram, base), d.offset, p)
  {
    assert d.Left() == |d.entries[KERNEL_DATA]| - d.offset;
  }

  /** What one piece puts at `a`: its part of the image, or a zero behind it. */
  lemma PieceAt(d: Device, ram: seq<Byte>, base: Addr, p: Piece, a: Addr)
    requires d.cur == KERNEL_DATA && KERNEL_DATA in d.entries && d.offset <= |d.entries[KERNEL_DATA]|
    requires base + |d.entries[KERNEL_DATA]| <= |ram|
    ensures var img, o, z := d.entries[KERNEL_DATA], d.offset, Fill(ExtentOf(d, ram, base), d.offset, p);
            Landed(d, |ram|, RequestOf(d, base, p), FaultOf(p), a)
            == if base + o <= a < base + o + Min(p.n, |img| - o) && p.Read? && !p.fault.data then Some(img[a - base])
               else if base + |img| <= a < base + |img| + z then Some(0)
               else None
  {
    assert d.Left() == |d.entries[KERNEL_DATA]| - d.offset;
  }

  /** The device has passed `|c|` image bytes, and RAM holds those marked in `c` and `z` zeros behind. */
  ghost predicate LoadedTo(r: Result, d: Device, ram: seq<Byte>, base: Addr, c: seq<bool>, z: nat)
    requires KERNEL_DATA in d.entries
  {
    r.dev == d.(offset := |c|) && Patched(r.ram, ram, base, d.entries[KERNEL_DATA], c, z)
  }

  lemma LoadByte(r: Result, d: Device, ram: seq<Byte>, base: Addr, c: seq<bool>, z: nat, p: Piece, a: Addr)
    requires AtStart(d, ram, base) && LoadedTo(r, d, ram, base, c, z) && a < |ram|
    ensures var x, img := ExtentOf(d, ram, base), d.entries[KERNEL_DATA];
            var c' := c + Marks(Min(p.n, x.size - |c|), p.Read? && !p.fault.data);
            Transfer(r.dev, r.ram, RequestOf(r.dev, base, p), FaultOf(p)).ram[a]
            == PatchedByte(ram, base, img, c', Max(z, Fill(x, |c|, p)), a)
  {
    PieceAt(r.dev, r.ram, base, p, a);
    TransferAt(r.dev, r.ram, RequestOf(r.dev, base, p), FaultOf(p), a);
  }

  lemma LoadStep(r: Result, d: Device, ram: seq<Byte>, base: Addr, c: seq<bool>, z: nat, p: Piece)
    requires AtStart(d, ram, base) && LoadedTo(r, d, ram, base, c, z)
    ensures var x := ExtentOf(d, ram, base);
            var c' := c + Marks(Min(p.n, x.size - |c|), p.Read? && !p.fault.data);
            var t := Transfer(r.dev, r.ram, RequestOf(r.dev, base, p), FaultOf(p));
            LoadedTo(t, d, ram, base, c', Max(z, Fill(x, |c|, p)))
  {
    var x, img := ExtentOf(d, ram, base), d.entries[KERNEL_DATA];
    var c' := c + Marks(Min(p.n, x.size - |c|), p.Read? && !p.fault.data);
    var t := Transfer(r.dev, r.ram, RequestOf(r.dev, base, p), FaultOf(p));
    PieceDevice(r.dev, r.ram, base, p);
    forall a | 0 <= a < |ram| ensures t.ram[a] == PatchedByte(ram, base, img, c', Max(z, Fill(x, |c|, p)), a) {
      LoadByte(r, d, ram, base, c, z, p, a);
    }
  }

  /** What every sequence of requests leaves in RAM: an image byte exactly where a successful access covered
      it, zeros as far as a read went past the end, and the old byte everywhere else. */
  lemma {:induction false} LoadContents(d: Device, ram: seq<Byte>, base: Addr, ps: seq<Piece>)
    requires AtStart(d, ram, base)
    ensures var x := ExtentOf(d, ram, base);
            LoadedTo(Load(d, ram, base, ps), d, ram, base, Covered(ps, x.size), Spill(ps, x))
  {
    if ps != [] {
      var x, q, p := ExtentOf(d, ram, base), ps[..|ps| - 1], ps[|ps| - 1];
      LoadContents(d, ram, base, q);
      LoadStep(Load(d, ram, base, q), d, ram, base, Covered(q, x.size), Spill(q, x), p);
    }
  }

  /** A request fires the hook exactly when it is a read, no access of it is refused, and all bytes of the
      image are behind it. */
  lemma {:induction false} FiresWhenPassed(d: Device, ram: seq<Byte>, base: Addr, ps: seq<Piece>, i: nat)
    requires AtStart(d, ram, base) && i < |ps|
    ensures var x := ExtentOf(d, ram, base);
            FiresAt(d, ram, base, ps, i) <==>
              ps[i].Read? && Total(ps[..i + 1]) >= x.size && !Refused(x, Min(Total(ps[..i]), x.size), ps[i])
  {
    LoadContents(d, ram, base, ps[..i]);
    LoadContents(d, ram, base, ps[..i + 1]);
    assert ps[..i + 1][..i] == ps[..i];
    var r := Load(d, ram, base, ps[..i]);
    PieceDevice(r.dev, r.ram, base, ps[i]);
  }

  /** All requests are reads and none is refused. */
  ghost predicate Undisturbed(ps: seq<Piece>, x: Extent) {
    ps != [] ==>
      var q, p := ps[..|ps| - 1], ps[|ps| - 1];
      Undisturbed(q, x) && p.Read? && !Refused(x, Min(Total(q), x.size), p)
  }

  lemma {:induction false} UndisturbedCovers(ps: seq<Piece>, x: Extent)
    requires Undisturbed(ps, x)
    ensures forall j :: 0 <= j < |Covered(ps, x.size)| ==> Covered(ps, x.size)[j]
    ensures Total(ps) <= x.size ==> Spill(ps, x) == 0
  {
    if ps != [] {
      UndisturbedCovers(ps[..|ps| - 1], x);
    }
  }

  lemma UndisturbedContents(d: Device, ram: seq<Byte>, base: Addr, ps: seq<Piece>)
    requires AtStart(d, ram, base) && Undisturbed(ps, ExtentOf(d, ram, base))
    requires Total(ps) >= |d.entries[KERNEL_DATA]|
    ensures var img, z := d.entries[KERNEL_DATA], Spill(ps, ExtentOf(d, ram, base));
            base + |img| + z <= |ram| && Load(d, ram, base, ps).ram == Overlay(ram, base, img + Zeros(z))
  {
    LoadContents(d, ram, base, ps);
    UndisturbedCovers(ps, ExtentOf(d, ram, base));
    var img, z := d.entries[KERNEL_DATA], Spill(ps, ExtentOf(d, ram, base));
    WholePatched(Load(d, ram, base, ps).ram, ram, base, img, Covered(ps, |img|), z);
  }

  lemma WholePatched(m: seq<Byte>, ram: seq<Byte>, base: Addr, img: seq<Byte>, c: seq<bool>, z: nat)
    requires Patched(m, ram, base, img, c, z) && |c| == |img| && forall j :: 0 <= j < |c| ==> c[j]
    ensures m == Overlay(ram, base, img + Zeros(z))
  {
    OverlayPointwise(ram, base, img + Zeros(z), m);
  }

  /** However the reads split the image, as long as none fails and none is skipped: a request fires the hook
      exactly when the image's last byte has been written by it or before it, and the whole image is then in
      RAM. If the reads end where the image ends, the rest of RAM is as it was; if they go on, what they ask
      for past the end is zero and the rest is as it was. */
  lemma SplitIndependent(d: Device, ram: seq<Byte>, base: Addr, ps: seq<Piece>, i: nat)
    requires AtStart(d, ram, base) && i < |ps| && Undisturbed(ps[..i + 1], ExtentOf(d, ram, base))
    ensures var img, x, q := d.entries[KERNEL_DATA], ExtentOf(d, ram, base), ps[..i + 1];
            var r := Load(d, ram, base, q);
            && (FiresAt(d, ram, base, ps, i) <==> Total(q) >= |img|)
            && (Total(q) >= |img| ==> Spill(q, x) <= x.room && r.ram == Overlay(ram, base, img + Zeros(Spill(q, x))))
            && (Total(q) == |img| ==> Spill(q, x) == 0 && r.ram == Overlay(ram, base, img))
            && (Total(q) < |img| ==> r.dev.offset < |img|)
  {
    var img, x, q := d.entries[KERNEL_DATA], ExtentOf(d, ram, base), ps[..i + 1];
    assert q[..i] == ps[..i];
    assert FiresAt(d, ram, base, ps, i) <==> Total(q) >= |img| by {
      FiresWhenPassed(d, ram, base, ps, i);
    }
    if Total(q) >= |img| {
      UndisturbedContents(d, ram, base, q);
      UndisturbedCovers(q, x);
      assert img + Zeros(0) == img;
    } else {
      LoadContents(d, ram, base, q);
    }
  }

  /** The pieces as a boot ROM asks for them: the first request selects the kernel entry. */
  function Boot(d: Device, ram: seq<Byte>, base: Addr, ps: seq<Piece>): (r: Result)
    requires ps != []
    ensures |r.ram| == |ram|
  {
    if |ps| == 1 then Transfer(d, ram, Request(Some(KERNEL_DATA), ps[0].Read?, ps[0].n, base), FaultOf(ps[0]))
    else
      var r := Boot(d, ram, base, ps[..|ps| - 1]);
      var p := ps[|ps| - 1];
      Transfer(r.dev, r.ram, RequestOf(r.dev, base, p), FaultOf(p))
  }

  /** Where the device stood before does not matter. */
  lemma {:induction false} BootIsLoad(d: Device, ram: seq<Byte>, base: Addr, ps: seq<Piece>)
    requires ps != []
    ensures Boot(d, ram, base, ps) == Load(Device(d.entries, 0x11, 0), ram, base, ps)
  {
    if |ps| == 1 {
      var d' := Device(d.entries, 0x11, 0);
      assert Load(d', ram, base, ps[..0]) == Result(d', ram, false);
    } else {
      BootIsLoad(d, ram, base, ps[..|ps| - 1]);
    }
  }

  /** Split-independent load detection from any state of the device. */
  lemma BootSplitIndependent(d: Device, ram: seq<Byte>, base: Addr, ps: seq<Piece>)
    requires 0x11 in d.entries && base + |d.entries[0x11]| <= |ram| && ps != []
    requires Undisturbed(ps, Extent(|d.entries[0x11]|, |ram| - base - |d.entries[0x11]|))
    ensures Loaded(Boot(d, ram, base, ps), ram, base, d.entries[0x11], Total(ps))
  {
    var d' := Device(d.entries, 0x11, 0);
    BootIsLoad(d, ram, base, ps);
    assert ExtentOf(d', ram, base) == Extent(|d.entries[0x11]|, |ram| - base - |d.entries[0x11]|);
    WholeLoad(d', ram, base, ps, Boot(d, ram, base, ps));
  }

  /** After `total` bytes the hook fires exactly if the image is passed; it is then in place, with RAM before it
      untouched, and all other RAM too if the reads ended where the image ends. */
  ghost predicate Loaded(r: Result, ram: seq<Byte>, base: Addr, img: seq<Byte>, total: nat)
    requires base + |img| <= |ram| == |r.ram|
  {
    && (Fires(Request(None, true, 0, 0), r) <==> total >= |img|)
    && (total >= |img| ==> forall a :: base <= a < base + |img| ==> r.ram[a] == img[a - base])
    && (total >= |img| ==> forall a :: 0 <= a < base ==> r.ram[a] == ram[a])
    && (total == |img| ==> forall a :: base + |img| <= a < |ram| ==> r.ram[a] == ram[a])
  }

  lemma WholeLoad(d: Device, ram: seq<Byte>, base: Addr, ps: seq<Piece>, r: Result)
    requires AtStart(d, ram, base) && ps != [] && Undisturbed(ps, ExtentOf(d, ram, base))
    requires r == Load(d, ram, base, ps)
    ensures Loaded(r, ram, base, d.entries[0x11], Total(ps))
  {
    var n := |ps|;
    assert ps[..n] == ps;
    SplitIndependent(d, ram, base, ps, n - 1);
    LastFires(d, ram, base, ps);
    if Total(ps) >= |d.entries[0x11]| {
      InPlace(r.ram, ram, base, d.entries[0x11], Spill(ps, ExtentOf(d, ram, base)));
    }
  }

  lemma InPlace(m: seq<Byte>, ram: seq<Byte>, base: Addr, img: seq<Byte>, z: nat)
    requires base + |img| + z <= |ram| && m == Overlay(ram, base, img + Zeros(z))
    ensures forall a :: base <= a < base + |img| ==> m[a] == img[a - base]
    ensures forall a :: 0 <= a < base || base + |img| + z <= a < |ram| ==> m[a] == ram[a]
  {
    OverlayPointwise(ram, base, img + Zeros(z), m);
  }

  lemma LastFires(d: Device, ram: seq<Byte>, base: Addr, ps: seq<Piece>)
    requires ps != [] && ps[|ps| - 1].Read?
    ensures FiresAt(d, ram, base, ps, |ps| - 1) <==> Fires(Request(None, true, 0, 0), Load(d, ram, base, ps))
  {
    assert ps[..|ps|] == ps;
  }

  /** The proviso is needed: skip or fail the first byte of any longer image, read the rest, and the hook
      fires although RAM still holds the old byte there. */
  lemma {:induction false} HoleStillFires(d: Device, ram: seq<Byte>, base: Addr, skip: bool)
    requires AtStart(d, ram, base) && |d.entries[KERNEL_DATA]| > 1
    ensures var rest := Read(|d.entries[KERNEL_DATA]| - 1, NO_FAULT);
            var ps := [if skip then Skipped(1) else Read(1, Fault(true, false)), rest];
            FiresAt(d, ram, base, ps, 1) && Load(d, ram, base, ps).ram[base] == ram[base]
  {
    var size := |d.entries[KERNEL_DATA]|;
    var ps := [if skip then Skipped(1) else Read(1, Fault(true, false)), Read(size - 1, NO_FAULT)];
    var first := ps[..1];
    assert first == [ps[0]] && first[..0] == [] && ps[..2] == ps;
    assert Total(first) == Total(first[..0]) + 1 == 1;
    assert ps[..|ps| - 1] == first && Total(ps) == Total(first) + ps[1].n == size;
    FiresWhenPassed(d, ram, base, ps, 1);
    LoadContents(d, ram, base, ps);
    assert !Covered(first, size)[0];
  }

  /** Exactly when it matters: once the requests have passed the whole image, however they went, the image is
      whole in RAM if and only if every place they did not cover held its byte already. */
  lemma WholeIff(d: Device, ram: seq<Byte>, base: Addr, ps: seq<Piece>)
    requires AtStart(d, ram, base) && Total(ps) >= |d.entries[KERNEL_DATA]|
    ensures var img := d.entries[KERNEL_DATA];
            var c, m := Covered(ps, |img|), Load(d, ram, base, ps).ram;
            (forall j :: 0 <= j < |img| ==> m[base + j] == img[j])
            <==> forall j :: 0 <= j < |img| && !c[j] ==> ram[base + j] == img[j]
  {
    var img, x := d.entries[KERNEL_DATA], ExtentOf(d, ram, base);
    var c, m := Covered(ps, |img|), Load(d, ram, base, ps).ram;
    LoadContents(d, ram, base, ps);
    forall j | 0 <= j < |img| ensures m[base + j] == if c[j] then img[j] else ram[base + j] {
      assert m[base + j] == PatchedByte(ram, base, img, c, Spill(ps, x), base + j);
    }
  }
}
