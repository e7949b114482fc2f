/** Redirecting a function of the host process: a jump over its first instructions, and a trampoline that keeps them. */
module CodeHooks {
  import opened Bytes
  import Machine

  datatype Arch = X64 | X86

  /** The width of an address in bytes. */
  function Width(a: Arch): nat {
    if a.X64? then 8 else 4
  }

  function JmpSize(a: Arch): nat {
    if a.X64? then 12 else 7
  }

  /** `mov rax, imm64` or `mov eax, imm32`. */
  function MovPrefix(a: Arch): seq<byte> {
    if a.X64? then [0x48, 0xb8] else [0xb8]
  }

  /** `jmp rax` or `jmp eax`. */
  const JMP: seq<byte> := [0xff, 0xe0]

  function Jump(a: Arch, target: nat): (code: seq<byte>)
    ensures |code| == JmpSize(a)
  {
    MovPrefix(a) + LE(target, Width(a)) + JMP
  }

  lemma SliceAt(mem: seq<byte>, at: nat, s: seq<byte>, i: nat)
    requires at + |s| <= |mem| && mem[at..at + |s|] == s && i < |s|
    ensures mem[at + i] == s[i]
  {
    assert mem[at + i] == mem[at..at + |s|][i];
  }

  lemma DwordLies(mem: seq<byte>, at: nat, n: nat)
    requires n < TWO32 && at + 4 <= |mem| && mem[at..at + 4] == LE(n, 4)
    ensures Machine.Dword(mem, at) == n
  {
    BytesOfLE(n);
    hide LE;
    forall i: nat | i < 4 ensures mem[at + i] == LE(n, 4)[i] {
      SliceAt(mem, at, LE(n, 4), i);
    }
  }

  lemma QwordLies(mem: seq<byte>, at: nat, n: nat)
    requires n < TWO64 && at + 8 <= |mem| && mem[at..at + 8] == LE(n, 8)
    ensures Machine.Qword(mem, at) == n
  {
    BytesOfLongLE(n);
    hide LE;
    forall i: nat | i < 8 ensures mem[at + i] == LE(n, 8)[i] {
      SliceAt(mem, at, LE(n, 8), i);
    }
  }

  /** A jump goes where it was meant to, for every address of the machine, wherever it lies. */
  lemma JumpArrives(a: Arch, mem: seq<byte>, at: nat, target: nat)
    requires target < Pow256(Width(a)) && at + JmpSize(a) <= |mem|
    requires mem[at..at + JmpSize(a)] == Jump(a, target)
    ensures Machine.Arrives(a.X64?, mem, at, target)
  {
    var code, p, w := Jump(a, target), |MovPrefix(a)|, Width(a);
    Pow256Values();
    SliceOfSlice(mem, at, at + JmpSize(a), p, p + w);
    assert code[p..p + w] == LE(target, w);
    if a.X64? {
      QwordLies(mem, at + p, target);
    } else {
      DwordLies(mem, at + p, target);
    }
    SliceAt(mem, at, code, 0);
    SliceAt(mem, at, code, 1);
    SliceAt(mem, at, code, p + w);
    SliceAt(mem, at, code, p + w + 1);
  }

  // -- instructions --------------------------------------------------------------------------------------

  /** The length of the first instruction of a piece of code, if the disassembler recognises one. */
  type Decoder = seq<byte> -> Option<nat>

  const WINDOW: nat := 64
  const LONGEST: nat := 15

  predicate SharePrefix(v: seq<byte>, w: seq<byte>, n: nat) {
    n <= |v| && n <= |w| && v[..n] == w[..n]
  }

  /** An instruction has at most 15 bytes, and its length depends on those bytes only. */
  ghost predicate WellBehaved(decode: Decoder) {
    && (forall w :: decode(w).Some? ==> 1 <= decode(w).value <= LONGEST && decode(w).value <= |w|)
    && (forall v, w :: decode(w).Some? && SharePrefix(v, w, decode(w).value) ==> decode(v) == decode(w))
  }

  function Window(mem: seq<byte>, at: nat): seq<byte>
    requires at <= |mem|
  {
    if at + WINDOW <= |mem| then mem[at..at + WINDOW] else mem[at..]
  }

  /** The length of the instruction at an address, if there is one. */
  function InstructionAt(decode: Decoder, mem: seq<byte>, at: nat): (n: Option<nat>)
    requires WellBehaved(decode) && at <= |mem|
    ensures n.Some? ==> 1 <= n.value <= LONGEST && at + n.value <= |mem|
  {
    decode(Window(mem, at))
  }

  /** Whether a whole number of instructions, read one after the other from `from`, ends at `to`. */
  ghost predicate Boundary(decode: Decoder, mem: seq<byte>, from: nat, to: nat)
    requires WellBehaved(decode)
    decreases if from <= to then to - from else 0
  {
    from == to
    || (from < to <= |mem| && InstructionAt(decode, mem, from).Some?
        && Boundary(decode, mem, from + InstructionAt(decode, mem, from).value, to))
  }

  /** The instructions read one after the other from `from`, up to `to` or where there is none. */
  ghost function Listing(decode: Decoder, mem: seq<byte>, from: nat, to: nat): seq<seq<byte>>
    requires WellBehaved(decode)
    decreases if from <= to then to - from else 0
  {
    if from < to <= |mem| && InstructionAt(decode, mem, from).Some? then
      var next := from + InstructionAt(decode, mem, from).value;
      [mem[from..next]] + Listing(decode, mem, next, to)
    else []
  }

  lemma {:induction false} BoundaryNext(decode: Decoder, mem: seq<byte>, from: nat, to: nat)
    requires WellBehaved(decode) && Boundary(decode, mem, from, to) && to <= |mem|
             && InstructionAt(decode, mem, to).Some?
    ensures Boundary(decode, mem, from, to + InstructionAt(decode, mem, to).value)
    decreases if from <= to then to - from else 0
  {
    hide WellBehaved, InstructionAt;
    if from < to {
      BoundaryNext(decode, mem, from + InstructionAt(decode, mem, from).value, to);
    } else {
      var next := to + InstructionAt(decode, mem, to).value;
      assert Boundary(decode, mem, next, next);
    }
  }

  /** Between two boundaries there is no way around the instruction at the first. */
  lemma {:induction false} BoundaryBetween(decode: Decoder, mem: seq<byte>, from: nat, mid: nat, to: nat)
    requires WellBehaved(decode) && Boundary(decode, mem, from, mid) && Boundary(decode, mem, from, to) && mid < to
    ensures mid <= |mem| && InstructionAt(decode, mem, mid).Some? && mid + InstructionAt(decode, mem, mid).value <= to
    decreases if from <= mid then mid - from else 0
  {
    hide WellBehaved, InstructionAt;
    if from < mid {
      BoundaryBetween(decode, mem, from + InstructionAt(decode, mem, from).value, mid, to);
    }
  }

  /** Whether the code can be cut behind its first `size` bytes or later. */
  ghost predicate Cuttable(decode: Decoder, mem: seq<byte>, at: nat, size: nat)
    requires WellBehaved(decode)
  {
    exists to: nat :: at + size <= to && Boundary(decode, mem, at, to)
  }

  /** `offset` is a boundary, and the ones before it are too early. */
  ghost predicate Scanned(decode: Decoder, mem: seq<byte>, addr: nat, size: nat, offset: nat)
    requires WellBehaved(decode)
  {
    && Boundary(decode, mem, addr, addr + offset)
    && forall to: nat :: Boundary(decode, mem, addr, to) && to < addr + offset ==> to < addr + size
  }

  lemma ScanStarts(decode: Decoder, mem: seq<byte>, addr: nat, size: nat)
    requires WellBehaved(decode)
    ensures Scanned(decode, mem, addr, size, 0)
  {
    forall to: nat | Boundary(decode, mem, addr, to) ensures addr <= to {
      BoundaryAhead(decode, mem, addr, to);
    }
  }

  lemma ScanNext(decode: Decoder, mem: seq<byte>, addr: nat, size: nat, offset: nat)
    requires WellBehaved(decode) && Scanned(decode, mem, addr, size, offset) && offset < size && addr + offset <= |mem|
    requires InstructionAt(decode, mem, addr + offset).Some?
    ensures Scanned(decode, mem, addr, size, offset + InstructionAt(decode, mem, addr + offset).value)
  {
    hide Boundary, WellBehaved, InstructionAt;
    var next := addr + offset + InstructionAt(decode, mem, addr + offset).value;
    BoundaryNext(decode, mem, addr, addr + offset);
    forall to: nat | Boundary(decode, mem, addr, to) && to < next ensures to < addr + size {
      if addr + offset < to {
        BoundaryBetween(decode, mem, addr, addr + offset, to);
      }
    }
  }

  lemma ScanStuck(decode: Decoder, mem: seq<byte>, addr: nat, size: nat, offset: nat)
    requires WellBehaved(decode) && Scanned(decode, mem, addr, size, offset) && offset < size && addr + offset <= |mem|
    requires InstructionAt(decode, mem, addr + offset).None?
    ensures !Cuttable(decode, mem, addr, size)
  {
    hide Boundary, WellBehaved, InstructionAt;
    forall to: nat | Boundary(decode, mem, addr, to) ensures to < addr + size {
      if addr + offset < to {
        BoundaryBetween(decode, mem, addr, addr + offset, to);
      }
    }
  }

  lemma ScannedBoundary(decode: Decoder, mem: seq<byte>, addr: nat, size: nat, offset: nat)
    requires WellBehaved(decode) && Scanned(decode, mem, addr, size, offset)
    ensures Boundary(decode, mem, addr, addr + offset)
  {
  }

  /**
   * The scan stops at the first boundary at or behind `size`; if the disassembler gives up before,
   * there is none, and it stops there.
   */
  method DisCodeSize(decode: Decoder, mem: array<byte>, addr: nat, size: nat) returns (offset: nat)
    requires WellBehaved(decode) && addr + size + LONGEST + WINDOW <= mem.Length
    ensures Scanned(decode, mem[..], addr, size, offset) && offset < size + LONGEST
    ensures size <= offset <==> Cuttable(decode, mem[..], addr, size)
  {
    hide Boundary, WellBehaved, Scanned;
    offset := 0;
    ScanStarts(decode, mem[..], addr, size);
    var ins := decode(mem[addr + offset..addr + offset + WINDOW]);
    assert mem[addr + offset..addr + offset + WINDOW] == Window(mem[..], addr + offset);
    while ins.Some? && offset < size
      invariant offset < size + LONGEST
      invariant ins == InstructionAt(decode, mem[..], addr + offset)
      invariant Scanned(decode, mem[..], addr, size, offset)
      decreases size + LONGEST - offset
    {
      ScanNext(decode, mem[..], addr, size, offset);
      offset := offset + ins.value;
      ins := decode(mem[addr + offset..addr + offset + WINDOW]);
      assert mem[addr + offset..addr + offset + WINDOW] == Window(mem[..], addr + offset);
    }
    if offset < size {
      ScanStuck(decode, mem[..], addr, size, offset);
    } else {
      ScannedBoundary(decode, mem[..], addr, size, offset);
    }
  }

  lemma {:induction false} BoundaryAhead(decode: Decoder, mem: seq<byte>, from: nat, to: nat)
    requires WellBehaved(decode) && Boundary(decode, mem, from, to)
    ensures from <= to
  {
    hide WellBehaved, InstructionAt;
  }

  lemma SameSlices(a: seq<byte>, from: nat, n: nat, b: seq<byte>, at: nat, k: nat)
    requires k <= n && from + n <= |a| && at + n <= |b| && b[at..at + n] == a[from..from + n]
    ensures b[at..at + k] == a[from..from + k]
    ensures b[at + k..at + n] == a[from + k..from + n]
  {
    SliceOfSlice(a, from, from + n, 0, k);
    SliceOfSlice(a, from, from + n, k, n);
    SliceOfSlice(b, at, at + n, 0, k);
    SliceOfSlice(b, at, at + n, k, n);
  }

  lemma SharedWindow(a: seq<byte>, from: nat, b: seq<byte>, at: nat, n: nat)
    requires n <= WINDOW && from + n <= |a| && at + n <= |b| && b[at..at + n] == a[from..from + n]
    ensures SharePrefix(Window(b, at), Window(a, from), n)
  {
    assert Window(b, at)[..n] == b[at..at + n];
    assert Window(a, from)[..n] == a[from..from + n];
  }

  lemma SameInstruction(decode: Decoder, a: seq<byte>, from: nat, b: seq<byte>, at: nat)
    requires WellBehaved(decode) && from <= |a| && InstructionAt(decode, a, from).Some?
    requires var n := InstructionAt(decode, a, from).value;
      at + n <= |b| && b[at..at + n] == a[from..from + n]
    ensures InstructionAt(decode, b, at) == InstructionAt(decode, a, from)
  {
    hide Window, SharePrefix;
    SharedWindow(a, from, b, at, InstructionAt(decode, a, from).value);
  }

  lemma {:induction false} MovedBoundary(decode: Decoder, a: seq<byte>, from: nat, n: nat, b: seq<byte>, at: nat)
    requires WellBehaved(decode) && Boundary(decode, a, from, from + n) && from + n <= |a|
    requires at + n <= |b| && b[at..at + n] == a[from..from + n]
    ensures Boundary(decode, b, at, at + n)
    decreases n
  {
    hide WellBehaved, InstructionAt;
    if n > 0 {
      var k := InstructionAt(decode, a, from).value;
      BoundaryAhead(decode, a, from + k, from + n);
      SameSlices(a, from, n, b, at, k);
      SameInstruction(decode, a, from, b, at);
      MovedBoundary(decode, a, from + k, n - k, b, at + k);
    }
  }

  ghost predicate SameListing(decode: Decoder, a: seq<byte>, from: nat, b: seq<byte>, at: nat, n: nat)
    requires WellBehaved(decode)
  {
    && Boundary(decode, a, from, from + n) && Boundary(decode, b, at, at + n)
    && Listing(decode, b, at, at + n) == Listing(decode, a, from, from + n)
  }

  lemma ListingStep(decode: Decoder, mem: seq<byte>, from: nat, to: nat)
    requires WellBehaved(decode) && Boundary(decode, mem, from, to) && from < to
    ensures from < to <= |mem| && InstructionAt(decode, mem, from).Some?
    ensures var next := from + InstructionAt(decode, mem, from).value;
      && next <= to && Boundary(decode, mem, next, to)
      && Listing(decode, mem, from, to) == [mem[from..next]] + Listing(decode, mem, next, to)
  {
    hide WellBehaved, InstructionAt;
    BoundaryAhead(decode, mem, from + InstructionAt(decode, mem, from).value, to);
  }

  lemma NothingListed(decode: Decoder, mem: seq<byte>, at: nat)
    requires WellBehaved(decode)
    ensures Boundary(decode, mem, at, at) && Listing(decode, mem, at, at) == []
  {
  }

  /** The same bytes elsewhere are the same instructions. */
  lemma {:induction false} MovedCode(decode: Decoder, a: seq<byte>, from: nat, n: nat, b: seq<byte>, at: nat)
    requires WellBehaved(decode) && Boundary(decode, a, from, from + n) && from + n <= |a|
    requires at + n <= |b| && b[at..at + n] == a[from..from + n]
    ensures SameListing(decode, a, from, b, at, n)
    decreases n
  {
    hide WellBehaved, InstructionAt, Boundary, Listing;
    MovedBoundary(decode, a, from, n, b, at);
    if n == 0 {
      NothingListed(decode, a, from);
      NothingListed(decode, b, at);
    } else {
      ListingStep(decode, a, from, from + n);
      ListingStep(decode, b, at, at + n);
      var k := InstructionAt(decode, a, from).value;
      SameSlices(a, from, n, b, at, k);
      SameInstruction(decode, a, from, b, at);
      MovedCode(decode, a, from + k, n - k, b, at + k);
    }
  }

  // -- the hook ----------------------------------------------------------------------------------------------

  /** `(n + mask) & ~mask`, for pages of `mask + 1` bytes. */
  function RoundUp(n: nat, page: nat): (r: nat)
    requires page > 0
    ensures n <= r < n + page
  {
    n + (page - 1) - (n + (page - 1)) % page
  }

  predicate Apart(a: nat, n: nat, b: nat, m: nat) {
    a + n <= b || b + m <= a
  }

  /** What `memcpy` leaves behind. */
  function Patched(mem: seq<byte>, at: nat, code: seq<byte>): (r: seq<byte>)
    requires at + |code| <= |mem|
    ensures |r| == |mem|
  {
    mem[..at] + code + mem[at + |code|..]
  }

  lemma PatchedSlices(mem: seq<byte>, at: nat, code: seq<byte>, a: nat, n: nat)
    requires at + |code| <= |mem| && a + n <= |mem|
    ensures a == at && n == |code| ==> Patched(mem, at, code)[a..a + n] == code
    ensures Apart(a, n, at, |code|) ==> Patched(mem, at, code)[a..a + n] == mem[a..a + n]
  {
  }

  /** A trampoline in place: a copy of what will be displaced, and a jump to what comes after it. */
  function Linked(arch: Arch, mem: seq<byte>, addr: nat, trampoline: nat, displaced: nat): (r: seq<byte>)
    requires addr + displaced <= |mem| && trampoline + displaced + JmpSize(arch) <= |mem|
    ensures |r| == |mem|
  {
    var copied := Patched(mem, trampoline, mem[addr..addr + displaced]);
    Patched(copied, trampoline + displaced, Jump(arch, addr + displaced))
  }

  /** The whole hook in place: then the entry is overwritten with a jump to the target. */
  function Hooked(arch: Arch, mem: seq<byte>, addr: nat, target: nat, trampoline: nat, displaced: nat): (r: seq<byte>)
    requires addr + displaced <= |mem| && addr + JmpSize(arch) <= |mem|
    requires trampoline + displaced + JmpSize(arch) <= |mem|
    ensures |r| == |mem|
  {
    Patched(Linked(arch, mem, addr, trampoline, displaced), addr, Jump(arch, target))
  }

  class CodeHook {
    const arch: Arch
    const target: nat
    var active: bool
    var addr: nat
    // where the caller finds the original function now
    var original: nat
    const patchData: array<byte>
    const origData: array<byte>

    constructor (arch: Arch, target: nat)
      ensures this.arch == arch && this.target == target && !active
      ensures fresh(patchData) && fresh(origData) && patchData != origData
      ensures patchData.Length == JmpSize(arch) == origData.Length
    {
      this.arch, this.target, active, addr, original := arch, target, false, 0, 0;
      patchData := new byte[JmpSize(arch)](_ => 0);
      origData := new byte[JmpSize(arch)](_ => 0);
    }

    method Write(dst: array<byte>, at: nat, data: seq<byte>)
      requires at + |data| <= dst.Length
      modifies dst
      ensures dst[..] == Patched(old(dst[..]), at, data)
    {
      Memcpy(dst, at, data);
    }

    method JmpPatch(buf: array<byte>, at: nat, target: nat)
      requires at + JmpSize(arch) <= buf.Length
      modifies buf
      ensures buf[..] == Patched(old(buf[..]), at, Jump(arch, target))
    {
      Write(buf, at, Jump(arch, target));
    }

    method Apply(mem: array<byte>)
      requires addr + patchData.Length <= mem.Length
      modifies mem
      ensures mem[..] == Patched(old(mem[..]), addr, old(patchData[..]))
    {
      Write(mem, addr, patchData[..]);
    }

    method Revert(mem: array<byte>)
      requires addr + origData.Length <= mem.Length
      modifies mem
      ensures mem[..] == Patched(old(mem[..]), addr, old(origData[..]))
    {
      Write(mem, addr, origData[..]);
    }

    /** `trampoline` is what `mmap` answers: memory nobody uses, enough for whatever the scan finds. */
    method Setup(mem: array<byte>, decode: Decoder, addr: nat, trampoline: nat, page: nat) returns (displaced: nat)
      requires WellBehaved(decode) && page > 0
      requires patchData.Length == JmpSize(arch) == origData.Length
      requires patchData != origData && mem != patchData && mem != origData
      requires addr + JmpSize(arch) + LONGEST + WINDOW <= mem.Length
      requires trampoline + RoundUp(2 * JmpSize(arch) + LONGEST, page) <= mem.Length
      requires Apart(addr, JmpSize(arch) + LONGEST, trampoline, RoundUp(2 * JmpSize(arch) + LONGEST, page))
      modifies this, mem, patchData, origData
      ensures displaced < JmpSize(arch) + LONGEST
      ensures Scanned(decode, old(mem[..]), addr, JmpSize(arch), displaced)
      ensures JmpSize(arch) <= displaced <==> Cuttable(decode, old(mem[..]), addr, JmpSize(arch))
      ensures mem[..] == Hooked(arch, old(mem[..]), addr, target, trampoline, displaced)
      ensures origData[..] == old(mem[..])[addr..addr + JmpSize(arch)]
      ensures active && this.addr == addr && original == trampoline
      ensures target < Pow256(Width(arch)) ==> Machine.Arrives(arch.X64?, mem[..], addr, target)
      ensures addr + displaced < Pow256(Width(arch)) ==>
        Machine.Arrives(arch.X64?, mem[..], trampoline + displaced, addr + displaced)
    {
      hide Machine.Arrives, Scanned, Cuttable, WellBehaved, Patched, JmpSize, RoundUp, Jump;
      this.addr := addr;
      displaced := DisCodeSize(decode, mem, addr, JmpSize(arch));
      ghost var before := mem[..];
      FillTrampoline(mem, addr, trampoline, displaced);
      ghost var linked := mem[..];
      JmpPatch(patchData, 0, target);
      PatchedWhole(old(patchData[..]), Jump(arch, target));
      TrampolineLeaves(arch, before, addr, trampoline, displaced, addr, JmpSize(arch));
      Write(origData, 0, mem[..][addr..addr + JmpSize(arch)]);
      PatchedWhole(old(origData[..]), linked[addr..addr + JmpSize(arch)]);
      Apply(mem);
      original := trampoline;
      active := true;
      HookIsPlaced(arch, before, addr, trampoline, displaced, page);
      HookArrives(arch, before, addr, target, trampoline, displaced);
    }

    method FillTrampoline(mem: array<byte>, addr: nat, trampoline: nat, displaced: nat)
      requires addr + displaced <= mem.Length && trampoline + displaced + JmpSize(arch) <= mem.Length
      modifies mem
      ensures mem[..] == Linked(arch, old(mem[..]), addr, trampoline, displaced)
    {
      hide Patched;
      Write(mem, trampoline, mem[..][addr..addr + displaced]);
      JmpPatch(mem, trampoline + displaced, addr + displaced);
    }
  }

  lemma PatchedWhole(mem: seq<byte>, code: seq<byte>)
    requires |code| == |mem|
    ensures Patched(mem, 0, code) == code
  {
  }

  lemma TrampolineLeaves(arch: Arch, mem: seq<byte>, addr: nat, trampoline: nat, displaced: nat, a: nat, n: nat)
    requires addr + displaced <= |mem| && trampoline + displaced + JmpSize(arch) <= |mem| && a + n <= |mem|
    requires Apart(a, n, trampoline, displaced + JmpSize(arch))
    ensures Linked(arch, mem, addr, trampoline, displaced)[a..a + n] == mem[a..a + n]
  {
    hide Patched;
    var code := mem[addr..addr + displaced];
    PatchedSlices(mem, trampoline, code, a, n);
    PatchedSlices(Patched(mem, trampoline, code), trampoline + displaced, Jump(arch, addr + displaced), a, n);
  }

  lemma TrampolineHolds(arch: Arch, mem: seq<byte>, addr: nat, trampoline: nat, displaced: nat)
    requires addr + displaced <= |mem| && trampoline + displaced + JmpSize(arch) <= |mem|
    ensures var linked := Linked(arch, mem, addr, trampoline, displaced);
      && linked[trampoline..trampoline + displaced] == mem[addr..addr + displaced]
      && linked[trampoline + displaced..trampoline + displaced + JmpSize(arch)] == Jump(arch, addr + displaced)
  {
    hide Patched;
    var code := mem[addr..addr + displaced];
    var copied := Patched(mem, trampoline, code);
    PatchedSlices(mem, trampoline, code, trampoline, displaced);
    PatchedSlices(copied, trampoline + displaced, Jump(arch, addr + displaced), trampoline, displaced);
    PatchedSlices(copied, trampoline + displaced, Jump(arch, addr + displaced), trampoline + displaced, JmpSize(arch));
  }

  /** The places of a hook: the function, and a trampoline that overlaps neither its entry nor what is displaced. */
  predicate Placed(arch: Arch, mem: seq<byte>, addr: nat, trampoline: nat, displaced: nat) {
    && addr + displaced <= |mem| && addr + JmpSize(arch) <= |mem| && trampoline + displaced + JmpSize(arch) <= |mem|
    && Apart(addr, JmpSize(arch), trampoline, displaced + JmpSize(arch))
    && Apart(addr, displaced, trampoline, displaced + JmpSize(arch))
  }

  /** Calling the hooked function arrives at the target. */
  lemma EntryJumpsToTarget(arch: Arch, mem: seq<byte>, addr: nat, target: nat, trampoline: nat, displaced: nat)
    requires target < Pow256(Width(arch)) && Placed(arch, mem, addr, trampoline, displaced)
    ensures Machine.Arrives(arch.X64?, Hooked(arch, mem, addr, target, trampoline, displaced), addr, target)
  {
    hide Jump, Patched, Linked, JmpSize, Machine.Arrives;
    PatchedSlices(Linked(arch, mem, addr, trampoline, displaced), addr, Jump(arch, target), addr, JmpSize(arch));
    JumpArrives(arch, Hooked(arch, mem, addr, target, trampoline, displaced), addr, target);
  }

  /** Behind the displaced instructions, the trampoline arrives at the first one that is not. */
  lemma TrampolineJumpsBack(arch: Arch, mem: seq<byte>, addr: nat, target: nat, trampoline: nat, displaced: nat)
    requires Placed(arch, mem, addr, trampoline, displaced) && addr + displaced < Pow256(Width(arch))
    ensures Machine.Arrives(arch.X64?, Hooked(arch, mem, addr, target, trampoline, displaced), trampoline + displaced,
                            addr + displaced)
  {
    hide Machine.Arrives, Jump, Patched, Linked, JmpSize;
    TrampolineHolds(arch, mem, addr, trampoline, displaced);
    PatchedSlices(Linked(arch, mem, addr, trampoline, displaced), addr, Jump(arch, target),
                  trampoline + displaced, JmpSize(arch));
    JumpArrives(arch, Hooked(arch, mem, addr, target, trampoline, displaced), trampoline + displaced, addr + displaced);
  }

  lemma HookIsPlaced(arch: Arch, mem: seq<byte>, addr: nat, trampoline: nat, displaced: nat, page: nat)
    requires page > 0 && displaced < JmpSize(arch) + LONGEST && addr + JmpSize(arch) + LONGEST <= |mem|
    requires trampoline + RoundUp(2 * JmpSize(arch) + LONGEST, page) <= |mem|
    requires Apart(addr, JmpSize(arch) + LONGEST, trampoline, RoundUp(2 * JmpSize(arch) + LONGEST, page))
    ensures Placed(arch, mem, addr, trampoline, displaced)
  {
    hide RoundUp;
  }

  lemma HookArrives(arch: Arch, mem: seq<byte>, addr: nat, target: nat, trampoline: nat, displaced: nat)
    requires Placed(arch, mem, addr, trampoline, displaced)
    ensures var after := Hooked(arch, mem, addr, target, trampoline, displaced);
      && (target < Pow256(Width(arch)) ==> Machine.Arrives(arch.X64?, after, addr, target))
      && (addr + displaced < Pow256(Width(arch)) ==>
            Machine.Arrives(arch.X64?, after, trampoline + displaced, addr + displaced))
  {
    if target < Pow256(Width(arch)) {
      EntryJumpsToTarget(arch, mem, addr, target, trampoline, displaced);
    }
    if addr + displaced < Pow256(Width(arch)) {
      TrampolineJumpsBack(arch, mem, addr, target, trampoline, displaced);
    }
  }

  /** Calling the trampoline runs the instructions that were displaced, those and no others, and then jumps to
      the one after them. */
  lemma TrampolineRunsWhatWasDisplaced(arch: Arch, decode: Decoder, mem: seq<byte>, addr: nat, target: nat,
                                       trampoline: nat, displaced: nat)
    requires WellBehaved(decode) && Scanned(decode, mem, addr, JmpSize(arch), displaced)
    requires Placed(arch, mem, addr, trampoline, displaced) && addr + displaced < Pow256(Width(arch))
    ensures var after := Hooked(arch, mem, addr, target, trampoline, displaced);
      && SameListing(decode, mem, addr, after, trampoline, displaced)
      && Machine.Arrives(arch.X64?, after, trampoline + displaced, addr + displaced)
  {
    hide Machine.Arrives, Jump, Patched, Linked, Boundary, Listing, SameListing, WellBehaved, JmpSize;
    TrampolineHolds(arch, mem, addr, trampoline, displaced);
    PatchedSlices(Linked(arch, mem, addr, trampoline, displaced), addr, Jump(arch, target), trampoline, displaced);
    MovedCode(decode, mem, addr, displaced, Hooked(arch, mem, addr, target, trampoline, displaced), trampoline);
    TrampolineJumpsBack(arch, mem, addr, target, trampoline, displaced);
  }

  /** If the code could be cut, what the trampoline jumps to is as it was, with everything behind it. */
  lemma RestIsIntact(arch: Arch, mem: seq<byte>, addr: nat, target: nat, trampoline: nat, displaced: nat, n: nat)
    requires Placed(arch, mem, addr, trampoline, displaced) && addr + displaced + n <= |mem|
    requires Apart(addr + displaced, n, trampoline, displaced + JmpSize(arch)) && JmpSize(arch) <= displaced
    ensures Hooked(arch, mem, addr, target, trampoline, displaced)[addr + displaced..addr + displaced + n]
         == mem[addr + displaced..addr + displaced + n]
  {
    hide Jump, Linked;
    TrampolineLeaves(arch, mem, addr, trampoline, displaced, addr + displaced, n);
    PatchedSlices(Linked(arch, mem, addr, trampoline, displaced), addr, Jump(arch, target), addr + displaced, n);
  }

  /** If it could not, the hook is set up all the same, and the trampoline jumps into the middle of the patch. */
  lemma UncuttableCodeIsBroken(arch: Arch, mem: seq<byte>, addr: nat, target: nat, trampoline: nat, displaced: nat)
    requires Placed(arch, mem, addr, trampoline, displaced) && displaced < JmpSize(arch)
    ensures Hooked(arch, mem, addr, target, trampoline, displaced)[addr + displaced..addr + JmpSize(arch)]
         == Jump(arch, target)[displaced..]
  {
    hide Jump, Linked;
    var after := Hooked(arch, mem, addr, target, trampoline, displaced);
    PatchedSlices(Linked(arch, mem, addr, trampoline, displaced), addr, Jump(arch, target), addr, JmpSize(arch));
    SliceOfSlice(after, addr, addr + JmpSize(arch), displaced, JmpSize(arch));
  }

  /** A disassembler that knows one instruction, of one byte, and nothing else. */
  function OnlyNop(code: seq<byte>): Option<nat> {
    if code != [] && code[0] == 0x90 then Some(1) else None
  }

  lemma OnlyNopIsWellBehaved()
    ensures WellBehaved(OnlyNop)
  {
    forall v, w | OnlyNop(w).Some? && SharePrefix(v, w, OnlyNop(w).value) ensures OnlyNop(v) == OnlyNop(w) {
      assert v[..1][0] == w[..1][0];
    }
  }

  /** For it, a function of two such instructions and zeroes behind them cannot be cut. */
  lemma ShortCodeIsUncuttable(arch: Arch)
    ensures WellBehaved(OnlyNop) && !Cuttable(OnlyNop, [0x90, 0x90] + Zeros(100), 0, JmpSize(arch))
  {
    OnlyNopIsWellBehaved();
    hide WellBehaved, Scanned, Cuttable;
    var mem: seq<byte>, size := [0x90, 0x90] + Zeros(100), JmpSize(arch);
    assert InstructionAt(OnlyNop, mem, 0) == Some(1) && InstructionAt(OnlyNop, mem, 1) == Some(1);
    assert InstructionAt(OnlyNop, mem, 2) == None;
    ScanStarts(OnlyNop, mem, 0, size);
    ScanNext(OnlyNop, mem, 0, size, 0);
    ScanNext(OnlyNop, mem, 0, size, 1);
    ScanStuck(OnlyNop, mem, 0, size, 2);
  }

  /** Writing the saved bytes back undoes the patch. */
  lemma RevertUndoesApply(mem: seq<byte>, at: nat, code: seq<byte>)
    requires at + |code| <= |mem|
    ensures Patched(Patched(mem, at, code), at, mem[at..at + |code|]) == mem
  {
    assert mem == mem[..at] + mem[at..at + |code|] + mem[at + |code|..];
  }
}
