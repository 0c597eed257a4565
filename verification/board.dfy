/**
 * Memory map and boot environment of Apple M1 machines
 * (arch/arm/mach-apple/board.c).
 *
 * The board keeps one static MMU region table per SoC. `build_mem_map`
 * picks the table of the running SoC, finds its terminator, and rewrites
 * the two placeholder entries in front of it: the RAM entry from DRAM bank 0
 * and the framebuffer entry from `/chosen/framebuffer`. Both regions are
 * widened to whole 4 KiB pages. `board_late_init` derives the boot
 * addresses from the stack pointer and the start of RAM.
 *
 * The device tree queries (`of_machine_is_compatible`, `ofnode_path`,
 * `ofnode_get_addr_size`), the DRAM bank, the stack pointer and the results
 * of `env_set_hex` are inputs here. Addresses are 64-bit unsigned in the
 * source; here they are naturals below 2^64, and the preconditions exclude
 * the inputs for which the source's arithmetic would wrap around.
 */
module MachApple {

  datatype Option<T> = None | Some(value: T)

  const TWO_64: nat := 0x1_0000_0000_0000_0000

  const SZ_4K: nat := 0x1000
  const SZ_1M: nat := 0x10_0000
  const SZ_2M: nat := 0x20_0000
  const SZ_4M: nat := 0x40_0000
  const SZ_8M: nat := 0x80_0000
  const SZ_128M: nat := 0x800_0000
  const SZ_512M: nat := 0x2000_0000
  const SZ_1G: nat := 0x4000_0000
  const SZ_2G: nat := 0x8000_0000

  // ---------------------------------------------------------------------
  // Region attributes (the armv8 block descriptor bits). Only whether an
  // entry's attributes are zero matters to the logic below.
  // ---------------------------------------------------------------------

  const MT_DEVICE_NGNRNE: nat := 0
  const MT_DEVICE_NGNRE: nat := 1
  const MT_NORMAL_NC: nat := 3
  const MT_NORMAL: nat := 4

  function PteBlockMemtype(mt: nat): nat { mt * 4 }

  const PTE_BLOCK_NON_SHARE: nat := 0
  const PTE_BLOCK_INNER_SHARE: nat := 3 * 0x100
  const PTE_BLOCK_PXN: nat := 0x20_0000_0000_0000
  const PTE_BLOCK_UXN: nat := 0x40_0000_0000_0000

  /** Strongly ordered device memory, never executable. */
  const ATTRS_IO: nat := PteBlockMemtype(MT_DEVICE_NGNRNE) + PTE_BLOCK_NON_SHARE + PTE_BLOCK_PXN + PTE_BLOCK_UXN
  /** PCIe windows: device memory with early write acknowledgement. */
  const ATTRS_PCIE: nat := PteBlockMemtype(MT_DEVICE_NGNRE) + PTE_BLOCK_INNER_SHARE + PTE_BLOCK_PXN + PTE_BLOCK_UXN
  /** Normal cacheable RAM. */
  const ATTRS_RAM: nat := PteBlockMemtype(MT_NORMAL) + PTE_BLOCK_INNER_SHARE
  /** Normal non-cacheable memory for the framebuffer. */
  const ATTRS_FB: nat := PteBlockMemtype(MT_NORMAL_NC) + PTE_BLOCK_INNER_SHARE + PTE_BLOCK_PXN + PTE_BLOCK_UXN

  // ---------------------------------------------------------------------
  // The region tables
  // ---------------------------------------------------------------------

  /** `struct mm_region`: an identity or offset mapping of `size` bytes. */
  datatype MmRegion = MmRegion(virt: nat, phys: nat, size: nat, attrs: nat)

  function Identity(base: nat, size: nat, attrs: nat): MmRegion
  {
    MmRegion(base, base, size, attrs)
  }

  /** A zero-filled entry: the end of a table. */
  const Terminator := MmRegion(0, 0, 0, 0)

  /** Apple M1: six I/O and PCIe windows, RAM, the framebuffer, the terminator. */
  const T8103Map: seq<MmRegion> := [
    Identity(0x2_0000_0000, 2 * SZ_1G, ATTRS_IO),
    Identity(0x3_8000_0000, SZ_1G, ATTRS_IO),
    Identity(0x5_0000_0000, SZ_1G, ATTRS_IO),
    Identity(0x6_8000_0000, SZ_512M, ATTRS_IO),
    Identity(0x6_a000_0000, SZ_512M, ATTRS_PCIE),
    Identity(0x6_c000_0000, SZ_1G, ATTRS_PCIE),
    Identity(0x8_0000_0000, 8 * SZ_1G, ATTRS_RAM),
    MmRegion(0, 0, 0, ATTRS_FB),
    Terminator
  ]

  /** Apple M1 Pro/Max: nine I/O and PCIe windows, RAM, the framebuffer, the terminator. */
  const T6000Map: seq<MmRegion> := [
    Identity(0x2_8000_0000, SZ_1G, ATTRS_IO),
    Identity(0x3_8000_0000, SZ_1G, ATTRS_IO),
    Identity(0x5_8000_0000, SZ_512M, ATTRS_IO),
    Identity(0x5_a000_0000, SZ_512M, ATTRS_PCIE),
    Identity(0x5_c000_0000, SZ_1G, ATTRS_PCIE),
    Identity(0x7_0000_0000, SZ_1G, ATTRS_IO),
    Identity(0xb_0000_0000, SZ_1G, ATTRS_IO),
    Identity(0xf_0000_0000, SZ_1G, ATTRS_IO),
    Identity(0x13_0000_0000, SZ_1G, ATTRS_IO),
    Identity(0x100_0000_0000, 16 * SZ_1G, ATTRS_RAM),
    MmRegion(0, 0, 0, ATTRS_FB),
    Terminator
  ]

  /** The search for the end of a table stops at an entry with no size and no attributes. */
  predicate IsTerminator(r: MmRegion)
  {
    r.size == 0 && r.attrs == 0
  }

  /** `i` is the index at which the terminator search over `s` stops. */
  predicate FirstTerminator(s: seq<MmRegion>, i: nat)
  {
    i < |s| && IsTerminator(s[i]) && forall k :: 0 <= k < i ==> !IsTerminator(s[k])
  }

  /** The search has one answer. */
  lemma FirstTerminatorUnique(s: seq<MmRegion>, i: nat, j: nat)
    requires FirstTerminator(s, i) && FirstTerminator(s, j)
    ensures i == j
  {
  }

  /**
   * `cur` is the table `init` after any number of rebuilds: only the
   * addresses and sizes of the RAM and framebuffer entries (the two in front
   * of the terminator) may differ, and no entry's attributes do.
   */
  predicate Layout(cur: seq<MmRegion>, init: seq<MmRegion>)
  {
    |cur| == |init| >= 3 &&
    forall k :: 0 <= k < |cur| ==>
      cur[k].attrs == init[k].attrs && (k < |init| - 3 || k == |init| - 1 ==> cur[k] == init[k])
  }

  /**
   * In the M1 table the search passes over the framebuffer placeholder,
   * whose attributes are not zero, and stops at index 8; the two entries in
   * front of it are the RAM entry and the framebuffer entry, which starts
   * with no size.
   */
  lemma T8103Terminator(cur: seq<MmRegion>)
    requires Layout(cur, T8103Map)
    ensures FirstTerminator(cur, 8)
    ensures cur[6].attrs == ATTRS_RAM && cur[7].attrs == ATTRS_FB
    ensures T8103Map[7].size == 0
  {
    forall k | 0 <= k < 8
      ensures !IsTerminator(cur[k])
    {
      assert cur[k].attrs == T8103Map[k].attrs;
    }
  }

  /** The same for the M1 Pro/Max table, whose terminator is at index 11. */
  lemma T6000Terminator(cur: seq<MmRegion>)
    requires Layout(cur, T6000Map)
    ensures FirstTerminator(cur, 11)
    ensures cur[9].attrs == ATTRS_RAM && cur[10].attrs == ATTRS_FB
    ensures T6000Map[10].size == 0
  {
    forall k | 0 <= k < 11
      ensures !IsTerminator(cur[k])
    {
      assert cur[k].attrs == T6000Map[k].attrs;
    }
  }

  // ---------------------------------------------------------------------
  // Page alignment
  // ---------------------------------------------------------------------

  /** A multiple of `a` leaves no remainder. */
  lemma MulMod(q: nat, a: nat)
    requires a > 0
    ensures (q * a) % a == 0
  {
    var x := q * a;
    var d: int := q - x / a;
    assert x == a * (x / a) + x % a;
    assert d * a == x % a;
  }

  /** `ALIGN_DOWN(x, a)` for a power of two `a`: clear the low bits. */
  function AlignDown(x: nat, a: nat): (r: nat)
    requires a > 0
    ensures r % a == 0 && r <= x < r + a
  {
    MulMod(x / a, a);
    (x / a) * a
  }

  /** `ALIGN(x, a)` for a power of two `a`: round up to a multiple of `a`. */
  function AlignUp(x: nat, a: nat): (r: nat)
    requires a > 0
    ensures r % a == 0 && x <= r < x + a
  {
    AlignDown(x + a - 1, a)
  }

  /** A span of memory: `[base, base + size)`. */
  datatype Span = Span(base: nat, size: nat)

  /** The spans whose page alignment stays within 64 bits. */
  predicate Alignable(s: Span)
  {
    s.base < TWO_64 && s.size + s.base % SZ_4K + SZ_4K - 1 < TWO_64
  }

  /**
   * A span widened to whole pages, as done for the RAM and the framebuffer:
   * the smallest page-aligned span that covers it.
   */
  function PageAlign(s: Span): (r: Span)
    requires Alignable(s)
    ensures r.base % SZ_4K == 0 && r.size % SZ_4K == 0
    ensures r.base <= s.base && s.base + s.size <= r.base + r.size
    ensures s.base < r.base + SZ_4K && r.base + r.size < s.base + s.size + SZ_4K
    ensures r.base < TWO_64 && r.size < TWO_64
  {
    var base := AlignDown(s.base, SZ_4K);
    var size := s.size + (s.base - base);
    Span(base, AlignUp(size, SZ_4K))
  }

  // ---------------------------------------------------------------------
  // Rebuilding the table
  // ---------------------------------------------------------------------

  /**
   * `FDT_ADDR_T_NONE`: the address the device tree reports for a missing
   * `reg`. It is defined in fdtdec.h, which is not part of this model; the
   * all-ones value here is an assumed sentinel, and the model only tests
   * addresses for inequality with it.
   */
  const FDT_ADDR_T_NONE: nat := TWO_64 - 1

  /** What the device tree says about `/chosen/framebuffer`. */
  datatype Framebuffer = NoNode | Node(reg: Span)

  /** The framebuffer span to map, if the node exists and has an address. */
  function FramebufferSpan(fb: Framebuffer): (r: Option<Span>)
    ensures r.Some? <==> fb.Node? && fb.reg.base != FDT_ADDR_T_NONE
  {
    if fb.Node? && fb.reg.base != FDT_ADDR_T_NONE then Some(fb.reg) else None
  }

  /** The device tree inputs `build_mem_map` can handle without wrapping around. */
  predicate Fits(dram: Span, fb: Framebuffer)
  {
    Alignable(dram) && (FramebufferSpan(fb).Some? ==> Alignable(fb.reg))
  }

  /** An entry remapped, one to one, onto a span. */
  function MapOnto(r: MmRegion, s: Span): MmRegion
  {
    r.(virt := s.base, phys := s.base, size := s.size)
  }

  /**
   * The table after the update, given the terminator index `i`: entry
   * `i - 2` maps the page-aligned DRAM bank, entry `i - 1` the page-aligned
   * framebuffer when there is one.
   */
  function Rebuilt(cur: seq<MmRegion>, i: nat, dram: Span, fb: Framebuffer): (r: seq<MmRegion>)
    requires 2 <= i <= |cur| && Fits(dram, fb)
    ensures |r| == |cur|
    ensures forall k :: 0 <= k < |r| ==> r[k].attrs == cur[k].attrs
    ensures forall k :: 0 <= k < |r| && k != i - 2 && k != i - 1 ==> r[k] == cur[k]
    ensures r[i - 2].virt == r[i - 2].phys == PageAlign(dram).base && r[i - 2].size == PageAlign(dram).size
    ensures FramebufferSpan(fb).None? ==> r[i - 1] == cur[i - 1]
    ensures FramebufferSpan(fb).Some? ==>
      r[i - 1].virt == r[i - 1].phys == PageAlign(fb.reg).base && r[i - 1].size == PageAlign(fb.reg).size
  {
    var withRam := cur[i - 2 := MapOnto(cur[i - 2], PageAlign(dram))];
    match FramebufferSpan(fb)
    case None => withRam
    case Some(s) => withRam[i - 1 := MapOnto(withRam[i - 1], PageAlign(s))]
  }

  /** A rebuild at the table's terminator keeps the table's layout. */
  lemma RebuiltKeepsLayout(cur: seq<MmRegion>, init: seq<MmRegion>, dram: Span, fb: Framebuffer)
    requires Layout(cur, init) && Fits(dram, fb)
    ensures Layout(Rebuilt(cur, |cur| - 1, dram, fb), init)
  {
    var r := Rebuilt(cur, |cur| - 1, dram, fb);
    forall k | 0 <= k < |r|
      ensures r[k].attrs == init[k].attrs && (k < |init| - 3 || k == |init| - 1 ==> r[k] == init[k])
    {
      assert r[k].attrs == cur[k].attrs;
    }
  }

  /** Rebuilding twice from the same inputs gives the table rebuilding once gives. */
  lemma RebuiltIdempotent(cur: seq<MmRegion>, i: nat, dram: Span, fb: Framebuffer)
    requires 2 <= i <= |cur| && Fits(dram, fb)
    ensures Rebuilt(Rebuilt(cur, i, dram, fb), i, dram, fb) == Rebuilt(cur, i, dram, fb)
  {
    var once := Rebuilt(cur, i, dram, fb);
    var twice := Rebuilt(once, i, dram, fb);
    forall k | 0 <= k < |once|
      ensures twice[k] == once[k]
    {
      if k == i - 2 || k == i - 1 {
        assert twice[k].attrs == once[k].attrs;
      }
    }
  }

  /**
   * When the device tree has no usable framebuffer, the first rebuild of a
   * compiled-in table leaves the framebuffer entry with no size.
   */
  lemma NoFramebufferNoMapping(dram: Span, fb: Framebuffer)
    requires Fits(dram, fb) && FramebufferSpan(fb).None?
    ensures Rebuilt(T8103Map, 8, dram, fb)[7].size == 0
    ensures Rebuilt(T6000Map, 11, dram, fb)[10].size == 0
  {
  }

  /** The SoCs with a table. */
  datatype Soc = T8103 | T6000

  /** The SoC `build_mem_map` recognises from the machine's compatible strings, in its order of tests. */
  function Select(compatible: seq<string>): (r: Option<Soc>)
    ensures r == Some(T8103) <==> "apple,t8103" in compatible
    ensures r == Some(T6000) <==>
      "apple,t8103" !in compatible && ("apple,t6000" in compatible || "apple,t6001" in compatible)
    ensures r.None? <==> forall c :: c in compatible ==> c != "apple,t8103" && c != "apple,t6000" && c != "apple,t6001"
  {
    if "apple,t8103" in compatible then Some(T8103)
    else if "apple,t6000" in compatible then Some(T6000)
    else if "apple,t6001" in compatible then Some(T6000)
    else None
  }

  /** The static tables and the global `mem_map` pointer. */
  class Board {
    const t8103: array<MmRegion>
    const t6000: array<MmRegion>
    var memMap: Option<array<MmRegion>>

    /** Both tables keep their layout, and `mem_map` is unset or one of them. */
    predicate Valid()
      reads this, t8103, t6000
    {
      t8103 != t6000 &&
      Layout(t8103[..], T8103Map) && Layout(t6000[..], T6000Map) &&
      (memMap.Some? ==> memMap.value == t8103 || memMap.value == t6000)
    }

    function Table(soc: Soc): array<MmRegion>
    {
      match soc
      case T8103 => t8103
      case T6000 => t6000
    }

    /** The tables as compiled in, with `mem_map` unset. */
    constructor ()
      ensures Valid() && memMap.None?
      ensures t8103[..] == T8103Map && t6000[..] == T6000Map
      ensures fresh(t8103) && fresh(t6000)
    {
      t8103 := new MmRegion[9](k requires 0 <= k < 9 => T8103Map[k]);
      t6000 := new MmRegion[12](k requires 0 <= k < 12 => T6000Map[k]);
      memMap := None;
      new;
      assert t8103[..] == T8103Map;
      assert t6000[..] == T6000Map;
    }

    /** The loop that finds the end of a table. */
    static method FindTerminator(a: array<MmRegion>) returns (i: nat)
      requires exists k :: 0 <= k < a.Length && IsTerminator(a[k])
      ensures FirstTerminator(a[..], i)
    {
      i := 0;
      while a[i].size != 0 || a[i].attrs != 0
        invariant i < a.Length
        invariant forall k :: 0 <= k < i ==> !IsTerminator(a[k])
        invariant exists k :: i <= k < a.Length && IsTerminator(a[k])
        decreases a.Length - i
      {
        i := i + 1;
      }
    }

    /**
     * `build_mem_map`. On an unsupported SoC the source panics; here the
     * method reports `false` and changes nothing. Otherwise `mem_map` is
     * the SoC's table and that table is rebuilt at its terminator.
     */
    method BuildMemMap(compatible: seq<string>, dram: Span, fb: Framebuffer) returns (supported: bool)
      requires Valid() && Fits(dram, fb)
      modifies this, t8103, t6000
      ensures Valid()
      ensures supported <==> Select(compatible).Some?
      ensures !supported ==>
        memMap == old(memMap) && t8103[..] == old(t8103[..]) && t6000[..] == old(t6000[..])
      ensures supported ==>
        var tbl := Table(Select(compatible).value);
        var other := if tbl == t8103 then t6000 else t8103;
        memMap == Some(tbl) &&
        tbl[..] == Rebuilt(old(tbl[..]), tbl.Length - 1, dram, fb) &&
        other[..] == old(other[..])
    {
      var soc := Select(compatible);
      if soc.None? {
        return false;
      }
      var tbl := Table(soc.value);
      memMap := Some(tbl);
      ghost var before := tbl[..];
      if tbl == t8103 {
        T8103Terminator(before);
      } else {
        T6000Terminator(before);
      }
      var i := FindTerminator(tbl);
      FirstTerminatorUnique(before, i, tbl.Length - 1);

      var ram := PageAlign(dram);
      tbl[i - 2] := MapOnto(tbl[i - 2], ram);
      var fbSpan := FramebufferSpan(fb);
      if fbSpan.Some? {
        tbl[i - 1] := MapOnto(tbl[i - 1], PageAlign(fbSpan.value));
      }

      assert tbl[..] == Rebuilt(before, i, dram, fb);
      RebuiltKeepsLayout(before, if tbl == t8103 then T8103Map else T6000Map, dram, fb);
      return true;
    }
  }

  // ---------------------------------------------------------------------
  // Boot environment
  // ---------------------------------------------------------------------

  /** The addresses `board_late_init` puts into the environment. */
  datatype BootAddresses = BootAddresses(
    scriptaddr: nat, pxefileAddr: nat, fdtAddr: nat, kernelAddr: nat, ramdiskAddr: nat, loadaddr: nat)

  /** The inputs for which the source's address arithmetic stays within 64 bits. */
  predicate LateInitFits(sp: nat, stackSize: nat, ramBase: nat)
  {
    sp < TWO_64 && stackSize + SZ_8M + SZ_1M <= sp && ramBase + SZ_2M - 1 + SZ_2G < TWO_64
  }

  /**
   * The address arithmetic of `board_late_init`: 4 MiB each for the boot
   * script and the PXE file in the highest 8 MiB-aligned block that ends at
   * least 1 MiB below the stack, and the device tree, kernel and ramdisk
   * above the 2 MiB-aligned start of RAM.
   */
  function LateInitAddresses(sp: nat, stackSize: nat, ramBase: nat): (r: BootAddresses)
    requires LateInitFits(sp, stackSize, ramBase)
    ensures r.pxefileAddr % SZ_8M == 0
    ensures r.scriptaddr == r.pxefileAddr + SZ_4M
    ensures r.scriptaddr + SZ_4M + SZ_1M <= sp - stackSize
    ensures sp - stackSize < r.scriptaddr + SZ_4M + SZ_1M + SZ_8M
    ensures r.fdtAddr % SZ_2M == 0 && ramBase <= r.fdtAddr < ramBase + SZ_2M
    ensures r.kernelAddr == r.fdtAddr + SZ_2M
    ensures r.ramdiskAddr == r.fdtAddr + SZ_128M
    ensures r.loadaddr == r.fdtAddr + SZ_2G
    ensures r.loadaddr < TWO_64
  {
    var top := AlignDown(sp - stackSize - SZ_8M - SZ_1M, SZ_8M);
    var base := AlignUp(ramBase, SZ_2M);
    BootAddresses(top + SZ_4M, top, base, base + SZ_2M, base + SZ_128M, base + SZ_2G)
  }

  /** One `env_set_hex` call: a variable name and its value. */
  datatype EnvVar = EnvVar(name: string, value: nat)

  /** The variables in the order `board_late_init` sets them, each name bound to its address. */
  function EnvVars(a: BootAddresses): (r: seq<EnvVar>)
    ensures |r| == 6
    ensures forall j, k :: 0 <= j < k < |r| ==> r[j].name != r[k].name
    ensures EnvVar("scriptaddr", a.scriptaddr) in r
    ensures EnvVar("pxefile_addr_r", a.pxefileAddr) in r
    ensures EnvVar("fdt_addr_r", a.fdtAddr) in r
    ensures EnvVar("kernel_addr_r", a.kernelAddr) in r
    ensures EnvVar("ramdisk_addr_r", a.ramdiskAddr) in r
    ensures EnvVar("loadaddr", a.loadaddr) in r
  {
    [EnvVar("scriptaddr", a.scriptaddr), EnvVar("pxefile_addr_r", a.pxefileAddr),
     EnvVar("fdt_addr_r", a.fdtAddr), EnvVar("kernel_addr_r", a.kernelAddr),
     EnvVar("ramdisk_addr_r", a.ramdiskAddr), EnvVar("loadaddr", a.loadaddr)]
  }

  /** What `board_late_init` does: the variables it sets, whether it warns, what it returns. */
  datatype LateInit = LateInit(vars: seq<EnvVar>, warned: bool, status: int)

  /**
   * `board_late_init`, with `failing` the names whose `env_set_hex` fails.
   * A failure only produces a warning: the function returns 0 either way.
   */
  function BoardLateInit(sp: nat, stackSize: nat, ramBase: nat, failing: set<string>): (r: LateInit)
    requires LateInitFits(sp, stackSize, ramBase)
    ensures r.status == 0
    ensures r.vars == EnvVars(LateInitAddresses(sp, stackSize, ramBase))
    ensures r.warned <==> exists k :: 0 <= k < |r.vars| && r.vars[k].name in failing
  {
    var vars := EnvVars(LateInitAddresses(sp, stackSize, ramBase));
    LateInit(vars, AnyFails(vars, failing), 0)
  }

  /** The OR of the `env_set_hex` results is nonzero. */
  function AnyFails(vars: seq<EnvVar>, failing: set<string>): (r: bool)
    ensures r <==> exists k :: 0 <= k < |vars| && vars[k].name in failing
  {
    if vars == [] then false
    else vars[0].name in failing || AnyFails(vars[1..], failing)
  }

  /**
   * A machine with RAM from 0x8_0000_0000 and the stack just below
   * 0x9_0000_0000, with a 512 KiB stack.
   */
  lemma LateInitExample()
    ensures var r := LateInitAddresses(0x8_FFFF_0000, 0x8_0000, 0x8_0000_0000);
            r.pxefileAddr == 0x8_FF00_0000 && r.scriptaddr == 0x8_FF40_0000 &&
            r.fdtAddr == 0x8_0000_0000 && r.kernelAddr == 0x8_0020_0000 &&
            r.ramdiskAddr == 0x8_0800_0000 && r.loadaddr == 0x8_8000_0000
  {
  }
}
