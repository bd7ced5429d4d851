/** The madvise helper of services/utils/media_madvise_utils.cpp: the page rounding in `w`-bit unsigned
    arithmetic and the walk over the loaded libraries.

    A program header carries the outcome the kernel would give its madvise call, if one is made.
 */
module MediaMadvise {
  import opened Wrappers
  import opened MadviseBits

  const MAX_SEGMENT_SIZE: nat := 1024 * 1024 * 1024

  function MaxSafeAddress(w: nat): nat {
    (Pow2(w) - 1) / 2
  }

  /** Unsigned arithmetic of `w` bits: the number between 0 and 2^w that differs by a multiple of 2^w. */
  function Wrap(w: nat, x: int): (r: nat)
    ensures r < Pow2(w)
    decreases if x < 0 then Pow2(w) - x else x
  {
    if x < 0 then Wrap(w, x + Pow2(w)) else if x >= Pow2(w) then Wrap(w, x - Pow2(w)) else x
  }

  datatype Range = Range(start: nat, len: nat)

  /** The guards of ApplyMadviseAligned around the two rounded addresses: the range passed to madvise, if
      the call is made. */
  function Guarded(w: nat, addr: nat, len: nat, alignedStart: nat, alignedEnd: nat): Option<Range> {
    if addr == 0 || len == 0 || len > MAX_SEGMENT_SIZE then None
    else if addr > MaxSafeAddress(w) || len > MaxSafeAddress(w) - addr then None
    else if alignedEnd < alignedStart || alignedEnd - alignedStart > MAX_SEGMENT_SIZE then None
    else Some(Range(alignedStart, alignedEnd - alignedStart))
  }

  /** The segment's start, masked. */
  function AlignedStart(w: nat, k: nat, addr: nat): nat
    requires k <= w && addr < Pow2(w)
  {
    Pow2Grows(k, w);
    And(w, addr, Not(w, Pow2(k) - 1))
  }

  /** The segment's end, rounded up by adding and masking. */
  function AlignedEnd(w: nat, k: nat, addr: nat, len: nat): nat
    requires k <= w
  {
    Pow2Grows(k, w);
    And(w, Wrap(w, Wrap(w, addr + len) + Pow2(k) - 1), Not(w, Pow2(k) - 1))
  }

  /** ApplyMadviseAligned up to the system call, for pages of 2^k bytes. */
  function AlignedCall(w: nat, k: nat, addr: nat, len: nat): Option<Range>
    requires k < w && addr < Pow2(w) && len < Pow2(w)
  {
    Guarded(w, addr, len, AlignedStart(w, k, addr), AlignedEnd(w, k, addr, len))
  }

  /** The range that rounds the segment outwards to multiples of the page. */
  function Outward(page: nat, addr: nat, len: nat): Range
    requires page >= 1
  {
    RoundOrder(addr, addr + len + page - 1, page);
    var start := RoundDown(addr, page);
    Range(start, RoundDown(addr + len + page - 1, page) - start)
  }

  /** No operation wraps: the masks round the segment outwards, and the call is made exactly for a
      segment in the lower half of the address space whose length, before and after, is allowed. */
  lemma AlignedCallRounds(w: nat, k: nat, addr: nat, len: nat)
    requires k < w && addr < Pow2(w) && len < Pow2(w)
    ensures AlignedCall(w, k, addr, len) ==
              var range := Outward(Pow2(k), addr, len);
              if addr != 0 && 0 < len <= MAX_SEGMENT_SIZE && addr + len <= MaxSafeAddress(w) &&
                 range.len <= MAX_SEGMENT_SIZE
              then Some(range) else None
  {
    var first, last := AlignedEnds(w, k, addr, len);
    GuardsPassed(w, Pow2(k), addr, len, first, last);
  }

  lemma AlignedEnds(w: nat, k: nat, addr: nat, len: nat) returns (first: nat, last: nat)
    requires k < w && addr < Pow2(w) && len < Pow2(w)
    ensures AlignedCall(w, k, addr, len) == Guarded(w, addr, len, first, last)
    ensures first == RoundDown(addr, Pow2(k))
    ensures addr + len <= MaxSafeAddress(w) ==> last == RoundDown(addr + len + Pow2(k) - 1, Pow2(k))
  {
    first, last := AlignedStart(w, k, addr), AlignedEnd(w, k, addr, len);
    StartRounds(w, k, addr);
    EndRounds(w, k, addr, len);
  }

  lemma GuardsPassed(w: nat, page: nat, addr: nat, len: nat, alignedStart: nat, alignedEnd: nat)
    requires page >= 1 && alignedStart == RoundDown(addr, page)
    requires addr + len <= MaxSafeAddress(w) ==> alignedEnd == RoundDown(addr + len + page - 1, page)
    ensures Guarded(w, addr, len, alignedStart, alignedEnd) ==
              var range := Outward(page, addr, len);
              if addr != 0 && 0 < len <= MAX_SEGMENT_SIZE && addr + len <= MaxSafeAddress(w) &&
                 range.len <= MAX_SEGMENT_SIZE
              then Some(range) else None
  {
    RoundOrder(addr, addr + len + page - 1, page);
  }

  lemma StartRounds(w: nat, k: nat, addr: nat)
    requires k <= w && addr < Pow2(w)
    ensures AlignedStart(w, k, addr) == RoundDown(addr, Pow2(k))
  {
    MaskRoundsDown(addr, k, w);
  }

  lemma EndRounds(w: nat, k: nat, addr: nat, len: nat)
    requires k < w
    ensures addr + len <= MaxSafeAddress(w) ==>
              AlignedEnd(w, k, addr, len) == RoundDown(addr + len + Pow2(k) - 1, Pow2(k))
  {
    if addr + len <= MaxSafeAddress(w) {
      Pow2Grows(k, w - 1);
      assert Wrap(w, Wrap(w, addr + len) + Pow2(k) - 1) == addr + len + Pow2(k) - 1;
      MaskRoundsDown(addr + len + Pow2(k) - 1, k, w);
    }
  }

  /** `r` is page-aligned and contains the segment. */
  predicate Covers(page: nat, addr: nat, len: nat, r: Range)
    requires page >= 1
  {
    r.start % page == 0 && (r.start + r.len) % page == 0 && r.start <= addr && addr + len <= r.start + r.len
  }

  /** Whenever madvise is reached its range covers the segment, and lies inside any range that does. */
  lemma RangeIsLeast(w: nat, k: nat, addr: nat, len: nat, other: Range)
    requires k < w && addr < Pow2(w) && len < Pow2(w) && AlignedCall(w, k, addr, len).Some?
    ensures var r := AlignedCall(w, k, addr, len).value;
            && Covers(Pow2(k), addr, len, r)
            && (Covers(Pow2(k), addr, len, other) ==>
                  other.start <= r.start && r.start + r.len <= other.start + other.len)
  {
    AlignedCallRounds(w, k, addr, len);
    assert AlignedCall(w, k, addr, len) == Some(Outward(Pow2(k), addr, len));
    OutwardCovers(Pow2(k), addr, len);
    OutwardIsLeast(Pow2(k), addr, len, other);
  }

  lemma OutwardCovers(page: nat, addr: nat, len: nat)
    requires page >= 1
    ensures Covers(page, addr, len, Outward(page, addr, len))
  {
    RoundDownMod(addr, page);
    RoundDownMod(addr + len + page - 1, page);
  }

  lemma OutwardIsLeast(page: nat, addr: nat, len: nat, other: Range)
    requires page >= 1
    ensures var r := Outward(page, addr, len);
            Covers(page, addr, len, other) ==>
              other.start <= r.start && r.start + r.len <= other.start + other.len
  {
    if Covers(page, addr, len, other) {
      RoundDownIsGreatest(addr, page, other.start);
      RoundUpIsLeast(addr + len, page, other.start + other.len);
    }
  }

  // ----- the libraries -----

  datatype Phdr = Phdr(load: bool, flags: nat, vaddr: nat, memsz: nat, kernelOk: bool)
  datatype Lib = Lib(name: string, addr: nat, phdrs: seq<Phdr>)

  const PF_W: nat := 2
  const PF_R: nat := 4

  /** ShouldOptimizeSegment. */
  predicate ShouldOptimize(flags: nat) {
    (flags / PF_R) % 2 != 0 && (flags / PF_W) % 2 == 0
  }

  predicate Words(w: nat, lib: Lib) {
    lib.addr < Pow2(w) && forall p :: p in lib.phdrs ==> p.vaddr < Pow2(w) && p.memsz < Pow2(w)
  }

  /** One turn of the header loop: nothing, or the outcome of ApplyMadviseAligned. */
  function Segment(w: nat, k: nat, addr: nat, p: Phdr): Option<bool>
    requires k < w && addr < Pow2(w) && p.vaddr < Pow2(w) && p.memsz < Pow2(w)
  {
    if !p.load || !ShouldOptimize(p.flags) then None
    else if p.memsz == 0 || p.memsz > MAX_SEGMENT_SIZE then None
    else if addr > Wrap(w, MaxSafeAddress(w) - p.vaddr) then None
    else Some(AlignedCall(w, k, Wrap(w, addr + p.vaddr), p.memsz).Some? && p.kernelOk)
  }

  /** The guard of the header loop subtracts without checking: among the segments that get advised, the
      address is the true sum exactly for those whose offset is at most MAX_SAFE_ADDRESS; for any other
      the sum wraps around. */
  lemma SegmentAddress(w: nat, k: nat, addr: nat, p: Phdr)
    requires k < w && addr < Pow2(w) && p.vaddr < Pow2(w) && p.memsz < Pow2(w)
    requires Segment(w, k, addr, p) == Some(true)
    ensures Wrap(w, addr + p.vaddr) == addr + p.vaddr <==> p.vaddr <= MaxSafeAddress(w)
    ensures Wrap(w, addr + p.vaddr) + p.memsz <= MaxSafeAddress(w)
  {
    AlignedCallRounds(w, k, Wrap(w, addr + p.vaddr), p.memsz);
  }

  /** The flags of a header by its three permission bits and what is above them. */
  function FlagsOf(readable: bool, writable: bool, executable: bool, above: nat): nat {
    8 * above + (if readable then 4 else 0) + (if writable then 2 else 0) + (if executable then 1 else 0)
  }

  /** Exactly the readable segments that are not writable are worth an advice. */
  lemma OptimizedIff(readable: bool, writable: bool, executable: bool, above: nat)
    ensures ShouldOptimize(FlagsOf(readable, writable, executable, above)) <==> readable && !writable
  {
    var r, w, x := if readable then 1 else 0, if writable then 1 else 0, if executable then 1 else 0;
    QuarterOf(2 * above + r, 2 * w + x);
    HalfOf(above, r);
    HalfOf(4 * above + 2 * r + w, x);
    HalfOf(2 * above + r, w);
  }

  lemma QuarterOf(q: nat, r: nat)
    requires r < 4
    ensures (4 * q + r) / PF_R == q
  {
  }

  lemma HalfOf(q: nat, r: nat)
    requires r < 2
    ensures (2 * q + r) / PF_W == q && (2 * q + r) % 2 == r
  {
  }

  /** A header's madvise succeeds exactly for a readable load segment that is not writable, of at most a
      gibibyte before and after rounding, that lies, at the sum of w bits, in the lower half of the address
      space but not at 0, if an offset that is a safe address did not take the library beyond it, and the
      kernel agrees. */
  lemma HeaderAdvisedIff(w: nat, k: nat, addr: nat, p: Phdr, readable: bool, writable: bool, executable: bool,
                         above: nat)
    requires k < w && addr < Pow2(w) && p.vaddr < Pow2(w) && p.memsz < Pow2(w)
    requires p.flags == FlagsOf(readable, writable, executable, above)
    ensures var at := if addr + p.vaddr < Pow2(w) then addr + p.vaddr else addr + p.vaddr - Pow2(w);
            Segment(w, k, addr, p) == Some(true) <==>
              && p.load && readable && !writable && p.kernelOk
              && 0 < p.memsz <= 1024 * 1024 * 1024 && Outward(Pow2(k), at, p.memsz).len <= 1024 * 1024 * 1024
              && 0 < at && at + p.memsz <= MaxSafeAddress(w)
              && (p.vaddr <= MaxSafeAddress(w) ==> addr + p.vaddr <= MaxSafeAddress(w))
  {
    var at := Wrap(w, addr + p.vaddr);
    OptimizedIff(readable, writable, executable, above);
    GuardMeans(w, addr, p.vaddr);
    CallReached(w, k, at, p.memsz);
    SegmentSucceeds(w, k, addr, p, at);
  }

  lemma CallReached(w: nat, k: nat, at: nat, len: nat)
    requires k < w && at < Pow2(w) && len < Pow2(w)
    ensures AlignedCall(w, k, at, len).Some? <==>
              at != 0 && 0 < len <= MAX_SEGMENT_SIZE && at + len <= MaxSafeAddress(w) &&
              Outward(Pow2(k), at, len).len <= MAX_SEGMENT_SIZE
  {
    AlignedCallRounds(w, k, at, len);
  }

  lemma SegmentSucceeds(w: nat, k: nat, addr: nat, p: Phdr, at: nat)
    requires k < w && addr < Pow2(w) && p.vaddr < Pow2(w) && p.memsz < Pow2(w) && at == Wrap(w, addr + p.vaddr)
    ensures Segment(w, k, addr, p) == Some(true) <==>
              && p.load && ShouldOptimize(p.flags) && p.kernelOk && 0 < p.memsz <= MAX_SEGMENT_SIZE
              && addr <= Wrap(w, MaxSafeAddress(w) - p.vaddr) && AlignedCall(w, k, at, p.memsz).Some?
  {
  }

  /** The sum of w bits, and the guard of the header loop for sums that are safe addresses. */
  lemma GuardMeans(w: nat, addr: nat, vaddr: nat)
    requires addr < Pow2(w) && vaddr < Pow2(w)
    ensures var at := if addr + vaddr < Pow2(w) then addr + vaddr else addr + vaddr - Pow2(w);
            && Wrap(w, addr + vaddr) == at
            && (at <= MaxSafeAddress(w) ==>
                  (addr <= Wrap(w, MaxSafeAddress(w) - vaddr) <==>
                     vaddr > MaxSafeAddress(w) || addr + vaddr <= MaxSafeAddress(w)))
  {
    if addr + vaddr >= Pow2(w) {
      WrapsOnce(w, addr + vaddr);
    }
    if vaddr > MaxSafeAddress(w) {
      WrapsOnce(w, MaxSafeAddress(w) - vaddr);
    }
  }

  /** A header of one readable page at the top of the address space. */
  function TopHeader(w: nat, page: nat): Phdr
    requires page <= Pow2(w)
  {
    Phdr(true, PF_R, Pow2(w) - page, page, true)
  }

  /** For any width and page size (so for 64 bits and 4096 bytes): such a header, in a library at the third
      page, wraps around to the second page and is advised there. */
  lemma WrappedAddressAdvised(w: nat, k: nat)
    requires k + 2 < w && Pow2(k) <= MAX_SEGMENT_SIZE
    ensures 4 * Pow2(k) < Pow2(w)
    ensures var p := TopHeader(w, Pow2(k));
            && MaxSafeAddress(w) < p.vaddr < Pow2(w)
            && Segment(w, k, 2 * Pow2(k), p) == Some(true)
            && Wrap(w, 2 * Pow2(k) + p.vaddr) == Pow2(k)
  {
    PagesFit(w, k);
    TopWraps(w, Pow2(k));
    FirstPageAdvised(w, k);
    SegmentAt(w, k, 2 * Pow2(k), TopHeader(w, Pow2(k)), Pow2(k));
  }

  lemma TopWraps(w: nat, page: nat)
    requires page > 0 && 4 * page < Pow2(w)
    ensures var p := TopHeader(w, page);
            && MaxSafeAddress(w) < p.vaddr < Pow2(w)
            && 2 * page <= Wrap(w, MaxSafeAddress(w) - p.vaddr)
            && Wrap(w, 2 * page + p.vaddr) == page
  {
    var p := TopHeader(w, page);
    WrapsOnce(w, MaxSafeAddress(w) - p.vaddr);
    WrapsOnce(w, 2 * page + p.vaddr);
  }

  lemma SegmentAt(w: nat, k: nat, addr: nat, p: Phdr, at: nat)
    requires k < w && addr < Pow2(w) && p.vaddr < Pow2(w) && p.memsz < Pow2(w) && at < Pow2(w)
    requires p.load && ShouldOptimize(p.flags) && 0 < p.memsz <= MAX_SEGMENT_SIZE && p.kernelOk
    requires addr <= Wrap(w, MaxSafeAddress(w) - p.vaddr) && Wrap(w, addr + p.vaddr) == at
    requires AlignedCall(w, k, at, p.memsz).Some?
    ensures Segment(w, k, addr, p) == Some(true)
  {
  }

  lemma WrapsOnce(w: nat, x: int)
    requires -(Pow2(w) as int) <= x < 0 || Pow2(w) <= x < 2 * Pow2(w)
    ensures Wrap(w, x) == if x < 0 then x + Pow2(w) else x - Pow2(w)
  {
  }

  lemma PagesFit(w: nat, k: nat)
    requires k + 2 < w
    ensures 4 * Pow2(k) < Pow2(w) && 2 * Pow2(k) <= MaxSafeAddress(w)
  {
    Pow2Grows(k, w - 3);
    assert Pow2(w) == 2 * Pow2(w - 1) && Pow2(w - 1) == 2 * Pow2(w - 2) && Pow2(w - 2) == 2 * Pow2(w - 3);
  }

  lemma OutwardOfPage(page: nat)
    requires page >= 1
    ensures Outward(page, page, page) == Range(page, page)
  {
    assert RoundDown(page, page) == page;
    assert RoundDown(page + page + page - 1, page) == page + RoundDown(page + page - 1, page) == 2 * page;
  }

  lemma FirstPageAdvised(w: nat, k: nat)
    requires k + 2 < w && Pow2(k) <= MAX_SEGMENT_SIZE
    ensures Pow2(k) < Pow2(w) && AlignedCall(w, k, Pow2(k), Pow2(k)).Some?
  {
    PagesFit(w, k);
    OutwardOfPage(Pow2(k));
    AlignedCallRounds(w, k, Pow2(k), Pow2(k));
  }

  /** The number of headers of the library whose madvise succeeded. */
  function Advised(w: nat, k: nat, lib: Lib, n: nat): nat
    requires k < w && Words(w, lib) && n <= |lib.phdrs|
  {
    if n == 0 then 0
    else Advised(w, k, lib, n - 1) + if Segment(w, k, lib.addr, lib.phdrs[n - 1]) == Some(true) then 1 else 0
  }

  /** The part of the name after its last slash. */
  function BaseName(name: string): string {
    if name == "" || name[|name| - 1] == '/' then "" else BaseName(name[..|name| - 1]) + [name[|name| - 1]]
  }

  /** A name is a part that is empty or ends with a slash, and then its base name, which holds none. */
  lemma {:induction false} BaseNameIff(name: string, base: string)
    ensures BaseName(name) == base <==>
              && '/' !in base && |base| <= |name| && name[|name| - |base|..] == base
              && (|base| == |name| || name[|name| - |base| - 1] == '/')
  {
    if name != "" && name[|name| - 1] != '/' {
      var front, last := name[..|name| - 1], name[|name| - 1];
      if base != "" {
        BaseNameIff(front, base[..|base| - 1]);
        assert base == base[..|base| - 1] + [base[|base| - 1]];
        assert |base| <= |name| ==> name[|name| - |base|..] == front[|name| - |base|..] + [last];
      }
    }
  }

  datatype Context = Context(successCount: nat, failCount: nat, targets: set<string>, processed: set<string>)

  predicate Wins(w: nat, k: nat, lib: Lib)
    requires k < w && Words(w, lib)
  {
    Advised(w, k, lib, |lib.phdrs|) > 0
  }

  /** A library wins exactly if the madvise of one of its headers succeeded. */
  lemma WinsIff(w: nat, k: nat, lib: Lib)
    requires k < w && Words(w, lib)
    ensures Wins(w, k, lib) <==> exists p :: p in lib.phdrs && Segment(w, k, lib.addr, p) == Some(true)
  {
    AdvisedSome(w, k, lib, |lib.phdrs|);
    assert lib.phdrs[..|lib.phdrs|] == lib.phdrs;
  }

  lemma {:induction false} AdvisedSome(w: nat, k: nat, lib: Lib, n: nat)
    requires k < w && Words(w, lib) && n <= |lib.phdrs|
    ensures Advised(w, k, lib, n) > 0 <==> exists p :: p in lib.phdrs[..n] && Segment(w, k, lib.addr, p) == Some(true)
  {
    if n > 0 {
      AdvisedSome(w, k, lib, n - 1);
      assert lib.phdrs[..n] == lib.phdrs[..n - 1] + [lib.phdrs[n - 1]];
    }
  }

  /** PhdrCallbackMultiple. */
  function Visit(w: nat, k: nat, c: Context, lib: Lib): Context
    requires k < w && Words(w, lib)
  {
    var base := BaseName(lib.name);
    if lib.name == "" || base !in c.targets || base in c.processed then c
    else
      var c1 := c.(processed := c.processed + {base});
      if Wins(w, k, lib) then c1.(successCount := c.successCount + 1) else c1.(failCount := c.failCount + 1)
  }

  function Walk(w: nat, k: nat, targets: set<string>, libs: seq<Lib>): Context
    requires k < w && forall l :: l in libs ==> Words(w, l)
  {
    if libs == [] then Context(0, 0, targets, {})
    else Visit(w, k, Walk(w, k, targets, libs[..|libs| - 1]), libs[|libs| - 1])
  }

  /** The distinct names asked for. */
  function Targets(libNames: seq<string>): set<string> {
    set n | n in libNames
  }

  class MultiLibContext {
    var successCount: nat
    var failCount: nat
    var targetLibs: set<string>
    var processedLibs: set<string>

    ghost function Model(): Context
      reads this
    {
      Context(successCount, failCount, targetLibs, processedLibs)
    }

    constructor (libNames: seq<string>)
      ensures Model() == Context(0, 0, Targets(libNames), {})
    {
      successCount, failCount, targetLibs, processedLibs := 0, 0, Targets(libNames), {};
    }

    method PhdrCallback(w: nat, k: nat, lib: Lib)
      requires k < w && Words(w, lib)
      modifies this
      ensures Model() == Visit(w, k, old(Model()), lib)
    {
      var base := BaseName(lib.name);
      if lib.name == "" || base !in targetLibs || base in processedLibs {
        return;
      }
      processedLibs := processedLibs + {base};
      var segmentSuccess := CountAdvised(w, k, lib);
      if segmentSuccess > 0 {
        successCount := successCount + 1;
      } else {
        failCount := failCount + 1;
      }
    }
  }

  /** The header loop. */
  method CountAdvised(w: nat, k: nat, lib: Lib) returns (n: nat)
    requires k < w && Words(w, lib)
    ensures n == Advised(w, k, lib, |lib.phdrs|)
  {
    n := 0;
    for i := 0 to |lib.phdrs|
      invariant n == Advised(w, k, lib, i)
    {
      var outcome := Segment(w, k, lib.addr, lib.phdrs[i]);
      if outcome == Some(true) {
        n := n + 1;
      }
    }
  }

  /** MediaMadviseMultipleLibraries over the libraries in the order of the walk: the number of different names
      asked for whose first library had a successful madvise. */
  method MadviseMultipleLibraries(w: nat, k: nat, libNames: seq<string>, libs: seq<Lib>) returns (n: nat)
    requires k < w && forall l :: l in libs ==> Words(w, l)
    ensures n == |set t | t in libNames && FirstWins(w, k, libs, t)|
  {
    ghost var winners := set t | t in libNames && FirstWins(w, k, libs, t);
    if libNames == [] {
      assert winners == {};
      return 0;
    }
    var context := new MultiLibContext(libNames);
    for i := 0 to |libs|
      invariant context.Model() == Walk(w, k, Targets(libNames), libs[..i])
    {
      context.PhdrCallback(w, k, libs[i]);
      assert libs[..i + 1][..i] == libs[..i];
    }
    assert libs[..|libs|] == libs;
    WalkCounts(w, k, Targets(libNames), libs);
    assert winners == Winners(w, k, Targets(libNames), libs);
    n := context.successCount;
  }

  // ----- what the walk counts -----

  predicate Matches(lib: Lib, target: string) {
    lib.name != "" && BaseName(lib.name) == target
  }

  /** The target occurs among the libraries. */
  predicate Seen(libs: seq<Lib>, target: string) {
    exists i :: 0 <= i < |libs| && Matches(libs[i], target)
  }

  /** The first library of the target, if it occurs, had a successful madvise. */
  predicate FirstWins(w: nat, k: nat, libs: seq<Lib>, target: string)
    requires k < w && forall l :: l in libs ==> Words(w, l)
  {
    exists i :: 0 <= i < |libs| && Matches(libs[i], target) && Wins(w, k, libs[i]) &&
                forall j :: 0 <= j < i ==> !Matches(libs[j], target)
  }

  lemma SeenLast(libs: seq<Lib>, t: string)
    requires libs != []
    ensures Seen(libs, t) <==> Seen(libs[..|libs| - 1], t) || Matches(libs[|libs| - 1], t)
  {
    var before, n := libs[..|libs| - 1], |libs| - 1;
    if i :| 0 <= i < |before| && Matches(before[i], t) {
      assert Matches(libs[i], t);
    }
    if i :| 0 <= i < |libs| && Matches(libs[i], t) {
      assert i < n ==> Matches(before[i], t);
    }
  }

  lemma FirstWinsLast(w: nat, k: nat, libs: seq<Lib>, t: string)
    requires k < w && libs != [] && forall l :: l in libs ==> Words(w, l)
    ensures var before, last := libs[..|libs| - 1], libs[|libs| - 1];
            FirstWins(w, k, libs, t) <==>
              if Seen(before, t) then FirstWins(w, k, before, t) else Matches(last, t) && Wins(w, k, last)
  {
    var before, n := libs[..|libs| - 1], |libs| - 1;
    assert forall i :: 0 <= i < n ==> before[i] == libs[i];
    if Seen(before, t) {
      var s :| 0 <= s < n && Matches(before[s], t);
      if FirstWins(w, k, libs, t) {
        var i :| 0 <= i < |libs| && Matches(libs[i], t) && Wins(w, k, libs[i]) &&
                 forall j :: 0 <= j < i ==> !Matches(libs[j], t);
        assert i <= s;
        assert Matches(before[i], t);
      }
    } else if Matches(libs[n], t) && Wins(w, k, libs[n]) {
      assert forall j :: 0 <= j < n ==> !Matches(libs[j], t);
    }
  }

  /** The targets whose first library had a successful madvise. */
  function Winners(w: nat, k: nat, targets: set<string>, libs: seq<Lib>): set<string>
    requires k < w && forall l :: l in libs ==> Words(w, l)
  {
    set t | t in targets && FirstWins(w, k, libs, t)
  }

  lemma WinnersLast(w: nat, k: nat, targets: set<string>, libs: seq<Lib>)
    requires k < w && libs != [] && forall l :: l in libs ==> Words(w, l)
    ensures var before, last := libs[..|libs| - 1], libs[|libs| - 1];
            var base := BaseName(last.name);
            && Winners(w, k, targets, libs) ==
                 Winners(w, k, targets, before) +
                 (if Matches(last, base) && base in targets && !Seen(before, base) && Wins(w, k, last)
                  then {base} else {})
            && (Seen(before, base) || base !in Winners(w, k, targets, before))
  {
    var before := libs[..|libs| - 1];
    forall t | t in targets ensures FirstWins(w, k, before, t) ==> Seen(before, t) {
      if FirstWins(w, k, before, t) {
        var i :| 0 <= i < |before| && Matches(before[i], t);
      }
    }
    forall t | t in targets
      ensures t in Winners(w, k, targets, libs) <==>
                if Seen(before, t) then FirstWins(w, k, before, t)
                else Matches(libs[|libs| - 1], t) && Wins(w, k, libs[|libs| - 1])
    {
      FirstWinsLast(w, k, libs, t);
    }
  }

  /** Over the whole walk: a target is processed exactly if a library of that base name occurs; success
      and fail add up to the number of distinct processed targets; and the successes are the targets
      whose first library had a successful madvise, so no target is handled twice. */
  lemma {:induction false} WalkCounts(w: nat, k: nat, targets: set<string>, libs: seq<Lib>)
    requires k < w && forall l :: l in libs ==> Words(w, l)
    ensures var c := Walk(w, k, targets, libs);
            && c.targets == targets
            && c.processed <= targets
            && (forall t :: t in targets ==> (t in c.processed <==> Seen(libs, t)))
            && c.successCount == |Winners(w, k, targets, libs)|
            && c.successCount + c.failCount == |c.processed|
  {
    if libs == [] {
      assert Winners(w, k, targets, libs) == {};
    } else {
      var before := libs[..|libs| - 1];
      WalkCounts(w, k, targets, before);
      WinnersLast(w, k, targets, libs);
      forall t | t in targets ensures Seen(libs, t) <==> Seen(before, t) || Matches(libs[|libs| - 1], t) {
        SeenLast(libs, t);
      }
    }
  }
}
