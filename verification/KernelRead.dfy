/**
 The kernel-range read of KpiReadVirtualMemoryUnsafe in KSystemHacker/vm.c, with
 the module check of KSystemHacker/util.c.
 */
module KernelRead {
  import opened Common

  // ----- the module check -----

  datatype Module = Module(base: nat, size: nat)

  /** A module's extent as the loader reports it: it does not wrap. */
  predicate Loaded(mods: seq<Module>)
  {
    forall i :: 0 <= i < |mods| ==> mods[i].base + mods[i].size < TWO64
  }

  predicate Inside(m: Module, address: nat, length: nat)
  {
    m.base <= address && address + length <= m.base + m.size
  }

  /** The loop of KphValidateAddressForSystemModules, in 64-bit arithmetic. */
  method ValidateAddress(mods: seq<Module>, address: nat, length: nat) returns (valid: bool)
    requires Loaded(mods) && address < TWO64 && length < TWO64
    ensures valid <==> exists i :: 0 <= i < |mods| && Inside(mods[i], address, length)
  {
    valid := false;
    for i := 0 to |mods|
      invariant forall j :: 0 <= j < i ==> !Inside(mods[j], address, length)
    {
      if && (address + length) % TWO64 >= address
         && address >= mods[i].base
         && (address + length) % TWO64 <= (mods[i].base + mods[i].size) % TWO64
      {
        return true;
      }
    }
  }

  // ----- the page walk -----

  const PAGE_SIZE: nat := 4096
  const TOP_PAGE: nat := TWO64 - PAGE_SIZE

  /** The start of the page holding `address`. */
  function PageOf(address: nat): nat { address - address % PAGE_SIZE }

  predicate IsPage(page: nat) { page < TWO64 && page % PAGE_SIZE == 0 }

  /** The loop variable after `n` turns, were the loop never left. */
  function PageAfter(page: nat, n: nat): nat
  {
    if n == 0 then page else (PageAfter(page, n - 1) + PAGE_SIZE) % TWO64
  }

  lemma {:induction false} PageAfterIs(page: nat, n: nat)
    requires page < TWO64
    ensures PageAfter(page, n) == (page + n * PAGE_SIZE) % TWO64
  {
    if n > 0 {
      PageAfterIs(page, n - 1);
      AddThenWrap(page + (n - 1) * PAGE_SIZE);
    }
  }

  lemma AddThenWrap(x: nat)
    ensures (x % TWO64 + PAGE_SIZE) % TWO64 == (x + PAGE_SIZE) % TWO64
  {
  }

  /** Turn `n` of the loop on lines 378-382 is the last: its guard fails or its page is not resident. */
  predicate StopsAt(resident: nat -> bool, page: nat, pageEnd: nat, n: nat)
  {
    PageAfter(page, n) > pageEnd || !resident(PageAfter(page, n))
  }

  /**
   The walk goes on forever exactly when the last page is the topmost one, so that
   the guard never fails, and every page of the address space is resident: past the
   topmost page the loop variable wraps to page zero and goes round.
   */
  lemma WalkEndsIff(resident: nat -> bool, page: nat, pageEnd: nat)
    requires IsPage(page) && IsPage(pageEnd)
    ensures (exists n: nat :: StopsAt(resident, page, pageEnd, n))
            <==> pageEnd != TOP_PAGE || exists p :: IsPage(p) && !resident(p)
  {
    if pageEnd != TOP_PAGE {
      var n := StepsTo(page, TOP_PAGE);
      assert StopsAt(resident, page, pageEnd, n);
    } else if p :| IsPage(p) && !resident(p) {
      var n := StepsTo(page, p);
      assert StopsAt(resident, page, pageEnd, n);
    } else {
      forall n: nat ensures !StopsAt(resident, page, pageEnd, n) { StaysPage(page, n); }
    }
  }

  lemma StaysPage(page: nat, n: nat)
    requires IsPage(page)
    ensures IsPage(PageAfter(page, n))
  {
    PageAfterIs(page, n);
  }

  /** The wrapping walk reaches every page. */
  lemma StepsTo(page: nat, p: nat) returns (n: nat)
    requires IsPage(page) && IsPage(p)
    ensures PageAfter(page, n) == p
  {
    n := ((if p >= page then p else p + TWO64) - page) / PAGE_SIZE;
    PageAfterIs(page, n);
  }

  // ----- the read -----

  datatype Verdict = Copy | AccessViolation

  /** Every byte of [address, address + size) lies on a resident page. */
  ghost predicate AllResident(resident: nat -> bool, address: nat, size: nat)
  {
    forall a :: address <= a < address + size ==> resident(PageOf(a))
  }

  /** The first address that is not canonical on x64; MmIsAddressValid never accepts it. */
  const NON_CANONICAL: nat := 0x8000_0000_0000

  /** How far the walk is from the non-canonical page. */
  function Distance(page: nat): nat
    requires page < TWO64
  {
    if page <= NON_CANONICAL then NON_CANONICAL - page else NON_CANONICAL + TWO64 - page
  }

  lemma Closer(page: nat)
    requires IsPage(page) && page != NON_CANONICAL
    ensures IsPage((page + PAGE_SIZE) % TWO64) && Distance((page + PAGE_SIZE) % TWO64) < Distance(page)
  {
  }

  lemma PageResident(resident: nat -> bool, page: nat)
    requires IsPage(page) && resident(page)
    ensures forall a :: page <= a < page + PAGE_SIZE ==> resident(PageOf(a))
  {
    forall a | page <= a < page + PAGE_SIZE ensures resident(PageOf(a)) { SamePage(page, a); }
  }

  /**
   Lines 365-384. `resident` is what MmIsAddressValid answers. The copy is reached
   exactly when the range lies in one module, every page it touches is resident and
   its last byte is not on the topmost page; in that case the walk wraps and is
   refused by a page outside the range.
   */
  method ReadKernelRange(mods: seq<Module>, resident: nat -> bool, address: nat, size: nat) returns (v: Verdict)
    requires Loaded(mods) && address < TWO64 && 0 < size < TWO64 && !resident(NON_CANONICAL)
    ensures v == Copy <==>
            && (exists i :: 0 <= i < |mods| && Inside(mods[i], address, size))
            && AllResident(resident, address, size) && address + size <= TOP_PAGE
  {
    var valid := ValidateAddress(mods, address, size);
    if !valid { return AccessViolation; }
    var page: nat, pageEnd: nat := PageOf(address), PageOf(address + size - 1);
    ghost var wrapped := false;
    WalkStarts(resident, address, size);
    while page <= pageEnd
      invariant Walked(resident, address, size, page, wrapped)
      decreases Distance(page)
    {
      if !resident(page) {
        WalkRefused(resident, address, size, page, wrapped);
        return AccessViolation;
      }
      WalkOn(resident, address, size, page, wrapped);
      Closer(page);
      wrapped := wrapped || page == TOP_PAGE;
      page := (page + PAGE_SIZE) % TWO64;
    }
    WalkDone(resident, address, size, page, wrapped);
    return Copy;
  }

  /**
   The walk stands at `page`. Until it wraps, the bytes before that page are
   resident; once it has wrapped, the last page of the range is the topmost one.
   */
  ghost predicate Walked(resident: nat -> bool, address: nat, size: nat, page: nat, wrapped: bool)
  {
    && 0 < size && address + size <= TWO64 && IsPage(page)
    && if wrapped then PageOf(address + size - 1) == TOP_PAGE
       else
         && PageOf(address) <= page <= PageOf(address + size - 1) + PAGE_SIZE
         && forall a :: address <= a < address + size && a < page ==> resident(PageOf(a))
  }

  lemma WalkOn(resident: nat -> bool, address: nat, size: nat, page: nat, wrapped: bool)
    requires Walked(resident, address, size, page, wrapped) && page <= PageOf(address + size - 1) && resident(page)
    ensures Walked(resident, address, size, (page + PAGE_SIZE) % TWO64, wrapped || page == TOP_PAGE)
  {
    PageResident(resident, page);
  }

  lemma WalkRefused(resident: nat -> bool, address: nat, size: nat, page: nat, wrapped: bool)
    requires Walked(resident, address, size, page, wrapped) && page <= PageOf(address + size - 1) && !resident(page)
    ensures !AllResident(resident, address, size) || address + size > TOP_PAGE
  {
    if !wrapped { SamePage(page, if address > page then address else page); }
  }

  lemma WalkDone(resident: nat -> bool, address: nat, size: nat, page: nat, wrapped: bool)
    requires Walked(resident, address, size, page, wrapped) && page > PageOf(address + size - 1)
    ensures AllResident(resident, address, size) && address + size <= TOP_PAGE
  {
  }

  lemma WalkStarts(resident: nat -> bool, address: nat, size: nat)
    requires 0 < size && address + size <= TWO64
    ensures Walked(resident, address, size, PageOf(address), false)
  {
  }

  lemma SamePage(page: nat, a: nat)
    requires page % PAGE_SIZE == 0 && page <= a < page + PAGE_SIZE
    ensures PageOf(a) == page
  {
  }

  /** Modules mapped in whole pages never reach the topmost page, so for them residency alone decides. */
  lemma WholePagesStayBelow(m: Module, address: nat, size: nat)
    requires m.base % PAGE_SIZE == 0 && m.size % PAGE_SIZE == 0 && Loaded([m]) && Inside(m, address, size)
    ensures address + size <= TOP_PAGE
  {
    assert m.base + m.size == [m][0].base + [m][0].size < TWO64;
  }

  /** An image size that is no multiple of a page lets a range on the topmost page pass the module check. */
  lemma TopPagePasses()
    ensures var m := Module(TOP_PAGE, 0x800);
            Loaded([m]) && Inside(m, TOP_PAGE, 0x10) && PageOf(TOP_PAGE + 0xF) == TOP_PAGE
  {
  }
}
