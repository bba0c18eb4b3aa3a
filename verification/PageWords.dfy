/** The words of the pager: EntryHI keys, EntryLO values and frame addresses, bit for bit. */
module PageWords {

  const UPROCMAX := 8
  const USERPGTBLSIZE := 32
  const SWAPSIZE := 16

  const GLOBALON: bv32 := 0x100
  const VALIDON: bv32 := 0x200
  const DIRTYON: bv32 := 0x400
  const GETPAGENO: bv32 := 0x3FFFF000
  const GETASID: bv32 := 0xFC0
  const UPROC_VIRT_STACK: bv32 := 0xBFFFF000
  const UPROC_VIRT_STACK_PAGENO: bv32 := (UPROC_VIRT_STACK & GETPAGENO) >> 12
  const SWAP_POOL_START: bv32 := 0x20020000

  /** A page of a user process: an index into its private page table, the last one being the stack. */
  datatype Pg = Pg(asid: int, page: int)

  predicate IsPg(x: Pg) {
    1 <= x.asid <= UPROCMAX && 0 <= x.page < USERPGTBLSIZE
  }

  /** A page table entry, and what the TLB keeps of it. */
  datatype Pte = Pte(entryHI: bv32, entryLO: bv32)

  /** A small index, five bits wide, as a machine word. */
  function Word(n: int): bv32
    requires 0 <= n < 32
  {
    (n as bv5) as bv32
  }

  // ---------------------------------------------------------------- EntryHI

  /** The key make_uproc gives a page. */
  function Key(x: Pg): bv32
    requires IsPg(x)
  {
    if x.page == USERPGTBLSIZE - 1 then UPROC_VIRT_STACK | (Word(x.asid) << 6)
    else 0x80000000 | (Word(x.page) << 12) | (Word(x.asid) << 6)
  }

  function GetAsid(entryHI: bv32): bv32 {
    (entryHI & GETASID) >> 6
  }

  function GetPageno(entryHI: bv32): bv32 {
    (entryHI & GETPAGENO) >> 12
  }

  /** The index both handlers derive from a key. */
  function PageIndex(entryHI: bv32): int {
    if GetPageno(entryHI) == UPROC_VIRT_STACK_PAGENO then 31 else GetPageno(entryHI) as int
  }

  /** Whose page a key is. */
  function Decode(entryHI: bv32): Pg {
    Pg(GetAsid(entryHI) as int, PageIndex(entryHI))
  }

  lemma PageBits(p: bv32, a: bv32)
    requires p < 31 && a < 64
    ensures GetPageno(0x80000000 | (p << 12) | (a << 6)) == p
    ensures GetAsid(0x80000000 | (p << 12) | (a << 6)) == a
  {}

  lemma StackBits(a: bv32)
    requires a < 64
    ensures GetPageno(UPROC_VIRT_STACK | (a << 6)) == UPROC_VIRT_STACK_PAGENO
    ensures GetAsid(UPROC_VIRT_STACK | (a << 6)) == a
  {}

  lemma SmallWord(n: int)
    requires 0 <= n < 31
    ensures Word(n) < 31
  {}

  lemma WordValue(n: int)
    requires 0 <= n < USERPGTBLSIZE
    ensures Word(n) < 32 && Word(n) as int == n
  {}

  lemma KeyFields(x: Pg)
    requires IsPg(x)
    ensures GetAsid(Key(x)) as int == x.asid
    ensures PageIndex(Key(x)) == x.page
  {
    hide GetAsid, GetPageno, Word;
    SmallWord(x.asid);
    WordValue(x.asid);
    if x.page == USERPGTBLSIZE - 1 {
      StackBits(Word(x.asid));
    } else {
      SmallWord(x.page);
      WordValue(x.page);
      PageBits(Word(x.page), Word(x.asid));
      StackIsHigh();
    }
  }

  lemma StackIsHigh()
    ensures UPROC_VIRT_STACK_PAGENO >= 32
  {}

  /** Building a key and taking it apart is the identity; so different pages have different keys. */
  lemma KeyRoundTrip(x: Pg, y: Pg)
    requires IsPg(x) && IsPg(y)
    ensures Decode(Key(x)) == x
    ensures Key(x) == Key(y) <==> x == y
  {
    KeyFields(x);
    KeyFields(y);
  }

  /** Where a page lies in the address space of its process. */
  function PageAddress(page: int): bv32
    requires 0 <= page < USERPGTBLSIZE
  {
    if page == USERPGTBLSIZE - 1 then UPROC_VIRT_STACK else 0x80000000 + Word(page) * 4096
  }

  lemma AddressBits(p: bv32, a: bv32)
    requires p < 31 && a < 32
    ensures (0x80000000 | (p << 12) | (a << 6)) == (0x80000000 + p * 4096) + a * 64
    ensures (UPROC_VIRT_STACK | (a << 6)) == UPROC_VIRT_STACK + a * 64
  {}

  /** The key of a page is the address of the page and, below it, the number of the process, and nothing else. */
  lemma KeyIsAddress(x: Pg)
    requires IsPg(x)
    ensures Key(x) == PageAddress(x.page) + Word(x.asid) * 64
  {
    hide Word;
    WordValue(x.asid);
    if x.page < USERPGTBLSIZE - 1 {
      SmallWord(x.page);
      AddressBits(Word(x.page), Word(x.asid));
    } else {
      AddressBits(0, Word(x.asid));
    }
  }

  // ---------------------------------------------------------------- EntryLO

  predicate IsFrame(f: int) {
    0 <= f < SWAPSIZE
  }

  /** __GET_FRAME(f). */
  function FrameAddress(f: int): bv32
    requires IsFrame(f)
  {
    SWAP_POOL_START + Word(f) * 4096
  }

  /** The entry that maps a page to frame f. */
  function Mapped(f: int): bv32
    requires IsFrame(f)
  {
    FrameAddress(f) | VALIDON | DIRTYON
  }

  predicate IsValid(entryLO: bv32) {
    entryLO & VALIDON != 0
  }

  predicate IsDirty(entryLO: bv32) {
    entryLO & DIRTYON != 0
  }

  function Invalidated(entryLO: bv32): bv32 {
    entryLO & !VALIDON
  }

  /** The frame the hardware accesses through an entry. */
  function FrameOf(entryLO: bv32): int {
    (((entryLO & 0xFFFFF000) - SWAP_POOL_START) >> 12) as int
  }

  /** Of the low bits D is set, V may be, and N, G and the rest are clear. */
  predicate Proper(entryLO: bv32) {
    entryLO & 0xFFF == if IsValid(entryLO) then VALIDON | DIRTYON else DIRTYON
  }

  predicate IsGlobal(entryLO: bv32) {
    entryLO & GLOBALON != 0
  }

  lemma ProperIsPrivate(entryLO: bv32)
    requires Proper(entryLO)
    ensures !IsGlobal(entryLO) && IsDirty(entryLO)
  {}

  lemma MappedFrame(f: int)
    requires IsFrame(f)
    ensures Proper(Mapped(f)) && Mapped(f) & 0xFFF == 0x600
    ensures IsValid(Mapped(f)) && FrameOf(Mapped(f)) == f
    ensures (Mapped(f) & 0xFFFFF000) == FrameAddress(f) && IsDirty(Mapped(f))
  {}

  lemma MappedIsInjective(f: int, g: int)
    requires IsFrame(f) && IsFrame(g)
    ensures Mapped(f) == Mapped(g) <==> f == g
  {
    MappedFrame(f);
    MappedFrame(g);
  }

  lemma InvalidatedIsInvalid(entryLO: bv32)
    ensures !IsValid(Invalidated(entryLO))
    ensures FrameOf(Invalidated(entryLO)) == FrameOf(entryLO)
    ensures Invalidated(entryLO) & DIRTYON == entryLO & DIRTYON
    ensures Invalidated(Invalidated(entryLO)) == Invalidated(entryLO)
    ensures Proper(entryLO) ==> Proper(Invalidated(entryLO))
  {}

  lemma DirtyIsInvalid()
    ensures !IsValid(DIRTYON) && Proper(DIRTYON)
  {}

  // ---------------------------------------------------------------- the TLB

  /** How the TLB compares an entry with an address and an ASID: the page must agree, and the ASID, or G is set. */
  predicate Matches(e: Pte, entryHI: bv32) {
    && e.entryHI & 0xFFFFF000 == entryHI & 0xFFFFF000
    && (e.entryHI & GETASID == entryHI & GETASID || IsGlobal(e.entryLO))
  }

  lemma SameParts(h: bv32, h': bv32)
    requires h & 0xFFFFF000 == h' & 0xFFFFF000 && h & GETASID == h' & GETASID
    ensures Decode(h) == Decode(h')
  {
    assert h & GETPAGENO == h' & GETPAGENO;
  }

  /** The entry of a page matches the page and no other, its own process and no other, because G is clear. */
  lemma MatchesItsPage(e: Pte, x: Pg, y: Pg)
    requires IsPg(x) && IsPg(y) && e.entryHI == Key(x) && !IsGlobal(e.entryLO)
    ensures Matches(e, Key(y)) <==> x == y
  {
    hide Key, Decode, IsGlobal;
    KeyRoundTrip(x, y);
    KeyRoundTrip(y, x);
    if Matches(e, Key(y)) {
      SameParts(Key(x), Key(y));
    }
  }

  // ---------------------------------------------------------------- flash device registers

  const FLASHREAD: bv32 := 2
  const FLASHWRITE: bv32 := 3

  /** The command word for a block of a flash device. */
  function FlashCommand(block: int, operation: bv32): bv32
    requires 0 <= block < USERPGTBLSIZE
  {
    (Word(block) << 8) | operation
  }

  function BlockOf(command: bv32): int {
    (command >> 8) as int
  }

  function OperationOf(command: bv32): bv32 {
    command & 0xFF
  }

  lemma BlockBits(block: bv32, operation: bv32)
    requires block < 32 && operation < 256
    ensures ((block << 8) | operation) >> 8 == block && ((block << 8) | operation) & 0xFF == operation
  {}

  /** The device finds in its registers the block, the operation and the frame it was told. */
  lemma CommandRoundTrip(block: int, operation: bv32, frame: int)
    requires 0 <= block < USERPGTBLSIZE && (operation == FLASHREAD || operation == FLASHWRITE) && IsFrame(frame)
    ensures BlockOf(FlashCommand(block, operation)) == block
    ensures OperationOf(FlashCommand(block, operation)) == operation
    ensures FrameOf(FrameAddress(frame)) == frame
  {
    WordValue(block);
    BlockBits(Word(block), operation);
    FrameAddressRoundTrip(frame);
  }

  lemma FrameAddressRoundTrip(frame: int)
    requires IsFrame(frame)
    ensures FrameOf(FrameAddress(frame)) == frame
  {}
}
