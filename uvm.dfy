/** The address allocator of `generate_uvm`: it enumerates register slots in
    declaration order, gives slot k the byte address k * bus_bytes, places each
    memory window above the registers on a power-of-two boundary, and lists the
    registers of the UVM `default_map` with their offsets and collapsed access.
    File writes are modelled by the list of artifacts a run produces. */
module Uvm {
  import opened Block
  import opened Text
  import opened Arith

  // ---------------------------------------------------------------------------
  // Register slots (pyrg_uvm.py:110-132)
  // ---------------------------------------------------------------------------

  /** One address slot: a register, or one index of a repeated register. */
  datatype Slot = Slot(register: string, index: Option<nat>, access: string)

  /** The address constant of a slot: `NAME_ADDR`, or `NAME_i_ADDR` for index i,
      with NAME upper-cased. */
  function Symbol(s: Slot): string
  {
    match s.index
    case None => Upper(s.register) + "_ADDR"
    case Some(i) => Upper(s.register) + "_" + Decimal(i) + "_ADDR"
  }

  /** The register instance name in the UVM block: `name`, or `name_i`. */
  function InstanceName(s: Slot): string
  {
    match s.index
    case None => s.register
    case Some(i) => s.register + "_" + Decimal(i)
  }

  /** How many slots a register takes: its repeat count when above one. */
  function SlotCount(r: Register): nat
  {
    if r.repeat > 1 then r.repeat else 1
  }

  /** The slot a register's i-th address belongs to. */
  function SlotOf(r: Register, i: nat): Slot
  {
    Slot(r.name, if r.repeat > 1 then Some(i) else None, r.access)
  }

  function RegisterSlots(r: Register): (slots: seq<Slot>)
  {
    seq(SlotCount(r), i requires 0 <= i < SlotCount(r) => SlotOf(r, i))
  }

  /** The slots of a register list, in declaration order. */
  function Slots(regs: seq<Register>): seq<Slot>
  {
    if regs == [] then [] else Slots(regs[..|regs| - 1]) + RegisterSlots(regs[|regs| - 1])
  }

  /** The index of register j's first slot. */
  function FirstSlot(regs: seq<Register>, j: nat): nat
    requires j <= |regs|
  {
    |Slots(regs[..j])|
  }

  lemma {:induction false} SlotsAppend(a: seq<Register>, b: seq<Register>)
    ensures Slots(a + b) == Slots(a) + Slots(b)
    decreases |b|
  {
    if b == [] {
      assert a + b == a;
    } else {
      var c, front := a + b, b[..|b| - 1];
      assert c[..|c| - 1] == a + front && c[|c| - 1] == b[|b| - 1];
      SlotsAppend(a, front);
      calc {
        Slots(c);
        Slots(a + front) + RegisterSlots(b[|b| - 1]);
        (Slots(a) + Slots(front)) + RegisterSlots(b[|b| - 1]);
        { AppendAssoc(Slots(a), Slots(front), RegisterSlots(b[|b| - 1])); }
        Slots(a) + Slots(b);
      }
    }
  }

  lemma AppendAssoc<T>(a: seq<T>, b: seq<T>, c: seq<T>)
    ensures (a + b) + c == a + (b + c)
  {
  }

  /** Register j owns SlotCount(regs[j]) consecutive slots starting at
      FirstSlot(regs, j): its repeat indices 0, 1, ... in ascending order, or
      its single unindexed slot. */
  lemma SlotPosition(regs: seq<Register>, j: nat, i: nat)
    requires j < |regs| && i < SlotCount(regs[j])
    ensures FirstSlot(regs, j) + i < |Slots(regs)|
    ensures Slots(regs)[FirstSlot(regs, j) + i] == SlotOf(regs[j], i)
  {
    assert regs == regs[..j] + [regs[j]] + regs[j + 1..];
    SlotsAppend(regs[..j] + [regs[j]], regs[j + 1..]);
    SlotsAppend(regs[..j], [regs[j]]);
    assert Slots([regs[j]]) == RegisterSlots(regs[j]) by {
      assert [regs[j]][..0] == [];
    }
  }

  /** Two slots of one repeated register never share an address constant. */
  lemma SymbolsOfRepeatDiffer(r: Register, i: nat, k: nat)
    requires r.repeat > 1 && i < k < r.repeat
    ensures Symbol(SlotOf(r, i)) != Symbol(SlotOf(r, k))
  {
    var u := Upper(r.name) + "_";
    var a, b := Decimal(i), Decimal(k);
    if Symbol(SlotOf(r, i)) == Symbol(SlotOf(r, k)) {
      assert u + a + "_ADDR" == u + b + "_ADDR";
      assert |a| == |b|;
      assert a == (u + a + "_ADDR")[|u|..|u| + |a|];
      assert b == (u + b + "_ADDR")[|u|..|u| + |b|];
      DecimalInjective(i, k);
    }
  }

  /** The loop of pyrg_uvm.py:110-132: one slot per register, or one per
      repeat index, appended in declaration order. */
  method EnumerateSlots(regs: seq<Register>) returns (slots: seq<Slot>)
    ensures slots == Slots(regs)
  {
    slots := [];
    for j := 0 to |regs|
      invariant slots == Slots(regs[..j])
    {
      var reg := regs[j];
      if reg.repeat > 1 {
        for i := 0 to reg.repeat
          invariant slots == Slots(regs[..j]) + RegisterSlots(reg)[..i]
        {
          slots := slots + [Slot(reg.name, Some(i), reg.access)];
        }
      } else {
        slots := slots + [Slot(reg.name, None, reg.access)];
      }
      assert regs[..j + 1][..j] == regs[..j];
    }
    assert regs[..|regs|] == regs;
  }

  // ---------------------------------------------------------------------------
  // Register addresses (pyrg_uvm.py:232, 239-244, 299-304)
  // ---------------------------------------------------------------------------

  /** An address constant: its name, its value and the hex text printed for it. */
  datatype Address = Address(symbol: string, addr: nat, hex: string)

  /** `int(bus_bit_width / 8)` */
  function BusBytes(busBitWidth: nat): nat
  {
    busBitWidth / 8
  }

  /** Slot k is given the byte address k * busBytes, printed as upper-case hex.
      With a non-zero stride the addresses strictly increase, a full stride
      apart, so no two slots share one. */
  method AssignRegisterAddresses(slots: seq<Slot>, busBytes: nat) returns (entries: seq<Address>)
    ensures |entries| == |slots|
    ensures forall k :: 0 <= k < |slots| ==>
      entries[k].symbol == Symbol(slots[k]) && entries[k].addr == k * busBytes
      && entries[k].hex == HexAddress(entries[k].addr)
    ensures busBytes >= 1 ==> forall k, l :: 0 <= k < l < |entries| ==> entries[k].addr + busBytes <= entries[l].addr
  {
    entries := [];
    for i := 0 to |slots|
      invariant |entries| == i
      invariant forall k :: 0 <= k < i ==>
        entries[k].symbol == Symbol(slots[k]) && entries[k].addr == k * busBytes
        && entries[k].hex == HexAddress(entries[k].addr)
    {
      entries := entries + [Address(Symbol(slots[i]), i * busBytes, HexAddress(i * busBytes))];
    }
    forall k, l | 0 <= k < l < |entries| && busBytes >= 1
      ensures entries[k].addr + busBytes <= entries[l].addr
    {
      StrideOrder(k, l, busBytes);
    }
  }

  lemma StrideOrder(k: nat, l: nat, stride: nat)
    requires k < l
    ensures k * stride + stride <= l * stride
  {
    assert (l - k) * stride >= 1 * stride by {
      if stride > 0 { MulMonotone(1, l - k, stride); }
    }
  }

  // ---------------------------------------------------------------------------
  // Memory windows (pyrg_uvm.py:246-264, 306-315)
  // ---------------------------------------------------------------------------

  /** A memory's BASE and HIGH constants and their values. */
  datatype Window = Window(memory: string, baseSymbol: string, base: nat, highSymbol: string, high: nat)

  /** `mem_size_log2 + bus_bytes_log2`, both rounded up. */
  function Shift(size: int, busBytes: int): nat
    requires size >= 1 && busBytes >= 1
  {
    CeilLog2(size) + CeilLog2(busBytes)
  }

  /** A window of size * busBytes bytes stays inside the 2^shift block it is
      aligned to: the memory's index bits never reach its base bits. */
  lemma WindowFitsBlock(size: int, busBytes: int)
    requires size >= 1 && busBytes >= 1
    ensures size * busBytes <= Pow2(Shift(size, busBytes))
  {
    var a, b := CeilLog2(size), CeilLog2(busBytes);
    Pow2Add(a, b);
    MulMonotone(size, Pow2(a), busBytes);
    MulMonotone(busBytes, Pow2(b), Pow2(a));
  }

  function MemoryWindow(acronym: string, m: Memory, base: nat, busBytes: nat): Window
    requires m.size >= 1
  {
    Window(m.name, acronym + "_" + Upper(m.name) + "_BASE_ADDR", base,
           acronym + "_" + Upper(m.name) + "_HIGH_ADDR", base + m.size * busBytes)
  }

  /** Reference placement: starting from the cursor, each memory is aligned up
      to 2^shift and the cursor moves to its high address. `math.log2` of a
      non-positive size or bus width stops the run. */
  function Placement(cursor: nat, mems: seq<Memory>, busBytes: nat, acronym: string): Result<seq<Window>>
    decreases |mems|
  {
    if mems == [] then Ok([])
    else if mems[0].size < 1 || busBytes < 1 then Err(MathDomain(mems[0].name))
    else
      var w := MemoryWindow(acronym, mems[0], AlignUp(cursor, Shift(mems[0].size, busBytes)), busBytes);
      Prepend([w], Placement(w.high, mems[1..], busBytes, acronym))
  }

  function Prepend<T>(front: seq<T>, r: Result<seq<T>>): Result<seq<T>>
  {
    match r
    case Ok(rest) => Ok(front + rest)
    case Err(e) => Err(e)
  }

  lemma PrependNothing<T>(r: Result<seq<T>>)
    ensures Prepend([], r) == r
  {
    if r.Ok? {
      assert [] + r.value == r.value;
    }
  }

  /** The cursor before window i: the start for the first, the previous high
      address otherwise. */
  function CursorBefore(start: nat, ws: seq<Window>, i: nat): nat
    requires i <= |ws|
  {
    if i == 0 then start else ws[i - 1].high
  }

  /** What the loop promises about one window: placed for memory m after the
      cursor `before`, it is aligned to 2^shift, strictly above the cursor and
      at most 2^shift past it, size * busBytes (at least one) bytes long and
      inside its block. */
  predicate WindowLaw(before: nat, w: Window, m: Memory, busBytes: nat)
  {
    && m.size >= 1 && busBytes >= 1
    && w.memory == m.name
    && var shift := Shift(m.size, busBytes);
    && w.base % Pow2(shift) == 0
    && before < w.base <= before + Pow2(shift)
    && w.base < w.high
    && w.high == w.base + m.size * busBytes
    && w.high <= w.base + Pow2(shift)
  }

  /** Every window of ws obeys WindowLaw with the previous high as its cursor. */
  predicate Chained(start: nat, ws: seq<Window>, mems: seq<Memory>, busBytes: nat)
    requires |ws| == |mems|
  {
    forall i {:trigger CursorBefore(start, ws, i)} :: 0 <= i < |ws| ==>
      WindowLaw(CursorBefore(start, ws, i), ws[i], mems[i], busBytes)
  }

  lemma {:induction false} ChainedAbove(start: nat, ws: seq<Window>, mems: seq<Memory>, busBytes: nat, i: nat, j: nat)
    requires |ws| == |mems| && Chained(start, ws, mems, busBytes)
    requires i < j < |ws|
    ensures ws[i].high < ws[j].base
    decreases j - i
  {
    assert WindowLaw(CursorBefore(start, ws, j), ws[j], mems[j], busBytes);
    if j > i + 1 {
      ChainedAbove(start, ws, mems, busBytes, i, j - 1);
      assert WindowLaw(CursorBefore(start, ws, j - 1), ws[j - 1], mems[j - 1], busBytes);
    }
  }

  lemma {:induction false} ChainedAboveStart(start: nat, ws: seq<Window>, mems: seq<Memory>, busBytes: nat, i: nat)
    requires |ws| == |mems| && Chained(start, ws, mems, busBytes)
    requires i < |ws|
    ensures start < ws[i].base
  {
    assert WindowLaw(CursorBefore(start, ws, 0), ws[0], mems[0], busBytes);
    if i > 0 {
      ChainedAbove(start, ws, mems, busBytes, 0, i);
    }
  }

  /** A chain of windows ascends in declaration order: each one lies wholly
      below the next, so no two overlap, and all of them lie above the start. */
  lemma ChainedAscending(start: nat, ws: seq<Window>, mems: seq<Memory>, busBytes: nat)
    requires |ws| == |mems| && Chained(start, ws, mems, busBytes)
    ensures forall i, j :: 0 <= i < j < |ws| ==> ws[i].high < ws[j].base
    ensures forall i :: 0 <= i < |ws| ==> start < ws[i].base
  {
    forall i, j | 0 <= i < j < |ws|
      ensures ws[i].high < ws[j].base
    {
      ChainedAbove(start, ws, mems, busBytes, i, j);
    }
    forall i | 0 <= i < |ws|
      ensures start < ws[i].base
    {
      ChainedAboveStart(start, ws, mems, busBytes, i);
    }
  }

  /** One step of Placement: the first window, then the rest from its high. */
  lemma PlacementStep(cursor: nat, mems: seq<Memory>, i: nat, busBytes: nat, acronym: string, ws: seq<Window>, w: Window)
    requires i < |mems| && mems[i].size >= 1 && busBytes >= 1
    requires w == MemoryWindow(acronym, mems[i], AlignUp(cursor, Shift(mems[i].size, busBytes)), busBytes)
    ensures Prepend(ws, Placement(cursor, mems[i..], busBytes, acronym))
         == Prepend(ws + [w], Placement(w.high, mems[i + 1..], busBytes, acronym))
  {
    assert mems[i..][1..] == mems[i + 1..];
    var rest := Placement(w.high, mems[i + 1..], busBytes, acronym);
    if rest.Ok? {
      assert ws + ([w] + rest.value) == (ws + [w]) + rest.value;
    }
  }

  /** Placement stops exactly when some memory has a size below one, or when
      there is a memory and the bus is narrower than a byte. */
  lemma {:induction false} PlacementFails(cursor: nat, mems: seq<Memory>, busBytes: nat, acronym: string)
    ensures Placement(cursor, mems, busBytes, acronym).Err?
        <==> (exists i :: 0 <= i < |mems| && mems[i].size < 1) || (|mems| > 0 && busBytes < 1)
    decreases |mems|
  {
    if mems != [] && mems[0].size >= 1 && busBytes >= 1 {
      var w := MemoryWindow(acronym, mems[0], AlignUp(cursor, Shift(mems[0].size, busBytes)), busBytes);
      PlacementFails(w.high, mems[1..], busBytes, acronym);
      if exists i :: 0 <= i < |mems| && mems[i].size < 1 {
        var i :| 0 <= i < |mems| && mems[i].size < 1;
        assert mems[1..][i - 1].size < 1;
      }
      if exists i :: 0 <= i < |mems[1..]| && mems[1..][i].size < 1 {
        var i :| 0 <= i < |mems[1..]| && mems[1..][i].size < 1;
        assert mems[i + 1].size < 1;
      }
    }
  }

  /** The window placed for a memory after a cursor keeps WindowLaw. */
  lemma PlacedWindowLaw(cursor: nat, m: Memory, busBytes: nat, acronym: string)
    requires m.size >= 1 && busBytes >= 1
    ensures WindowLaw(cursor, MemoryWindow(acronym, m, AlignUp(cursor, Shift(m.size, busBytes)), busBytes), m, busBytes)
  {
    WindowFitsBlock(m.size, busBytes);
    MulMonotone(1, m.size, busBytes);
  }

  /** A window that keeps the law after the last one extends the chain. */
  lemma ChainedExtend(start: nat, ws: seq<Window>, mems: seq<Memory>, i: nat, busBytes: nat, w: Window)
    requires i < |mems| && |ws| == i && Chained(start, ws, mems[..i], busBytes)
    requires WindowLaw(CursorBefore(start, ws, i), w, mems[i], busBytes)
    ensures Chained(start, ws + [w], mems[..i + 1], busBytes)
  {
    forall k | 0 <= k <= i
      ensures WindowLaw(CursorBefore(start, ws + [w], k), (ws + [w])[k], mems[..i + 1][k], busBytes)
    {
      if k < i {
        assert CursorBefore(start, ws + [w], k) == CursorBefore(start, ws, k);
        assert WindowLaw(CursorBefore(start, ws, k), ws[k], mems[..i][k], busBytes);
      }
    }
  }

  /** The memory loop of pyrg_uvm.py:249-264 (and again 308-315) with its
      running cursor. Each base is a multiple of 2^shift, strictly above the
      cursor and at most 2^shift past it; each high is base + size * busBytes
      and becomes the next cursor; so the windows ascend in declaration order,
      are pairwise disjoint and all lie above the start. */
  method PlaceMemories(start: nat, mems: seq<Memory>, busBytes: nat, acronym: string)
    returns (r: Result<seq<Window>>)
    ensures r == Placement(start, mems, busBytes, acronym)
    ensures r.Ok? ==> |r.value| == |mems| && Chained(start, r.value, mems, busBytes)
  {
    var ws: seq<Window> := [];
    var cursor := start;
    assert mems[0..] == mems;
    PrependNothing(Placement(start, mems, busBytes, acronym));
    for i := 0 to |mems|
      invariant |ws| == i
      invariant Placement(start, mems, busBytes, acronym) == Prepend(ws, Placement(cursor, mems[i..], busBytes, acronym))
      invariant cursor == CursorBefore(start, ws, i)
      invariant Chained(start, ws, mems[..i], busBytes)
      invariant i > 0 ==> busBytes >= 1
    {
      var m := mems[i];
      if m.size < 1 || busBytes < 1 {
        r := Err(MathDomain(m.name));
        assert mems[i..][0] == m;
        return;
      }
      var shift := Shift(m.size, busBytes);
      var base := AlignUp(cursor, shift);
      var w := MemoryWindow(acronym, m, base, busBytes);
      PlacedWindowLaw(cursor, m, busBytes, acronym);
      PlacementStep(cursor, mems, i, busBytes, acronym, ws, w);
      ChainedExtend(start, ws, mems, i, busBytes, w);
      ws := ws + [w];
      cursor := w.high;
    }
    assert mems[|mems|..] == [] && mems[..|mems|] == mems && ws + [] == ws;
    r := Ok(ws);
  }

  /** AlignUp(64, 10) == 1024. */
  lemma WorkedBase()
    ensures AlignUp(64, 10) == 1024
  {
    var p := Pow2(10);
    assert p == 1024;
    assert (64 + p) / p == 1;
  }

  lemma WorkedShift(m: Memory)
    requires m == Memory("mem", "WO", 256, 8)
    ensures Shift(m.size, 4) == 10
  {
    CeilLog2Unique(m.size, 8);
    CeilLog2Unique(4, 2);
  }

  lemma WorkedWindow(m: Memory)
    requires m == Memory("mem", "WO", 256, 8)
    ensures MemoryWindow("BLK", m, 1024, 4)
         == Window("mem", "BLK_MEM_BASE_ADDR", 1024, "BLK_MEM_HIGH_ADDR", 2048)
  {
    UpperMem();
    assert "BLK" + "_" + "MEM" + "_BASE_ADDR" == "BLK_MEM_BASE_ADDR";
    assert "BLK" + "_" + "MEM" + "_HIGH_ADDR" == "BLK_MEM_HIGH_ADDR";
  }

  lemma UpperMem()
    ensures Upper("mem") == "MEM"
  {
    assert "mem"[1..] == "em" && "em"[1..] == "m" && "m"[1..] == [];
    assert Upper("m") == "M";
    assert Upper("em") == "EM";
  }

  /** The alignment expression of pyrg_uvm.py:258 on one memory: after
      16 slots of 4 bytes the cursor is 64; a 256-entry memory has shift
      8 + 2 = 10, so its base is 1024 and its high 2048. */
  lemma WorkedExample(slots: nat, busBytes: nat, m: Memory)
    requires slots == 16 && busBytes == 4 && m == Memory("mem", "WO", 256, 8)
    ensures Placement(slots * busBytes, [m], busBytes, "BLK")
         == Ok([Window("mem", "BLK_MEM_BASE_ADDR", 1024, "BLK_MEM_HIGH_ADDR", 2048)])
  {
    WorkedShift(m);
    WorkedBase();
    WorkedWindow(m);
    var w := MemoryWindow("BLK", m, 1024, busBytes);
    PlacementStep(slots * busBytes, [m], 0, busBytes, "BLK", [], w);
    PrependNothing(Placement(slots * busBytes, [m], busBytes, "BLK"));
    assert [m][0..] == [m] && [m][1..] == [];
    assert [] + [w] == [w] && [w] + [] == [w];
  }

  // ---------------------------------------------------------------------------
  // Memory access check (pyrg_uvm.py:202-223)
  // ---------------------------------------------------------------------------

  /** The modes the UVM generator refuses for a memory. */
  predicate RejectedMemory(m: Memory)
  {
    m.access == "RW" || m.access == "R"
  }

  /** The first memory whose access is `RW` or `R` raises; no other memory does. */
  method CheckMemoryAccess(mems: seq<Memory>) returns (r: Option<Error>)
    ensures r.None? <==> forall i :: 0 <= i < |mems| ==> !RejectedMemory(mems[i])
    ensures r.Some? ==> exists i :: (0 <= i < |mems| && RejectedMemory(mems[i])
      && (forall k :: 0 <= k < i ==> !RejectedMemory(mems[k]))
      && r.value == UnsupportedMemoryAccess(mems[i].name))
  {
    for i := 0 to |mems|
      invariant forall k :: 0 <= k < i ==> !RejectedMemory(mems[k])
    {
      if mems[i].access in ["RW", "R"] {
        return Some(UnsupportedMemoryAccess(mems[i].name));
      }
    }
    return None;
  }

  // ---------------------------------------------------------------------------
  // The UVM register block (pyrg_uvm.py:343-368)
  // ---------------------------------------------------------------------------

  datatype UvmAccess = RW | RO | WO

  /** The access given to `default_map.add_reg`: RW when the declared mode
      contains both R and W, RO when it contains R only, WO otherwise. */
  function Collapse(access: string): (a: UvmAccess)
    ensures a == RW <==> 'R' in access && 'W' in access
    ensures a == RO <==> 'R' in access && 'W' !in access
    ensures a == WO <==> 'R' !in access
  {
    if 'R' in access then (if 'W' in access then RW else RO) else WO
  }

  /** For the five declared modes: RO, RC and ROM become RO, RW stays RW and WO
      stays WO. */
  lemma CollapseDeclaredModes()
    ensures Collapse("RO") == RO && Collapse("RC") == RO && Collapse("ROM") == RO
    ensures Collapse("RW") == RW && Collapse("WO") == WO
  {
    assert 'R' in "RO" && 'W' !in "RO";
    assert 'R' in "RC" && 'W' !in "RC";
    assert 'R' in "ROM" && 'W' !in "ROM";
    assert 'R' in "RW" && 'W' in "RW";
    assert 'R' !in "WO";
  }

  datatype MapEntry = MapEntry(register: string, offset: nat, access: UvmAccess)

  /** The `add_reg` loop: slot k sits at offset k * int(bus_width / 8), where
      bus_width is the YAML value, not the generator's argument. */
  method DefaultMap(slots: seq<Slot>, yamlBusWidth: nat) returns (entries: seq<MapEntry>)
    ensures |entries| == |slots|
    ensures forall k :: 0 <= k < |slots| ==>
      entries[k] == MapEntry(InstanceName(slots[k]), k * BusBytes(yamlBusWidth), Collapse(slots[k].access))
  {
    entries := [];
    var offset := 0;
    for k := 0 to |slots|
      invariant |entries| == k && offset == k * BusBytes(yamlBusWidth)
      invariant forall i :: 0 <= i < k ==>
        entries[i] == MapEntry(InstanceName(slots[i]), i * BusBytes(yamlBusWidth), Collapse(slots[i].access))
    {
      var s := slots[k];
      var access: UvmAccess;
      if 'R' in s.access {
        if 'W' in s.access { access := RW; } else { access := RO; }
      } else {
        access := WO;
      }
      entries := entries + [MapEntry(InstanceName(s), offset, access)];
      offset := offset + BusBytes(yamlBusWidth);
    }
  }

  // ---------------------------------------------------------------------------
  // One run of generate_uvm
  // ---------------------------------------------------------------------------

  /** The files a run writes, in order. The text of the register classes is
      not modelled. */
  datatype Artifact =
    | RegisterClasses                                                     // <block>_reg.sv
    | AddressPackage(high: nat, registers: seq<Address>, memories: seq<Window>)  // <block>_address_pkg.sv
    | CHeader(high: nat, registers: seq<Address>, memories: seq<Window>)         // <block>_address.h
    | RegisterModel(entries: seq<MapEntry>)                               // <block>_block.sv

  /** `written` lists the files produced before the run ended; on success the
      outcome is the returned `_latex` list of (base, high) hex pairs. */
  datatype UvmRun = UvmRun(written: seq<Artifact>, outcome: Result<seq<(string, string)>>)

  function LatexRows(ws: seq<Window>): (rows: seq<(string, string)>)
    ensures |rows| == |ws|
    ensures forall i :: 0 <= i < |ws| ==> rows[i] == (HexAddress(ws[i].base), HexAddress(ws[i].high))
  {
    if ws == [] then [] else [(HexAddress(ws[0].base), HexAddress(ws[0].high))] + LatexRows(ws[1..])
  }

  /** The package's register addresses: slot k's constant, at k * bus_bytes,
      printed as hex. */
  predicate AddressesOf(registers: seq<Address>, slots: seq<Slot>, bb: nat)
  {
    && |registers| == |slots|
    && forall k :: 0 <= k < |slots| ==>
         registers[k].symbol == Symbol(slots[k]) && registers[k].addr == k * bb
         && registers[k].hex == HexAddress(k * bb)
  }

  /** The memory windows: placed from the register high address, one per
      memory, chained under WindowLaw and all above that address. */
  predicate PlacedAbove(high: nat, windows: seq<Window>, mems: seq<Memory>, bb: nat, acronym: string)
  {
    && Placement(high, mems, bb, acronym) == Ok(windows)
    && |windows| == |mems|
    && Chained(high, windows, mems, bb)
    && forall i :: 0 <= i < |windows| ==> high < windows[i].base
  }

  /** The register model: slot k's instance at k * int(bus_width / 8) of the
      YAML width, with its collapsed access. */
  predicate ModelOf(entries: seq<MapEntry>, slots: seq<Slot>, yamlBusWidth: nat)
  {
    && |entries| == |slots|
    && forall k :: 0 <= k < |slots| ==>
         entries[k] == MapEntry(InstanceName(slots[k]), k * BusBytes(yamlBusWidth), Collapse(slots[k].access))
  }

  /** generate_uvm for one block. `busBitWidth` is the function argument
      (default 64) that sets the package and header addresses; the block's own
      `busWidth` sets the UVM offsets. A refused memory stops the run after the
      register classes were written and before the address package; otherwise
      the run stops exactly when placing the memories fails, with that error.
      A run that does not stop writes the package, the C header with the same
      numbers, and the register model. */
  method GenerateUvm(block: RegisterBlock, busBitWidth: nat) returns (run: UvmRun)
    ensures |run.written| >= 1 && run.written[0] == RegisterClasses
    ensures run.outcome.Err? <==> |run.written| == 1
    ensures (exists i :: 0 <= i < |block.memories| && RejectedMemory(block.memories[i])) ==>
      exists i :: 0 <= i < |block.memories| && RejectedMemory(block.memories[i])
        && (forall k :: 0 <= k < i ==> !RejectedMemory(block.memories[k]))
        && run.outcome == Err(UnsupportedMemoryAccess(block.memories[i].name))
    // without a refused memory, the run stops exactly when placing the memories does
    ensures (forall i :: 0 <= i < |block.memories| ==> !RejectedMemory(block.memories[i])) ==>
      var placed := Placement(|Slots(block.registers)| * BusBytes(busBitWidth), block.memories,
                              BusBytes(busBitWidth), Upper(block.name));
      && (run.outcome.Ok? <==> placed.Ok?)
      && (placed.Err? ==> run.outcome == Err(placed.error))
    ensures run.outcome.Ok? ==>
      var slots, bb := Slots(block.registers), BusBytes(busBitWidth);
      && |run.written| == 4
      && run.written[1].AddressPackage? && run.written[2].CHeader? && run.written[3].RegisterModel?
      && var pkg, hdr := run.written[1], run.written[2];
      && pkg.high == |slots| * bb
      && AddressesOf(pkg.registers, slots, bb)
      && PlacedAbove(pkg.high, pkg.memories, block.memories, bb, Upper(block.name))
      // the C header repeats the same numbers
      && hdr.high == pkg.high && hdr.registers == pkg.registers && hdr.memories == pkg.memories
      && run.outcome == Ok(LatexRows(pkg.memories))
      && ModelOf(run.written[3].entries, slots, block.busWidth)
  {
    var slots := EnumerateSlots(block.registers);
    var written := [RegisterClasses];

    var rejected := CheckMemoryAccess(block.memories);
    if rejected.Some? {
      return UvmRun(written, Err(rejected.value));
    }

    var bb := BusBytes(busBitWidth);
    var acronym := Upper(block.name);

    // SystemVerilog package
    var svRegisters := AssignRegisterAddresses(slots, bb);
    var svHigh := |slots| * bb;
    var svMemories := PlaceMemories(svHigh, block.memories, bb, acronym);
    if svMemories.Err? {
      return UvmRun(written, Err(svMemories.error));
    }
    ChainedAscending(svHigh, svMemories.value, block.memories, bb);
    written := written + [AddressPackage(svHigh, svRegisters, svMemories.value)];

    // C header: the same computation again
    var cRegisters := AssignRegisterAddresses(slots, bb);
    var cHigh := |slots| * bb;
    var cMemories := PlaceMemories(cHigh, block.memories, bb, acronym);
    assert cMemories == svMemories;
    assert cRegisters == svRegisters;
    written := written + [CHeader(cHigh, cRegisters, cMemories.value)];

    // UVM register block
    var entries := DefaultMap(slots, block.busWidth);
    written := written + [RegisterModel(entries)];

    return UvmRun(written, Ok(LatexRows(svMemories.value)));
  }
}
