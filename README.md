# PYRG register generator: address allocator and field-layout engine

PYRG reads a YAML description of a register block and generates two things:
UVM register models with address maps (`generate_uvm`), and an AXI4 register
slave in SystemVerilog (`generate_axi`). This project models the logic inside
those two generators and leaves out the file and template handling around it.

- `block.dfy` (module `Block`): the parsed block. It holds the bus width,
  registers made of bit fields, memories and parameter names, plus the three
  errors a run can stop with. These are a memory access mode that is not
  supported, `math.log2` of a non-positive number, and a ROM field without a
  `reset_value`.
- `arith.dfy` (module `Arith`): integer forms of `ceil(log2 n)` and of
  truncated `log2`. It also holds the round-up rule
  `((cursor + 2**shift) >> shift) << shift` that places memory windows.
- `text.dfy` (module `Text`): the printed forms of numbers and names. It
  covers `str()` of an integer and `hex(x)[2:].zfill(4).upper()`, each with
  the parser that reads it back. It also covers ASCII `upper()` and
  `split("_")[0]`, which lemmas characterise (`UpperChars`, `UpperIdempotent`,
  `FirstTokenPrefix`), and the string order that `sorted()` uses.
- `uvm.dfy` (module `Uvm`): the address allocator of `generate_uvm`. It
  covers:
  - register slots in declaration order, with slot k at byte address
    `k * bus_bytes`;
  - memory windows placed above the registers with a running cursor;
  - the same numbers again for the C header;
  - the `default_map` offsets and collapsed access modes;
  - the refusal of RW and R memories.

  A run is modelled as the list of files it writes, plus its outcome.
- `fields.dfy` (module `Fields`): the per-field decisions of `generate_axi`.
  These are the field kind taken from the name, the port width text, the data
  bus slice of a lone field, and what a field adds to the port, ROM constant,
  reset and command-default lists.
- `params.dfy` (module `Params`): `sort_uniq` and the slave's parameter list.
- `axi.dfy` (module `Axi`): the register, field and memory loops of
  `generate_axi`. It covers write and read statements gated by access mode,
  reverse concatenation of multi-field registers, read-and-clear strobes,
  expansion into one decoder case per address slot, and memory ports, resets
  and write windows.

Each loop of the generators is a method with a loop, proved equal to a
reference function. Its properties are proved as lemmas about that function.
Generator state is a datatype value (`Axi.Acc`) threaded through the loops.

Some behaviour follows the code where a reader might expect otherwise:

- Both generators refuse `RW` memories (pyrg_uvm.py:222-223,
  pyrg_axi.py:345-346). Of the two memory modes the design allows, `WO` and
  `RW`, only `WO` gets through; the two generators disagree on other mode
  strings.
- `generate_uvm` refuses `RW` and `R` but not `RO`. It does so after the
  register classes file is written.
- `generate_axi` refuses `RW` and `RO`, so an `R` memory gets through it. A
  `WO` memory gets its ports, resets and write window. A memory whose mode is
  not `RW`, `RO` or `WO` gets its ports and resets but no write window.
- The block's `HIGH_ADDRESS` constant is the end of the register region, not
  the high address of the last memory (pyrg_uvm.py:244).
- An integer-sized lone field wider than one bit is sliced from bit 0,
  whatever its `lsb_pos` (pyrg_axi.py:183-184).
- The address package and C header use the `bus_bit_width` argument. The UVM
  `default_map` offsets use the YAML `bus_width` (pyrg_uvm.py:232, 368). Both
  are inputs of `Uvm.GenerateUvm`.

## Model

| member | source | states |
|---|---|---|
| Uvm.EnumerateSlots | pyrg_uvm.py:110-132 | The slot loop builds exactly `Slots(regs)`: one slot per register, or one per repeat index, in declaration order. |
| Uvm.SlotPosition | pyrg_uvm.py:122-132 | Register j owns SlotCount consecutive slots from its first slot. A repeated register's indices 0..r-1 come in ascending order; any other register has one unindexed slot. |
| Uvm.SymbolsOfRepeatDiffer | pyrg_uvm.py:122-127 | Two indices of one repeated register never get the same `NAME_i_ADDR` constant. |
| Uvm.AssignRegisterAddresses | pyrg_uvm.py:239-242 | Slot k gets its own constant name, address `k * bus_bytes` and that address as printed hex. With a non-zero stride, addresses strictly increase a full stride apart. |
| Uvm.PlaceMemories | pyrg_uvm.py:248-264 | The memory loop with its cursor equals the reference placement. On success each window is aligned to 2^shift, strictly above the incoming cursor and at most 2^shift past it. Each window is `size * bus_bytes` long, fits its block and hands its high to the next. |
| Uvm.PlacementFails | pyrg_uvm.py:252-253 | Placement fails exactly when some memory has size below 1, or when there is a memory and the bus is narrower than one byte (`math.log2` of a non-positive number). |
| Uvm.ChainedAscending | pyrg_uvm.py:258-264 | Windows placed this way lie above the register region and ascend in declaration order, each wholly below the next, so no two overlap. |
| Uvm.WindowFitsBlock | pyrg_uvm.py:252-258 | A memory's `size * bus_bytes` bytes fit in the 2^shift block its base is aligned to. |
| Uvm.WorkedExample | pyrg_uvm.py:252-258 | 16 slots of 4 bytes, then a 256-entry memory: shift 10, cursor 64, base 1024, high 2048. |
| Uvm.CheckMemoryAccess | pyrg_uvm.py:202-223 | The memory check fails exactly when some memory is `RW` or `R`, and it names the first such memory. |
| Uvm.Collapse | pyrg_uvm.py:357-364 | The `add_reg` access is RW when the mode contains both R and W, RO when it contains R only, WO when it has no R. |
| Uvm.CollapseDeclaredModes | pyrg_uvm.py:357-364 | RO, RC and ROM collapse to RO, RW to RW and WO to WO. |
| Uvm.DefaultMap | pyrg_uvm.py:346-368 | Entry k names slot k's instance, sits at offset `k * int(bus_width / 8)` with the YAML bus width, and has the collapsed access. |
| Uvm.LatexRows | pyrg_uvm.py:259-261 | One (base, high) pair of printed hex per window, in order. |
| Uvm.GenerateUvm | pyrg_uvm.py:110-368 | The register classes are always written first. A refused memory stops the run with the first such memory's error, and nothing else is written. Without one, the run succeeds exactly when the memories can be placed, and otherwise stops with the placement error. On success the run writes three more files. The package has slot k's constant at address `k * bus_bytes`, printed as hex, and the high address `slots * bus_bytes`. Its memories are placed from that high address, chained under the alignment law and above it. The C header carries the same numbers. The register model has slot k's instance at `k * int(bus_width / 8)` of the YAML width with its collapsed access. The returned rows are the windows' hex pairs. |
| Arith.CeilLog2 | pyrg_uvm.py:252-253 | The least k with n <= 2^k. |
| Arith.FloorLog2 | pyrg_axi.py:315-316 | The greatest k with 2^k <= n. |
| Arith.CeilFloorLog2 | pyrg_axi.py:315-316 | Ceiling and truncated log2 agree exactly on powers of two. On any other n the ceiling is one more. |
| Arith.AlignUp | pyrg_uvm.py:258 | The round-up rule gives a multiple of 2^shift strictly above the cursor and at most 2^shift past it. |
| Arith.AlignUpOfAligned | pyrg_uvm.py:258 | An already aligned cursor still moves a whole 2^shift further. |
| Text.DecimalRoundTrip | pyrg_uvm.py:125 | The decimal text of n reads back as n. |
| Text.DecimalInjective | pyrg_uvm.py:125 | Different numbers never print as the same decimal text. |
| Text.IntToStringRoundTrip | pyrg_axi.py:142 | `str()` of any integer, sign included, reads back as that integer. |
| Text.HexAddressRoundTrip | pyrg_uvm.py:241 | About `Text.HexAddress`, the model of this rendering: a printed address is upper-case hex of at least four digits. It is exactly four digits below 0x10000 and has no padding beyond four. It reads back as the number printed. |
| Text.UpperChars | pyrg_axi.py:131 | Upper-casing maps each character on its own and leaves no lower-case letter. |
| Text.UpperIdempotent | pyrg_axi.py:131 | Upper-casing twice is the same as once. |
| Text.FirstTokenPrefix | pyrg_axi.py:131 | `split("_")[0]` is the prefix without underscores that runs up to the first underscore or to the end. |
| Text.BelowTotal | pyrg_axi.py:31-33 | Any two different strings are ordered one way or the other. |
| Text.BelowTransitive | pyrg_axi.py:31-33 | The string order is transitive. |
| Fields.KindOfPrefixed | pyrg_axi.py:131 | About `Fields.KindOf`, the model of this line: only the text before the first underscore decides a field's kind. |
| Fields.KindIgnoresCase | pyrg_axi.py:131 | About `Fields.KindOf`: a field's kind does not depend on the letter case of its name. |
| Fields.TopBit | pyrg_axi.py:136-142 | About `Fields.PortWidth`, the model of these lines: the top bit of a port plus one is its width, for a parameter size and for an integer size. |
| Fields.FieldRangeBits | pyrg_axi.py:173-184 | About `Fields.FieldRange`, the model of these lines: a lone field's slice covers its width from its lsb for a parameter size, and just its lsb for one bit. For a wider integer size it covers the width from bit 0, whatever the lsb. |
| Fields.SliceMatchesPort | pyrg_axi.py:134-142 | About `Fields.FieldRange` and `Fields.PortWidth`: a lone field at bit 0, or with an integer size, is sliced with the same range text as its port. |
| Fields.RangeTextOfParam | pyrg_axi.py:173-178 | A parameter-sized slice prints as `S-1 : 0` at bit 0 and `S+4-1 : 4` at bit 4. |
| Fields.RangeTextOfBits | pyrg_axi.py:180-184 | A one-bit field at bit 7 prints as `7`. An eight-bit field at bit 7 still prints as `7 : 0`. |
| Fields.FieldPorts | pyrg_axi.py:144-147 | A field has a port exactly when its kind is CR, CMD, SR or IRQ. The port carries the field's name and port width, and is an output exactly for CR and CMD. |
| Params.SortUniq | pyrg_axi.py:31-33 | `sort_uniq` gives a strictly sorted list with the same elements as its input. |
| Params.SortUniqCanonical | pyrg_axi.py:31-33 | `sort_uniq` depends only on which strings occur, and applying it twice is the same as once. |
| Params.ExtractParameters | pyrg_axi.py:403-408 | Each parameter is replaced by its captured group where the pattern matches and kept otherwise. |
| Params.Parameters | pyrg_axi.py:92-98 | The slave's parameters are strictly sorted. They are exactly the extracted forms of the three bus parameters and the declared ones. |
| Axi.ResetsOfFields | pyrg_axi.py:155-157 | A field has a reset line exactly when it has a reset value and is not a ROM. The line resets it to that value. |
| Axi.CmdsOfFields | pyrg_axi.py:159-161 | The CMD defaults are exactly the CMD fields. |
| Axi.PortsOfFields | pyrg_axi.py:144-147 | The field ports are exactly those of the CR, CMD, SR and IRQ fields, with the right direction and width. |
| Axi.RomsOfFields | pyrg_axi.py:148-149 | The ROM constants are exactly those of the ROM fields, each with the field's name, port width and reset value. |
| Axi.FirstRomGap | pyrg_axi.py:148-149 | Finds the first ROM field without a reset value; every field before it has one. |
| Axi.AddField | pyrg_axi.py:144-161 | One field adds its port, ROM constant, reset line and CMD default. |
| Axi.LoneField | pyrg_axi.py:169-200 | A lone field is written for WO and RW, read for RO, RW and ROM, and read with its clear strobe for RC. |
| Axi.NextField | pyrg_axi.py:125-209 | One pass of the field loop adds one field to the running lists. For several fields, the name goes to `reg_rc_accessed` (RC) or `reg_all_fields` (otherwise). |
| Axi.LayoutFields | pyrg_axi.py:118-210 | The field loop equals the reference step. It stops at the first ROM field without a reset value, and returns the statements of a lone field. |
| Axi.LayoutRegister | pyrg_axi.py:103-284 | One register equals the reference step: fields, concatenated and clearing statements, then decoder cases. `reg_all_fields` is empty afterwards. |
| Axi.WritesNeedWritable | pyrg_axi.py:186-225 | A register gets write statements exactly when it is WO or RW and has one field or collected names. |
| Axi.ConcatIsReversed | pyrg_axi.py:217-232 | A non-RC register with several fields is written (WO, RW) and read (RO, RW, not ROM) as its fields in reverse declaration order. |
| Axi.RegisterDecoders | pyrg_axi.py:201-284 | Each pass of the register loop appends to the decoders exactly the cases built from that register's own statements: the names its field loop collected, and its own `reg_rc_accessed` entry. Nothing collected for an earlier register is carried over. |
| Axi.ReadClearReads | pyrg_axi.py:196-239 | Every read of an RC register raises its own clear strobe, and an RC register is never written. Several fields are read in reverse order. |
| Axi.ExpandWrites | pyrg_axi.py:247-265 | No statements give no case. Otherwise there is one case per index in ascending order, or a single case, each with the same statements. |
| Axi.ExpandReads | pyrg_axi.py:267-284 | As for writes, with each repeated case carrying its index for the `[i]` suffix. |
| Axi.CasesFollowSlots | pyrg_axi.py:243-284 | For every register, whatever its access: with write statements it has one write case per UVM address slot, and with read statements one read case per slot carrying the slot's repeat index. The cases follow slot order under the same constant names. Without statements of a kind it has no case of that kind. |
| Axi.LayoutAllRegisters | pyrg_axi.py:103-284 | The register loop equals the reference fold over the registers. |
| Axi.LayoutRegistersFails | pyrg_axi.py:148-149 | The register loop fails exactly when some ROM field has no reset value. |
| Axi.LayoutRegistersLists | pyrg_axi.py:118-232 | After the register loop, `reg_all_fields` is empty. The RC list is the RC registers in order. The port, ROM-constant, reset and CMD lists are those of every register's fields, in register and field order, and no ROM field lacks a reset value. |
| Axi.RcNames | pyrg_axi.py:118-119 | The RC list holds exactly the names of the RC registers. |
| Axi.ClearPorts | pyrg_axi.py:292-294 | One `clear_<name>` output port per RC register, in order. |
| Axi.ClearDefaults | pyrg_axi.py:292-295 | One `clear_<name> = '0` default per RC register, in order. |
| Axi.AddClearStrobes | pyrg_axi.py:292-295 | The strobe loop appends the clear ports and builds the defaults. |
| Axi.AddrMsbOfPowers | pyrg_axi.py:315-316 | About `Axi.AddrMsb`, the model of these lines: for 2^a entries on a 2^b-bit bus, the address port is `[a+b-4 : 0]`: just enough bits to index the window's bytes. |
| Axi.AddrPortNarrowerThanWindow | pyrg_axi.py:315-316 | About `Axi.AddrMsb`: 3 entries on a 64-bit bus span 24 bytes, but the truncated port `[3 : 0]` reaches only 16. |
| Axi.LayoutMemoryList | pyrg_axi.py:303-346 | The memory loop equals the reference fold. |
| Axi.LayoutMemoriesFails | pyrg_axi.py:315-346 | The memory loop fails exactly when some memory's log2 fails, or its access is RW or RO. |
| Axi.LayoutMemoriesSignals | pyrg_axi.py:318-325 | Each memory adds three ports and three resets. |
| Axi.LayoutMemoriesResets | pyrg_axi.py:322-325 | The memory resets are the `_we`, `_addr` and `_wdata` zero resets of every memory, in order. |
| Axi.MemResetsOfHas | pyrg_axi.py:322-325 | Every memory's three reset lines are among them. |
| Axi.LayoutMemoriesWindows | pyrg_axi.py:331-346 | The write windows are exactly those of the WO memories. |
| Axi.GenerateAxi | pyrg_axi.py:35-412 | A run equals the reference slave: parameters, ports (fields, then clear strobes, then memories), constants, defaults, resets, decoders and windows. |
| Axi.AxiOutcome | pyrg_axi.py:103-346 | A slave is produced exactly when every ROM field has a reset value and every memory has a positive size, is neither RW nor RO, and finds the bus width positive. A block without memories is produced whatever its bus width. |
| Axi.AxiClearStrobes | pyrg_axi.py:292-295 | In a produced slave, every RC register has its clear port and its default, one default per RC register in order. |
| Axi.AxiResets | pyrg_axi.py:155-157 | In a produced slave, every non-ROM field with a reset value has its reset line. |
| Axi.AxiCmdDefaults | pyrg_axi.py:159-161 | In a produced slave, every CMD field has its `<= '0` default. |
| Axi.AxiPorts | pyrg_axi.py:144-147 | In a produced slave, every CR, CMD, SR and IRQ field has its port: an output for CR and CMD, an input for SR and IRQ, as wide as the field and its register's repeat. |
| Axi.AxiRoms | pyrg_axi.py:148-149 | In a produced slave, the ROM constants are exactly those of the ROM fields, each carrying the field's reset value. |
| Axi.AxiMemWrites | pyrg_axi.py:331-346 | In a produced slave, the memory write windows are exactly those of the WO memories. |

## Left out

- YAML loading, template reads, file writes, directory creation, paths and `print`. A UVM run is the list of files it writes, and an AXI run is the slave's contents.
- Template text, class bodies and the UVM field templates. Statements are modelled by structure, not by their text and indentation. This includes the `[i]` suffix of repeated reads, carried as the case's index.
- Column alignment (`longest`, `rjust`, `ljust`), which only pads text.
- `reg_rc_declarations`, which only feeds that column width, and the memory default lines (`MEMORIES`).
- Floating point: `math.log2` is replaced by exact integer log2. The address-port width is the exact truncation of log2(size * bus_width) - 4. Rounding of floats near integers is not modelled.
- The `$...(X)` regular expression is a parameter of the model: a function from a parameter to its captured group, if any.
- Upper-casing is ASCII only; Python's Unicode case mapping is not modelled.
- A field's `reset_value` is text. The source would raise a TypeError when joining a numeric ROM reset into its localparam line; that is not modelled.
- YAML values of the wrong type (a string `repeat`, a missing key other than a ROM `reset_value`) are not modelled.
- The UVM register classes, and the class names and descriptions in them, are modelled only as the first file written.
- `Uvm.AssignRegisterAddresses`: the increasing-address claim assumes a bus of at least 8 bits, because `int(bus_width / 8)` is 0 below that and every slot then has address 0.
