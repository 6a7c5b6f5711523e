/** The field-layout engine of `generate_axi`: for each register it gathers
    the ports, ROM constants, resets and command defaults its fields call for,
    builds the write and read statements its access mode allows, and expands
    them into one case per address slot; then it adds a clear strobe per
    read-and-clear register and the ports, resets and write window of each
    memory. The text of the generated module is not modelled, only what goes
    into it and in which order. */
module Axi {
  import opened Block
  import opened Text
  import opened Arith
  import opened Fields
  import opened Params
  import Uvm

  // ---------------------------------------------------------------------------
  // Access modes (pyrg_axi.py:118, 187, 192, 197, 223, 227)
  // ---------------------------------------------------------------------------

  predicate Writable(access: string) { access == "WO" || access == "RW" }

  /** Modes whose lone field is read back; ROM is one of them. */
  predicate FieldReadable(access: string) { access == "RO" || access == "RW" || access == "ROM" }

  /** Modes whose concatenated fields are read back; ROM is not one of them. */
  predicate ConcatReadable(access: string) { access == "RO" || access == "RW" }

  predicate ReadClear(access: string) { access == "RC" }

  // ---------------------------------------------------------------------------
  // Statements and cases
  // ---------------------------------------------------------------------------

  /** `f <= cif.wdata[range]`, or `{f_n, ..., f_1} <= cif.wdata`. */
  datatype WriteStmt = WriteField(field: string, range: BitRange) | WriteConcat(fields: seq<string>)

  /** `cif.rdata[range] = f`, the same followed by `clear_<register> <= '1`,
      `cif.rdata = {...}`, or the same followed by `clear_<register> = '1`. */
  datatype ReadStmt =
    | ReadField(range: BitRange, field: string)
    | ReadFieldClear(range: BitRange, field: string, register: string)
    | ReadConcat(fields: seq<string>)
    | ReadConcatClear(fields: seq<string>, register: string)

  /** A case of the write decoder: the address constant and its statements. */
  datatype WriteCase = WriteCase(address: string, body: seq<WriteStmt>)

  /** A case of the read decoder; for a repeated register every statement
      carries the `[index]` suffix. */
  datatype ReadCase = ReadCase(address: string, body: seq<ReadStmt>, index: Option<nat>)

  /** `reg_all_fields[::-1]` */
  function Reverse<T>(s: seq<T>): (r: seq<T>)
    ensures |r| == |s|
    ensures forall i :: 0 <= i < |s| ==> r[i] == s[|s| - 1 - i]
  {
    if s == [] then [] else Reverse(s[1..]) + [s[0]]
  }

  function NamesOf(fs: seq<Field>): (names: seq<string>)
    ensures |names| == |fs| && forall i :: 0 <= i < |fs| ==> names[i] == fs[i].name
  {
    if fs == [] then [] else NamesOf(fs[..|fs| - 1]) + [fs[|fs| - 1].name]
  }

  // ---------------------------------------------------------------------------
  // What a register's fields contribute, in field order (pyrg_axi.py:125-161)
  // ---------------------------------------------------------------------------

  function PortsOf(repeat: int, fs: seq<Field>): seq<Port>
  {
    if fs == [] then [] else PortsOf(repeat, fs[..|fs| - 1]) + FieldPorts(repeat, fs[|fs| - 1])
  }

  function RomsOf(repeat: int, fs: seq<Field>): seq<RomConstant>
    requires forall k :: 0 <= k < |fs| ==> !MissingRom(fs[k])
  {
    if fs == [] then [] else RomsOf(repeat, fs[..|fs| - 1]) + FieldRoms(repeat, fs[|fs| - 1])
  }

  function ResetsOf(fs: seq<Field>): seq<Reset>
  {
    if fs == [] then [] else ResetsOf(fs[..|fs| - 1]) + FieldResets(fs[|fs| - 1])
  }

  function CmdsOf(fs: seq<Field>): seq<string>
  {
    if fs == [] then [] else CmdsOf(fs[..|fs| - 1]) + FieldCmds(fs[|fs| - 1])
  }

  /** The index of the first ROM field without a reset value, or |fs|. */
  function FirstRomGap(fs: seq<Field>): (k: nat)
    ensures k <= |fs|
    ensures forall j :: 0 <= j < k ==> !MissingRom(fs[j])
    ensures k < |fs| ==> MissingRom(fs[k])
  {
    if fs == [] || MissingRom(fs[0]) then 0 else 1 + FirstRomGap(fs[1..])
  }

  /** A field has a reset line exactly when it has a reset value and is not a
      ROM constant; the line resets it to that value. */
  lemma {:induction false} ResetsOfFields(fs: seq<Field>)
    ensures forall r :: r in ResetsOf(fs) <==>
      (exists f :: f in fs && HasReset(f) && r == Reset(f.name, f.reset.value))
  {
    if fs != [] {
      var front := fs[..|fs| - 1];
      ResetsOfFields(front);
      assert fs == front + [fs[|fs| - 1]];
    }
  }

  /** Every CMD field, and nothing else, is set back to '0 by default. */
  lemma {:induction false} CmdsOfFields(fs: seq<Field>)
    ensures forall c :: c in CmdsOf(fs) <==> (exists f :: f in fs && KindOf(f.name) == Cmd && c == f.name)
  {
    if fs != [] {
      var front := fs[..|fs| - 1];
      CmdsOfFields(front);
      assert fs == front + [fs[|fs| - 1]];
    }
  }

  /** Every CR, CMD, SR and IRQ field, and nothing else, has a port of its own
      name, an output for CR and CMD and an input for SR and IRQ. */
  lemma {:induction false} PortsOfFields(repeat: int, fs: seq<Field>)
    ensures forall p :: p in PortsOf(repeat, fs) <==>
      (exists f :: f in fs && KindOf(f.name) in {Cr, Cmd, Sr, Irq}
         && p == Port(if KindOf(f.name) in {Cr, Cmd} then Output else Input, PortWidth(repeat, f.size), f.name))
  {
    if fs != [] {
      var front := fs[..|fs| - 1];
      PortsOfFields(repeat, front);
      assert fs == front + [fs[|fs| - 1]];
    }
  }

  /** Field f of a register repeated `repeat` times gives the ROM constant c:
      a ROM field, named and sized as the field, holding its reset value. */
  predicate RomOf(repeat: int, f: Field, c: RomConstant)
  {
    KindOf(f.name) == Rom && f.reset.Some? && c == RomConstant(PortWidth(repeat, f.size), f.name, f.reset.value)
  }

  /** Every ROM field, and nothing else, becomes a constant carrying its reset
      value. */
  lemma {:induction false} RomsOfFields(repeat: int, fs: seq<Field>)
    requires forall k :: 0 <= k < |fs| ==> !MissingRom(fs[k])
    ensures forall c :: c in RomsOf(repeat, fs) <==> exists f :: f in fs && RomOf(repeat, f, c)
  {
    if fs != [] {
      var front, last := fs[..|fs| - 1], fs[|fs| - 1];
      RomsOfFields(repeat, front);
      assert fs == front + [last];
      assert RomsOf(repeat, fs) == RomsOf(repeat, front) + FieldRoms(repeat, last);
      assert forall c :: c in FieldRoms(repeat, last) <==> RomOf(repeat, last, c);
    }
  }

  // ---------------------------------------------------------------------------
  // Statements of one register (pyrg_axi.py:170-239)
  // ---------------------------------------------------------------------------

  /** The write of a register's lone field, for WO and RW. */
  function SingleWrites(reg: Register): seq<WriteStmt>
  {
    if |reg.fields| == 1 && Writable(reg.access) then
      [WriteField(reg.fields[0].name, FieldRange(reg.fields[0].size, reg.fields[0].lsb))]
    else []
  }

  /** The read of a register's lone field: plain for RO, RW and ROM, with the
      clear strobe for RC. */
  function SingleReads(reg: Register): seq<ReadStmt>
  {
    if |reg.fields| != 1 then []
    else
      var f := reg.fields[0];
      var range := FieldRange(f.size, f.lsb);
      if FieldReadable(reg.access) then [ReadField(range, f.name)]
      else if ReadClear(reg.access) then [ReadFieldClear(range, f.name, reg.name)]
      else []
  }

  /** The names the field loop adds to `reg_all_fields`: all of them for a
      register that is not RC and does not have exactly one field. */
  function MultiFieldNames(reg: Register): seq<string>
  {
    if |reg.fields| != 1 && !ReadClear(reg.access) then NamesOf(reg.fields) else []
  }

  /** `reg_rc_accessed` after the field loop: an RC register's entry is
      restarted and, when it does not have exactly one field, lists its fields. */
  function RcAfterFields(rc: map<string, seq<string>>, reg: Register): map<string, seq<string>>
  {
    if ReadClear(reg.access) then rc[reg.name := if |reg.fields| != 1 then NamesOf(reg.fields) else []] else rc
  }

  /** All writes of a register, given the collected `reg_all_fields`. */
  function RegisterWrites(reg: Register, pending: seq<string>): seq<WriteStmt>
  {
    SingleWrites(reg)
    + (if |pending| > 0 && Writable(reg.access) then [WriteConcat(Reverse(pending))] else [])
  }

  /** All reads of a register, given the collected `reg_all_fields` and
      `reg_rc_accessed`. The entry is looked up by name, so a register named
      like an earlier RC register also gets that register's clearing read. */
  function RegisterReads(reg: Register, pending: seq<string>, rc: map<string, seq<string>>): seq<ReadStmt>
  {
    SingleReads(reg)
    + (if |pending| > 0 && ConcatReadable(reg.access) then [ReadConcat(Reverse(pending))] else [])
    + (if reg.name in rc && |rc[reg.name]| > 0 then [ReadConcatClear(Reverse(rc[reg.name]), reg.name)] else [])
  }

  /** Writes are emitted only for WO and RW registers. */
  lemma WritesNeedWritable(reg: Register, pending: seq<string>)
    ensures RegisterWrites(reg, pending) != [] <==>
      Writable(reg.access) && (|reg.fields| == 1 || |pending| > 0)
  {
  }

  /** A register with several fields (not RC) is written and read as the
      concatenation of its fields, last field first, so the first field lands
      in the lowest bits. RegisterDecoders shows that the register loop
      passes exactly these names, so nothing of another register is in it. */
  lemma ConcatIsReversed(reg: Register, rc: map<string, seq<string>>)
    requires |reg.fields| > 1 && !ReadClear(reg.access)
    ensures var c := Reverse(MultiFieldNames(reg));
      && |c| == |reg.fields|
      && (forall k :: 0 <= k < |c| ==> c[k] == reg.fields[|reg.fields| - 1 - k].name)
      && (RegisterWrites(reg, MultiFieldNames(reg)) == if Writable(reg.access) then [WriteConcat(c)] else [])
      && (ReadConcat(c) in RegisterReads(reg, MultiFieldNames(reg), rc) <==> ConcatReadable(reg.access))
  {
    var c := Reverse(MultiFieldNames(reg));
    assert MultiFieldNames(reg) == NamesOf(reg.fields);
    assert SingleWrites(reg) == [] && SingleReads(reg) == [];
    var tail := if reg.name in rc && |rc[reg.name]| > 0 then [ReadConcatClear(Reverse(rc[reg.name]), reg.name)] else [];
    if ConcatReadable(reg.access) {
      assert RegisterReads(reg, MultiFieldNames(reg), rc) == [ReadConcat(c)] + tail;
    } else {
      assert RegisterReads(reg, MultiFieldNames(reg), rc) == tail;
    }
  }

  /** Every read of a read-and-clear register raises its `clear_<name>` strobe,
      and such a register is never written. With several fields the clearing
      read lists them last field first. */
  lemma ReadClearReads(reg: Register, rc: map<string, seq<string>>)
    requires ReadClear(reg.access)
    ensures var rcAfter := RcAfterFields(rc, reg);
      var rd := RegisterReads(reg, MultiFieldNames(reg), rcAfter);
      && RegisterWrites(reg, MultiFieldNames(reg)) == []
      && (forall s :: s in rd ==>
            (s.ReadFieldClear? || s.ReadConcatClear?) && s.register == reg.name)
      && (|reg.fields| == 1 ==> rd == SingleReads(reg) && |rd| == 1)
      && (|reg.fields| > 1 ==> rd == [ReadConcatClear(Reverse(NamesOf(reg.fields)), reg.name)])
  {
    assert MultiFieldNames(reg) == [];
  }

  // ---------------------------------------------------------------------------
  // Cases per address slot (pyrg_axi.py:243-284)
  // ---------------------------------------------------------------------------

  /** `NAME_ADDR`, or `NAME_i_ADDR` for index i, with NAME upper-cased. The
      AXI generator builds this name itself, as `Uvm.Symbol` does for the
      address package; CasesFollowSlots shows the two agree. */
  function CaseLabel(name: string, index: Option<nat>): string
  {
    match index
    case None => Upper(name) + "_ADDR"
    case Some(i) => Upper(name) + "_" + Decimal(i) + "_ADDR"
  }

  function WriteCases(reg: Register, body: seq<WriteStmt>): seq<WriteCase>
  {
    if body == [] then []
    else if reg.repeat > 1 then
      seq(reg.repeat, i requires 0 <= i < reg.repeat => WriteCase(CaseLabel(reg.name, Some(i)), body))
    else [WriteCase(CaseLabel(reg.name, None), body)]
  }

  function ReadCases(reg: Register, body: seq<ReadStmt>): seq<ReadCase>
  {
    if body == [] then []
    else if reg.repeat > 1 then
      seq(reg.repeat, i requires 0 <= i < reg.repeat => ReadCase(CaseLabel(reg.name, Some(i)), body, Some(i)))
    else [ReadCase(CaseLabel(reg.name, None), body, None)]
  }

  /** The write loop of pyrg_axi.py:247-265: nothing without statements,
      otherwise one case per index in ascending order, or a single case. */
  method ExpandWrites(reg: Register, body: seq<WriteStmt>) returns (cases: seq<WriteCase>)
    ensures cases == WriteCases(reg, body)
  {
    cases := [];
    if |body| > 0 {
      if reg.repeat > 1 {
        for i := 0 to reg.repeat
          invariant |cases| == i
          invariant forall k :: 0 <= k < i ==> cases[k] == WriteCase(CaseLabel(reg.name, Some(k)), body)
        {
          cases := cases + [WriteCase(CaseLabel(reg.name, Some(i)), body)];
        }
      } else {
        cases := [WriteCase(CaseLabel(reg.name, None), body)];
      }
    }
  }

  /** The read loop of pyrg_axi.py:267-284; each repeated case carries its
      index as the `[i]` suffix of its statements. */
  method ExpandReads(reg: Register, body: seq<ReadStmt>) returns (cases: seq<ReadCase>)
    ensures cases == ReadCases(reg, body)
  {
    cases := [];
    if |body| > 0 {
      if reg.repeat > 1 {
        for i := 0 to reg.repeat
          invariant |cases| == i
          invariant forall k :: 0 <= k < i ==> cases[k] == ReadCase(CaseLabel(reg.name, Some(k)), body, Some(k))
        {
          cases := cases + [ReadCase(CaseLabel(reg.name, Some(i)), body, Some(i))];
        }
      } else {
        cases := [ReadCase(CaseLabel(reg.name, None), body, None)];
      }
    }
  }

  /** The decoder cases of a register are its address slots of the UVM
      address package, one per slot and in slot order, under the same
      constant names, whatever the register's access: a register with write
      statements has a write case per slot, the same for every slot, and one
      with read statements a read case per slot carrying the slot's repeat
      index; a register without statements of a kind has no case of it. */
  lemma CasesFollowSlots(reg: Register, wr: seq<WriteStmt>, rd: seq<ReadStmt>)
    ensures |WriteCases(reg, wr)| == if wr == [] then 0 else Uvm.SlotCount(reg)
    ensures |ReadCases(reg, rd)| == if rd == [] then 0 else Uvm.SlotCount(reg)
    ensures wr != [] ==> forall i :: 0 <= i < Uvm.SlotCount(reg) ==>
      WriteCases(reg, wr)[i] == WriteCase(Uvm.Symbol(Uvm.SlotOf(reg, i)), wr)
    ensures rd != [] ==> forall i :: 0 <= i < Uvm.SlotCount(reg) ==>
      ReadCases(reg, rd)[i] == ReadCase(Uvm.Symbol(Uvm.SlotOf(reg, i)), rd, Uvm.SlotOf(reg, i).index)
  {
  }

  // ---------------------------------------------------------------------------
  // The register loop (pyrg_axi.py:103-284)
  // ---------------------------------------------------------------------------

  /** What the register loop has built so far: the lists `rtl_ports`,
      `reg_rom_declarations`, `rtl_resets`, `rtl_cmd_registers`, the write and
      read decoders, `all_rc_registers`, the map `reg_rc_accessed` and the
      accumulator `reg_all_fields`. */
  datatype Acc = Acc(
    ports: seq<Port>,
    roms: seq<RomConstant>,
    resets: seq<Reset>,
    cmds: seq<string>,
    writeDecoder: seq<WriteCase>,
    readDecoder: seq<ReadCase>,
    rcRegisters: seq<string>,
    rcAccessed: map<string, seq<string>>,
    pending: seq<string>)

  const Start := Acc([], [], [], [], [], [], [], map[], [])

  /** The field loop of one register (pyrg_axi.py:125-210): a ROM field
      without a reset value stops the run; otherwise each field's port, ROM
      constant, reset and CMD default are appended, an RC register is listed
      and its `reg_rc_accessed` entry restarted, and the names of a register
      with several fields are collected. */
  function FieldsStep(st: Acc, reg: Register): Result<Acc>
  {
    var gap := FirstRomGap(reg.fields);
    if gap < |reg.fields| then Err(MissingRomReset(reg.fields[gap].name))
    else
      Ok(st.(
        ports := st.ports + PortsOf(reg.repeat, reg.fields),
        roms := st.roms + RomsOf(reg.repeat, reg.fields),
        resets := st.resets + ResetsOf(reg.fields),
        cmds := st.cmds + CmdsOf(reg.fields),
        rcRegisters := st.rcRegisters + (if ReadClear(reg.access) then [reg.name] else []),
        rcAccessed := RcAfterFields(st.rcAccessed, reg),
        pending := st.pending + MultiFieldNames(reg)))
  }

  /** One pass of the register loop: the field loop, then the register's write
      and read cases; `reg_all_fields` is empty afterwards. */
  function RegisterStep(st: Acc, reg: Register): Result<Acc>
  {
    match FieldsStep(st, reg)
    case Err(e) => Err(e)
    case Ok(mid) =>
      Ok(mid.(
        writeDecoder := mid.writeDecoder + WriteCases(reg, RegisterWrites(reg, mid.pending)),
        readDecoder := mid.readDecoder + ReadCases(reg, RegisterReads(reg, mid.pending, mid.rcAccessed)),
        pending := []))
  }

  /** The register loop over a list of registers. */
  function LayoutRegisters(regs: seq<Register>): Result<Acc>
  {
    if regs == [] then Ok(Start)
    else
      match LayoutRegisters(regs[..|regs| - 1])
      case Err(e) => Err(e)
      case Ok(st) => RegisterStep(st, regs[|regs| - 1])
  }

  /** The gathers over the fields up to and including the i-th. */
  lemma GathersStep(repeat: int, fs: seq<Field>, i: nat)
    requires i < |fs| && forall k :: 0 <= k <= i ==> !MissingRom(fs[k])
    ensures PortsOf(repeat, fs[..i + 1]) == PortsOf(repeat, fs[..i]) + FieldPorts(repeat, fs[i])
    ensures RomsOf(repeat, fs[..i + 1]) == RomsOf(repeat, fs[..i]) + FieldRoms(repeat, fs[i])
    ensures ResetsOf(fs[..i + 1]) == ResetsOf(fs[..i]) + FieldResets(fs[i])
    ensures CmdsOf(fs[..i + 1]) == CmdsOf(fs[..i]) + FieldCmds(fs[i])
    ensures NamesOf(fs[..i + 1]) == NamesOf(fs[..i]) + [fs[i].name]
  {
    assert fs[..i + 1][..i] == fs[..i];
  }

  /** The lists one field adds to (pyrg_axi.py:144-161): a port for CR, CMD,
      SR and IRQ, a constant for ROM, a reset line, a CMD default. */
  method AddField(repeat: int, f: Field) returns (ports: seq<Port>, roms: seq<RomConstant>, resets: seq<Reset>, cmds: seq<string>)
    requires !MissingRom(f)
    ensures ports == FieldPorts(repeat, f) && roms == FieldRoms(repeat, f)
    ensures resets == FieldResets(f) && cmds == FieldCmds(f)
  {
    ports, roms, resets, cmds := [], [], [], [];
    var kind := KindOf(f.name);
    var width := PortWidth(repeat, f.size);
    if kind == Cr || kind == Cmd {
      ports := [Port(Output, width, f.name)];
    } else if kind == Sr || kind == Irq {
      ports := [Port(Input, width, f.name)];
    } else if kind == Rom {
      roms := [RomConstant(width, f.name, f.reset.value)];
    }
    if f.reset.Some? && kind != Rom {
      resets := [Reset(f.name, f.reset.value)];
    }
    if kind == Cmd {
      cmds := [f.name];
    }
  }

  /** The generator's lists after the first i fields of a register. */
  function FieldsUpTo(st: Acc, reg: Register, i: nat): Acc
    requires i <= |reg.fields| && forall k :: 0 <= k < i ==> !MissingRom(reg.fields[k])
  {
    var fs := reg.fields[..i];
    st.(
      ports := st.ports + PortsOf(reg.repeat, fs),
      roms := st.roms + RomsOf(reg.repeat, fs),
      resets := st.resets + ResetsOf(fs),
      cmds := st.cmds + CmdsOf(fs),
      rcRegisters := st.rcRegisters + (if ReadClear(reg.access) then [reg.name] else []),
      rcAccessed := if ReadClear(reg.access)
        then st.rcAccessed[reg.name := if |reg.fields| != 1 then NamesOf(fs) else []]
        else st.rcAccessed,
      pending := st.pending + if |reg.fields| != 1 && !ReadClear(reg.access) then NamesOf(fs) else [])
  }

  /** One more field: its lists are appended and, for a register with
      several fields, its name goes to `reg_rc_accessed` (RC) or to
      `reg_all_fields` (otherwise). */
  lemma FieldsUpToStep(st: Acc, reg: Register, i: nat)
    requires i < |reg.fields| && forall k :: 0 <= k <= i ==> !MissingRom(reg.fields[k])
    ensures var cur := FieldsUpTo(st, reg, i);
      var f := reg.fields[i];
      var many := |reg.fields| != 1;
      FieldsUpTo(st, reg, i + 1) == cur.(
        ports := cur.ports + FieldPorts(reg.repeat, f),
        roms := cur.roms + FieldRoms(reg.repeat, f),
        resets := cur.resets + FieldResets(f),
        cmds := cur.cmds + FieldCmds(f),
        rcAccessed := if many && ReadClear(reg.access) then cur.rcAccessed[reg.name := cur.rcAccessed[reg.name] + [f.name]] else cur.rcAccessed,
        pending := if many && !ReadClear(reg.access) then cur.pending + [f.name] else cur.pending)
  {
    FieldsUpToListsStep(st, reg, i);
    FieldsUpToNamesStep(st, reg, i);
  }

  lemma FieldsUpToListsStep(st: Acc, reg: Register, i: nat)
    requires i < |reg.fields| && forall k :: 0 <= k <= i ==> !MissingRom(reg.fields[k])
    ensures FieldsUpTo(st, reg, i + 1).ports == FieldsUpTo(st, reg, i).ports + FieldPorts(reg.repeat, reg.fields[i])
    ensures FieldsUpTo(st, reg, i + 1).roms == FieldsUpTo(st, reg, i).roms + FieldRoms(reg.repeat, reg.fields[i])
    ensures FieldsUpTo(st, reg, i + 1).resets == FieldsUpTo(st, reg, i).resets + FieldResets(reg.fields[i])
    ensures FieldsUpTo(st, reg, i + 1).cmds == FieldsUpTo(st, reg, i).cmds + FieldCmds(reg.fields[i])
  {
    var fs, f := reg.fields, reg.fields[i];
    GathersStep(reg.repeat, fs, i);
    Uvm.AppendAssoc(st.ports, PortsOf(reg.repeat, fs[..i]), FieldPorts(reg.repeat, f));
    Uvm.AppendAssoc(st.roms, RomsOf(reg.repeat, fs[..i]), FieldRoms(reg.repeat, f));
    Uvm.AppendAssoc(st.resets, ResetsOf(fs[..i]), FieldResets(f));
    Uvm.AppendAssoc(st.cmds, CmdsOf(fs[..i]), FieldCmds(f));
  }

  lemma FieldsUpToNamesStep(st: Acc, reg: Register, i: nat)
    requires i < |reg.fields| && forall k :: 0 <= k <= i ==> !MissingRom(reg.fields[k])
    ensures var cur, next := FieldsUpTo(st, reg, i), FieldsUpTo(st, reg, i + 1);
      var f := reg.fields[i];
      var many := |reg.fields| != 1;
      && next.rcRegisters == cur.rcRegisters
      && next.rcAccessed == (if many && ReadClear(reg.access) then cur.rcAccessed[reg.name := cur.rcAccessed[reg.name] + [f.name]] else cur.rcAccessed)
      && next.pending == (if many && !ReadClear(reg.access) then cur.pending + [f.name] else cur.pending)
  {
    assert NamesOf(reg.fields[..i + 1]) == NamesOf(reg.fields[..i]) + [reg.fields[i].name] by {
      assert reg.fields[..i + 1][..i] == reg.fields[..i];
    }
  }

  /** The field loop finished is FieldsStep's result. */
  lemma FieldsUpToAll(st: Acc, reg: Register)
    requires forall k :: 0 <= k < |reg.fields| ==> !MissingRom(reg.fields[k])
    ensures FieldsStep(st, reg) == Ok(FieldsUpTo(st, reg, |reg.fields|))
  {
    assert FirstRomGap(reg.fields) == |reg.fields|;
    assert reg.fields[..|reg.fields|] == reg.fields;
  }

  /** The field loop stops at the first ROM field without a reset value. */
  lemma FieldsStepFails(st: Acc, reg: Register, i: nat)
    requires i < |reg.fields| && MissingRom(reg.fields[i])
    requires forall k :: 0 <= k < i ==> !MissingRom(reg.fields[k])
    ensures FieldsStep(st, reg) == Err(MissingRomReset(reg.fields[i].name))
  {
    assert FirstRomGap(reg.fields) == i;
  }

  /** The write and read statements of a register's only field
      (pyrg_axi.py:184-199). */
  method LoneField(reg: Register) returns (regWrites: seq<WriteStmt>, regReads: seq<ReadStmt>)
    requires |reg.fields| == 1
    ensures regWrites == SingleWrites(reg) && regReads == SingleReads(reg)
  {
    var f := reg.fields[0];
    var range := FieldRange(f.size, f.lsb);
    regWrites, regReads := [], [];
    if Writable(reg.access) {
      regWrites := regWrites + [WriteField(f.name, range)];
    }
    if FieldReadable(reg.access) {
      regReads := regReads + [ReadField(range, f.name)];
    }
    if ReadClear(reg.access) {
      regReads := regReads + [ReadFieldClear(range, f.name, reg.name)];
    }
  }

  /** One pass of the field loop for a field that does not stop the run: its
      lists, and its name in `reg_rc_accessed` or `reg_all_fields` when the
      register has several fields. */
  method NextField(st: Acc, reg: Register, i: nat, cur: Acc) returns (next: Acc)
    requires i < |reg.fields| && forall k :: 0 <= k <= i ==> !MissingRom(reg.fields[k])
    requires cur == FieldsUpTo(st, reg, i)
    ensures next == FieldsUpTo(st, reg, i + 1)
  {
    var f := reg.fields[i];
    FieldsUpToStep(st, reg, i);
    var fieldPorts, fieldRoms, fieldResets, fieldCmds := AddField(reg.repeat, f);
    next := cur.(ports := cur.ports + fieldPorts, roms := cur.roms + fieldRoms,
                 resets := cur.resets + fieldResets, cmds := cur.cmds + fieldCmds);
    if |reg.fields| != 1 && ReadClear(reg.access) {
      next := next.(rcAccessed := next.rcAccessed[reg.name := next.rcAccessed[reg.name] + [f.name]]);
    }
    if |reg.fields| != 1 && !ReadClear(reg.access) {
      next := next.(pending := next.pending + [f.name]);
    }
  }

  /** The field loop; it also returns the write and read of a lone field. */
  method LayoutFields(st: Acc, reg: Register) returns (r: Result<Acc>, regWrites: seq<WriteStmt>, regReads: seq<ReadStmt>)
    ensures r == FieldsStep(st, reg)
    ensures r.Ok? ==> regWrites == SingleWrites(reg) && regReads == SingleReads(reg)
  {
    var cur := st;
    regWrites, regReads := [], [];
    if ReadClear(reg.access) {
      cur := cur.(rcRegisters := cur.rcRegisters + [reg.name], rcAccessed := cur.rcAccessed[reg.name := []]);
    }
    assert reg.fields[..0] == [];
    for i := 0 to |reg.fields|
      invariant forall k :: 0 <= k < i ==> !MissingRom(reg.fields[k])
      invariant cur == FieldsUpTo(st, reg, i)
      invariant regWrites == if i == 1 then SingleWrites(reg) else []
      invariant regReads == if i == 1 then SingleReads(reg) else []
    {
      var f := reg.fields[i];
      if MissingRom(f) {
        FieldsStepFails(st, reg, i);
        r := Err(MissingRomReset(f.name));
        return;
      }
      cur := NextField(st, reg, i, cur);
      if |reg.fields| == 1 {
        regWrites, regReads := LoneField(reg);
      }
    }
    FieldsUpToAll(st, reg);
    r := Ok(cur);
  }

  /** One register: the field loop, then the concatenated and read-and-clear
      statements, then the cases per address slot. */
  method LayoutRegister(st: Acc, reg: Register) returns (r: Result<Acc>)
    ensures r == RegisterStep(st, reg)
  {
    var fieldsDone, regWrites, regReads := LayoutFields(st, reg);
    if fieldsDone.Err? {
      return Err(fieldsDone.error);
    }
    var mid := fieldsDone.value;
    var pending := mid.pending;
    if |pending| > 0 {
      var concatenated := Reverse(pending);
      if Writable(reg.access) {
        regWrites := regWrites + [WriteConcat(concatenated)];
      }
      if ConcatReadable(reg.access) {
        regReads := regReads + [ReadConcat(concatenated)];
      }
      pending := [];
    }
    if reg.name in mid.rcAccessed && |mid.rcAccessed[reg.name]| > 0 {
      regReads := regReads + [ReadConcatClear(Reverse(mid.rcAccessed[reg.name]), reg.name)];
    }
    assert pending == [];
    assert regWrites == RegisterWrites(reg, mid.pending);
    assert regReads == RegisterReads(reg, mid.pending, mid.rcAccessed);
    var writeCases := ExpandWrites(reg, regWrites);
    var readCases := ExpandReads(reg, regReads);
    return Ok(mid.(writeDecoder := mid.writeDecoder + writeCases, readDecoder := mid.readDecoder + readCases,
                   pending := pending));
  }

  /** Once the register loop has stopped, later registers do not change the
      error. */
  lemma {:induction false} LayoutRegistersStops(regs: seq<Register>, j: nat, e: Error)
    requires j <= |regs| && LayoutRegisters(regs[..j]) == Err(e)
    ensures LayoutRegisters(regs) == Err(e)
    decreases |regs| - j
  {
    if j < |regs| {
      assert regs[..j + 1][..j] == regs[..j];
      LayoutRegistersStops(regs, j + 1, e);
    } else {
      assert regs[..j] == regs;
    }
  }

  /** The register loop runs to the end exactly when no register has a ROM
      field without a reset value. */
  lemma {:induction false} LayoutRegistersFails(regs: seq<Register>)
    ensures LayoutRegisters(regs).Err? <==>
      exists j, k :: 0 <= j < |regs| && 0 <= k < |regs[j].fields| && MissingRom(regs[j].fields[k])
  {
    if regs != [] {
      var front := regs[..|regs| - 1];
      var last := regs[|regs| - 1];
      LayoutRegistersFails(front);
      if exists j, k :: 0 <= j < |regs| && 0 <= k < |regs[j].fields| && MissingRom(regs[j].fields[k]) {
        var j, k :| 0 <= j < |regs| && 0 <= k < |regs[j].fields| && MissingRom(regs[j].fields[k]);
        if j < |regs| - 1 {
          assert front[j] == regs[j];
        }
      }
      if exists j, k :: 0 <= j < |front| && 0 <= k < |front[j].fields| && MissingRom(front[j].fields[k]) {
        var j, k :| 0 <= j < |front| && 0 <= k < |front[j].fields| && MissingRom(front[j].fields[k]);
        assert regs[j] == front[j];
      }
    }
  }

  /** After any number of registers: the read-and-clear list names exactly the
      RC registers in order, every field's port, ROM constant, reset and CMD
      default is there in register and field order, and `reg_all_fields` is
      empty again. */
  lemma {:induction false} LayoutRegistersLists(regs: seq<Register>)
    requires LayoutRegisters(regs).Ok?
    ensures var st := LayoutRegisters(regs).value;
      && st.pending == []
      && st.rcRegisters == RcNames(regs)
      && st.ports == PortsOfRegisters(regs)
      && RomsComplete(regs) && st.roms == RomsOfRegisters(regs)
      && st.resets == ResetsOfRegisters(regs)
      && st.cmds == CmdsOfRegisters(regs)
  {
    LayoutRegistersFails(regs);
    if regs != [] {
      LayoutRegistersLists(regs[..|regs| - 1]);
    }
  }

  /** One pass of the register loop appends the cases of the register's own
      statements: the pending names are those its field loop collected, as
      the previous pass left `reg_all_fields` empty, and the read-and-clear
      names are its own `reg_rc_accessed` entry. */
  lemma RegisterDecoders(regs: seq<Register>)
    requires regs != [] && LayoutRegisters(regs).Ok?
    ensures LayoutRegisters(regs[..|regs| - 1]).Ok?
    ensures var reg, before := regs[|regs| - 1], LayoutRegisters(regs[..|regs| - 1]).value;
      var st := LayoutRegisters(regs).value;
      && st.writeDecoder == before.writeDecoder + WriteCases(reg, RegisterWrites(reg, MultiFieldNames(reg)))
      && st.readDecoder == before.readDecoder
           + ReadCases(reg, RegisterReads(reg, MultiFieldNames(reg), RcAfterFields(before.rcAccessed, reg)))
  {
    var front := regs[..|regs| - 1];
    LayoutRegistersLists(front);
    assert LayoutRegisters(front).value.pending + MultiFieldNames(regs[|regs| - 1]) == MultiFieldNames(regs[|regs| - 1]);
  }

  /** The names of the RC registers, in order. */
  function RcNames(regs: seq<Register>): (names: seq<string>)
    ensures forall n :: n in names <==> exists j :: 0 <= j < |regs| && ReadClear(regs[j].access) && n == regs[j].name
  {
    if regs == [] then []
    else
      var front := regs[..|regs| - 1];
      var last := regs[|regs| - 1];
      assert forall j :: 0 <= j < |front| ==> regs[j] == front[j];
      RcNames(front) + (if ReadClear(last.access) then [last.name] else [])
  }

  function ResetsOfRegisters(regs: seq<Register>): seq<Reset>
  {
    if regs == [] then [] else ResetsOfRegisters(regs[..|regs| - 1]) + ResetsOf(regs[|regs| - 1].fields)
  }

  function CmdsOfRegisters(regs: seq<Register>): seq<string>
  {
    if regs == [] then [] else CmdsOfRegisters(regs[..|regs| - 1]) + CmdsOf(regs[|regs| - 1].fields)
  }

  function PortsOfRegisters(regs: seq<Register>): seq<Port>
  {
    if regs == [] then [] else PortsOfRegisters(regs[..|regs| - 1]) + PortsOf(regs[|regs| - 1].repeat, regs[|regs| - 1].fields)
  }

  /** No register has a ROM field without a reset value. */
  predicate RomsComplete(regs: seq<Register>)
  {
    forall j, k :: 0 <= j < |regs| && 0 <= k < |regs[j].fields| ==> !MissingRom(regs[j].fields[k])
  }

  function RomsOfRegisters(regs: seq<Register>): seq<RomConstant>
    requires RomsComplete(regs)
  {
    if regs == [] then []
    else
      var front := regs[..|regs| - 1];
      assert forall j :: 0 <= j < |front| ==> front[j] == regs[j];
      RomsOfRegisters(front) + RomsOf(regs[|regs| - 1].repeat, regs[|regs| - 1].fields)
  }

  // ---------------------------------------------------------------------------
  // Read-and-clear strobes (pyrg_axi.py:292-295)
  // ---------------------------------------------------------------------------

  function ClearPorts(rcs: seq<string>): (ps: seq<Port>)
    ensures |ps| == |rcs| && forall i :: 0 <= i < |rcs| ==> ps[i] == Port(Output, " ", "clear_" + rcs[i])
  {
    if rcs == [] then [] else ClearPorts(rcs[..|rcs| - 1]) + [Port(Output, " ", "clear_" + rcs[|rcs| - 1])]
  }

  function ClearDefaults(rcs: seq<string>): (ds: seq<string>)
    ensures |ds| == |rcs| && forall i :: 0 <= i < |rcs| ==> ds[i] == "clear_" + rcs[i]
  {
    if rcs == [] then [] else ClearDefaults(rcs[..|rcs| - 1]) + ["clear_" + rcs[|rcs| - 1]]
  }

  // ---------------------------------------------------------------------------
  // Memories (pyrg_axi.py:303-346)
  // ---------------------------------------------------------------------------

  /** `%d` of `log2(size) - 1 + log2(bus_width / 8)`, which is
      log2(size * bus_width) - 4, truncated toward zero: the floor for values
      of at least 0 or exact powers of two, one more than the floor for the
      other negative values. */
  function AddrMsb(size: int, busWidth: int): int
    requires size >= 1 && busWidth >= 1
  {
    var n := size * busWidth;
    MulMonotone(1, size, busWidth);
    if n >= 16 || IsPow2(n) then FloorLog2(n) - 4 else FloorLog2(n) - 3
  }

  /** For a memory of 2^a entries on a bus of 2^b bits with b >= 3, the address
      port is [a + b - 4 : 0]: just the bits that index a byte of the memory's
      size * bus_bytes bytes. */
  lemma AddrMsbOfPowers(a: nat, b: nat)
    requires b >= 3
    ensures AddrMsb(Pow2(a), Pow2(b)) == a + b - 4
    ensures Pow2(a + b - 3) == Pow2(a) * (Pow2(b) / 8)
  {
    var n := Pow2(a + b);
    Pow2Add(a, b);
    FloorLog2Exact(a + b);
    assert IsPow2(n);
    BusBytesOfPower(b);
    Pow2Add(a, b - 3);
  }

  /** 2^b bits are 2^(b-3) bytes. */
  lemma BusBytesOfPower(b: nat)
    requires b >= 3
    ensures Pow2(b) / 8 == Pow2(b - 3)
  {
    Pow2Add(3, b - 3);
    assert Pow2(3) == 8;
    assert Pow2(b) == 8 * Pow2(b - 3);
  }

  /** The address port of a memory that is not a power of two in size can be
      narrower than its window: 3 entries on a 64-bit bus span 24 bytes, but
      the port is [3 : 0], 16 byte addresses. */
  lemma AddrPortNarrowerThanWindow()
    ensures AddrMsb(3, 64) == 3
    ensures Pow2(AddrMsb(3, 64) + 1) < 3 * (64 / 8)
  {
    assert FloorLog2(192) == 7 by {
      assert Pow2(7) == 128;
    }
  }

  function AddrWidth(size: int, busWidth: int): string
    requires size >= 1 && busWidth >= 1
  {
    "[" + IntToString(AddrMsb(size, busWidth)) + " : 0]"
  }

  function DataWidth(width: int): string
  {
    "[" + IntToString(width - 1) + " : 0]"
  }

  /** The write window of a memory: the address range it decodes and the
      slices it drives. */
  datatype MemWrite = MemWrite(memory: string, baseSymbol: string, highSymbol: string, addrWidth: string, dataWidth: string)

  /** `log2` of the bus bytes or of the size fails on a non-positive number. */
  predicate MathFails(m: Memory, busWidth: int)
  {
    busWidth < 1 || m.size < 1
  }

  /** Only write-only memories are supported. */
  predicate Unsupported(m: Memory)
  {
    m.access == "RW" || m.access == "RO"
  }

  function MemPorts(m: Memory, busWidth: int): seq<Port>
    requires !MathFails(m, busWidth)
  {
    [Port(Output, " ", m.name + "_we"),
     Port(Output, AddrWidth(m.size, busWidth), m.name + "_addr"),
     Port(Output, DataWidth(m.width), m.name + "_wdata")]
  }

  function MemResets(m: Memory): seq<Reset>
  {
    [Reset(m.name + "_we", "0"), Reset(m.name + "_addr", "0"), Reset(m.name + "_wdata", "0")]
  }

  function MemWindow(blockName: string, m: Memory, busWidth: int): MemWrite
    requires !MathFails(m, busWidth)
  {
    MemWrite(m.name,
             Upper(blockName) + "_" + Upper(m.name) + "_BASE_ADDR",
             Upper(blockName) + "_" + Upper(m.name) + "_HIGH_ADDR",
             AddrWidth(m.size, busWidth), DataWidth(m.width))
  }

  datatype MemAcc = MemAcc(ports: seq<Port>, resets: seq<Reset>, windows: seq<MemWrite>)

  /** The memory loop: each memory adds three ports and three resets and, for
      RW and WO, a write window; an RW or RO memory then stops the run. */
  function LayoutMemories(busWidth: int, blockName: string, mems: seq<Memory>): Result<MemAcc>
  {
    if mems == [] then Ok(MemAcc([], [], []))
    else
      match LayoutMemories(busWidth, blockName, mems[..|mems| - 1])
      case Err(e) => Err(e)
      case Ok(acc) =>
        var m := mems[|mems| - 1];
        if MathFails(m, busWidth) then Err(MathDomain(m.name))
        else if Unsupported(m) then Err(UnsupportedMemoryAccess(m.name))
        else Ok(MemAcc(acc.ports + MemPorts(m, busWidth), acc.resets + MemResets(m),
                       acc.windows + (if m.access == "RW" || m.access == "WO" then [MemWindow(blockName, m, busWidth)] else [])))
  }

  lemma {:induction false} LayoutMemoriesStops(busWidth: int, blockName: string, mems: seq<Memory>, j: nat, e: Error)
    requires j <= |mems| && LayoutMemories(busWidth, blockName, mems[..j]) == Err(e)
    ensures LayoutMemories(busWidth, blockName, mems) == Err(e)
    decreases |mems| - j
  {
    if j < |mems| {
      assert mems[..j + 1][..j] == mems[..j];
      LayoutMemoriesStops(busWidth, blockName, mems, j + 1, e);
    } else {
      assert mems[..j] == mems;
    }
  }

  /** The memory loop fails exactly when some memory's log2 fails or its
      access is RW or RO. */
  lemma {:induction false} LayoutMemoriesFails(busWidth: int, blockName: string, mems: seq<Memory>)
    ensures LayoutMemories(busWidth, blockName, mems).Err? <==>
      exists i :: 0 <= i < |mems| && (MathFails(mems[i], busWidth) || Unsupported(mems[i]))
  {
    if mems != [] {
      var front := mems[..|mems| - 1];
      LayoutMemoriesFails(busWidth, blockName, front);
      LayoutMemoriesErrStep(busWidth, blockName, mems);
      if exists i :: 0 <= i < |mems| && (MathFails(mems[i], busWidth) || Unsupported(mems[i])) {
        var i :| 0 <= i < |mems| && (MathFails(mems[i], busWidth) || Unsupported(mems[i]));
        if i < |front| {
          assert MathFails(front[i], busWidth) || Unsupported(front[i]);
        }
      }
      if exists i :: 0 <= i < |front| && (MathFails(front[i], busWidth) || Unsupported(front[i])) {
        var i :| 0 <= i < |front| && (MathFails(front[i], busWidth) || Unsupported(front[i]));
        assert mems[i] == front[i];
      }
    }
  }

  lemma LayoutMemoriesErrStep(busWidth: int, blockName: string, mems: seq<Memory>)
    requires mems != []
    ensures LayoutMemories(busWidth, blockName, mems).Err? <==>
      LayoutMemories(busWidth, blockName, mems[..|mems| - 1]).Err?
      || MathFails(mems[|mems| - 1], busWidth) || Unsupported(mems[|mems| - 1])
  {
  }

  /** A memory loop that does not fail did not fail on the memories before the
      last, and the last one appended its signals and window. */
  lemma LayoutMemoriesLast(busWidth: int, blockName: string, mems: seq<Memory>)
    requires mems != [] && LayoutMemories(busWidth, blockName, mems).Ok?
    ensures LayoutMemories(busWidth, blockName, mems[..|mems| - 1]).Ok?
    ensures !MathFails(mems[|mems| - 1], busWidth) && !Unsupported(mems[|mems| - 1])
    ensures LayoutMemories(busWidth, blockName, mems).value.ports
      == LayoutMemories(busWidth, blockName, mems[..|mems| - 1]).value.ports + MemPorts(mems[|mems| - 1], busWidth)
    ensures LayoutMemories(busWidth, blockName, mems).value.resets
      == LayoutMemories(busWidth, blockName, mems[..|mems| - 1]).value.resets + MemResets(mems[|mems| - 1])
    ensures LayoutMemories(busWidth, blockName, mems).value.windows
      == LayoutMemories(busWidth, blockName, mems[..|mems| - 1]).value.windows
         + (if mems[|mems| - 1].access == "WO" then [MemWindow(blockName, mems[|mems| - 1], busWidth)] else [])
  {
  }

  lemma LayoutMemoriesExtend(busWidth: int, blockName: string, mems: seq<Memory>, k: nat)
    requires k < |mems| && LayoutMemories(busWidth, blockName, mems[..k]).Ok?
    requires !MathFails(mems[k], busWidth) && !Unsupported(mems[k])
    ensures var acc, m := LayoutMemories(busWidth, blockName, mems[..k]).value, mems[k];
      LayoutMemories(busWidth, blockName, mems[..k + 1])
        == Ok(MemAcc(acc.ports + MemPorts(m, busWidth), acc.resets + MemResets(m),
                     acc.windows + (if m.access == "WO" then [MemWindow(blockName, m, busWidth)] else [])))
  {
    assert mems[..k + 1][..k] == mems[..k];
  }

  /** When the memory loop does not fail, each memory added three ports and
      three resets. */
  lemma {:induction false} LayoutMemoriesSignals(busWidth: int, blockName: string, mems: seq<Memory>)
    requires LayoutMemories(busWidth, blockName, mems).Ok?
    ensures |LayoutMemories(busWidth, blockName, mems).value.ports| == 3 * |mems|
    ensures |LayoutMemories(busWidth, blockName, mems).value.resets| == 3 * |mems|
  {
    if mems != [] {
      var front := mems[..|mems| - 1];
      LayoutMemoriesLast(busWidth, blockName, mems);
      LayoutMemoriesSignals(busWidth, blockName, front);
      assert 3 * |mems| == 3 * |front| + 3;
    }
  }

  /** The reset lines of a list of memories, three per memory in order. */
  function MemResetsOf(mems: seq<Memory>): seq<Reset>
  {
    if mems == [] then [] else MemResetsOf(mems[..|mems| - 1]) + MemResets(mems[|mems| - 1])
  }

  /** When the memory loop does not fail, its resets are those of every
      memory, in order. */
  lemma {:induction false} LayoutMemoriesResets(busWidth: int, blockName: string, mems: seq<Memory>)
    requires LayoutMemories(busWidth, blockName, mems).Ok?
    ensures LayoutMemories(busWidth, blockName, mems).value.resets == MemResetsOf(mems)
  {
    if mems != [] {
      LayoutMemoriesLast(busWidth, blockName, mems);
      LayoutMemoriesResets(busWidth, blockName, mems[..|mems| - 1]);
    }
  }

  /** Every memory's three signals are reset to 0. */
  lemma {:induction false} MemResetsOfHas(mems: seq<Memory>, i: nat)
    requires i < |mems|
    ensures forall r :: r in MemResets(mems[i]) ==> r in MemResetsOf(mems)
  {
    var front := mems[..|mems| - 1];
    if i < |front| {
      MemResetsOfHas(front, i);
      assert front[i] == mems[i];
    }
  }

  /** When the memory loop does not fail, the write windows are those of the
      write-only memories and no others. */
  lemma LayoutMemoriesWindows(busWidth: int, blockName: string, mems: seq<Memory>)
    requires LayoutMemories(busWidth, blockName, mems).Ok?
    ensures forall w :: w in LayoutMemories(busWidth, blockName, mems).value.windows <==>
      exists i :: 0 <= i < |mems| && !MathFails(mems[i], busWidth) && mems[i].access == "WO"
        && w == MemWindow(blockName, mems[i], busWidth)
  {
    forall w | w in LayoutMemories(busWidth, blockName, mems).value.windows
      ensures exists i :: (0 <= i < |mems| && !MathFails(mems[i], busWidth) && mems[i].access == "WO"
        && w == MemWindow(blockName, mems[i], busWidth))
    {
      var i := WindowOwner(busWidth, blockName, mems, w);
    }
    forall i | 0 <= i < |mems| && !MathFails(mems[i], busWidth) && mems[i].access == "WO"
      ensures MemWindow(blockName, mems[i], busWidth) in LayoutMemories(busWidth, blockName, mems).value.windows
    {
      MemoryHasWindow(busWidth, blockName, mems, i);
    }
  }

  /** Every write window belongs to a write-only memory. */
  lemma {:induction false} WindowOwner(busWidth: int, blockName: string, mems: seq<Memory>, w: MemWrite) returns (i: nat)
    requires LayoutMemories(busWidth, blockName, mems).Ok?
    requires w in LayoutMemories(busWidth, blockName, mems).value.windows
    ensures i < |mems| && !MathFails(mems[i], busWidth) && mems[i].access == "WO"
    ensures w == MemWindow(blockName, mems[i], busWidth)
  {
    var front := mems[..|mems| - 1];
    LayoutMemoriesLast(busWidth, blockName, mems);
    if w in LayoutMemories(busWidth, blockName, front).value.windows {
      i := WindowOwner(busWidth, blockName, front, w);
      assert mems[i] == front[i];
    } else {
      i := |mems| - 1;
    }
  }

  /** Every write-only memory has its write window. */
  lemma {:induction false} MemoryHasWindow(busWidth: int, blockName: string, mems: seq<Memory>, i: nat)
    requires LayoutMemories(busWidth, blockName, mems).Ok?
    requires i < |mems| && !MathFails(mems[i], busWidth) && mems[i].access == "WO"
    ensures MemWindow(blockName, mems[i], busWidth) in LayoutMemories(busWidth, blockName, mems).value.windows
  {
    WindowsGrow(busWidth, blockName, mems);
    if i < |mems| - 1 {
      var front := mems[..|mems| - 1];
      assert front[i] == mems[i];
      MemoryHasWindow(busWidth, blockName, front, i);
    }
  }

  /** The last memory keeps the earlier windows and, when write-only, adds
      its own. */
  lemma WindowsGrow(busWidth: int, blockName: string, mems: seq<Memory>)
    requires mems != [] && LayoutMemories(busWidth, blockName, mems).Ok?
    ensures LayoutMemories(busWidth, blockName, mems[..|mems| - 1]).Ok?
    ensures forall w :: w in LayoutMemories(busWidth, blockName, mems[..|mems| - 1]).value.windows ==>
      w in LayoutMemories(busWidth, blockName, mems).value.windows
    ensures mems[|mems| - 1].access == "WO" ==>
      MemWindow(blockName, mems[|mems| - 1], busWidth) in LayoutMemories(busWidth, blockName, mems).value.windows
  {
    LayoutMemoriesLast(busWidth, blockName, mems);
  }

  // ---------------------------------------------------------------------------
  // One run of generate_axi
  // ---------------------------------------------------------------------------

  /** What goes into the generated slave: the parameter list, the ports, the
      ROM constants, the CMD defaults, the resets, the write decoder, the memory
      write windows, the clear-strobe defaults and the read decoder. */
  datatype AxiSlave = AxiSlave(
    parameters: seq<string>,
    ports: seq<Port>,
    roms: seq<RomConstant>,
    cmdDefaults: seq<string>,
    resets: seq<Reset>,
    writeDecoder: seq<WriteCase>,
    memWrites: seq<MemWrite>,
    rcDefaults: seq<string>,
    readDecoder: seq<ReadCase>)

  /** The slave for a block, or the error that stops the run. `extract` is the
      `$...(X)` pattern applied to each parameter. */
  function AxiSpec(block: RegisterBlock, extract: string -> Option<string>): Result<AxiSlave>
  {
    match LayoutRegisters(block.registers)
    case Err(e) => Err(e)
    case Ok(st) =>
      match LayoutMemories(block.busWidth, block.name, block.memories)
      case Err(e) => Err(e)
      case Ok(ma) =>
        Ok(AxiSlave(
          Parameters(block.parameters, extract),
          st.ports + ClearPorts(st.rcRegisters) + ma.ports,
          st.roms,
          st.cmds,
          st.resets + ma.resets,
          st.writeDecoder,
          ma.windows,
          ClearDefaults(st.rcRegisters),
          st.readDecoder))
  }

  /** The register loop of pyrg_axi.py:103-284. */
  method LayoutAllRegisters(regs: seq<Register>) returns (r: Result<Acc>)
    ensures r == LayoutRegisters(regs)
  {
    var st := Start;
    for j := 0 to |regs|
      invariant LayoutRegisters(regs[..j]) == Ok(st)
    {
      assert regs[..j + 1][..j] == regs[..j];
      var next := LayoutRegister(st, regs[j]);
      if next.Err? {
        LayoutRegistersStops(regs, j + 1, next.error);
        return Err(next.error);
      }
      st := next.value;
    }
    assert regs[..|regs|] == regs;
    return Ok(st);
  }

  /** The loop of pyrg_axi.py:292-295: an output port and a default per RC
      register. */
  method AddClearStrobes(ports: seq<Port>, rcs: seq<string>) returns (allPorts: seq<Port>, rcDefaults: seq<string>)
    ensures allPorts == ports + ClearPorts(rcs) && rcDefaults == ClearDefaults(rcs)
  {
    allPorts, rcDefaults := ports, [];
    for i := 0 to |rcs|
      invariant allPorts == ports + ClearPorts(rcs[..i])
      invariant rcDefaults == ClearDefaults(rcs[..i])
    {
      assert rcs[..i + 1][..i] == rcs[..i];
      Uvm.AppendAssoc(ports, ClearPorts(rcs[..i]), [Port(Output, " ", "clear_" + rcs[i])]);
      allPorts := allPorts + [Port(Output, " ", "clear_" + rcs[i])];
      rcDefaults := rcDefaults + ["clear_" + rcs[i]];
    }
    assert rcs[..|rcs|] == rcs;
  }

  /** The memory loop of pyrg_axi.py:303-346. */
  method LayoutMemoryList(busWidth: int, blockName: string, mems: seq<Memory>) returns (r: Result<MemAcc>)
    ensures r == LayoutMemories(busWidth, blockName, mems)
  {
    var ports: seq<Port> := [];
    var resets: seq<Reset> := [];
    var memWrites: seq<MemWrite> := [];
    for k := 0 to |mems|
      invariant LayoutMemories(busWidth, blockName, mems[..k]) == Ok(MemAcc(ports, resets, memWrites))
    {
      assert mems[..k + 1][..k] == mems[..k];
      var m := mems[k];
      if busWidth < 1 || m.size < 1 {
        LayoutMemoriesStops(busWidth, blockName, mems, k + 1, MathDomain(m.name));
        return Err(MathDomain(m.name));
      }
      ghost var before := MemAcc(ports, resets, memWrites);
      var addrWidth := AddrWidth(m.size, busWidth);
      var dataWidth := DataWidth(m.width);
      ports := ports + [Port(Output, " ", m.name + "_we"), Port(Output, addrWidth, m.name + "_addr"),
                        Port(Output, dataWidth, m.name + "_wdata")];
      resets := resets + [Reset(m.name + "_we", "0"), Reset(m.name + "_addr", "0"), Reset(m.name + "_wdata", "0")];
      if m.access == "RW" || m.access == "WO" {
        memWrites := memWrites + [MemWrite(m.name, Upper(blockName) + "_" + Upper(m.name) + "_BASE_ADDR",
                                           Upper(blockName) + "_" + Upper(m.name) + "_HIGH_ADDR", addrWidth, dataWidth)];
      }
      if m.access == "RW" || m.access == "RO" {
        LayoutMemoriesStops(busWidth, blockName, mems, k + 1, UnsupportedMemoryAccess(m.name));
        return Err(UnsupportedMemoryAccess(m.name));
      }
      LayoutMemoriesExtend(busWidth, blockName, mems, k);
      assert ports == before.ports + MemPorts(m, busWidth);
      assert resets == before.resets + MemResets(m);
      assert memWrites == before.windows + (if m.access == "WO" then [MemWindow(blockName, m, busWidth)] else []);
    }
    assert mems[..|mems|] == mems;
    return Ok(MemAcc(ports, resets, memWrites));
  }

  /** generate_axi for one block, without the file and template handling. */
  method GenerateAxi(block: RegisterBlock, extract: string -> Option<string>) returns (r: Result<AxiSlave>)
    ensures r == AxiSpec(block, extract)
  {
    var parameters := BusParameters + block.parameters;
    var registers := LayoutAllRegisters(block.registers);
    if registers.Err? {
      return Err(registers.error);
    }
    var st := registers.value;
    var ports, rcDefaults := AddClearStrobes(st.ports, st.rcRegisters);
    var memories := LayoutMemoryList(block.busWidth, block.name, block.memories);
    if memories.Err? {
      return Err(memories.error);
    }
    var ma := memories.value;
    var extracted := ExtractParameters(parameters, extract);
    assert extracted == seq(|parameters|, i requires 0 <= i < |parameters| => Extracted(parameters[i], extract));
    return Ok(AxiSlave(SortUniq(extracted), ports + ma.ports, st.roms, st.cmds, st.resets + ma.resets,
                       st.writeDecoder, ma.windows, rcDefaults, st.readDecoder));
  }

  // ---------------------------------------------------------------------------
  // Properties of a run
  // ---------------------------------------------------------------------------

  /** A slave is produced exactly when no ROM field lacks a reset value and
      every memory has a positive size, is neither RW nor RO and, as there is
      a memory, finds the bus width positive. A block without memories is
      produced whatever its bus width. */
  lemma AxiOutcome(block: RegisterBlock, extract: string -> Option<string>)
    ensures AxiSpec(block, extract).Ok? <==>
      && (forall j, k :: 0 <= j < |block.registers| && 0 <= k < |block.registers[j].fields| ==>
            !MissingRom(block.registers[j].fields[k]))
      && (forall i :: 0 <= i < |block.memories| ==>
            !MathFails(block.memories[i], block.busWidth) && !Unsupported(block.memories[i]))
  {
    LayoutRegistersFails(block.registers);
    LayoutMemoriesFails(block.busWidth, block.name, block.memories);
  }

  /** A produced slave comes from a register loop and a memory loop that both
      succeeded. */
  lemma AxiParts(block: RegisterBlock, extract: string -> Option<string>)
    requires AxiSpec(block, extract).Ok?
    ensures LayoutRegisters(block.registers).Ok?
    ensures LayoutMemories(block.busWidth, block.name, block.memories).Ok?
    ensures var s, st := AxiSpec(block, extract).value, LayoutRegisters(block.registers).value;
      var ma := LayoutMemories(block.busWidth, block.name, block.memories).value;
      && s.ports == st.ports + ClearPorts(st.rcRegisters) + ma.ports
      && s.roms == st.roms
      && s.resets == st.resets + ma.resets
      && s.cmdDefaults == st.cmds
      && s.memWrites == ma.windows
      && s.rcDefaults == ClearDefaults(st.rcRegisters)
  {
  }

  /** In a produced slave every RC register has its `clear_<name>` output port
      and its `clear_<name> = '0` default, one default per RC register in
      register order. */
  lemma AxiClearStrobes(block: RegisterBlock, extract: string -> Option<string>)
    requires AxiSpec(block, extract).Ok?
    ensures var s := AxiSpec(block, extract).value;
      && s.rcDefaults == ClearDefaults(RcNames(block.registers))
      && forall j :: 0 <= j < |block.registers| && ReadClear(block.registers[j].access) ==>
           Port(Output, " ", "clear_" + block.registers[j].name) in s.ports
           && "clear_" + block.registers[j].name in s.rcDefaults
  {
    var regs := block.registers;
    AxiParts(block, extract);
    LayoutRegistersLists(regs);
    var st := LayoutRegisters(regs).value;
    var ma := LayoutMemories(block.busWidth, block.name, block.memories).value;
    var s := AxiSpec(block, extract).value;
    forall j | 0 <= j < |regs| && ReadClear(regs[j].access)
      ensures Port(Output, " ", "clear_" + regs[j].name) in s.ports
      ensures "clear_" + regs[j].name in s.rcDefaults
    {
      assert regs[j].name in RcNames(regs);
      ClearStrobeOf(st.rcRegisters, regs[j].name);
      assert Port(Output, " ", "clear_" + regs[j].name) in st.ports + ClearPorts(st.rcRegisters);
    }
  }

  lemma ClearStrobeOf(rcs: seq<string>, name: string)
    requires name in rcs
    ensures Port(Output, " ", "clear_" + name) in ClearPorts(rcs)
    ensures "clear_" + name in ClearDefaults(rcs)
  {
    var n :| 0 <= n < |rcs| && rcs[n] == name;
    assert ClearPorts(rcs)[n] == Port(Output, " ", "clear_" + name);
    assert ClearDefaults(rcs)[n] == "clear_" + name;
  }

  /** In a produced slave every field with a reset value that is not a ROM
      constant has its reset line. */
  lemma AxiResets(block: RegisterBlock, extract: string -> Option<string>)
    requires AxiSpec(block, extract).Ok?
    ensures forall j, f :: 0 <= j < |block.registers| && f in block.registers[j].fields && HasReset(f) ==>
      Reset(f.name, f.reset.value) in AxiSpec(block, extract).value.resets
  {
    var regs := block.registers;
    AxiParts(block, extract);
    LayoutRegistersLists(regs);
    forall j, f | 0 <= j < |regs| && f in regs[j].fields && HasReset(f)
      ensures Reset(f.name, f.reset.value) in LayoutRegisters(regs).value.resets
    {
      FieldResetListed(regs, j, f);
    }
  }

  lemma FieldResetListed(regs: seq<Register>, j: nat, f: Field)
    requires j < |regs| && f in regs[j].fields && HasReset(f)
    ensures Reset(f.name, f.reset.value) in ResetsOfRegisters(regs)
  {
    ResetsOfFields(regs[j].fields);
    ResetsInRegisters(regs, j);
  }

  /** In a produced slave every CMD field has its '0 default. */
  lemma AxiCmdDefaults(block: RegisterBlock, extract: string -> Option<string>)
    requires AxiSpec(block, extract).Ok?
    ensures forall j, f :: 0 <= j < |block.registers| && f in block.registers[j].fields && KindOf(f.name) == Cmd ==>
      f.name in AxiSpec(block, extract).value.cmdDefaults
  {
    var regs := block.registers;
    AxiParts(block, extract);
    LayoutRegistersLists(regs);
    forall j, f | 0 <= j < |regs| && f in regs[j].fields && KindOf(f.name) == Cmd
      ensures f.name in CmdsOfRegisters(regs)
    {
      CmdListed(regs, j, f);
    }
  }

  lemma CmdListed(regs: seq<Register>, j: nat, f: Field)
    requires j < |regs| && f in regs[j].fields && KindOf(f.name) == Cmd
    ensures f.name in CmdsOfRegisters(regs)
  {
    CmdsOfFields(regs[j].fields);
    CmdsInRegisters(regs, j);
  }

  /** In a produced slave every CR, CMD, SR and IRQ field has its port: an
      output for CR and CMD, an input for SR and IRQ, as wide as the field
      times its register's repeat. */
  lemma AxiPorts(block: RegisterBlock, extract: string -> Option<string>)
    requires AxiSpec(block, extract).Ok?
    ensures forall j, f :: 0 <= j < |block.registers| && f in block.registers[j].fields
                           && KindOf(f.name) in {Cr, Cmd, Sr, Irq} ==>
      Port(if KindOf(f.name) in {Cr, Cmd} then Output else Input,
           PortWidth(block.registers[j].repeat, f.size), f.name) in AxiSpec(block, extract).value.ports
  {
    var regs := block.registers;
    AxiParts(block, extract);
    LayoutRegistersLists(regs);
    forall j, f | 0 <= j < |regs| && f in regs[j].fields && KindOf(f.name) in {Cr, Cmd, Sr, Irq}
      ensures Port(if KindOf(f.name) in {Cr, Cmd} then Output else Input,
                   PortWidth(regs[j].repeat, f.size), f.name) in PortsOfRegisters(regs)
    {
      PortsOfFields(regs[j].repeat, regs[j].fields);
      PortsInRegisters(regs, j);
    }
  }

  /** In a produced slave the ROM constants are exactly those of the ROM
      fields, each carrying the field's reset value. */
  lemma AxiRoms(block: RegisterBlock, extract: string -> Option<string>)
    requires AxiSpec(block, extract).Ok?
    ensures forall c :: c in AxiSpec(block, extract).value.roms <==>
      exists j, f :: 0 <= j < |block.registers| && f in block.registers[j].fields
                     && RomOf(block.registers[j].repeat, f, c)
  {
    AxiParts(block, extract);
    LayoutRegistersLists(block.registers);
    RomsOfRegistersMembers(block.registers);
  }

  /** In a produced slave the memory write windows are those of the
      write-only memories and no others. */
  lemma AxiMemWrites(block: RegisterBlock, extract: string -> Option<string>)
    requires AxiSpec(block, extract).Ok?
    ensures forall w :: w in AxiSpec(block, extract).value.memWrites <==>
      exists i :: 0 <= i < |block.memories| && !MathFails(block.memories[i], block.busWidth)
        && block.memories[i].access == "WO" && w == MemWindow(block.name, block.memories[i], block.busWidth)
  {
    AxiParts(block, extract);
    LayoutMemoriesWindows(block.busWidth, block.name, block.memories);
  }

  lemma {:induction false} ResetsInRegisters(regs: seq<Register>, j: nat)
    requires j < |regs|
    ensures forall r :: r in ResetsOf(regs[j].fields) ==> r in ResetsOfRegisters(regs)
  {
    if j < |regs| - 1 {
      ResetsInRegisters(regs[..|regs| - 1], j);
    }
  }

  lemma {:induction false} CmdsInRegisters(regs: seq<Register>, j: nat)
    requires j < |regs|
    ensures forall c :: c in CmdsOf(regs[j].fields) ==> c in CmdsOfRegisters(regs)
  {
    if j < |regs| - 1 {
      CmdsInRegisters(regs[..|regs| - 1], j);
    }
  }

  lemma {:induction false} PortsInRegisters(regs: seq<Register>, j: nat)
    requires j < |regs|
    ensures forall p :: p in PortsOf(regs[j].repeat, regs[j].fields) ==> p in PortsOfRegisters(regs)
  {
    if j < |regs| - 1 {
      PortsInRegisters(regs[..|regs| - 1], j);
    }
  }

  /** The ROM constants of the register loop are those of the ROM fields of
      all registers. */
  lemma {:induction false} RomsOfRegistersMembers(regs: seq<Register>)
    requires RomsComplete(regs)
    ensures forall c :: c in RomsOfRegisters(regs) <==>
      exists j, f :: 0 <= j < |regs| && f in regs[j].fields && RomOf(regs[j].repeat, f, c)
  {
    if regs != [] {
      var front, last := regs[..|regs| - 1], regs[|regs| - 1];
      assert forall j :: 0 <= j < |front| ==> front[j] == regs[j];
      RomsOfRegistersMembers(front);
      RomsOfFields(last.repeat, last.fields);
      forall c | c in RomsOfRegisters(regs)
        ensures exists j, f :: 0 <= j < |regs| && f in regs[j].fields && RomOf(regs[j].repeat, f, c)
      {
        if c in RomsOfRegisters(front) {
          var j, f :| 0 <= j < |front| && f in front[j].fields && RomOf(front[j].repeat, f, c);
          assert regs[j] == front[j];
        } else {
          var f :| f in last.fields && RomOf(last.repeat, f, c);
          assert regs[|regs| - 1] == last;
        }
      }
      forall c | exists j, f :: 0 <= j < |regs| && f in regs[j].fields && RomOf(regs[j].repeat, f, c)
        ensures c in RomsOfRegisters(regs)
      {
        var j, f :| 0 <= j < |regs| && f in regs[j].fields && RomOf(regs[j].repeat, f, c);
        if j < |regs| - 1 {
          assert front[j] == regs[j];
        }
      }
    }
  }
}
