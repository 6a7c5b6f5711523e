/** The per-field decisions of `generate_axi`: a field's kind (from its name),
    the width text of its port, the data-bus slice of a register's lone field,
    and what each field contributes to the port, constant, reset and command
    lists. */
module Fields {
  import opened Block
  import opened Text

  // ---------------------------------------------------------------------------
  // Field kinds (pyrg_axi.py:131, 144-149)
  // ---------------------------------------------------------------------------

  datatype Kind = Cr | Cmd | Sr | Irq | Rom | Plain

  /** The kind named by the upper-cased text before the first underscore. */
  function KindOf(name: string): Kind
  {
    KindOfToken(Upper(FirstToken(name)))
  }

  function KindOfToken(t: string): Kind
  {
    if t == "CR" then Cr
    else if t == "CMD" then Cmd
    else if t == "SR" then Sr
    else if t == "IRQ" then Irq
    else if t == "ROM" then Rom
    else Plain
  }

  /** FirstToken is the prefix p whenever p has no underscore and is followed
      by one, or is all of s. */
  lemma {:induction false} FirstTokenIs(s: string, p: string)
    requires |p| <= |s| && p == s[..|p|]
    requires forall i :: 0 <= i < |p| ==> p[i] != '_'
    requires |p| == |s| || s[|p|] == '_'
    ensures FirstToken(s) == p
    decreases |p|
  {
    if p != [] {
      assert s[0] == p[0];
      assert p[1..] == s[1..][..|p| - 1];
      FirstTokenIs(s[1..], p[1..]);
      assert p == [p[0]] + p[1..];
    }
  }

  /** Only the prefix before the first underscore decides the kind. */
  lemma KindOfPrefixed(prefix: string, rest: string)
    requires forall i :: 0 <= i < |prefix| ==> prefix[i] != '_'
    ensures KindOf(prefix + "_" + rest) == KindOf(prefix)
  {
    var s := prefix + "_" + rest;
    assert s[..|prefix|] == prefix;
    FirstTokenIs(s, prefix);
    FirstTokenIs(prefix, prefix);
  }

  lemma {:induction false} FirstTokenUpper(s: string)
    ensures FirstToken(Upper(s)) == Upper(FirstToken(s))
    decreases |s|
  {
    if s != [] {
      var u := Upper(s);
      assert u[1..] == Upper(s[1..]);
      FirstTokenUpper(s[1..]);
      if s[0] != '_' {
        var t := [s[0]] + FirstToken(s[1..]);
        assert t[1..] == FirstToken(s[1..]);
        assert Upper(t) == [UpperChar(s[0])] + Upper(FirstToken(s[1..]));
      }
    }
  }

  /** The kind does not depend on the letter case of the name. */
  lemma KindIgnoresCase(name: string)
    ensures KindOf(Upper(name)) == KindOf(name)
  {
    FirstTokenUpper(name);
    UpperIdempotent(FirstToken(name));
    assert Upper(FirstToken(Upper(name))) == Upper(FirstToken(name));
  }

  // ---------------------------------------------------------------------------
  // Bit ranges and port widths (pyrg_axi.py:134-142, 170-184)
  // ---------------------------------------------------------------------------

  /** The most significant bit of a slice, as the generator writes it. */
  datatype Bound =
    | Const(value: int)                               // str(n - 1)
    | ParamMinusOne(param: string)                    // S-1
    | ParamPlusMinusOne(param: string, offset: nat)   // S+L-1

  function RenderBound(b: Bound): string
  {
    match b
    case Const(v) => IntToString(v)
    case ParamMinusOne(p) => p + "-1"
    case ParamPlusMinusOne(p, l) => p + "+" + Decimal(l) + "-1"
  }

  /** The value of a bound once every parameter has a value. */
  function Eval(env: string -> int, b: Bound): int
  {
    match b
    case Const(v) => v
    case ParamMinusOne(p) => env(p) - 1
    case ParamPlusMinusOne(p, l) => env(p) + l - 1
  }

  /** A single bit, or `msb : lsb`. */
  datatype BitRange = Bit(index: nat) | Span(msb: Bound, lsb: nat)

  function RenderRange(r: BitRange): string
  {
    match r
    case Bit(i) => Decimal(i)
    case Span(m, l) => RenderBound(m) + " : " + Decimal(l)
  }

  function Low(r: BitRange): nat
  {
    match r
    case Bit(i) => i
    case Span(_, l) => l
  }

  function High(env: string -> int, r: BitRange): int
  {
    match r
    case Bit(i) => i
    case Span(m, _) => Eval(env, m)
  }

  /** How many bits a size stands for. */
  function Width(env: string -> int, size: Size): int
  {
    match size
    case Symbolic(p) => env(p)
    case Bits(n) => n
  }

  /** The top bit of a vector of the given size starting at bit 0. */
  function TopBit(size: Size): (b: Bound)
    ensures forall env :: Eval(env, b) + 1 == Width(env, size)
  {
    match size
    case Symbolic(p) => ParamMinusOne(p)
    case Bits(n) => Const(n - 1)
  }

  /** `_port_width`: `[r-1 : 0] ` for a repeated register, then `[S-1 : 0]`
      for a parameter size, a single space for one bit, `[n-1 : 0]` otherwise. */
  function PortWidth(repeat: int, size: Size): string
  {
    (if repeat > 1 then "[" + Decimal(repeat - 1) + " : 0] " else "")
    + (if size == Bits(1) then " " else "[" + RenderRange(Span(TopBit(size), 0)) + "]")
  }

  /** `_axi_range` of a register with exactly one field. An integer size wider
      than one bit is placed at bit 0 whatever the field's lsb_pos says. */
  function FieldRange(size: Size, lsb: nat): BitRange
  {
    match size
    case Symbolic(p) => if lsb == 0 then Span(ParamMinusOne(p), 0) else Span(ParamPlusMinusOne(p, lsb), lsb)
    case Bits(n) => if n == 1 then Bit(lsb) else Span(Const(n - 1), 0)
  }

  /** The bits a lone field's slice covers: a parameter-sized field covers
      Width bits from its lsb; a one-bit field is the bit at its lsb; an
      integer-sized field covers Width bits from bit 0, not from its lsb. */
  lemma FieldRangeBits(env: string -> int, size: Size, lsb: nat)
    ensures var r := FieldRange(size, lsb);
      && (size.Symbolic? ==> Low(r) == lsb && High(env, r) - Low(r) + 1 == Width(env, size))
      && (size == Bits(1) ==> r == Bit(lsb) && High(env, r) == Low(r) == lsb)
      && (size.Bits? && size != Bits(1) ==> Low(r) == 0 && High(env, r) + 1 == Width(env, size))
  {
  }

  /** When a lone field starts at bit 0 (or has an integer size), the slice of
      the data bus it reads or writes has the same shape as its port. */
  lemma SliceMatchesPort(size: Size, lsb: nat)
    requires size != Bits(1) && (size.Bits? || lsb == 0)
    ensures FieldRange(size, lsb) == Span(TopBit(size), 0)
    ensures PortWidth(1, size) == "[" + RenderRange(FieldRange(size, lsb)) + "]"
  {
  }

  /** The text of a parameter-sized slice, at bit 0 and at bit 4. */
  lemma RangeTextOfParam(p: string)
    ensures RenderRange(FieldRange(Symbolic(p), 0)) == p + "-1 : 0"
    ensures RenderRange(FieldRange(Symbolic(p), 4)) == p + "+4-1 : 4"
  {
    assert Decimal(0) == "0" && Decimal(4) == "4";
  }

  /** The text of integer-sized slices: a one-bit field at bit 7 is `7`, an
      eight-bit field at bit 7 is still `7 : 0`. */
  lemma RangeTextOfBits()
    ensures RenderRange(FieldRange(Bits(1), 7)) == "7"
    ensures RenderRange(FieldRange(Bits(8), 7)) == "7 : 0"
  {
    assert Decimal(0) == "0" && Decimal(7) == "7";
    assert IntToString(7) == "7";
  }

  // ---------------------------------------------------------------------------
  // What one field contributes (pyrg_axi.py:144-161)
  // ---------------------------------------------------------------------------

  datatype Direction = Output | Input

  /** A port of the slave: direction, width text and name. */
  datatype Port = Port(direction: Direction, width: string, name: string)

  /** A `localparam` holding a ROM field's reset value. */
  datatype RomConstant = RomConstant(width: string, name: string, value: string)

  /** A line of the reset block: the signal and the value it is reset to. */
  datatype Reset = Reset(signal: string, value: string)

  /** CR and CMD fields drive an output port, SR and IRQ fields read an input
      port, every other kind has no port. */
  function FieldPorts(repeat: int, f: Field): (ps: seq<Port>)
    ensures |ps| <= 1
    ensures |ps| == 1 <==> KindOf(f.name) in {Cr, Cmd, Sr, Irq}
    ensures |ps| == 1 ==>
      (ps[0].name == f.name && ps[0].width == PortWidth(repeat, f.size)
       && (ps[0].direction == Output <==> KindOf(f.name) in {Cr, Cmd}))
  {
    var k := KindOf(f.name);
    if k == Cr || k == Cmd then [Port(Output, PortWidth(repeat, f.size), f.name)]
    else if k == Sr || k == Irq then [Port(Input, PortWidth(repeat, f.size), f.name)]
    else []
  }

  /** A ROM field without a reset value makes the generator fail. */
  predicate MissingRom(f: Field)
  {
    KindOf(f.name) == Rom && f.reset.None?
  }

  function FieldRoms(repeat: int, f: Field): seq<RomConstant>
    requires !MissingRom(f)
  {
    if KindOf(f.name) == Rom then [RomConstant(PortWidth(repeat, f.size), f.name, f.reset.value)] else []
  }

  /** A field is reset when it has a reset value and is not a ROM constant. */
  predicate HasReset(f: Field)
  {
    f.reset.Some? && KindOf(f.name) != Rom
  }

  function FieldResets(f: Field): seq<Reset>
  {
    if HasReset(f) then [Reset(f.name, f.reset.value)] else []
  }

  /** CMD fields are set back to '0 by default every cycle. */
  function FieldCmds(f: Field): seq<string>
  {
    if KindOf(f.name) == Cmd then [f.name] else []
  }
}
