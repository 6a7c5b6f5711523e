/** The register block description both generators read: the parsed form of
    the YAML file (bus width, registers made of bit fields, memories and
    parameter names), with the errors the generators raise on it. */
module Block {

  datatype Option<+T> = None | Some(value: T)

  /** A field size is either a bit count or the name of a parameter. */
  datatype Size = Symbolic(name: string) | Bits(count: int)

  /** `reset` is the text of `reset_value` when the field declares one. */
  datatype Field = Field(name: string, size: Size, lsb: nat, reset: Option<string>)

  /** `repeat` is 1 when the YAML entry has no `repeat` key. `access` is the
      declared mode text (`WO`, `RO`, `RW`, `RC` or `ROM`). */
  datatype Register = Register(name: string, access: string, repeat: int, fields: seq<Field>)

  datatype Memory = Memory(name: string, access: string, size: int, width: int)

  /** `busWidth` is the YAML `bus_width` (bits). */
  datatype RegisterBlock = RegisterBlock(
    name: string,
    busWidth: nat,
    registers: seq<Register>,
    memories: seq<Memory>,
    parameters: seq<string>)

  /** Why a generator stops without writing its outputs. */
  datatype Error =
    | UnsupportedMemoryAccess(memory: string)   // "Only writable memories supported yet!"
    | MathDomain(memory: string)                // math.log2 of a non-positive number
    | MissingRomReset(field: string)            // KeyError: a ROM field without reset_value

  datatype Result<+T> = Ok(value: T) | Err(error: Error)
}
