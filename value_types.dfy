/** Single-byte value types shared by the command classes: the wire byte, an
    optional value, the tri-state boolean `Maybe<boolean>` and the two
    single-byte boolean parsers (`parseBoolean`, `parseMaybeBoolean`).

    The parsers follow the Z-Wave convention for switch values: 0x00 is off,
    0xFF is on, and 0xFE is "unknown" where the protocol allows it. A byte
    outside that convention is not a boolean and parses to `None`. */
module ValueTypes {

  /** One byte of a command-class payload. */
  newtype byte = x: int | 0 <= x < 0x100

  datatype Option<+T> = None | Some(value: T)

  /** `Maybe<boolean>`: a boolean a device may also report as not known. */
  datatype Tri = True | False | Unknown

  /** The tri-state value that carries a known boolean. */
  function FromBool(v: bool): (t: Tri)
    ensures t != Unknown
    ensures t == True <==> v
  {
    if v then True else False
  }

  /** The byte a boolean is sent as: 0xFF for on, 0x00 for off. */
  function EncodeBoolean(v: bool): (b: byte)
    ensures ParseBoolean(b) == Some(v)
  {
    if v then 0xFF else 0x00
  }

  /** `parseBoolean`: only the two canonical encodings are booleans. */
  function ParseBoolean(b: byte): (r: Option<bool>)
    ensures r.Some? <==> b == 0x00 || b == 0xFF
  {
    if b == 0xFF then Some(true)
    else if b == 0x00 then Some(false)
    else None
  }

  /** The byte a tri-state value is reported as; Unknown is the 0xFE sentinel. */
  function EncodeMaybeBoolean(t: Tri): (b: byte)
    ensures ParseMaybeBoolean(b) == Some(t)
  {
    match t
    case True => EncodeBoolean(true)
    case False => EncodeBoolean(false)
    case Unknown => 0xFE
  }

  /** `parseMaybeBoolean`: the sentinel 0xFE is Unknown (a value, not a
      fault); every other byte is parsed as by `parseBoolean`. */
  function ParseMaybeBoolean(b: byte): (r: Option<Tri>)
    ensures r == Some(Unknown) <==> b == 0xFE
    ensures b != 0xFE ==> (r.Some? <==> ParseBoolean(b).Some?)
    ensures b != 0xFE && r.Some? ==> r.value == FromBool(ParseBoolean(b).value)
  {
    if b == 0xFE then Some(Unknown)
    else match ParseBoolean(b)
      case Some(v) => Some(FromBool(v))
      case None => None
  }

  /** Every byte the tri-state parser accepts is the encoding of what it
      parsed to, so the parser and the encoder are inverse bijections between
      {0x00, 0xFE, 0xFF} and the three values. */
  lemma ParseMaybeBooleanInverse(b: byte)
    requires ParseMaybeBoolean(b).Some?
    ensures EncodeMaybeBoolean(ParseMaybeBoolean(b).value) == b
  {
  }

  /** The same for the strict two-valued parser. */
  lemma ParseBooleanInverse(b: byte)
    requires ParseBoolean(b).Some?
    ensures EncodeBoolean(ParseBoolean(b).value) == b
  {
  }
}
