# Binary Switch command class

A Dafny model of the Binary Switch command-class codec of node-zwave-js
(`src/lib/commandclass/BinarySwitchCC.ts`). The class follows the Binary
Switch Command Class of the Z-Wave Application Command Class Specification,
versions 1 and 2: an on/off switch with an optional transition duration.

- `Set` (0x01) and `Get` (0x02) go to a node; `serialize` turns them into a
  command-class payload. Get is one byte. Set carries the target value
  (0xFF on, 0x00 off) and, from version 2 on, a duration byte.
- `Report` (0x03) comes back from a node; `deserialize` reads it into
  `currentValue` (tri-state: on, off or unknown), and, when the version 2
  suffix is present, `targetValue` and `duration`.
- Each operation accepts only its own direction. Anything else fails with
  `CC_Invalid`.

Files:

- `value_types.dfy` (module `ValueTypes`): the byte type, `Option`, the
  tri-state `Maybe<boolean>`, and the parsers `parseBoolean` and
  `parseMaybeBoolean` with their encoders.
- `duration.dfy` (module `Durations`): `Duration` and its Set and Report
  byte encodings.
- `binary_switch.dfy` (module `BinarySwitch`): the command discriminant, the
  payload functions `SetPayload`, `SerializePayload` and `DecodeReport`, the
  reference Report encoder, and the class `BinarySwitchCC`. The class has
  the source's fields, a constructor, `Serialize` and `Deserialize`.
- `as_written.dfy` (module `BinarySwitchAsWritten`): the source's defects as
  written, with the inputs that show them (see "## Findings").

How the model differs from the code, and why:

- The code is followed, with the corrections listed under "## Findings".
- **Set payload.** The model emits the array built at lines 60-66, not the
  one-byte buffer of line 67.
- **Constructor.** The constructor's target value feeds `targetValue`, not
  `currentValue` as at line 44.
- **Report guards.** A Report shorter than 2 bytes fails with
  `PayloadTruncated`. The suffix is read only when bytes 2 and 3 both exist
  (length at least 4). The code tests for length at least 2 (line 88),
  which does not keep the reads in bounds; neither would a test for length
  at least 3. A 3-byte Report is read as a version 1 Report.
- **Missing duration.** A version 2 Set dereferences `this.duration`
  (line 65). It throws when no duration was given. The model makes a present
  duration a precondition of `Serialize` in that case.
- **Empty Report.** An empty payload leaves `ccCommand` unset and fails with
  `CC_Invalid`, as the code does: `payload[0]` is undefined and falls to the
  default branch.
- **Unknown command byte.** A first byte that names no command is stored as
  "no command" (`None`). Both operations treat it like an unset command.
- **Booleans.** `src/lib/util/ValueTypes.ts` is not part of this model.
  The model assumes the Z-Wave convention for `parseBoolean`: 0x00 is off
  and 0xFF is on. It assumes `parseMaybeBoolean` also reads 0xFE as
  unknown. The model treats any other byte as no boolean, and then
  `Deserialize` fails with `InvalidValue`. This fault is the model's own
  (see "## Left out"). By then the fields read before that byte are already
  assigned.
- **Durations.** `src/lib/util/Duration.ts` is not part of this model.
  `Duration` is modelled concretely after the Z-Wave duration tables:
  Seconds 0-127, Minutes 1-127, an unknown duration and the factory default.
  - Set encoding: 0x00-0x7F seconds, 0x80-0xFE minutes 1-127, 0xFF default.
  - Report encoding: 0x00-0x7F seconds, 0x80-0xFD minutes 1-126, 0xFE
    unknown.
  - The protocol reserves 0xFF in a Report. The model reads it as the
    factory default, so that every reported byte is a duration. This entry
    is a modelling choice, not part of the protocol table.
  - The Set encoding has no byte for "unknown". An unknown duration is sent
    as 0xFF.
- **Framing.** `version` and `nodeId` come from the driver and the
  command-class base, which are not part of this model. `version` is a
  constructor argument and `nodeId` never changes. `Serialize` returns the
  command-class payload. The base class's framing (`super.serialize()`) is
  not modelled.

## Model

| member | source | states |
|---|---|---|
| `BinarySwitch.CommandByte` | src/lib/commandclass/BinarySwitchCC.ts:7-11 | each command's wire byte (Set 0x01, Get 0x02, Report 0x03) decodes back to that command |
| `BinarySwitch.CommandFromByte` | src/lib/commandclass/BinarySwitchCC.ts:7-11 | a byte names a command exactly when it is 0x01, 0x02 or 0x03 |
| `BinarySwitch.CommandFromByteInverse` | src/lib/commandclass/BinarySwitchCC.ts:7-11 | a byte that names a command is that command's wire byte |
| `ValueTypes.FromBool` | src/lib/commandclass/BinarySwitchCC.ts:49 | a known boolean is never the Unknown tri-state value, and maps true to True |
| `ValueTypes.EncodeBoolean` | src/lib/commandclass/BinarySwitchCC.ts:62 | the encoded target value (0xFF/0x00) parses back to the same boolean |
| `ValueTypes.ParseBoolean` | src/lib/commandclass/BinarySwitchCC.ts:89 | exactly the bytes 0x00 and 0xFF are booleans |
| `ValueTypes.ParseBooleanInverse` | src/lib/commandclass/BinarySwitchCC.ts:89 | every accepted boolean byte is the encoding of the value it parsed to |
| `ValueTypes.EncodeMaybeBoolean` | src/lib/commandclass/BinarySwitchCC.ts:87 | each of on, off and unknown has a byte that parses back to it |
| `ValueTypes.ParseMaybeBoolean` | src/lib/commandclass/BinarySwitchCC.ts:87 | 0xFE, and only 0xFE, is Unknown (a value, not a fault); other bytes parse as the strict boolean parser does |
| `ValueTypes.ParseMaybeBooleanInverse` | src/lib/commandclass/BinarySwitchCC.ts:87 | every accepted tri-state byte is the encoding of the value it parsed to |
| `Durations.SerializeSet` | src/lib/commandclass/BinarySwitchCC.ts:65 | 0xFF exactly for the default and unknown durations; the Set byte decodes to the same duration under the Report table exactly when the duration is neither unknown nor 127 minutes |
| `Durations.ParseReport` | src/lib/commandclass/BinarySwitchCC.ts:90 | every byte is a duration, never a fault; the result is Report-representable and re-encodes to the same byte |
| `Durations.ReportRoundTrip` | src/lib/commandclass/BinarySwitchCC.ts:90 | decoding a Report-encoded duration gives it back |
| `BinarySwitch.SetPayload` | src/lib/commandclass/BinarySwitchCC.ts:59-66 | a Set is 2 bytes before version 2 and 3 bytes from version 2 on; byte 0 is Set, byte 1 parses to the target value (unset counts as off), byte 2 is `SerializeSet` of the duration |
| `BinarySwitch.SetVersionGating` | src/lib/commandclass/BinarySwitchCC.ts:60-66 | before version 2, a Set is exactly [0x01, 0xFF or 0x00] and does not depend on the duration |
| `BinarySwitch.SerializePayload` | src/lib/commandclass/BinarySwitchCC.ts:53-76 | serialization succeeds exactly for Get and Set and otherwise fails with CC_Invalid; every payload starts with its command's byte; Get is exactly [0x02]; Set is `SetPayload` |
| `BinarySwitch.LeadingCommand` | src/lib/commandclass/BinarySwitchCC.ts:84 | the stored command is the one the first payload byte names, and is present whenever that byte is 1 to 3 |
| `BinarySwitch.ReportCurrentValue` | src/lib/commandclass/BinarySwitchCC.ts:86-87 | a current value is read only from a Report of at least 2 bytes; for every such Report it is the tri-state parse of byte 1 |
| `BinarySwitch.DecodeReport` | src/lib/commandclass/BinarySwitchCC.ts:81-101 | CC_Invalid exactly when the first byte is not Report (so Set and Get are rejected); PayloadTruncated exactly for a 1-byte Report; InvalidValue exactly when byte 1 is not a tri-state value or, with the suffix, byte 2 is not a boolean, so every other Report decodes; on success the current value is byte 1's, and the suffix is present exactly when bytes 2 and 3 exist and then holds byte 2's boolean and `ParseReport` of byte 3 |
| `BinarySwitch.DecodeReportPrefix` | src/lib/commandclass/BinarySwitchCC.ts:86-91 | a Report decodes as its first 2 bytes without the suffix and its first 4 with it, so a 3-byte Report is read as version 1 and later bytes are ignored |
| `BinarySwitch.EncodeReport` | src/lib/commandclass/BinarySwitchCC.ts:86-91 | reference Report layout: 2 bytes without the suffix, 4 with it |
| `BinarySwitch.DecodeEncodeReport` | src/lib/commandclass/BinarySwitchCC.ts:86-91 | decoding an encoded Report gives back its fields |
| `BinarySwitch.EncodeDecodeReport` | src/lib/commandclass/BinarySwitchCC.ts:86-91 | every accepted Report payload begins with the encoding of its decoded fields |
| `BinarySwitch.SetAsReportRoundTrip` | src/lib/commandclass/BinarySwitchCC.ts:60-90 | a version 2 Set payload read back as a Report reproduces the target value and duration |
| `BinarySwitch.ReportSuffixIsSetSuffix` | src/lib/commandclass/BinarySwitchCC.ts:60-90 | the suffix of a version 2 Report is byte for byte the tail of the Set commanding its target and duration |
| `BinarySwitch.ReportIndices` | src/lib/commandclass/BinarySwitchCC.ts:87-90 | every field index a Report is read at exists; byte 1 is read from length 2 on, bytes 2 and 3 from length 4 on |
| `BinarySwitch.DecodeReportReadsOnly` | src/lib/commandclass/BinarySwitchCC.ts:84-91 | decoding depends only on the command byte and the bytes at `ReportIndices` |
| `BinarySwitch.BinarySwitchCC.constructor` | src/lib/commandclass/BinarySwitchCC.ts:36-46 | stores node, version, command, target value and duration; the current value starts unset |
| `BinarySwitch.BinarySwitchCC.Serialize` | src/lib/commandclass/BinarySwitchCC.ts:53-79 | returns `SerializePayload` of the fields and stores it in `payload`; on failure `payload` is unchanged; no other field changes |
| `BinarySwitch.BinarySwitchCC.Deserialize` | src/lib/commandclass/BinarySwitchCC.ts:81-101 | stores the payload and its leading command; succeeds exactly when `DecodeReport` does, with its error otherwise; sets the current value when the payload carries one; sets target value and duration only with the suffix and otherwise leaves them unchanged |
| `BinarySwitchAsWritten.SetPayloadAsWritten` | src/lib/commandclass/BinarySwitchCC.ts:60-67 | as written, the stored Set payload is only the first byte of the intended one, strictly shorter |
| `BinarySwitchAsWritten.SetDropsFieldsAsWritten` | src/lib/commandclass/BinarySwitchCC.ts:60-67 | "on over 5 s", version 2: intended 01 FF 05, as written 01, the same as "off" |
| `BinarySwitchAsWritten.ConstructAsWritten` | src/lib/commandclass/BinarySwitchCC.ts:44-45 | as written, the constructor leaves `targetValue` unset and sets `currentValue` exactly when a target was given |
| `BinarySwitchAsWritten.ConstructorDropsTargetAsWritten` | src/lib/commandclass/BinarySwitchCC.ts:44-67 | with line 67 corrected, the line 44 defect still sends "switch on" at version 1 as 01 00; with both lines as written it is sent as 01 |
| `BinarySwitch.SerializeNewSet` | src/lib/commandclass/BinarySwitchCC.ts:36-69 | with the corrected constructor, a Set succeeds and byte 1 of its payload parses to the target given to the constructor |
| `BinarySwitchAsWritten.ReportIndicesAsWritten` | src/lib/commandclass/BinarySwitchCC.ts:87-90 | as written, byte 1 is always read, and bytes 2 and 3 are read whenever the length is at least 2 |
| `BinarySwitchAsWritten.ReportReadsPastEndAsWritten` | src/lib/commandclass/BinarySwitchCC.ts:87-90 | as written, Reports of length 1, 2 and 3 are each read past their end |

## Findings

| source | as written | input that shows it | evidently intended | confidence | as-written member | corrected member |
|---|---|---|---|---|---|---|
| src/lib/commandclass/BinarySwitchCC.ts:60-67 | the Set field array is built, then `this.payload` is set to the command byte alone | Set, target on, 5 s, version 2: emits 01, not 01 FF 05 | the built array is the payload | high; not executed | `BinarySwitchAsWritten.SetDropsFieldsAsWritten` | `BinarySwitch.SetPayload` |
| src/lib/commandclass/BinarySwitchCC.ts:44 | the constructor's target value is stored into `currentValue`, and `serialize` reads `targetValue` | Set, target on, version 1: with line 67 corrected, the line 44 defect still emits 01 00 (fully as written: 01) | the argument sets `targetValue` | high; not executed | `BinarySwitchAsWritten.ConstructorDropsTargetAsWritten` | `BinarySwitch.SerializeNewSet` |
| src/lib/commandclass/BinarySwitchCC.ts:87-88 | byte 1 is read with no length check; the suffix guard is length at least 2, but bytes 2 and 3 are read | Reports 03, 03 00 and 03 00 00 are read past their end | a 1-byte Report is truncated; the suffix needs length at least 4 | high; not executed | `BinarySwitchAsWritten.ReportReadsPastEndAsWritten` | `BinarySwitch.DecodeReportReadsOnly` |

## Left out

- The command-class base (`super.serialize()`, `super.deserialize(data)`, lines 78 and 82) and its node-id and command-class framing: its file is not part of this model. The model works on the command-class payload only.
- The decorators `@commandClass`, `@implementedVersion`, `@expectedCCResponse` and `@ccValue` (lines 13-15, 49-51): registry and persistence metadata, not codec behaviour.
- The `IDriver` handle: the codec logic never uses it, so the constructor does not take it.
- The TypeScript constructor overloads (lines 19-34): they exist only in the type system. The model has the implementation signature of lines 36-46.
- `ZWaveError` messages: an error is modelled by its code only.
- `BinarySwitch.DecodeReport`: its `InvalidValue` fault for a boolean byte outside 0x00/0xFF (and 0xFE for the current value) is an assumption about `src/lib/util/ValueTypes.ts`, which is not part of this model; the code visible here throws only CC_Invalid (line 96).
- `BinarySwitch.BinarySwitchCC.Serialize`: requires a duration for a version 2 Set. The code instead throws a runtime TypeError there; that crash is not modelled.
- `Durations.SerializeSet`: the encoding tables follow the Z-Wave specification because `src/lib/util/Duration.ts` is not part of this model; the code's own clamping or rounding of other durations is not modelled.
