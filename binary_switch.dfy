/** The Binary Switch command class (versions 1 and 2): an on/off switch with
    an optional transition duration. Set and Get are sent to a node; Report
    comes back from it.

    The model covers the command-class payload only: the first byte is the
    command, the fields follow. The node-id and command-class framing around
    it belong to the command-class base, which is not part of this model. */
module BinarySwitch {
  import opened ValueTypes
  import Durations

  /** `BinarySwitchCommand`. */
  datatype Command = Set | Get | Report

  /** The wire value of a command: Set 0x01, Get 0x02, Report 0x03. */
  function CommandByte(c: Command): (b: byte)
    ensures CommandFromByte(b) == Some(c)
  {
    match c
    case Set => 0x01
    case Get => 0x02
    case Report => 0x03
  }

  /** The command a byte names, if any. */
  function CommandFromByte(b: byte): (r: Option<Command>)
    ensures r.Some? <==> 0x01 <= b <= 0x03
  {
    if b == 0x01 then Some(Set)
    else if b == 0x02 then Some(Get)
    else if b == 0x03 then Some(Report)
    else None
  }

  /** A byte that names a command is that command's wire value. */
  lemma CommandFromByteInverse(b: byte)
    requires CommandFromByte(b).Some?
    ensures CommandByte(CommandFromByte(b).value) == b
  {
  }

  /** `ZWaveErrorCodes`, as far as this command class raises them. The
      thrown error's message text is not modelled. */
  datatype ErrorCode =
    | CCInvalid         // wrong command for the direction (CC_Invalid)
    | PayloadTruncated  // a Report too short for its current value
    | InvalidValue      // a field byte outside the boolean convention

  datatype Result<T> = Ok(value: T) | Err(error: ErrorCode)

  datatype Status = Success | Failure(error: ErrorCode)

  // ---------------------------------------------------------------------
  // Serialization (outbound: Get and Set)
  // ---------------------------------------------------------------------

  /** The Set payload built at BinarySwitchCC.ts:60-66: the command byte, the
      target value (an unset target is sent as off, as `undefined ? 0xFF : 0x00`
      is) and, from version 2 on, the duration byte. The source then stores
      only the command byte (line 67); this model emits the array it built,
      which is what the protocol requires. Dereferencing the duration in the
      version 2 branch needs one to be present. */
  function SetPayload(version: nat, target: Option<bool>, duration: Option<Durations.Duration>): (p: seq<byte>)
    requires version >= 2 ==> duration.Some?
    ensures |p| == if version >= 2 then 3 else 2
    ensures CommandFromByte(p[0]) == Some(Set)
    ensures ParseBoolean(p[1]) == Some(target == Some(true))
    ensures version >= 2 ==> p[2] == Durations.SerializeSet(duration.value)
  {
    var fields := [CommandByte(Set), EncodeBoolean(target == Some(true))];
    if version >= 2 then fields + [Durations.SerializeSet(duration.value)] else fields
  }

  /** `serialize`: Get is the single command byte, Set is `SetPayload`, and
      every other command (Report, or none at all) fails with CC_Invalid
      before anything is emitted. */
  function SerializePayload(cmd: Option<Command>, version: nat, target: Option<bool>,
                            duration: Option<Durations.Duration>): (r: Result<seq<byte>>)
    requires cmd == Some(Set) && version >= 2 ==> duration.Some?
    ensures r.Ok? <==> cmd == Some(Get) || cmd == Some(Set)
    ensures r.Err? ==> r.error == CCInvalid
    ensures r.Ok? ==> |r.value| >= 1 && CommandFromByte(r.value[0]) == cmd
    ensures cmd == Some(Get) ==> r.value == [0x02]
    ensures cmd == Some(Set) ==> r.value == SetPayload(version, target, duration)
  {
    match cmd
    case Some(Get) => Ok([CommandByte(Get)])
    case Some(Set) => Ok(SetPayload(version, target, duration))
    case _ => Err(CCInvalid)
  }

  /** Version gating: a version 1 Set is two bytes whatever duration it was
      given, and the duration only ever reaches the wire from version 2 on. */
  lemma SetVersionGating(version: nat, target: Option<bool>, d1: Option<Durations.Duration>,
                         d2: Option<Durations.Duration>)
    requires version < 2
    ensures SetPayload(version, target, d1) == SetPayload(version, target, d2)
    ensures SetPayload(version, target, d1) == [0x01, if target == Some(true) then 0xFF else 0x00]
  {
  }

  // ---------------------------------------------------------------------
  // Deserialization (inbound: Report)
  // ---------------------------------------------------------------------

  /** The fields a Report carries: the current value, and the version 2
      suffix (target value and duration) when the payload has it. */
  datatype Suffix = Suffix(target: bool, duration: Durations.Duration)

  datatype ReportFields = ReportFields(current: Tri, suffix: Option<Suffix>)

  /** The command the leading byte names, as `deserialize` stores it; an
      empty payload names none. */
  function LeadingCommand(data: seq<byte>): (r: Option<Command>)
    ensures r.Some? ==> |data| > 0 && CommandByte(r.value) == data[0]
    ensures |data| > 0 && 0x01 <= data[0] <= 0x03 ==> r.Some?
  {
    if |data| == 0 then None else CommandFromByte(data[0])
  }

  /** The version 2 suffix is present when the payload has bytes 2 and 3. */
  predicate HasV2Suffix(data: seq<byte>) {
    |data| >= 4
  }

  /** The current value a Report payload carries, when it is a Report long
      enough to have one and that byte is a tri-state value. */
  function ReportCurrentValue(data: seq<byte>): (r: Option<Tri>)
    ensures r.Some? ==> LeadingCommand(data) == Some(Report) && |data| >= 2
    ensures r.Some? ==> EncodeMaybeBoolean(r.value) == data[1]
    ensures LeadingCommand(data) == Some(Report) && |data| >= 2 ==> r == ParseMaybeBoolean(data[1])
  {
    if |data| >= 2 && data[0] == CommandByte(Report) then
      var current := ParseMaybeBoolean(data[1]);
      if current.Some? then ParseMaybeBooleanInverse(data[1]); current else None
    else None
  }

  /** `deserialize` as a function of the payload: only a Report is accepted;
      byte 1 is the tri-state current value; bytes 2 and 3, when present, are
      the target value and the reported duration. The suffix is recognised by
      length alone, so a shorter payload from a version 1 device is valid. */
  function DecodeReport(data: seq<byte>): (r: Result<ReportFields>)
    ensures LeadingCommand(data) != Some(Report) <==> r == Err(CCInvalid)
    ensures LeadingCommand(data) == Some(Report) && |data| < 2 <==> r == Err(PayloadTruncated)
    ensures r == Err(InvalidValue) <==>
              LeadingCommand(data) == Some(Report) && |data| >= 2 &&
              (ParseMaybeBoolean(data[1]).None? || (HasV2Suffix(data) && ParseBoolean(data[2]).None?))
    ensures r.Ok? ==> ReportCurrentValue(data) == Some(r.value.current)
    ensures r.Ok? ==> (r.value.suffix.Some? <==> HasV2Suffix(data))
    ensures r.Ok? && r.value.suffix.Some? ==>
              ParseBoolean(data[2]) == Some(r.value.suffix.value.target) &&
              r.value.suffix.value.duration == Durations.ParseReport(data[3])
  {
    if LeadingCommand(data) != Some(Report) then Err(CCInvalid)
    else if |data| < 2 then Err(PayloadTruncated)
    else match ParseMaybeBoolean(data[1])
      case None => Err(InvalidValue)
      case Some(current) =>
        if !HasV2Suffix(data) then Ok(ReportFields(current, None))
        else match ParseBoolean(data[2])
          case None => Err(InvalidValue)
          case Some(target) => Ok(ReportFields(current, Some(Suffix(target, Durations.ParseReport(data[3])))))
  }

  /** Whether a Report's fields can all be put on the wire. */
  predicate Encodable(f: ReportFields) {
    f.suffix.Some? ==> Durations.ReportRepresentable(f.suffix.value.duration)
  }

  /** The Report layout a device sends, as a reference encoder: the command
      byte, the current value, and the target value and duration when the
      suffix is present. */
  function EncodeReport(f: ReportFields): (p: seq<byte>)
    requires Encodable(f)
    ensures |p| == if f.suffix.Some? then 4 else 2
  {
    [CommandByte(Report), EncodeMaybeBoolean(f.current)] +
    match f.suffix
    case None => []
    case Some(s) => [EncodeBoolean(s.target), Durations.SerializeReport(s.duration)]
  }

  /** Decoding what a device encodes gives back its fields. */
  lemma DecodeEncodeReport(f: ReportFields)
    requires Encodable(f)
    ensures DecodeReport(EncodeReport(f)) == Ok(f)
  {
  }

  /** Every accepted Report is exactly what a device encodes for the decoded
      fields, followed by bytes the decoder ignores. */
  lemma EncodeDecodeReport(data: seq<byte>)
    requires DecodeReport(data).Ok?
    ensures Encodable(DecodeReport(data).value)
    ensures var p := EncodeReport(DecodeReport(data).value);
            |p| <= |data| && p == data[..|p|]
  {
  }

  /** Only the first two bytes of a Report without the suffix, and the
      first four of one with it, are read: a 3-byte Report is read as the
      version 1 Report of its first two bytes, and bytes after the fourth
      are ignored. */
  lemma DecodeReportPrefix(data: seq<byte>)
    requires |data| >= 2
    ensures DecodeReport(data) == DecodeReport(data[..if HasV2Suffix(data) then 4 else 2])
  {
  }

  /** The version 2 Set and Report carry the target value and the duration
      at the same offsets after the current-value byte, so a Set payload read
      back as a Report of the same version reproduces the target value and
      the duration — for every duration both encodings can express. */
  lemma SetAsReportRoundTrip(version: nat, target: bool, d: Durations.Duration, current: Tri)
    requires version >= 2
    requires !d.UnknownDuration? && Durations.ReportRepresentable(d)
    ensures var sent := SetPayload(version, Some(target), Some(d));
            var report := [CommandByte(Report), EncodeMaybeBoolean(current)] + sent[1..];
            DecodeReport(report) == Ok(ReportFields(current, Some(Suffix(target, d))))
  {
  }

  /** The converse: the suffix of every version 2 Report whose duration
      byte is not the unknown sentinel is byte for byte the tail of the Set
      that commands the reported target value and duration. */
  lemma ReportSuffixIsSetSuffix(data: seq<byte>, version: nat)
    requires version >= 2
    requires DecodeReport(data).Ok? && HasV2Suffix(data) && data[3] != 0xFE
    ensures var s := DecodeReport(data).value.suffix.value;
            SetPayload(version, Some(s.target), Some(s.duration))[1..] == data[2..4]
  {
  }

  /** The payload indices a Report of length `n` has its fields read from
      after the command byte: none when it is too short for a current value,
      byte 1 alone for version 1, bytes 1 to 3 with the version 2 suffix.
      Every one of them exists. */
  function ReportIndices(n: nat): (s: set<nat>)
    requires n >= 1
    ensures forall i :: i in s ==> i < n
    ensures n >= 2 ==> 1 in s
    ensures 2 in s <==> n >= 4
    ensures 3 in s <==> n >= 4
  {
    if n < 2 then {} else {1} + if n >= 4 then {2, 3} else {}
  }

  /** `DecodeReport` depends on no byte other than the command byte and the
      bytes at `ReportIndices`: two payloads of the same length that agree on
      those decode alike. */
  lemma DecodeReportReadsOnly(p: seq<byte>, q: seq<byte>)
    requires |p| == |q| >= 1 && p[0] == q[0]
    requires forall i :: i in ReportIndices(|p|) ==> p[i] == q[i]
    ensures DecodeReport(p) == DecodeReport(q)
  {
  }

  // ---------------------------------------------------------------------
  // The command-class instance
  // ---------------------------------------------------------------------

  /** `BinarySwitchCC`: one Binary Switch message for one node, either an
      outbound command built with its parameters or an inbound shell that
      `Deserialize` fills in. */
  class BinarySwitchCC {
    const nodeId: nat
    var ccCommand: Option<Command>
    /** The command-class version in effect, supplied by the driver. */
    var version: nat
    var currentValue: Option<Tri>
    var targetValue: Option<bool>
    var duration: Option<Durations.Duration>
    /** The command-class payload: the last serialization, or the bytes
        handed to `Deserialize`. */
    var payload: seq<byte>

    /** The constructor (BinarySwitchCC.ts:36-46). The source stores the
        target value into `currentValue` (line 44) while `serialize` reads
        `targetValue`; here the argument feeds `targetValue`, and
        `currentValue` stays unset until a Report arrives. */
    constructor (nodeId: nat, version: nat, ccCommand: Option<Command>,
                 targetValue: Option<bool>, duration: Option<Durations.Duration>)
      ensures this.nodeId == nodeId && this.version == version
      ensures this.ccCommand == ccCommand
      ensures this.targetValue == targetValue && this.duration == duration
      ensures currentValue == None && payload == []
    {
      this.nodeId := nodeId;
      this.version := version;
      this.ccCommand := ccCommand;
      this.targetValue := targetValue;
      this.duration := duration;
      currentValue := None;
      payload := [];
    }

    /** `serialize`: stores and returns the payload for Get or Set; for
        any other command it fails with CC_Invalid and the stored payload
        is left as it was. Only `payload` changes. */
    method Serialize() returns (r: Result<seq<byte>>)
      requires ccCommand == Some(Set) && version >= 2 ==> duration.Some?
      modifies this`payload
      ensures r == SerializePayload(ccCommand, version, targetValue, duration)
      ensures payload == if r.Ok? then r.value else old(payload)
      ensures ccCommand == old(ccCommand) && version == old(version)
      ensures currentValue == old(currentValue) && targetValue == old(targetValue)
      ensures duration == old(duration)
    {
      match ccCommand {
        case Some(Get) =>
          payload := [CommandByte(Get)];
        case Some(Set) =>
          payload := SetPayload(version, targetValue, duration);
        case _ =>
          return Err(CCInvalid);
      }
      r := Ok(payload);
    }

    /** `deserialize`: stores the payload and the command its first byte
        names, then fails with CC_Invalid unless that is Report. A Report
        sets `currentValue` from byte 1, and — only when bytes 2 and 3 are
        present — `targetValue` and `duration` from them; a shorter Report
        leaves those two as they were. The fields are assigned in that
        order, so a target byte outside the boolean convention leaves the
        current value already updated. */
    method Deserialize(data: seq<byte>) returns (status: Status)
      modifies this`payload, this`ccCommand, this`currentValue, this`targetValue, this`duration
      ensures payload == data && ccCommand == LeadingCommand(data)
      ensures status.Success? <==> DecodeReport(data).Ok?
      ensures status.Failure? ==> status.error == DecodeReport(data).error
      ensures currentValue == if ReportCurrentValue(data).Some? then ReportCurrentValue(data)
                              else old(currentValue)
      ensures var r := DecodeReport(data);
              if r.Ok? && r.value.suffix.Some? then
                targetValue == Some(r.value.suffix.value.target) &&
                duration == Some(r.value.suffix.value.duration)
              else
                targetValue == old(targetValue) && duration == old(duration)
      ensures version == old(version)
    {
      payload := data;
      ccCommand := LeadingCommand(data);
      if ccCommand != Some(Report) {
        return Failure(CCInvalid);
      }
      if |data| < 2 {
        return Failure(PayloadTruncated);
      }
      var current := ParseMaybeBoolean(data[1]);
      if current.None? {
        return Failure(InvalidValue);
      }
      currentValue := current;
      if HasV2Suffix(data) {
        var target := ParseBoolean(data[2]);
        if target.None? {
          return Failure(InvalidValue);
        }
        targetValue := target;
        duration := Some(Durations.ParseReport(data[3]));
      }
      return Success;
    }
  }

  /** The corrected constructor followed by `Serialize`: the target value
      given to the constructor is the one on the wire. */
  method SerializeNewSet(nodeId: nat, version: nat, target: bool, duration: Option<Durations.Duration>)
    returns (r: Result<seq<byte>>)
    requires version >= 2 ==> duration.Some?
    ensures r.Ok? && |r.value| >= 2 && ParseBoolean(r.value[1]) == Some(target)
    ensures r == Ok(SetPayload(version, Some(target), duration))
  {
    var cc := new BinarySwitchCC(nodeId, version, Some(Set), Some(target), duration);
    r := cc.Serialize();
  }
}
