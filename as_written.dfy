/** The Binary Switch command class as BinarySwitchCC.ts writes it, where
    that differs from what the protocol requires, beside the inputs that
    show each difference. The rest of the model uses the corrected
    definitions in module BinarySwitch. */
module BinarySwitchAsWritten {
  import opened ValueTypes
  import opened BinarySwitch
  import Durations

  /** Set serialization as written (lines 60-67): the field array is built
      and then replaced by a buffer holding the command byte alone, so only
      the first byte of the intended payload is stored. */
  function SetPayloadAsWritten(version: nat, target: Option<bool>, duration: Option<Durations.Duration>): (p: seq<byte>)
    requires version >= 2 ==> duration.Some?
    ensures p == SetPayload(version, target, duration)[..1]
    ensures |p| < |SetPayload(version, target, duration)|
  {
    [CommandByte(Set)]
  }

  /** "Switch on over 5 seconds" on version 2: the intended payload is
      01 FF 05, the stored one is 01, the same as for "switch off". */
  lemma SetDropsFieldsAsWritten()
    ensures SetPayload(2, Some(true), Some(Durations.Seconds(5))) == [0x01, 0xFF, 0x05]
    ensures SetPayloadAsWritten(2, Some(true), Some(Durations.Seconds(5))) == [0x01]
    ensures SetPayloadAsWritten(2, Some(true), Some(Durations.Seconds(5))) ==
            SetPayloadAsWritten(2, Some(false), Some(Durations.Seconds(5)))
  {
  }

  /** The fields the constructor sets, as written (line 44): the target
      value argument is stored into `currentValue`, and `targetValue`, which
      `serialize` reads, stays unset. */
  datatype ConstructedFields = ConstructedFields(currentValue: Option<Tri>, targetValue: Option<bool>,
                                                 duration: Option<Durations.Duration>)

  function ConstructAsWritten(targetValue: Option<bool>, duration: Option<Durations.Duration>): (f: ConstructedFields)
    ensures f.targetValue == None && f.duration == duration
    ensures f.currentValue.Some? <==> targetValue.Some?
  {
    ConstructedFields(if targetValue.Some? then Some(FromBool(targetValue.value)) else None, None, duration)
  }

  /** "Switch on" on version 1. With line 67 corrected, the line 44 defect
      alone still sends the unset target value as off, 01 00, where 01 FF
      was asked for; with both lines as written the payload is 01. */
  lemma ConstructorDropsTargetAsWritten()
    ensures var f := ConstructAsWritten(Some(true), None);
            SetPayload(1, f.targetValue, f.duration) == [0x01, 0x00]
    ensures var f := ConstructAsWritten(Some(true), None);
            SetPayloadAsWritten(1, f.targetValue, f.duration) == [0x01]
  {
  }

  /** The payload indices a Report of length `n` is read at after the
      command byte, as written (lines 87-90): byte 1 unconditionally, and
      bytes 2 and 3 whenever the length is at least 2. */
  function ReportIndicesAsWritten(n: nat): (s: set<nat>)
    requires n >= 1
    ensures 1 in s
    ensures 2 in s <==> 3 in s
    ensures 3 in s <==> n >= 2
  {
    {1} + if n >= 2 then {2, 3} else {}
  }

  /** The Report 03 is read at index 1 with no byte there (line 87), and
      the Reports 03 00 and 03 00 00 pass the version 2 guard (line 88) and
      are read at index 3, past their end. */
  lemma {:induction false} ReportReadsPastEndAsWritten()
    ensures exists i :: i in ReportIndicesAsWritten(1) && i >= 1
    ensures exists i :: i in ReportIndicesAsWritten(2) && i >= 2
    ensures exists i :: i in ReportIndicesAsWritten(3) && i >= 3
  {
    assert 1 in ReportIndicesAsWritten(1);
    assert 3 in ReportIndicesAsWritten(2) && 3 in ReportIndicesAsWritten(3);
  }
}
