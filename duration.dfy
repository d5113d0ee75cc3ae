/** Transition durations and their two single-byte encodings, after the
    duration tables of the Z-Wave Application Command Class Specification.

    A duration is encoded differently when it is commanded (Set) and when it
    is reported back (Report):

      byte        Set direction             Report direction
      0x00        instantly                 already at the target
      0x01-0x7F   1 to 127 seconds          1 to 127 seconds
      0x80-0xFD   1 to 126 minutes          1 to 126 minutes
      0xFE        127 minutes               unknown duration
      0xFF        factory default           (reserved)

    The protocol reserves 0xFF in the Report direction. This model reads it
    as the factory default, so that every reported byte is a duration; that
    entry is a modelling choice, not part of the protocol table.

    A value does not record which encoding produced it. */
module Durations {
  import opened ValueTypes

  datatype DurationValue = Seconds(seconds: nat) | Minutes(minutes: nat) | UnknownDuration | FactoryDefault

  /** The range the one-byte encodings can express. */
  predicate InRange(d: DurationValue) {
    match d
    case Seconds(s) => s <= 127
    case Minutes(m) => 1 <= m <= 127
    case _ => true
  }

  type Duration = d: DurationValue | InRange(d) witness Seconds(0)

  /** Whether the Report encoding can express `d`: it has no byte for 127 minutes. */
  predicate ReportRepresentable(d: Duration) {
    d != Minutes(127)
  }

  /** `Duration.serializeSet`. The Set encoding has no byte for an unknown
      duration; one is sent as the factory default. A duration comes back
      unchanged through the Report decoder exactly when both encodings agree
      on it, which is every duration except an unknown duration and 127 minutes. */
  function SerializeSet(d: Duration): (b: byte)
    ensures d.UnknownDuration? || d.FactoryDefault? <==> b == 0xFF
    ensures ParseReport(b) == d <==> !d.UnknownDuration? && ReportRepresentable(d)
  {
    match d
    case Seconds(s) => s as byte
    case Minutes(m) => (0x7F + m) as byte
    case UnknownDuration => 0xFF
    case FactoryDefault => 0xFF
  }

  /** The Report-direction encoder: the reference layout of the table above,
      the inverse of `ParseReport`. */
  function SerializeReport(d: Duration): (b: byte)
    requires ReportRepresentable(d)
  {
    match d
    case Seconds(s) => s as byte
    case Minutes(m) => (0x7F + m) as byte
    case UnknownDuration => 0xFE
    case FactoryDefault => 0xFF
  }

  /** `Duration.parseReport`: every byte is a duration; the two reserved
      bytes give the distinguished values
      UnknownDuration and FactoryDefault, never a fault. */
  function ParseReport(b: byte): (d: Duration)
    ensures ReportRepresentable(d)
    ensures SerializeReport(d) == b
  {
    if b <= 0x7F then Seconds(b as nat)
    else if b <= 0xFD then Minutes(b as nat - 0x7F)
    else if b == 0xFE then UnknownDuration
    else FactoryDefault
  }

  /** Decoding a reported byte inverts the Report encoding. */
  lemma ReportRoundTrip(d: Duration)
    requires ReportRepresentable(d)
    ensures ParseReport(SerializeReport(d)) == d
  {
  }
}
