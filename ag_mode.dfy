/** The AntiGhost operating mode (AGMode.java) and its one-byte wire encoding. */
module Modes {
  import opened Wrappers

  /** The three modes, declared in this order. */
  datatype AGMode = ENABLED | DISABLED | CUSTOM

  /** `AGMode.values()`: every constant, in declaration order. */
  const Values: seq<AGMode> := [ENABLED, DISABLED, CUSTOM]

  /** The documented default state. */
  const Default: AGMode := ENABLED

  /** `mode.ordinal()`: the position of the constant in declaration order. */
  function Ordinal(m: AGMode): (o: nat)
    ensures o < |Values| && Values[o] == m
  {
    match m
    case ENABLED => 0
    case DISABLED => 1
    case CUSTOM => 2
  }

  /** `mode.name()`: the constant's identifier. */
  function Name(m: AGMode): (s: string)
    ensures 6 <= |s| <= 8
    ensures forall i :: 0 <= i < |s| ==> 'A' <= s[i] <= 'Z'
  {
    match m
    case ENABLED => "ENABLED"
    case DISABLED => "DISABLED"
    case CUSTOM => "CUSTOM"
  }

  /** The handshake payload byte `(byte) mode.ordinal()`. */
  function ModeByte(m: AGMode): (b: bv8)
    ensures b as int == Ordinal(m)
    ensures b <= 2
  {
    Ordinal(m) as bv8
  }

  /** How a receiver reads the byte back: an index into `Values`, if in range. */
  function DecodeModeByte(b: bv8): (r: Option<AGMode>)
    ensures r.Some? <==> b as int < |Values|
    ensures r.Some? ==> ModeByte(r.value) == b
  {
    if b as int < |Values| then Some(Values[b as int]) else None
  }

  /** Encoding by ordinal is injective: decoding gives back the mode that was sent. */
  lemma ModeByteRoundTrip(m: AGMode)
    ensures DecodeModeByte(ModeByte(m)) == Some(m)
  {
  }

  /** The declared constants are pairwise distinct, so `Values` lists exactly three modes. */
  lemma ValuesDistinct()
    ensures |Values| == 3
    ensures forall i, j :: 0 <= i < j < |Values| ==> Values[i] != Values[j]
  {
  }
}
