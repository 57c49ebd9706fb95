/**
 * Validation of the raw configuration file (`loadConfig` in AntiGhostPlugin.java):
 * the mode name matched case-insensitively against the constants, then the two
 * non-negativity checks, in that order.
 */
module Config {
  import opened Wrappers
  import opened Modes

  /** The largest Java `int`. */
  const IntMax: int := 0x7fff_ffff

  /** A Java `int`: 32-bit two's complement. */
  type Int32 = x: int | -0x8000_0000 <= x <= IntMax

  /** The entries read from the config file: `mode` may be absent, the two ints are as read. */
  datatype RawConfig = RawConfig(mode: Option<string>, radius: Int32, rateLimit: Int32)

  /**
   * The exceptions the configuration checks throw; each carries the value its
   * message reports.
   */
  datatype ConfigError =
    | ModeMissing
    | UnknownMode(raw: string)
    | NegativeRadius(reported: int)
    | NegativeRateLimit(reported: int)

  /** A validated configuration. */
  datatype Settings = Settings(mode: AGMode, radius: nat, rateLimit: nat)

  /** The hard-coded configuration installed when loading fails. */
  const Fallback: Settings := Settings(Default, 4, 1000)

  /**
   * Whether `c` and the upper-case ASCII letter `u` are equal ignoring case in the
   * sense of Java's `String.equalsIgnoreCase`: the same character, its ASCII
   * lower case, or a character whose Java upper or lower case folds onto `u`
   * (dotless i and capital I with dot onto I, long s onto S, the Kelvin sign onto K).
   */
  predicate MatchesUpper(c: char, u: char): (m: bool)
    requires 'A' <= u <= 'Z'
    ensures c == u ==> m
    ensures c as int < 0x80 ==> (m <==> c == u || c as int == u as int + 32)
  {
    || c == u
    || c as int == u as int + 32
    || (u == 'I' && (c == '\U{0131}' || c == '\U{0130}'))
    || (u == 'S' && c == '\U{017F}')
    || (u == 'K' && c == '\U{212A}')
  }

  /** `name.equalsIgnoreCase(raw)` for a name made of upper-case ASCII letters. */
  predicate EqualsIgnoreCase(name: string, raw: string): (eq: bool)
    requires forall i :: 0 <= i < |name| ==> 'A' <= name[i] <= 'Z'
    ensures raw == name ==> eq
    ensures eq ==> |raw| == |name|
  {
    |raw| == |name| && forall i :: 0 <= i < |raw| ==> MatchesUpper(raw[i], name[i])
  }

  /** The constant of `ms` whose name matches `raw` ignoring case, searched in order. */
  function FindNamed(ms: seq<AGMode>, raw: string): (r: Option<AGMode>)
    ensures r.Some? ==> r.value in ms && EqualsIgnoreCase(Name(r.value), raw)
    ensures r.None? ==> forall m :: m in ms ==> !EqualsIgnoreCase(Name(m), raw)
  {
    if ms == [] then None
    else if EqualsIgnoreCase(Name(ms[0]), raw) then Some(ms[0])
    else FindNamed(ms[1..], raw)
  }

  /** The stream search over `AGMode.values()` for the configured mode name. */
  function ModeNamed(raw: string): (r: Option<AGMode>)
    ensures r.Some? <==> exists m: AGMode :: EqualsIgnoreCase(Name(m), raw)
    ensures r.Some? ==> EqualsIgnoreCase(Name(r.value), raw)
  {
    var r := FindNamed(Values, raw);
    assert r.None? ==> forall m: AGMode :: !EqualsIgnoreCase(Name(m), raw) by {
      forall m: AGMode ensures r.None? ==> !EqualsIgnoreCase(Name(m), raw) {
        assert Values[Ordinal(m)] == m;
      }
    }
    r
  }

  /**
   * Every spelling of a mode's name that differs only in case selects that mode:
   * the names have different lengths, so no two modes compete for one string.
   */
  lemma ModeNamedIgnoresCase(m: AGMode, raw: string)
    requires EqualsIgnoreCase(Name(m), raw)
    ensures ModeNamed(raw) == Some(m)
  {
    var r := ModeNamed(raw);
    assert |Name(r.value)| == |raw| == |Name(m)|;
  }

  /** The mode the config names, if it names one. */
  function ConfiguredMode(raw: RawConfig): (r: Option<AGMode>)
    ensures r.Some? <==> raw.mode.Some? && exists m: AGMode :: EqualsIgnoreCase(Name(m), raw.mode.value)
    ensures r.Some? ==> EqualsIgnoreCase(Name(r.value), raw.mode.value)
  {
    if raw.mode.None? then None else ModeNamed(raw.mode.value)
  }

  /**
   * What `loadConfig` decides about a raw config: the settings it installs, or the
   * exception of the first failing check (mode present, mode known, radius
   * non-negative, rate limit non-negative).
   */
  function Validate(raw: RawConfig): (r: Result<Settings, ConfigError>)
    ensures r.Success? <==>
      ConfiguredMode(raw).Some? && raw.radius >= 0 && raw.rateLimit >= 0
    ensures r.Success? ==>
      && raw.mode.Some? && EqualsIgnoreCase(Name(r.value.mode), raw.mode.value)
      && r.value.radius == raw.radius && r.value.rateLimit == raw.rateLimit
    ensures r == Failure(ModeMissing) <==> raw.mode.None?
    ensures r.Failure? && r.error.UnknownMode? <==>
      raw.mode.Some? && forall m: AGMode :: !EqualsIgnoreCase(Name(m), raw.mode.value)
    ensures r.Failure? && r.error.NegativeRadius? <==>
      ConfiguredMode(raw).Some? && raw.radius < 0
    ensures r.Failure? && r.error.NegativeRateLimit? <==>
      ConfiguredMode(raw).Some? && raw.radius >= 0 && raw.rateLimit < 0
  {
    if raw.mode.None? then Failure(ModeMissing)
    else
      var m := ModeNamed(raw.mode.value);
      if m.None? then Failure(UnknownMode(raw.mode.value))
      else if raw.radius < 0 then Failure(NegativeRadius(raw.radius))
      else if raw.rateLimit < 0 then Failure(NegativeRateLimit(raw.rateLimit))
      else Success(Settings(m.value, raw.radius, raw.rateLimit))
  }
}
