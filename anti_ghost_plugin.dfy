/**
 * The plugin object of AntiGhostPlugin.java as a state machine: the mode, the
 * radius, the rate limit and the rate-limit table, updated in place by the
 * request handler, the configuration loaders and the setters. Messages handed to
 * the server for delivery are appended to `sent`, in order.
 */
module Plugin {
  import opened Wrappers
  import opened Modes
  import opened Config
  import opened RateLimits
  import opened Snapshots

  /** The plugin-message channel shared with the client mod. */
  const CHANNEL: string := "antighost:v1"

  /** The largest radius whose list capacity `(2r+1)^3` fits in a Java `int`. */
  const MaxRadius: int := 644

  /**
   * `MaxRadius` is exact: up to it the list capacity `(2r+1)^3` the request
   * handler computes stays within `Integer.MAX_VALUE`, one more and it overflows.
   */
  lemma CapacityFitsInt(r: int)
    requires 0 <= r <= MaxRadius
    ensures (2 * r + 1) * (2 * r + 1) * (2 * r + 1) <= 0x7fff_ffff
    ensures (2 * MaxRadius + 3) * (2 * MaxRadius + 3) * (2 * MaxRadius + 3) > 0x7fff_ffff
  {
    var d := 2 * r + 1;
    MulMonotonic(d, d, 2 * MaxRadius + 1);
    MulMonotonic(2 * MaxRadius + 1, d, 2 * MaxRadius + 1);
    MulMonotonic(d, d * d, (2 * MaxRadius + 1) * (2 * MaxRadius + 1));
    MulMonotonic((2 * MaxRadius + 1) * (2 * MaxRadius + 1), d, 2 * MaxRadius + 1);
  }

  /** An online player: identity and the plugin channels the client listens on. */
  datatype OnlinePlayer = OnlinePlayer(uuid: Uuid, channels: set<string>)

  /** What the plugin hands to the server for delivery to one player. */
  datatype Outgoing =
    | PluginMessage(player: Uuid, channel: string, payload: seq<bv8>)
    | BlockChanges(player: Uuid, offsets: seq<Offset>)

  /** The handshake: one byte, the ordinal of the mode, on the plugin's channel. */
  function Handshake(player: Uuid, m: AGMode): (msg: Outgoing)
    ensures msg.PluginMessage? && msg.player == player && msg.channel == CHANNEL
    ensures |msg.payload| == 1 && DecodeModeByte(msg.payload[0]) == Some(m)
  {
    PluginMessage(player, CHANNEL, [ModeByte(m)])
  }

  /** The handshakes a successful load sends: one per online player listening on the channel, in order. */
  function ModeBroadcast(online: seq<OnlinePlayer>, m: AGMode): (msgs: seq<Outgoing>)
    ensures |msgs| <= |online|
    ensures forall k :: 0 <= k < |msgs| ==> msgs[k].PluginMessage? && msgs[k].channel == CHANNEL
  {
    if online == [] then []
    else
      var last := online[|online| - 1];
      ModeBroadcast(online[..|online| - 1], m)
      + (if CHANNEL in last.channels then [Handshake(last.uuid, m)] else [])
  }

  /** The positions in `online` of the players listening on the plugin's channel. */
  function Listening(online: seq<OnlinePlayer>): set<int>
  {
    set i | 0 <= i < |online| && CHANNEL in online[i].channels
  }

  /**
   * The broadcast reaches exactly the listening players: every message is the
   * mode byte for a listening player, and every listening player gets one.
   */
  lemma {:induction false} ModeBroadcastTargets(online: seq<OnlinePlayer>, m: AGMode)
    ensures forall msg :: msg in ModeBroadcast(online, m) <==>
      exists p :: p in online && CHANNEL in p.channels && msg == Handshake(p.uuid, m)
  {
    if online != [] {
      var init := online[..|online| - 1];
      var last := online[|online| - 1];
      ModeBroadcastTargets(init, m);
      assert online == init + [last];
      forall msg
        ensures msg in ModeBroadcast(online, m) <==>
          exists p :: p in online && CHANNEL in p.channels && msg == Handshake(p.uuid, m)
      {
        if msg in ModeBroadcast(online, m) && msg !in ModeBroadcast(init, m) {
          assert last in online;
        }
        if p :| p in online && CHANNEL in p.channels && msg == Handshake(p.uuid, m) {
          if p != last {
            assert p in init;
          }
        }
      }
    }
  }

  /** One message per listening player: the broadcast has as many messages as there are listeners. */
  lemma {:induction false} ModeBroadcastCount(online: seq<OnlinePlayer>, m: AGMode)
    ensures |ModeBroadcast(online, m)| == |Listening(online)|
  {
    if online != [] {
      var n := |online| - 1;
      var init := online[..n];
      ModeBroadcastCount(init, m);
      var extra := if CHANNEL in online[n].channels then {n} else {};
      assert Listening(online) == Listening(init) + extra by {
        forall i | 0 <= i < n ensures online[i] == init[i] { }
      }
      assert n !in Listening(init);
    }
  }

  class AntiGhostPlugin {
    var mode: AGMode
    var radius: Int32
    var rateLimit: Int32
    /** The rate-limit cache; `None` is the `null` the plugin keeps when the rate limit is 0. */
    var rateLimits: Option<RateTable>
    /** Plugin messages and block changes handed to the server, oldest first. */
    var sent: seq<Outgoing>

    /**
     * A consistent configuration: radius and rate limit in `[0, Integer.MAX_VALUE]`, and a table
     * exactly when the rate limit is positive, expiring after that many
     * milliseconds. Every operation keeps it except a failing direct `loadConfig`.
     */
    ghost predicate Valid()
      reads this
    {
      && 0 <= radius <= IntMax && 0 <= rateLimit <= IntMax
      && (rateLimits.None? <==> rateLimit == 0)
      && (rateLimits.Some? ==> rateLimits.value.window == rateLimit)
    }

    /** The configuration fields as validated settings (meaningful when `Valid()`). */
    ghost function Current(): Settings
      reads this
      requires Valid()
    {
      Settings(mode, radius, rateLimit)
    }

    /** Enabling the plugin: `loadConfigSafe` on the configuration file. */
    constructor (raw: RawConfig, online: seq<OnlinePlayer>)
      ensures Valid()
      ensures Validate(raw).Success? ==>
        && Current() == Validate(raw).value
        && rateLimits == NewTable(rateLimit)
        && sent == ModeBroadcast(online, mode)
      ensures Validate(raw).Failure? ==>
        Current() == Fallback && rateLimits == NewTable(1000) && sent == []
    {
      mode, radius, rateLimit, rateLimits, sent := Default, 0, 0, None, [];
      new;
      var _ := LoadConfigSafe(raw, online);
    }

    /**
     * A block-update request from a player. The event starts cancelled as
     * `DefaultCancelled` says; `listener` stands for the event handlers, which
     * may set the flag to anything. A request that ends up cancelled changes
     * nothing; otherwise the player's table entry is written at `now` and the
     * snapshot around the player is sent.
     */
    method OnPluginMessageReceived(uuid: Uuid, now: int, minHeight: int, maxHeight: int, listener: bool -> bool)
      requires 0 <= radius <= MaxRadius
      modifies this
      ensures mode == old(mode) && radius == old(radius) && rateLimit == old(rateLimit)
      ensures var cancelled := listener(DefaultCancelled(old(mode), old(radius), old(rateLimits), uuid, now));
        && rateLimits == AfterRequest(old(rateLimits), uuid, now, cancelled)
        && sent == old(sent) + (if cancelled then [] else [BlockChanges(uuid, Snapshot(radius, minHeight, maxHeight))])
      ensures old(Valid()) ==> Valid()
    {
      var cancelled := listener(mode != CUSTOM || radius == 0 || (rateLimits.Some? && Live(rateLimits.value, uuid, now)));
      if cancelled {
        return;
      }
      if rateLimits.Some? {
        rateLimits := Some(Record(rateLimits.value, uuid, now));
      }
      var states := BuildSnapshot(radius, minHeight, maxHeight);
      sent := sent + [BlockChanges(uuid, states)];
    }

    /**
     * A player registers a plugin channel: on the AntiGhost channel the player is
     * sent the plugin's current mode byte (what a listener sets on the register
     * event is not used); other channels are ignored.
     */
    method OnRegisterChannel(player: Uuid, channel: string)
      modifies this`sent
      ensures sent == old(sent) + (if channel == CHANNEL then [Handshake(player, mode)] else [])
    {
      if channel != CHANNEL {
        return;
      }
      sent := sent + [Handshake(player, mode)];
    }

    /**
     * `loadConfig`: the checks of `Validate`, with the fields written as the code
     * reaches them. The mode is written once it parses and the radius right after
     * it, before the radius is checked; the rate limit is written before its own
     * check. Only a load that passes every check rebuilds the table and sends the
     * new mode to every listening online player.
     */
    method LoadConfig(raw: RawConfig, online: seq<OnlinePlayer>) returns (r: Outcome<ConfigError>)
      modifies this
      ensures r == (if Validate(raw).Success? then Pass else Fail(Validate(raw).error))
      ensures mode == (if ConfiguredMode(raw).Some? then ConfiguredMode(raw).value else old(mode))
      ensures radius == (if ConfiguredMode(raw).Some? then raw.radius else old(radius))
      ensures rateLimit == (if ConfiguredMode(raw).Some? && raw.radius >= 0 then raw.rateLimit else old(rateLimit))
      ensures rateLimits == (if r.Pass? then NewTable(raw.rateLimit) else old(rateLimits))
      ensures sent == old(sent) + (if r.Pass? then ModeBroadcast(online, mode) else [])
      ensures r.Pass? ==> Valid() && Current() == Validate(raw).value
    {
      if raw.mode.None? {
        return Fail(ModeMissing);
      }
      var parsed := ModeNamed(raw.mode.value);
      if parsed.None? {
        return Fail(UnknownMode(raw.mode.value));
      }
      mode := parsed.value;
      radius := raw.radius;
      if radius < 0 {
        return Fail(NegativeRadius(radius));
      }
      rateLimit := raw.rateLimit;
      if rateLimit < 0 {
        return Fail(NegativeRateLimit(rateLimit));
      }
      rateLimits := NewTable(rateLimit);
      BroadcastMode(online);
      return Pass;
    }

    /** The broadcast at the end of a successful `loadConfig`: the mode byte to each listening online player. */
    method BroadcastMode(online: seq<OnlinePlayer>)
      modifies this`sent
      ensures sent == old(sent) + ModeBroadcast(online, mode)
    {
      for i := 0 to |online|
        invariant sent == old(sent) + ModeBroadcast(online[..i], mode)
      {
        assert online[..i + 1][..i] == online[..i];
        if CHANNEL in online[i].channels {
          sent := sent + [Handshake(online[i].uuid, mode)];
        }
      }
      assert online[..|online|] == online;
    }

    /**
     * `loadConfigSafe`: `loadConfig`, and on any failure the hard-coded fallback
     * (ENABLED, radius 4, rate limit 1000, a fresh table), whatever was loaded
     * before. The fallback is not broadcast.
     */
    method LoadConfigSafe(raw: RawConfig, online: seq<OnlinePlayer>) returns (ok: bool)
      modifies this
      ensures Valid()
      ensures ok == Validate(raw).Success?
      ensures ok ==>
        && Current() == Validate(raw).value
        && rateLimits == NewTable(rateLimit)
        && sent == old(sent) + ModeBroadcast(online, mode)
      ensures !ok ==> Current() == Fallback && rateLimits == NewTable(1000) && sent == old(sent)
    {
      var r := LoadConfig(raw, online);
      if r.Fail? {
        mode := Default;
        radius := 4;
        rateLimit := 1000;
        rateLimits := NewTable(rateLimit);
        return false;
      }
      return true;
    }

    /** `getMode`. */
    function GetMode(): (m: AGMode)
      reads this
      ensures m == mode
    {
      mode
    }

    /** `getRadius`: declared to lie in `[0, Integer.MAX_VALUE]`, which holds in a valid state. */
    function GetRadius(): (r: int)
      reads this
      ensures Valid() ==> 0 <= r <= IntMax
    {
      radius
    }

    /** `getRateLimit`: declared to lie in `[0, Integer.MAX_VALUE]`, which holds in a valid state. */
    function GetRateLimit(): (r: int)
      reads this
      ensures Valid() ==> 0 <= r <= IntMax
    {
      rateLimit
    }

    /** `setMode`: only the mode changes; the table and its records are kept. */
    method SetMode(m: AGMode)
      modifies this`mode
      ensures mode == m
      ensures old(Valid()) ==> Valid()
    {
      mode := m;
    }

    /** `setRadius`: a negative radius throws and changes nothing; the table is never touched. */
    method SetRadius(newRadius: Int32) returns (r: Outcome<ConfigError>)
      modifies this`radius
      ensures newRadius < 0 ==> r == Fail(NegativeRadius(newRadius)) && radius == old(radius)
      ensures newRadius >= 0 ==> r == Pass && radius == newRadius
      ensures old(Valid()) ==> Valid()
    {
      if newRadius < 0 {
        return Fail(NegativeRadius(newRadius));
      }
      radius := newRadius;
      return Pass;
    }

    /**
     * `rateLimit(int)`: a negative value throws and changes nothing (its message
     * reports the current radius, not the rejected value); otherwise the table is
     * rebuilt, which discards every record.
     */
    method RateLimit(newRateLimit: Int32) returns (r: Outcome<ConfigError>)
      modifies this`rateLimit, this`rateLimits
      ensures newRateLimit < 0 ==>
        r == Fail(NegativeRateLimit(radius)) && rateLimit == old(rateLimit) && rateLimits == old(rateLimits)
      ensures newRateLimit >= 0 ==>
        r == Pass && rateLimit == newRateLimit && rateLimits == NewTable(newRateLimit)
      ensures old(Valid()) ==> Valid()
    {
      if newRateLimit < 0 {
        return Fail(NegativeRateLimit(radius));
      }
      rateLimit := newRateLimit;
      rateLimits := NewTable(rateLimit);
      return Pass;
    }
  }

  /**
   * A client of the class: CUSTOM mode, radius 4 and a 1000 ms window. A fresh
   * player's first request is served, one 10 ms later is refused, and one 1001 ms
   * after the first is served again.
   */
  method RateLimitScenario()
  {
    var raw := RawConfig(Some("custom"), 4, 1000);
    assert EqualsIgnoreCase(Name(CUSTOM), "custom") by {
      assert forall i :: 0 <= i < 6 ==> "custom"[i] as int == "CUSTOM"[i] as int + 32;
    }
    ModeNamedIgnoresCase(CUSTOM, "custom");
    assert Validate(raw) == Success(Settings(CUSTOM, 4, 1000));
    var plugin := new AntiGhostPlugin(raw, []);
    var player := Uuid(0, 7);
    var keepFlag := (b: bool) => b;
    assert plugin.rateLimits == Some(RateTable(1000, map[]));
    plugin.OnPluginMessageReceived(player, 0, -64, 320, keepFlag);
    assert plugin.rateLimits == Some(RateTable(1000, map[player := 0]));
    assert |plugin.sent| == 1;
    plugin.OnPluginMessageReceived(player, 10, -64, 320, keepFlag);
    assert plugin.rateLimits == Some(RateTable(1000, map[player := 0]));
    assert |plugin.sent| == 1;
    plugin.OnPluginMessageReceived(player, 1001, -64, 320, keepFlag);
    assert |plugin.sent| == 2;
  }
}
