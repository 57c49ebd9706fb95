# AntiGhost server plugin — a Dafny model

AntiGhostPlugin is a Bukkit server plugin that works with the AntiGhost client
mod. A client asks the server to resend the blocks around it, which clears
"ghost" blocks. The plugin decides whether to honour each request. Its inputs
are the configured mode (ENABLED, DISABLED or CUSTOM), a radius, and a
per-player rate limit. When it honours a request, it sends the block states of
a cube around the player, layer by layer. When a client registers the plugin
channel `antighost:v1`, and after every successful configuration load, the
plugin tells the client the mode as one byte: its ordinal.

The model has six modules, one file each:

- `Wrappers` (`wrappers.dfy`): `Option`, `Result` and `Outcome`, where `Outcome` is a returned exception or nothing.
- `Modes` (`ag_mode.dfy`): the `AGMode` enum, its order, its names and the one-byte handshake encoding.
- `Config` (`config.dfy`): what `loadConfig` checks. Configuration integers are Java `int`s (`Int32`).
  - The mode name is matched case-insensitively, as Java's `equalsIgnoreCase` does.
  - The radius and the rate limit are then checked, in the code's order, with the exception each check throws.
- `RateLimits` (`rate_limits.dfy`): the Guava expire-after-write cache.
  - It is modelled as the window plus the last write time per player, and the clock is an explicit `now`.
  - The module also holds the default "cancelled" flag of a request event.
- `Snapshots` (`snapshot.dfy`): the triple loop that collects the cube of block offsets.
  - `BuildSnapshot` is proved equal to the specification function `Snapshot`.
  - Lemmas state the size of `Snapshot`, its members and its order.
- `Plugin` (`anti_ghost_plugin.dfy`): the plugin object as a class.
  - Fields: `mode`, `radius`, `rateLimit` and `rateLimits`.
  - The messages the plugin hands to the server go into the field `sent`, in order.
  - Methods: the request handler, the channel-registration handler, the two loaders, and the getters and setters.

Points of the code's behaviour that the model keeps as written:

- **The request flag is a "cancelled" flag.** The event is created with `cancelled = mode != CUSTOM || radius == 0 || <live record>` (AntiGhostPlugin.java:67-68).
  - So ENABLED and DISABLED requests, zero-radius requests, and requests inside the rate-limit window start *cancelled*.
  - They are served only if an event listener un-cancels them.
  - A CUSTOM request with a non-zero radius from a player with no live record starts uncancelled; it is served unless a listener cancels it.
- **The layer test uses the relative offset `y`, not the block's absolute height.** A layer is skipped when `y < min || y >= max`, with `y` running over `[-radius, radius]` (AntiGhostPlugin.java:80-81).
  - The model keeps the comparison as written (`Snapshots.LayerKept`).
- **The registration event can neither veto the handshake nor change the mode that is sent.** The handler always sends the plugin's own `mode` (AntiGhostPlugin.java:115-117).
- **`loadConfig` writes fields before it checks them.** The mode is written once it parses, and the radius before the radius check. The rate limit is written before its own check. So a failed direct `loadConfig` can leave a negative radius or rate limit behind. `loadConfigSafe` then overwrites them with the fallback.

## Model

| member | source | states |
|---|---|---|
| Modes.Ordinal | src/main/java/ru/vidtu/antighostplugin/AGMode.java:9-23 | the ordinal is the constant's position in declaration order: `Values[Ordinal(m)] == m` |
| Modes.Name | src/main/java/ru/vidtu/antighostplugin/AGMode.java:14-22 | the constant names are 6 to 8 upper-case ASCII letters |
| Modes.ModeByte | src/main/java/ru/vidtu/antighostplugin/AntiGhostPlugin.java:117 | the handshake byte `(byte) mode.ordinal()` equals the ordinal and lies in [0, 2] |
| Modes.DecodeModeByte | src/main/java/ru/vidtu/antighostplugin/AGMode.java:9-23 | a byte decodes to a mode exactly when it is below the number of constants, and that mode encodes back to the byte |
| Modes.ModeByteRoundTrip | src/main/java/ru/vidtu/antighostplugin/AGMode.java:9-23 | decoding the handshake byte returns the mode that was sent, so the encoding is injective |
| Modes.ValuesDistinct | src/main/java/ru/vidtu/antighostplugin/AGMode.java:14-22 | there are exactly three constants and they are pairwise distinct |
| Config.MatchesUpper | src/main/java/ru/vidtu/antighostplugin/AntiGhostPlugin.java:152 | the per-character test of `equalsIgnoreCase` against an upper-case ASCII letter: a character matches itself, and an ASCII character matches exactly the letter and its lower case |
| Config.EqualsIgnoreCase | src/main/java/ru/vidtu/antighostplugin/AntiGhostPlugin.java:152 | `name().equalsIgnoreCase(rawMode)`: a name matches itself, and only strings of its own length match |
| Config.FindNamed | src/main/java/ru/vidtu/antighostplugin/AntiGhostPlugin.java:152-153 | the stream search finds a constant of the list whose name equals the input ignoring case, or reports that none does |
| Config.ModeNamed | src/main/java/ru/vidtu/antighostplugin/AntiGhostPlugin.java:152-153 | a mode is found exactly when some mode's name equals the string ignoring case, and the mode found is such a mode |
| Config.ModeNamedIgnoresCase | src/main/java/ru/vidtu/antighostplugin/AntiGhostPlugin.java:152 | every spelling of a mode's name that differs only in case selects that very mode |
| Config.ConfiguredMode | src/main/java/ru/vidtu/antighostplugin/AntiGhostPlugin.java:150-153 | a mode is configured exactly when the `mode` entry is present and some mode's name equals it ignoring case, and the configured mode is such a mode |
| Config.Validate | src/main/java/ru/vidtu/antighostplugin/AntiGhostPlugin.java:150-161 | succeeds iff the mode is present and known and radius and rate limit are non-negative, with the parsed settings; otherwise fails with the first failing check's exception (missing, unknown, negative radius, negative rate limit), each as an iff |
| RateLimits.NewTable | src/main/java/ru/vidtu/antighostplugin/AntiGhostPlugin.java:162 | no cache exactly when the rate limit is 0; otherwise an empty cache expiring entries that many milliseconds after they are written |
| RateLimits.Live | src/main/java/ru/vidtu/antighostplugin/AntiGhostPlugin.java:68 | `getIfPresent` under expire-after-write: only a written player can have a live entry, and an entry is live at the moment of its write exactly when the window is positive |
| RateLimits.Record | src/main/java/ru/vidtu/antighostplugin/AntiGhostPlugin.java:72 | `put` keeps the window, adds the player to the keys and stores `now` for it |
| RateLimits.DefaultCancelled | src/main/java/ru/vidtu/antighostplugin/AntiGhostPlugin.java:67-68 | a request can start uncancelled only in CUSTOM mode with a non-zero radius, and without a cache it starts cancelled exactly when the mode is not CUSTOM or the radius is 0 |
| RateLimits.AfterRequest | src/main/java/ru/vidtu/antighostplugin/AntiGhostPlugin.java:70-73 | a request never creates or removes the cache, and a cancelled request leaves it as it was |
| RateLimits.AfterRequestEntries | src/main/java/ru/vidtu/antighostplugin/AntiGhostPlugin.java:70-73 | on an existing table a served request stores `now` for its player, and every request keeps the window and every other player's entry |
| RateLimits.DeniedOutsideCustom | src/main/java/ru/vidtu/antighostplugin/AntiGhostPlugin.java:67-68 | in ENABLED and DISABLED modes a request starts cancelled and, unless a listener admits it, writes nothing |
| RateLimits.NewTableForgets | src/main/java/ru/vidtu/antighostplugin/AntiGhostPlugin.java:162 | a freshly built table rate-limits nobody |
| RateLimits.RecordWindow | src/main/java/ru/vidtu/antighostplugin/AntiGhostPlugin.java:67-72 | an entry written at `t0` is live exactly while `now - t0 < window`, so in CUSTOM mode with a non-zero radius it keeps the player's requests default-cancelled exactly that long |
| RateLimits.RecordIsolated | src/main/java/ru/vidtu/antighostplugin/AntiGhostPlugin.java:72 | writing one player's entry never changes whether another player is rate-limited |
| RateLimits.ReplayServedIffWindowElapsed | src/main/java/ru/vidtu/antighostplugin/AntiGhostPlugin.java:67-73 | in a time-ordered run of CUSTOM requests from a fresh player, a request is served iff at least the window has passed since every earlier served request, so the window counts from the last served request |
| RateLimits.ReplayEntry | src/main/java/ru/vidtu/antighostplugin/AntiGhostPlugin.java:71-73 | after such a run the player has an entry iff some request was served, and it holds the time of the latest served request |
| Snapshots.LayerKept | src/main/java/ru/vidtu/antighostplugin/AntiGhostPlugin.java:81 | the layer at relative offset `y` is kept exactly when `y` lies in the half-open range `[min, max)` |
| Snapshots.Snapshot | src/main/java/ru/vidtu/antighostplugin/AntiGhostPlugin.java:80-87 | the specification of the sent offsets, following the loops: layers `y` from `-r` to `r` kept by `LayerKept`, each the rows `x` from `-r` to `r`, each the columns `z` from `-r` to `r`; it has no contract of its own and is characterised by `SnapshotContents`, `SnapshotSize` and `SnapshotWithinCapacity` |
| Snapshots.BuildSnapshot | src/main/java/ru/vidtu/antighostplugin/AntiGhostPlugin.java:77-87 | the triple loop, with layers skipped by the height test, produces exactly `Snapshot(radius, min, max)` |
| Snapshots.AppendLayer | src/main/java/ru/vidtu/antighostplugin/AntiGhostPlugin.java:82-86 | the middle and inner loops append exactly the layer `Plane(radius, y)` |
| Snapshots.SnapshotSize | src/main/java/ru/vidtu/antighostplugin/AntiGhostPlugin.java:77-87 | the snapshot has `(2r+1)^2` offsets per kept layer, where a kept layer is a `y` in `[-r, r]` with `min <= y < max` |
| Snapshots.SnapshotWithinCapacity | src/main/java/ru/vidtu/antighostplugin/AntiGhostPlugin.java:77-78 | the snapshot never exceeds the preallocated capacity `(2r+1)^3`, and fills it if and only if every layer offset `-r..r` is within `[min, max)` |
| Snapshots.SnapshotRadiusZero | src/main/java/ru/vidtu/antighostplugin/AntiGhostPlugin.java:80-87 | with radius 0 the snapshot is the player's own block if offset 0 passes the height test, and empty otherwise |
| Snapshots.SnapshotContents | src/main/java/ru/vidtu/antighostplugin/AntiGhostPlugin.java:80-87 | the snapshot holds exactly the cube offsets whose layer passes the height test, each once, ordered by y, then x, then z |
| Snapshots.SnapshotMembers | src/main/java/ru/vidtu/antighostplugin/AntiGhostPlugin.java:80-87 | an offset is in the snapshot iff it is in the cube and its layer passes the height test |
| Snapshots.SnapshotOrdered | src/main/java/ru/vidtu/antighostplugin/AntiGhostPlugin.java:80-86 | the snapshot is strictly increasing in the y, x, z traversal order |
| Snapshots.LayerMembers | src/main/java/ru/vidtu/antighostplugin/AntiGhostPlugin.java:81-86 | one outer iteration adds exactly the cube offsets at height `y`, or nothing when the layer is skipped |
| Plugin.CapacityFitsInt | src/main/java/ru/vidtu/antighostplugin/AntiGhostPlugin.java:77-78 | for radius up to 644 the capacity `(2r+1)^3` fits in a Java `int`, and for radius 645 it does not |
| Plugin.Handshake | src/main/java/ru/vidtu/antighostplugin/AntiGhostPlugin.java:117 | the handshake is a plugin message to the player on `antighost:v1` with a one-byte payload that decodes to the mode |
| Plugin.ModeBroadcast | src/main/java/ru/vidtu/antighostplugin/AntiGhostPlugin.java:163-168 | the reload broadcast sends at most one message per online player, each a plugin message on `antighost:v1` |
| Plugin.ModeBroadcastTargets | src/main/java/ru/vidtu/antighostplugin/AntiGhostPlugin.java:163-168 | a message is in the reload broadcast exactly when it is the mode byte for some online player listening on the channel |
| Plugin.ModeBroadcastCount | src/main/java/ru/vidtu/antighostplugin/AntiGhostPlugin.java:163-168 | the broadcast has exactly as many messages as there are listening online players, so each listening player gets one |
| Plugin.AntiGhostPlugin.constructor | src/main/java/ru/vidtu/antighostplugin/AntiGhostPlugin.java:55-61 | enabling runs `loadConfigSafe`: the validated settings with a fresh table and a broadcast, or the fallback ENABLED/4/1000 with a fresh table; the state is consistent either way |
| Plugin.AntiGhostPlugin.OnPluginMessageReceived | src/main/java/ru/vidtu/antighostplugin/AntiGhostPlugin.java:65-89 | the listener's verdict on the default flag decides: a cancelled request changes nothing; a served one records the player at `now` when a table exists and sends that player the snapshot; the configuration is untouched and a consistent state stays consistent |
| Plugin.AntiGhostPlugin.OnRegisterChannel | src/main/java/ru/vidtu/antighostplugin/AntiGhostPlugin.java:112-118 | registering `antighost:v1` sends the player exactly the current mode byte on that channel; any other channel sends nothing |
| Plugin.AntiGhostPlugin.LoadConfig | src/main/java/ru/vidtu/antighostplugin/AntiGhostPlugin.java:146-169 | the outcome is `Validate`'s verdict; mode, radius and rate limit hold the partial writes made before the failing check; only success rebuilds the table and broadcasts the mode, and success leaves a consistent state with the validated settings |
| Plugin.AntiGhostPlugin.BroadcastMode | src/main/java/ru/vidtu/antighostplugin/AntiGhostPlugin.java:163-168 | the loop over online players sends exactly `ModeBroadcast(online, mode)` |
| Plugin.AntiGhostPlugin.LoadConfigSafe | src/main/java/ru/vidtu/antighostplugin/AntiGhostPlugin.java:126-138 | returns whether the config validated; on success the validated settings, a fresh table and the broadcast; on failure the fallback ENABLED/4/1000 with a fresh 1000 ms table and no message; the state is consistent in both cases |
| Plugin.AntiGhostPlugin.GetMode | src/main/java/ru/vidtu/antighostplugin/AntiGhostPlugin.java:176-180 | returns the current mode and reads the state without changing it |
| Plugin.AntiGhostPlugin.GetRadius | src/main/java/ru/vidtu/antighostplugin/AntiGhostPlugin.java:198-202 | the declared range `[0, Integer.MAX_VALUE]` holds in a consistent state |
| Plugin.AntiGhostPlugin.GetRateLimit | src/main/java/ru/vidtu/antighostplugin/AntiGhostPlugin.java:223-227 | the declared range `[0, Integer.MAX_VALUE]` holds in a consistent state |
| Plugin.AntiGhostPlugin.SetMode | src/main/java/ru/vidtu/antighostplugin/AntiGhostPlugin.java:188-191 | only the mode changes; consistency is kept |
| Plugin.AntiGhostPlugin.SetRadius | src/main/java/ru/vidtu/antighostplugin/AntiGhostPlugin.java:210-216 | a negative radius throws and changes nothing; otherwise only the radius is set; consistency is kept |
| Plugin.AntiGhostPlugin.RateLimit | src/main/java/ru/vidtu/antighostplugin/AntiGhostPlugin.java:236-243 | a negative value throws (its message reporting the radius) and changes nothing; otherwise the rate limit is set and the table rebuilt, which drops every record; consistency is kept |

## Left out

- Bukkit plumbing is represented, not modelled:
  - Channel and listener registration in `onEnable` is not modelled.
  - `sendPluginMessage` and `sendBlockChanges` become entries appended to `sent`.
  - `getOnlinePlayers` becomes a parameter.
  - The world's height bounds are parameters.
- The configuration file I/O (`saveDefaultConfig`, `reloadConfig`, `getConfig`) is replaced by a `RawConfig` input: an optional mode string and two integers.
- `onCommand` and `onTabComplete` only produce chat text. `loadConfigSafe` never throws, so the failure branch of `onCommand` is dead.
- The event bus and the two event classes are left out.
  - The request listeners are one arbitrary `bool -> bool` applied to the default flag.
  - The register listeners have no effect on what is sent.
- Guava `Cache` internals and the wall clock are replaced. The cache is a map of write times, and time is an explicit `now` (milliseconds).
- Resolving block states (`getRelative(...).getState()`) is left out. The snapshot is the sequence of relative offsets, and block states are opaque.
- The static `instance` singleton, and the concurrency of the check-then-put on the cache, are left out. The code takes no locks.
- Logging and exception messages are left out. An error carries only the value its message reports.
- The null checks of `rawMode` and of `setMode`'s argument are not modelled as such. A missing mode is `RawConfig.mode == None`. `AGMode` values are never null.
- `equalsIgnoreCase` is modelled only for the upper-case ASCII names it is applied to. That covers ASCII case and the four non-ASCII characters whose Java case mapping folds onto I, S or K.
- `Uuid` keeps the two halves as unbounded integers and does not enforce the 64-bit width.
- Plugin.AntiGhostPlugin.OnPluginMessageReceived: requires `0 <= radius <= 644`, and so does not model what Java does outside that range.
  - A failed direct `loadConfig` can leave a negative radius behind.
  - For radius -645 to -1, and for radius 645, the capacity `(2r+1)^3` computed in Java's `int` arithmetic is negative. Java then writes the player's cache entry (lines 71-73), and `new ArrayList<>(capacity)` throws at line 78. No block changes are sent.
  - For the other radii outside `[0, 644]`, the capacity wraps to some other `int`, which may be positive (radius -646 gives 2,143,282,125). What happens then depends on the allocation: it may fail for lack of memory, or, for a negative radius, the loops run zero times and an empty list is sent at line 88.
  - The model excludes all these radii by its precondition.
- Snapshots.BuildSnapshot: collects offsets into an immutable sequence rather than filling a preallocated `ArrayList`. The preallocated capacity is covered by `SnapshotWithinCapacity`.
