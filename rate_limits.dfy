/**
 * The per-player rate-limit table of AntiGhostPlugin.java and the default
 * "cancelled" flag of a block-update request.
 *
 * The table is a cache that forgets an entry a fixed window after it was written.
 * Here it is the window together with the time of the last write per player; an
 * entry is present exactly while less than the window has passed since that write.
 */
module RateLimits {
  import opened Wrappers
  import opened Modes

  /** A player's stable identity: `java.util.UUID`, its most and least significant 64 bits. */
  datatype Uuid = Uuid(mostSigBits: int, leastSigBits: int)

  /** The cache: its expire-after-write window in milliseconds and the last write time per player. */
  datatype RateTable = RateTable(window: nat, written: map<Uuid, int>)

  /** The table `rateLimit` builds: none when the rate limit is 0, else a fresh one with that window. */
  function NewTable(rateLimit: nat): (r: Option<RateTable>)
    ensures r.None? <==> rateLimit == 0
    ensures r.Some? ==> r.value.window == rateLimit && r.value.written == map[]
  {
    if rateLimit == 0 then None else Some(RateTable(rateLimit, map[]))
  }

  /** Whether the cache holds an unexpired entry for `uuid` at time `now`. */
  predicate Live(t: RateTable, uuid: Uuid, now: int): (live: bool)
    ensures live ==> uuid in t.written
    ensures uuid in t.written && now == t.written[uuid] ==> (live <==> t.window > 0)
  {
    uuid in t.written && now - t.written[uuid] < t.window
  }

  /** `put(uuid, ...)` at time `now`: the entry for `uuid` is (re)written, the rest stay. */
  function Record(t: RateTable, uuid: Uuid, now: int): (r: RateTable)
    ensures r.window == t.window
    ensures r.written.Keys == t.written.Keys + {uuid}
    ensures r.written[uuid] == now
  {
    RateTable(t.window, t.written[uuid := now])
  }

  /**
   * The flag a request event starts with: cancelled unless the mode is CUSTOM,
   * the radius is non-zero and no live entry exists for the player.
   */
  predicate DefaultCancelled(mode: AGMode, radius: int, table: Option<RateTable>, uuid: Uuid, now: int): (cancelled: bool)
    ensures !cancelled ==> mode == CUSTOM && radius != 0
    ensures table.None? ==> (cancelled <==> mode != CUSTOM || radius == 0)
  {
    mode != CUSTOM || radius == 0 || (table.Some? && Live(table.value, uuid, now))
  }

  /** The table after a request whose final flag is `cancelled`: only a served request writes. */
  function AfterRequest(table: Option<RateTable>, uuid: Uuid, now: int, cancelled: bool): (r: Option<RateTable>)
    ensures r.Some? <==> table.Some?
    ensures cancelled ==> r == table
  {
    if cancelled || table.None? then table else Some(Record(table.value, uuid, now))
  }

  /**
   * A request touches at most its own player's entry: the table keeps its window
   * and its other entries, a served request writes `now` for the player, and a
   * cancelled one changes nothing. Without a table nothing is ever recorded.
   */
  lemma AfterRequestEntries(table: Option<RateTable>, uuid: Uuid, now: int, cancelled: bool)
    ensures table.Some? ==>
      var t := table.value;
      var t' := AfterRequest(table, uuid, now, cancelled).value;
      && t'.window == t.window
      && (!cancelled ==> uuid in t'.written && t'.written[uuid] == now)
      && (forall other :: other != uuid ==>
            (other in t'.written <==> other in t.written)
            && (other in t.written ==> t'.written[other] == t.written[other]))
  {
  }

  /** Outside CUSTOM mode a request starts cancelled, so unless a listener admits it nothing is recorded. */
  lemma DeniedOutsideCustom(mode: AGMode, radius: int, table: Option<RateTable>, uuid: Uuid, now: int)
    requires mode != CUSTOM
    ensures DefaultCancelled(mode, radius, table, uuid, now)
    ensures AfterRequest(table, uuid, now, DefaultCancelled(mode, radius, table, uuid, now)) == table
  {
  }

  /** A fresh table holds no live entry: after it is rebuilt nobody is rate-limited. */
  lemma NewTableForgets(rateLimit: nat, uuid: Uuid, now: int)
    ensures !DefaultCancelled(CUSTOM, 1, NewTable(rateLimit), uuid, now)
  {
  }

  /** An entry written at `t0` keeps later requests of the same player cancelled exactly while `now - t0 < window`. */
  lemma RecordWindow(t: RateTable, uuid: Uuid, t0: int, now: int)
    ensures Live(Record(t, uuid, t0), uuid, now) <==> now - t0 < t.window
  {
  }

  /** Writing one player's entry never changes whether another player is rate-limited. */
  lemma RecordIsolated(t: RateTable, uuid: Uuid, other: Uuid, t0: int, now: int)
    requires other != uuid
    ensures Live(Record(t, uuid, t0), other, now) <==> Live(t, other, now)
  {
  }

  /**
   * Replays requests of one player at the given times in CUSTOM mode with a
   * non-zero radius and no listener changing the flag: the final table and, per
   * request, whether it was served.
   */
  function Replay(t: RateTable, uuid: Uuid, times: seq<int>): (RateTable, seq<bool>)
  {
    if times == [] then (t, [])
    else
      var (t', served) := Replay(t, uuid, times[..|times| - 1]);
      var now := times[|times| - 1];
      var cancelled := DefaultCancelled(CUSTOM, 1, Some(t'), uuid, now);
      (AfterRequest(Some(t'), uuid, now, cancelled).value, served + [!cancelled])
  }

  predicate Nondecreasing(times: seq<int>)
  {
    forall i, j :: 0 <= i < j < |times| ==> times[i] <= times[j]
  }

  /**
   * The window counts from the last SERVED request: a player with no entry whose
   * requests arrive in time order is served exactly when at least the window has
   * passed since every earlier served request (a refused request does not
   * refresh the entry).
   */
  lemma {:induction false} ReplayServedIffWindowElapsed(t: RateTable, uuid: Uuid, times: seq<int>)
    requires uuid !in t.written
    requires Nondecreasing(times)
    ensures |Replay(t, uuid, times).1| == |times|
    ensures forall i :: 0 <= i < |times| ==>
      (Replay(t, uuid, times).1[i] <==>
        forall j :: 0 <= j < i && Replay(t, uuid, times).1[j] ==> times[i] - times[j] >= t.window)
  {
    if times != [] {
      var n := |times| - 1;
      var pre := times[..n];
      ReplayServedIffWindowElapsed(t, uuid, pre);
      var (t', served) := Replay(t, uuid, pre);
      var all := Replay(t, uuid, times).1;
      assert all == served + [!DefaultCancelled(CUSTOM, 1, Some(t'), uuid, times[n])];
      forall i | 0 <= i < |times|
        ensures all[i] <==> forall j :: 0 <= j < i && all[j] ==> times[i] - times[j] >= t.window
      {
        if i < n {
          assert pre[i] == times[i];
          forall j | 0 <= j < i ensures all[j] == served[j] && pre[j] == times[j] { }
        } else {
          ReplayEntry(t, uuid, pre);
          forall j | 0 <= j < n ensures all[j] == served[j] && pre[j] == times[j] { }
          if uuid in t'.written {
            var k :| 0 <= k < n && served[k] && pre[k] == t'.written[uuid];
            assert all[n] <==> times[n] - times[k] >= t.window;
          }
        }
      }
    }
  }

  /**
   * What the replayed table holds for the player: an entry exactly when some request
   * was served, written at a served request's time that no served request exceeds.
   */
  lemma {:induction false} ReplayEntry(t: RateTable, uuid: Uuid, times: seq<int>)
    requires uuid !in t.written
    requires Nondecreasing(times)
    ensures Replay(t, uuid, times).0.window == t.window
    ensures |Replay(t, uuid, times).1| == |times|
    ensures uuid in Replay(t, uuid, times).0.written <==> exists j :: 0 <= j < |times| && Replay(t, uuid, times).1[j]
    ensures uuid in Replay(t, uuid, times).0.written ==>
      && (exists j :: 0 <= j < |times| && Replay(t, uuid, times).1[j] && times[j] == Replay(t, uuid, times).0.written[uuid])
      && (forall j :: 0 <= j < |times| && Replay(t, uuid, times).1[j] ==> times[j] <= Replay(t, uuid, times).0.written[uuid])
  {
    if times != [] {
      var n := |times| - 1;
      var pre := times[..n];
      ReplayEntry(t, uuid, pre);
      var (t', served) := Replay(t, uuid, pre);
      var (t'', all) := Replay(t, uuid, times);
      assert all[..n] == served;
      forall j | 0 <= j < n ensures all[j] == served[j] && pre[j] == times[j] && times[j] <= times[n] { }
      if all[n] {
        assert t''.written[uuid] == times[n];
      } else {
        assert t'' == t';
        assert uuid in t'.written;
      }
    }
  }
}
