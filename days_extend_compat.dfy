/**
 * The compat build of the day API (global `firebase` object instead of the
 * modular SDK). Its readers, `setDayRoster` and `setDayArrived` are written
 * with the very same expressions as the modular build and are modelled by
 * `DaysExtend`; what is spelled differently is how `setDayPlayers` reads the
 * previous flags, and that is shown here to come to the same payload.
 */
module DaysExtendCompat {
  import opened Common
  import opened DaysExtend

  /** `(prev.exists && prev.data().arrived) || {}`. */
  function CompatPrevArrived(prev: Option<DayFields>): (m: map<string, bool>)
    ensures prev.None? ==> m == map[]
    ensures prev.Some? && prev.value.arrived.Some? ==> m == prev.value.arrived.value
  {
    if prev.Some? && prev.value.arrived.Some? then prev.value.arrived.value else map[]
  }

  /** The compat `setDayPlayers` payload: `players` from `ids` and the previous flags, `arrived` reduced from `players`. */
  function CompatPlayersPayload(dateStr: string, ids: Option<seq<string>>, prev: Option<DayFields>, now: int): DayFields {
    var players := PlayersWithFlags(ids.GetOr([]), CompatPrevArrived(prev));
    DayFields(Some(ids.GetOr([])), Some(players), Some(ArrivedOf(players)), Some(Ym(dateStr)), Some(dateStr), Some(now))
  }

  /** Both builds write the same `setDayPlayers` payload, so both keep id order and earlier flags. */
  lemma CompatPlayersPayloadSame(dateStr: string, ids: Option<seq<string>>, prev: Option<DayFields>, now: int)
    ensures CompatPlayersPayload(dateStr, ids, prev, now) == PlayersPayload(dateStr, ids, prev, now)
    ensures var p := CompatPlayersPayload(dateStr, ids, prev, now);
            p.playerIds == Some(ids.GetOr([])) && p.players.Some? && Ids(p.players.value) == ids.GetOr([])
            && p.ym == Some(Ym(dateStr))
  {
    PlayersPayloadSpec(dateStr, ids, prev, now);
  }
}
