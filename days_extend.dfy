/**
 * Day documents (`days/{date}`) and the day API that the extension script
 * attaches to `window.DB`: `getDay` with its default, and the three writers
 * `setDayPlayers`, `setDayRoster` and `setDayArrived`, each a `setDoc` with
 * `merge: true`.
 */
module DaysExtend {
  import opened Common
  import opened Seqs

  /** One roster entry `{id, arrived}`. */
  datatype DayEntry = DayEntry(id: string, arrived: bool)

  /**
   * The stored fields of a day document; `None` is an absent field (or, for
   * the arrays, a value that is not an array).
   */
  datatype DayFields = DayFields(
    playerIds: Option<seq<string>>,
    players: Option<seq<DayEntry>>,
    arrived: Option<map<string, bool>>,
    ym: Option<string>,
    date: Option<string>,
    updatedAt: Option<int>)

  const NoFields := DayFields(None, None, None, None, None, None)

  /** What `getDay` / `observeDay` hand out: `{id, ...data}`. */
  datatype DayDoc = DayDoc(id: string, fields: DayFields)

  function Ids(roster: seq<DayEntry>): (r: seq<string>)
    ensures |r| == |roster|
    ensures forall i :: 0 <= i < |roster| ==> r[i] == roster[i].id
  {
    seq(|roster|, i requires 0 <= i < |roster| => roster[i].id)
  }

  /** `!!m[id]` on a map of booleans. */
  function FlagOf(m: map<string, bool>, id: string): bool {
    id in m && m[id]
  }

  /** `dateStr.slice(0, 7)`. */
  function Ym(dateStr: string): (r: string)
    ensures |r| == Min(7, |dateStr|) && r == dateStr[..|r|]
  {
    if |dateStr| <= 7 then dateStr else dateStr[..7]
  }

  /**
   * The `arrived` object built from a roster by assigning `a[r.id] = !!r.arrived`
   * in order, so the last entry for an id wins.
   */
  function ArrivedOf(roster: seq<DayEntry>): (m: map<string, bool>)
    decreases |roster|
  {
    if roster == [] then map[]
    else
      var last := roster[|roster| - 1];
      ArrivedOf(roster[..|roster| - 1])[last.id := last.arrived]
  }

  /** The keys of `ArrivedOf` are exactly the roster's ids, and each maps to its last entry's flag. */
  lemma {:induction false} ArrivedOfSpec(roster: seq<DayEntry>)
    ensures forall x :: x in ArrivedOf(roster) <==> x in Ids(roster)
    ensures forall i :: 0 <= i < |roster|
              && (forall j :: i < j < |roster| ==> roster[j].id != roster[i].id)
              ==> ArrivedOf(roster)[roster[i].id] == roster[i].arrived
    decreases |roster|
  {
    if roster != [] {
      var init := roster[..|roster| - 1];
      ArrivedOfSpec(init);
      assert Ids(roster) == Ids(init) + [roster[|roster| - 1].id];
    }
  }

  /** When every entry for an id carries the same flag `f(id)`, the map agrees with `f`. */
  lemma ArrivedOfUniform(roster: seq<DayEntry>, f: string -> bool, i: nat)
    requires i < |roster|
    requires forall j :: 0 <= j < |roster| ==> roster[j].arrived == f(roster[j].id)
    ensures roster[i].id in ArrivedOf(roster) && ArrivedOf(roster)[roster[i].id] == f(roster[i].id)
  {
    ArrivedOfSpec(roster);
    var x := roster[i].id;
    var k :| i <= k < |roster| && roster[k].id == x && (forall j :: k < j < |roster| ==> roster[j].id != x) by {
      LastOccurrence(roster, i);
    }
  }

  /** The last entry with the id of entry `i`. */
  lemma {:induction false} LastOccurrence(roster: seq<DayEntry>, i: nat)
    requires i < |roster|
    ensures exists k :: i <= k < |roster| && roster[k].id == roster[i].id
                        && (forall j :: k < j < |roster| ==> roster[j].id != roster[i].id)
    decreases |roster| - i
  {
    if exists j :: i < j < |roster| && roster[j].id == roster[i].id {
      var j :| i < j < |roster| && roster[j].id == roster[i].id;
      LastOccurrence(roster, j);
    } else {
      assert roster[i].id == roster[i].id;
    }
  }

  // ----- payloads -----

  /** `players` of `setDayPlayers`: each id with its previous arrived flag (false if none). */
  function PlayersWithFlags(ids: seq<string>, prevArrived: map<string, bool>): (r: seq<DayEntry>)
    ensures |r| == |ids|
    ensures forall i :: 0 <= i < |ids| ==> r[i] == DayEntry(ids[i], FlagOf(prevArrived, ids[i]))
  {
    seq(|ids|, i requires 0 <= i < |ids| => DayEntry(ids[i], FlagOf(prevArrived, ids[i])))
  }

  /** The merge payload of `setDayPlayers(dateStr, ids)`; `ids == None` is an absent argument. */
  function PlayersPayload(dateStr: string, ids: Option<seq<string>>, prev: Option<DayFields>, now: int): DayFields {
    var prevArrived := if prev.Some? then prev.value.arrived.GetOr(map[]) else map[];
    var players := PlayersWithFlags(ids.GetOr([]), prevArrived);
    DayFields(Some(ids.GetOr([])), Some(players), Some(ArrivedOf(players)), Some(Ym(dateStr)), Some(dateStr), Some(now))
  }

  /**
   * `players` keeps the order of `ids` and takes each flag from the previous
   * `arrived` map, the payload's `arrived` has exactly one key per id and
   * agrees with `players`, and `playerIds`, `ym`, `date` are as given.
   */
  lemma PlayersPayloadSpec(dateStr: string, ids: Option<seq<string>>, prev: Option<DayFields>, now: int)
    ensures var p := PlayersPayload(dateStr, ids, prev, now);
            var prevArrived := if prev.Some? then prev.value.arrived.GetOr(map[]) else map[];
            var list := ids.GetOr([]);
            p.playerIds == Some(list)
            && p.players.Some? && Ids(p.players.value) == list
            && (forall i :: 0 <= i < |list| ==> p.players.value[i].arrived == FlagOf(prevArrived, list[i]))
            && p.arrived.Some? && (forall x :: x in p.arrived.value <==> x in list)
            && (forall i :: 0 <= i < |list| ==> p.arrived.value[list[i]] == p.players.value[i].arrived)
            && p.ym == Some(Ym(dateStr)) && p.date == Some(dateStr) && p.updatedAt == Some(now)
  {
    var prevArrived := if prev.Some? then prev.value.arrived.GetOr(map[]) else map[];
    var list := ids.GetOr([]);
    var players := PlayersWithFlags(list, prevArrived);
    ArrivedOfSpec(players);
    assert Ids(players) == list;
    forall i | 0 <= i < |list| ensures ArrivedOf(players)[list[i]] == players[i].arrived {
      ArrivedOfUniform(players, (x: string) => FlagOf(prevArrived, x), i);
    }
  }

  /** The merge payload of `setDayRoster(dateStr, roster)`. */
  function RosterPayload(dateStr: string, roster: Option<seq<DayEntry>>, now: int): DayFields {
    var list := roster.GetOr([]);
    DayFields(Some(Ids(list)), Some(list), Some(ArrivedOf(list)), Some(Ym(dateStr)), Some(dateStr), Some(now))
  }

  /** `playerIds` are the roster's ids in order, `players` is the roster, and `arrived` is keyed by those ids. */
  lemma RosterPayloadSpec(dateStr: string, roster: Option<seq<DayEntry>>, now: int)
    ensures var p := RosterPayload(dateStr, roster, now);
            var list := roster.GetOr([]);
            p.playerIds == Some(Ids(list)) && p.players == Some(list)
            && p.arrived.Some? && (forall x :: x in p.arrived.value <==> x in Ids(list))
            && (Distinct(Ids(list)) ==> forall i :: 0 <= i < |list| ==> p.arrived.value[list[i].id] == list[i].arrived)
            && p.ym == Some(Ym(dateStr)) && p.date == Some(dateStr)
  {
    var list := roster.GetOr([]);
    ArrivedOfSpec(list);
    if Distinct(Ids(list)) {
      forall i | 0 <= i < |list| ensures ArrivedOf(list)[list[i].id] == list[i].arrived {
        assert forall j :: i < j < |list| ==> Ids(list)[j] != Ids(list)[i];
      }
    }
  }

  /** The merge payload of `setDayArrived`: only `arrived` and `updatedAt`. */
  function ArrivedPayload(arrivedMap: Option<map<string, bool>>, now: int): (p: DayFields)
    ensures p.playerIds == None && p.players == None && p.ym == None && p.date == None
    ensures p.arrived == Some(arrivedMap.GetOr(map[])) && p.updatedAt == Some(now)
  {
    DayFields(None, None, Some(arrivedMap.GetOr(map[])), None, None, Some(now))
  }

  // ----- `setDoc(ref, payload, {merge: true})` -----

  /**
   * The nested map `arrived` is merged key by key; an empty map is written as
   * a value of its own and so replaces the field.
   */
  function MergeArrived(stored: Option<map<string, bool>>, written: Option<map<string, bool>>): Option<map<string, bool>> {
    match written
    case None => stored
    case Some(w) => if w == map[] then Some(map[]) else Some(stored.GetOr(map[]) + w)
  }

  /** Merge `payload` into the stored document (absent: nothing stored); fields the payload lacks are kept. */
  function Merge(stored: Option<DayFields>, payload: DayFields): (r: DayFields)
    ensures var base := stored.GetOr(NoFields);
            (payload.playerIds.None? ==> r.playerIds == base.playerIds)
            && (payload.players.None? ==> r.players == base.players)
            && (payload.ym.None? ==> r.ym == base.ym)
            && (payload.date.None? ==> r.date == base.date)
            && (payload.updatedAt.None? ==> r.updatedAt == base.updatedAt)
            && (payload.playerIds.Some? ==> r.playerIds == payload.playerIds)
            && (payload.players.Some? ==> r.players == payload.players)
  {
    var base := stored.GetOr(NoFields);
    DayFields(
      if payload.playerIds.Some? then payload.playerIds else base.playerIds,
      if payload.players.Some? then payload.players else base.players,
      MergeArrived(base.arrived, payload.arrived),
      if payload.ym.Some? then payload.ym else base.ym,
      if payload.date.Some? then payload.date else base.date,
      if payload.updatedAt.Some? then payload.updatedAt else base.updatedAt)
  }

  /** The `days` collection. */
  class DaysDb {
    var days: map<string, DayFields>

    constructor ()
      ensures days == map[]
    {
      days := map[];
    }

    function Stored(dateStr: string): Option<DayFields>
      reads this
    {
      if dateStr in days then Some(days[dateStr]) else None
    }

    /** `getDay`: the stored fields with the id, or `{id, playerIds: []}` for a missing day. */
    function GetDay(dateStr: string): (d: DayDoc)
      reads this
      ensures d.id == dateStr
      ensures dateStr !in days ==> d.fields == NoFields.(playerIds := Some([]))
      ensures dateStr in days ==> d.fields == days[dateStr]
    {
      if dateStr in days then DayDoc(dateStr, days[dateStr]) else DayDoc(dateStr, NoFields.(playerIds := Some([])))
    }

    method SetDayPlayers(dateStr: string, ids: Option<seq<string>>, now: int)
      modifies this`days
      ensures days == old(days)[dateStr := Merge(old(Stored(dateStr)), PlayersPayload(dateStr, ids, old(Stored(dateStr)), now))]
    {
      var prev := Stored(dateStr);
      days := days[dateStr := Merge(prev, PlayersPayload(dateStr, ids, prev, now))];
    }

    method SetDayRoster(dateStr: string, roster: Option<seq<DayEntry>>, now: int)
      modifies this`days
      ensures days == old(days)[dateStr := Merge(old(Stored(dateStr)), RosterPayload(dateStr, roster, now))]
    {
      days := days[dateStr := Merge(Stored(dateStr), RosterPayload(dateStr, roster, now))];
    }

    /** `setDayArrived`: the other fields of the day stay as they were. */
    method SetDayArrived(dateStr: string, arrivedMap: Option<map<string, bool>>, now: int)
      modifies this`days
      ensures days == old(days)[dateStr := Merge(old(Stored(dateStr)), ArrivedPayload(arrivedMap, now))]
      ensures var before := old(Stored(dateStr)).GetOr(NoFields);
              days[dateStr].playerIds == before.playerIds && days[dateStr].players == before.players
              && days[dateStr].ym == before.ym && days[dateStr].date == before.date
    {
      days := days[dateStr := Merge(Stored(dateStr), ArrivedPayload(arrivedMap, now))];
    }
  }

  /**
   * A flag written for an id survives a later `setDayPlayers` that drops the id,
   * as long as some id remains: the nested `arrived` map is merged, not replaced.
   */
  lemma StaleFlagSurvives(dateStr: string, stored: DayFields, ids: seq<string>, x: string, now: int)
    requires stored.arrived.Some? && FlagOf(stored.arrived.value, x)
    requires ids != [] && x !in ids
    ensures var r := Merge(Some(stored), PlayersPayload(dateStr, Some(ids), Some(stored), now));
            r.arrived.Some? && FlagOf(r.arrived.value, x)
  {
    PlayersPayloadSpec(dateStr, Some(ids), Some(stored), now);
    var p := PlayersPayload(dateStr, Some(ids), Some(stored), now);
    assert ids[0] in p.arrived.value;
    assert x !in p.arrived.value;
  }

  /**
   * So a player cancelled (dropped from `ids`) and added again later comes back
   * with the flag of before the cancel.
   */
  lemma ReaddedKeepsOldFlag(dateStr: string, stored: DayFields, ids1: seq<string>, ids2: seq<string>, x: string, t1: int, t2: int)
    requires stored.arrived.Some? && FlagOf(stored.arrived.value, x)
    requires ids1 != [] && x !in ids1
    requires x in ids2
    ensures var s1 := Merge(Some(stored), PlayersPayload(dateStr, Some(ids1), Some(stored), t1));
            var s2 := Merge(Some(s1), PlayersPayload(dateStr, Some(ids2), Some(s1), t2));
            s2.players.Some? && DayEntry(x, true) in s2.players.value
  {
    StaleFlagSurvives(dateStr, stored, ids1, x, t1);
    var s1 := Merge(Some(stored), PlayersPayload(dateStr, Some(ids1), Some(stored), t1));
    var i :| 0 <= i < |ids2| && ids2[i] == x;
    PlayersPayloadSpec(dateStr, Some(ids2), Some(s1), t2);
    var p := PlayersPayload(dateStr, Some(ids2), Some(s1), t2);
    assert p.players.value[i] == DayEntry(x, true);
  }

  // ----- what the script installs on `window.DB` -----

  /** Which implementation a `window.DB` method slot holds. */
  datatype Impl = Absent | Earlier | Extension

  datatype DbApi = DbApi(getDay: Impl, observeDay: Impl, getMonthDays: Impl,
                         setDayPlayers: Impl, setDayRoster: Impl, setDayArrived: Impl)

  function OrExtension(slot: Impl): Impl { if slot == Absent then Extension else slot }

  /**
   * Loading the script: with no database handle nothing is installed; otherwise
   * readers are filled in only where missing and writers are always replaced.
   */
  function Install(api: DbApi, hasDb: bool): (r: DbApi)
    ensures !hasDb ==> r == api
    ensures hasDb ==> r.setDayPlayers == Extension && r.setDayRoster == Extension && r.setDayArrived == Extension
    ensures hasDb ==> (api.getDay != Absent ==> r.getDay == api.getDay) && (api.getDay == Absent ==> r.getDay == Extension)
    ensures hasDb ==> (api.observeDay != Absent ==> r.observeDay == api.observeDay) && r.observeDay != Absent
    ensures hasDb ==> (api.getMonthDays != Absent ==> r.getMonthDays == api.getMonthDays) && r.getMonthDays != Absent
  {
    if !hasDb then api
    else DbApi(OrExtension(api.getDay), OrExtension(api.observeDay), OrExtension(api.getMonthDays),
               Extension, Extension, Extension)
  }

  /** Loading the script twice is the same as loading it once. */
  lemma InstallIdempotent(api: DbApi, hasDb: bool)
    ensures Install(Install(api, hasDb), hasDb) == Install(api, hasDb)
  {
  }
}
