/**
 * The current members page (`member2.js`): the day roster `state.dayList`
 * of `{id, arrived}` entries, kept for the picked date and written back with
 * `setDayRoster`, and the month statistics of the profile window.
 */
module MemberPageV6 {
  import opened Common
  import opened Seqs
  import opened DaysExtend
  import opened MemberCommon

  /**
   * `loadDay` normalisation: the `players` array when there is one, otherwise
   * `playerIds` (or []) zipped with the `arrived` map, absent flags false.
   */
  function RosterOfDay(d: DayFields): (r: seq<DayEntry>)
    ensures d.players.Some? ==> r == d.players.value
    ensures d.players.None? ==> Ids(r) == d.playerIds.GetOr([])
    ensures d.players.None? ==> forall i :: 0 <= i < |r| ==> r[i].arrived == FlagOf(d.arrived.GetOr(map[]), r[i].id)
  {
    if d.players.Some? then d.players.value
    else
      var ids := d.playerIds.GetOr([]);
      var flags := d.arrived.GetOr(map[]);
      seq(|ids|, i requires 0 <= i < |ids| => DayEntry(ids[i], FlagOf(flags, ids[i])))
  }

  /** A day never written loads as the empty roster. */
  lemma MissingDayIsEmpty(db: DaysDb, dateStr: string)
    requires dateStr !in db.days
    ensures RosterOfDay(db.GetDay(dateStr).fields) == []
  {
  }

  /** What `setDayRoster` writes is what `loadDay` reads back, whatever was stored before. */
  lemma RosterReadsBack(prev: Option<DayFields>, dateStr: string, list: seq<DayEntry>, now: int)
    ensures RosterOfDay(Merge(prev, RosterPayload(dateStr, Some(list), now))) == list
  {
  }

  /**
   * A day stored by the older writers (ids and an arrived map, no `players`)
   * loads as those ids in order, each with its flag.
   */
  lemma IdsAndFlagsLoad(ids: seq<string>, flags: map<string, bool>)
    ensures var r := RosterOfDay(NoFields.(playerIds := Some(ids), arrived := Some(flags)));
            Ids(r) == ids && forall i :: 0 <= i < |ids| ==> r[i].arrived == (ids[i] in flags && flags[ids[i]])
  {
  }

  // ----- month statistics of the profile window -----

  /** The days of the month whose roster holds the member (`signed`). */
  function SignedDays(days: seq<DayDoc>, memberId: string): nat
    decreases |days|
  {
    if days == [] then 0
    else
      var last := days[|days| - 1];
      SignedDays(days[..|days| - 1], memberId) + (if memberId in Ids(RosterOfDay(last.fields)) then 1 else 0)
  }

  /** The days whose first roster entry for the member is marked arrived (`arrived`). */
  function ArrivedDays(days: seq<DayDoc>, memberId: string): nat
    decreases |days|
  {
    if days == [] then 0
    else
      var last := days[|days| - 1];
      ArrivedDays(days[..|days| - 1], memberId) + (if FindArrived(RosterOfDay(last.fields), memberId) then 1 else 0)
  }

  /** A member arrived on no more days than they signed up for, and signed up on at most every day. */
  lemma {:induction false} StatsBounds(days: seq<DayDoc>, memberId: string)
    ensures ArrivedDays(days, memberId) <= SignedDays(days, memberId) <= |days|
  {
    if days != [] {
      StatsBounds(days[..|days| - 1], memberId);
    }
  }

  /** Signing up on every day of the month counts every day. */
  lemma {:induction false} SignedEveryDay(days: seq<DayDoc>, memberId: string)
    requires forall i :: 0 <= i < |days| ==> memberId in Ids(RosterOfDay(days[i].fields))
    ensures SignedDays(days, memberId) == |days|
  {
    if days != [] {
      SignedEveryDay(days[..|days| - 1], memberId);
    }
  }

  /** The `days.forEach` of `openProfileModal`, counting `signed` and `arrived`. */
  method MonthStats(days: seq<DayDoc>, memberId: string) returns (signed: nat, arrived: nat)
    ensures signed == SignedDays(days, memberId)
    ensures arrived == ArrivedDays(days, memberId)
    ensures arrived <= signed <= |days|
  {
    signed, arrived := 0, 0;
    var i := 0;
    while i < |days|
      invariant 0 <= i <= |days|
      invariant signed == SignedDays(days[..i], memberId)
      invariant arrived == ArrivedDays(days[..i], memberId)
    {
      var players := RosterOfDay(days[i].fields);
      var k := IndexOf(Ids(players), memberId);
      assert days[..i + 1][..i] == days[..i];
      if k >= 0 {
        FirstIndexArrived(players, memberId);
        signed := signed + 1;
        if players[k].arrived {
          arrived := arrived + 1;
        }
      }
      i := i + 1;
    }
    assert days[..i] == days;
    StatsBounds(days, memberId);
  }

  /** `players.find(p => p.id === memberId)` is the entry at the first index of the id. */
  lemma {:induction false} FirstIndexArrived(list: seq<DayEntry>, x: string)
    requires x in Ids(list)
    ensures 0 <= IndexOf(Ids(list), x) < |list|
    ensures FindArrived(list, x) == list[IndexOf(Ids(list), x)].arrived
  {
    if list[0].id != x {
      assert Ids(list[1..]) == Ids(list)[1..];
      FirstIndexArrived(list[1..], x);
      IndexOfTail(Ids(list), x);
    }
  }

  lemma IndexOfTail(s: seq<string>, x: string)
    requires s != [] && s[0] != x && x in s[1..]
    ensures IndexOf(s, x) == IndexOf(s[1..], x) + 1
  {
  }

  // ----- the month reader the profile window gets -----

  /**
   * What `DB.getMonthDays(ym)` resolves to. The day extensions' reader gives
   * an array of day documents. The reader of `firebase.js` gives a plain
   * object from each day's `date` to its `playerIds`.
   */
  datatype MonthDays = DayArray(days: seq<DayDoc>) | DateMap(byDate: map<string, seq<string>>)

  /**
   * The result of the reader in the `getMonthDays` slot. An earlier reader
   * is the one of `firebase.js`, the only script that defines one before the
   * day extensions load. A missing one gives `Promise.resolve([])`.
   */
  function MonthDaysOf(slot: Impl, extensionDays: seq<DayDoc>, firebaseDays: map<string, seq<string>>): (r: MonthDays)
    ensures r.DateMap? <==> slot == Earlier
    ensures r.DateMap? ==> r.byDate == firebaseDays
    ensures r.DayArray? ==> r.days == if slot == Extension then extensionDays else []
  {
    match slot
    case Absent => DayArray([])
    case Earlier => DateMap(firebaseDays)
    case Extension => DayArray(extensionDays)
  }

  /**
   * `openProfileModal` past the read: `days.forEach` on a plain object throws
   * a `TypeError` before any count is shown (`None`); on an array the counts
   * are those of `MonthStats`.
   */
  method ProfileStats(reader: MonthDays, memberId: string) returns (r: Option<(nat, nat)>)
    ensures r.None? <==> reader.DateMap?
    ensures r.Some? ==> r.value == (SignedDays(reader.days, memberId), ArrivedDays(reader.days, memberId))
    ensures r.Some? ==> r.value.1 <= r.value.0 <= |reader.days|
  {
    if reader.DateMap? {
      return None;
    }
    var signed, arrived := MonthStats(reader.days, memberId);
    r := Some((signed, arrived));
  }

  /**
   * As written: with the reader of `firebase.js` installed before the day
   * extension loads, the extension keeps it, and the profile window of every
   * member throws.
   */
  method ProfileAfterFirebase(api: DbApi, extensionDays: seq<DayDoc>, firebaseDays: map<string, seq<string>>,
                              memberId: string) returns (r: Option<(nat, nat)>)
    requires api.getMonthDays == Earlier
    ensures r.None?
  {
    var installed := Install(api, true);
    r := ProfileStats(MonthDaysOf(installed.getMonthDays, extensionDays, firebaseDays), memberId);
  }

  /** The dates of a `firebase.js` month whose `playerIds` hold the member. */
  function SignedDates(byDate: map<string, seq<string>>, memberId: string): set<string> {
    set d | d in byDate && memberId in byDate[d]
  }

  /** Counting the dates of the plain-object month that hold the member. */
  method MapSigned(byDate: map<string, seq<string>>, memberId: string) returns (signed: nat)
    ensures signed == |SignedDates(byDate, memberId)|
  {
    signed := 0;
    var left := byDate.Keys;
    ghost var counted: set<string> := {};
    while left != {}
      invariant left <= byDate.Keys
      invariant counted == set d | d in byDate && d !in left && memberId in byDate[d]
      invariant signed == |counted|
      decreases left
    {
      var d :| d in left;
      var next := set e | e in byDate && e !in left - {d} && memberId in byDate[e];
      if memberId in byDate[d] {
        assert next == counted + {d};
        signed := signed + 1;
        counted := counted + {d};
      } else {
        assert next == counted;
      }
      left := left - {d};
    }
    assert counted == SignedDates(byDate, memberId);
  }

  /**
   * Corrected: the counts for either shape. A plain-object month carries only
   * ids, so a day counts as signed when its ids hold the member, and none as
   * arrived, as an `{date, playerIds}` document without `arrived` reads.
   */
  method ProfileStatsEither(reader: MonthDays, memberId: string) returns (signed: nat, arrived: nat)
    ensures reader.DayArray? ==> signed == SignedDays(reader.days, memberId) && arrived == ArrivedDays(reader.days, memberId)
    ensures reader.DateMap? ==> signed == |SignedDates(reader.byDate, memberId)| && arrived == 0
    ensures arrived <= signed
  {
    match reader
    case DayArray(days) =>
      signed, arrived := MonthStats(days, memberId);
    case DateMap(byDate) =>
      signed := MapSigned(byDate, memberId);
      arrived := 0;
  }

  // ----- the page -----

  /**
   * The page state that the roster actions change, and the day database they
   * write to. Besides `state.dayList` the page holds the Set object its add
   * buttons were last wired with (`wireLeft(leftBox, onAddToToday(picked))`),
   * as its ids in insertion order, and the Set built when the page loaded,
   * which the alpha, search and level handlers keep wiring again.
   */
  class MemberPage {
    var date: string
    var dayList: seq<DayEntry>
    /** The Set captured by the last `onAddToToday(picked)`. */
    var wired: seq<string>
    /** The Set `picked` of `initMembersPage`, captured by the filter handlers. */
    var loadPicked: seq<string>
    /** Whether the add buttons hold that very Set, so that an add grows it too. */
    var wiredIsLoad: bool
    const db: DaysDb

    /** A Set holds each id once, and one object seen through two names has one content. */
    ghost predicate Valid()
      reads this
    {
      Distinct(wired) && Distinct(loadPicked) && (wiredIsLoad ==> wired == loadPicked)
    }

    constructor (date: string, db: DaysDb)
      ensures this.date == date && this.db == db && dayList == []
      ensures wired == [] && loadPicked == [] && !wiredIsLoad
      ensures Valid()
    {
      this.date := date;
      this.db := db;
      dayList := [];
      wired := [];
      loadPicked := [];
      wiredIsLoad := false;
    }

    /**
     * `initMembersPage`: `state.dayList = await loadDay(state.date)`, then
     * `picked = new Set(ids)` is wired to the add buttons.
     */
    method Load()
      modifies this`dayList, this`wired, this`loadPicked, this`wiredIsLoad
      ensures dayList == RosterOfDay(db.GetDay(date).fields)
      ensures loadPicked == Dedup(Ids(dayList)) && wired == loadPicked && wiredIsLoad
      ensures Valid()
    {
      dayList := RosterOfDay(db.GetDay(date).fields);
      loadPicked := Dedup(Ids(dayList));
      wired := loadPicked;
      wiredIsLoad := true;
    }

    /**
     * The alpha, search and level handlers of `initMembersPage`: the list is
     * drawn again and the add buttons get the Set of page load, whatever the
     * roster is now.
     */
    method Refilter()
      modifies this`wired, this`wiredIsLoad
      requires Valid()
      ensures wired == loadPicked && wiredIsLoad
      ensures Valid()
    {
      wired := loadPicked;
      wiredIsLoad := true;
    }

    /**
     * The `observeDay` listener (and the one the date picker installs for a new
     * date): the roster is normalised from the snapshot, and a fresh Set of its
     * ids is wired.
     */
    method OnDaySnapshot(day: DayFields)
      modifies this`dayList, this`wired, this`wiredIsLoad
      requires Valid()
      ensures dayList == RosterOfDay(day)
      ensures wired == Dedup(Ids(dayList)) && !wiredIsLoad
      ensures Valid()
    {
      dayList := RosterOfDay(day);
      wired := Dedup(Ids(dayList));
      wiredIsLoad := false;
    }

    /** The `observeMembers` listener and the end of a member save: a fresh Set of the roster's ids is wired. */
    method OnMembersSnapshot()
      modifies this`wired, this`wiredIsLoad
      requires Valid()
      ensures wired == Dedup(Ids(dayList)) && !wiredIsLoad
      ensures Valid()
    {
      wired := Dedup(Ids(dayList));
      wiredIsLoad := false;
    }

    /** `saveDayRoster`: the roster goes out whole, and reads back unchanged. */
    method SaveDayRoster(now: int)
      modifies db`days
      ensures db.days == old(db.days)[date := Merge(old(db.Stored(date)), RosterPayload(date, Some(dayList), now))]
      ensures RosterOfDay(db.GetDay(date).fields) == dayList
    {
      db.SetDayRoster(date, Some(dayList), now);
      RosterReadsBack(old(db.Stored(date)), date, dayList, now);
    }

    /**
     * The add button, `onAddToToday(pickedIds)`: the id joins the captured Set,
     * and the roster is rebuilt from that Set, each flag taken from the roster
     * of the moment. When the Set is the one of page load, it grows too. With a
     * Set that matches the roster this is `AddFromRoster`; with the Set of page
     * load after the roster changed, ids cancelled since come back.
     */
    method AddToToday(id: string, now: int)
      modifies this`dayList, this`wired, this`loadPicked, db`days
      requires Valid()
      ensures id in old(wired) ==>
                dayList == old(dayList) && wired == old(wired) && loadPicked == old(loadPicked) && db.days == old(db.days)
      ensures id !in old(wired) ==> wired == old(wired) + [id] && dayList == Rebuild(wired, old(dayList))
      ensures id !in old(wired) ==> RosterOfDay(db.GetDay(date).fields) == dayList
      ensures loadPicked == if wiredIsLoad then wired else old(loadPicked)
      ensures old(wired) == Dedup(Ids(old(dayList))) ==>
                (id in Ids(old(dayList)) ==> dayList == old(dayList)) &&
                (id !in Ids(old(dayList)) ==> dayList == Rebuild(AddedIds(old(dayList), id), old(dayList)))
      ensures Valid()
    {
      DedupMembership(Ids(dayList), id);
      if id !in wired {
        wired := wired + [id];
        if wiredIsLoad {
          loadPicked := wired;
        }
        dayList := Rebuild(wired, dayList);
        SaveDayRoster(now);
      }
    }

    /**
     * A drop from the member list: a fresh Set of the roster's ids, so a new id
     * goes last, not arrived, and the others keep their order and flags; a
     * picked id changes nothing. This is what the add button means to do.
     */
    method AddFromRoster(id: string, now: int)
      modifies this`dayList, this`wired, this`wiredIsLoad, db`days
      requires Valid()
      ensures id in Ids(old(dayList)) ==>
                dayList == old(dayList) && wired == old(wired) && wiredIsLoad == old(wiredIsLoad) && db.days == old(db.days)
      ensures id !in Ids(old(dayList)) ==> dayList == Rebuild(AddedIds(old(dayList), id), old(dayList))
      ensures id !in Ids(old(dayList)) && Distinct(Ids(old(dayList))) ==>
                dayList == old(dayList) + [DayEntry(id, false)] && Distinct(Ids(dayList))
      ensures id !in Ids(old(dayList)) ==> RosterOfDay(db.GetDay(date).fields) == dayList
      ensures id !in Ids(old(dayList)) ==> wired == Ids(dayList) && !wiredIsLoad
      ensures Valid()
    {
      if id !in Ids(dayList) {
        if Distinct(Ids(dayList)) {
          AddKeepsFlags(dayList, id);
        }
        AddedDistinct(dayList, id);
        dayList := Rebuild(AddedIds(dayList, id), dayList);
        wired := Ids(dayList);
        wiredIsLoad := false;
        SaveDayRoster(now);
      }
    }

    /**
     * The cancel button and a drop onto the member list: that id leaves, the
     * rest keep order and flags, and the Set it left is wired.
     */
    method Cancel(id: string, now: int)
      modifies this`dayList, this`wired, this`wiredIsLoad, db`days
      requires Valid()
      ensures id !in Ids(old(dayList)) ==>
                dayList == old(dayList) && wired == old(wired) && wiredIsLoad == old(wiredIsLoad) && db.days == old(db.days)
      ensures id in Ids(old(dayList)) ==> dayList == Rebuild(CancelledIds(old(dayList), id), old(dayList))
      ensures id in Ids(old(dayList)) && Distinct(Ids(old(dayList))) ==>
                dayList == Filter(old(dayList), (e: DayEntry) => e.id != id) && id !in Ids(dayList)
      ensures id in Ids(old(dayList)) ==> RosterOfDay(db.GetDay(date).fields) == dayList
      ensures id in Ids(old(dayList)) ==> wired == Ids(dayList) && !wiredIsLoad
      ensures Valid()
    {
      if id in Ids(dayList) {
        if Distinct(Ids(dayList)) {
          CancelKeepsFlags(dayList, id);
          CancelRemoves(dayList, id);
        }
        CancelledDistinct(dayList, id);
        dayList := Rebuild(CancelledIds(dayList, id), dayList);
        wired := Ids(dayList);
        wiredIsLoad := false;
        SaveDayRoster(now);
      }
    }

    /** The clear-today button: the roster is emptied and saved, and an empty Set is wired. */
    method ClearToday(now: int)
      modifies this`dayList, this`wired, this`wiredIsLoad, db`days
      requires Valid()
      ensures dayList == [] && wired == [] && !wiredIsLoad
      ensures db.days == old(db.days)[date := Merge(old(db.Stored(date)), RosterPayload(date, Some([]), now))]
      ensures RosterOfDay(db.GetDay(date).fields) == []
      ensures Valid()
    {
      dayList := [];
      SaveDayRoster(now);
      wired := [];
      wiredIsLoad := false;
    }

    /**
     * A drop of one roster row onto another: the source moves to the target's
     * index with its flag; absent or equal ids change nothing.
     */
    method Reorder(srcId: string, tgtId: string, now: int)
      modifies this`dayList, db`days
      requires Valid()
      ensures Valid()
      ensures ReorderedIds(old(dayList), srcId, tgtId).None? ==> dayList == old(dayList) && db.days == old(db.days)
      ensures ReorderedIds(old(dayList), srcId, tgtId).Some? ==>
                dayList == Rebuild(ReorderedIds(old(dayList), srcId, tgtId).value, old(dayList))
      ensures ReorderedIds(old(dayList), srcId, tgtId).Some? && Distinct(Ids(old(dayList))) ==>
                dayList == MoveTo(old(dayList), IndexOf(Ids(old(dayList)), srcId), IndexOf(Ids(old(dayList)), tgtId))
                && multiset(dayList) == multiset(old(dayList))
    {
      var r := ReorderedIds(dayList, srcId, tgtId);
      if r.Some? {
        if Distinct(Ids(dayList)) {
          ReorderKeepsFlags(dayList, srcId, tgtId);
        }
        dayList := Rebuild(r.value, dayList);
        SaveDayRoster(now);
      }
    }

    /** The arrived button: only the first entry with that id flips; an unknown id changes nothing. */
    method ToggleArrived(id: string, now: int)
      modifies this`dayList, db`days
      requires Valid()
      ensures Valid()
      ensures id !in Ids(old(dayList)) ==> dayList == old(dayList) && db.days == old(db.days)
      ensures id in Ids(old(dayList)) ==>
                var k := IndexOf(Ids(old(dayList)), id);
                0 <= k < |old(dayList)| && |dayList| == |old(dayList)|
                && dayList[k] == DayEntry(id, !old(dayList)[k].arrived)
                && (forall j :: 0 <= j < |dayList| && j != k ==> dayList[j] == old(dayList)[j])
    {
      var idx := IndexOf(Ids(dayList), id);
      if idx < 0 {
        return;
      }
      dayList := dayList[idx := dayList[idx].(arrived := !dayList[idx].arrived)];
      SaveDayRoster(now);
    }

    /** The delete button (after the member document is removed): that id leaves the roster, which is saved. */
    method DeleteMember(id: string, now: int)
      modifies this`dayList, db`days
      requires Valid()
      ensures Valid()
      ensures dayList == Pruned(old(dayList), id)
      ensures id !in Ids(dayList)
      ensures db.days == old(db.days)[date := Merge(old(db.Stored(date)), RosterPayload(date, Some(dayList), now))]
    {
      dayList := Pruned(dayList, id);
      SaveDayRoster(now);
    }
  }

  /**
   * The add button after a cancel and a filter change: a day of one arrived
   * member `a` is loaded, `a` is cancelled, the day listener reports the empty
   * roster, the search box is typed in, and `b` is added. The roster written is
   * `[a, b]`: the cancelled `a` is back, and no longer marked arrived.
   */
  method StaleAddScenario(date: string, now: int) returns (afterCancel: seq<DayEntry>, afterAdd: seq<DayEntry>)
    ensures afterCancel == []
    ensures afterAdd == [DayEntry("a", false), DayEntry("b", false)]
  {
    var page := LoadedWithA(date, now);
    CancelLast(page.dayList);
    page.Cancel("a", now);
    afterCancel := page.dayList;
    page.OnDaySnapshot(page.db.GetDay(date).fields);
    assert page.dayList == [] && page.loadPicked == ["a"];
    page.Refilter();
    page.AddToToday("b", now);
    assert page.dayList == Rebuild(["a", "b"], []);
    afterAdd := page.dayList;
    RebuildFromNothing(["a", "b"]);
  }

  /** A page loaded on a day whose one member `a` has arrived. */
  method LoadedWithA(date: string, now: int) returns (page: MemberPage)
    ensures fresh(page) && fresh(page.db) && page.date == date && page.Valid()
    ensures page.dayList == [DayEntry("a", true)] && page.loadPicked == ["a"] && page.wired == ["a"] && page.wiredIsLoad
  {
    var db := new DaysDb();
    var roster := [DayEntry("a", true)];
    assert db.Stored(date) == None;
    db.SetDayRoster(date, Some(roster), now);
    var stored := Merge(None, RosterPayload(date, Some(roster), now));
    assert db.GetDay(date).fields == stored;
    RosterReadsBack(None, date, roster, now);
    page := new MemberPage(date, db);
    page.Load();
    assert page.dayList == roster;
    SingleIdLoads(page.dayList);
  }

  /** A one-entry roster of `a` makes the Set `{a}`. */
  lemma SingleIdLoads(list: seq<DayEntry>)
    requires list == [DayEntry("a", true)]
    ensures Ids(list) == ["a"] && Distinct(Ids(list)) && Dedup(Ids(list)) == ["a"]
  {
    assert Ids(list) == ["a"];
    DedupDistinct(Ids(list));
  }

  /** Cancelling the only entry leaves nothing. */
  lemma CancelLast(list: seq<DayEntry>)
    requires list == [DayEntry("a", true)]
    ensures "a" in Ids(list) && Rebuild(CancelledIds(list, "a"), list) == []
  {
    SingleIdLoads(list);
  }

  /** Rebuilt against an empty roster, every flag is off. */
  lemma RebuildFromNothing(ids: seq<string>)
    requires ids == ["a", "b"]
    ensures Rebuild(ids, []) == [DayEntry("a", false), DayEntry("b", false)]
  {
    var r := Rebuild(ids, []);
    assert |r| == 2 && r[0] == DayEntry("a", false) && r[1] == DayEntry("b", false);
  }

  /** After a cancel the id is gone, and the roster's ids stay distinct. */
  lemma CancelRemoves(list: seq<DayEntry>, id: string)
    requires Distinct(Ids(list))
    ensures id !in Ids(Filter(list, (e: DayEntry) => e.id != id))
    ensures Distinct(Ids(Filter(list, (e: DayEntry) => e.id != id)))
  {
    FilterIds(list, id);
    var p := (x: string) => x != id;
    if id in Filter(Ids(list), p) {
      FilterMembership(Ids(list), p, id);
    }
    FilterDistinctIds(list, id);
  }
}
