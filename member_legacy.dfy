/**
 * The three older members pages (`member.js`, `membe1r.js`,
 * `member_ok1.js`). They keep the day roster as ids only: every add, cancel
 * and reorder rebuilds `state.dayList` with every flag off, and the roster is
 * written with `setDayPlayers`, which takes the flags from the stored day.
 */
module MemberPageLegacy {
  import opened Common
  import opened Seqs
  import Text
  import opened DaysExtend
  import opened MemberCommon

  /** `"★".repeat(n)`. */
  function Stars(n: nat): (r: string)
    ensures |r| == n && forall i :: 0 <= i < n ==> r[i] == '★'
  {
    seq(n, _ => '★')
  }

  /**
   * `levelIcon(m.level || 1)`: `Number(level) || 1` stars, not clamped; a
   * negative count makes `repeat` throw, which is `None`.
   */
  function LevelIcon(level: Level): (r: Option<string>)
    ensures r.None? <==> LevelNumberOr1(level) < 0
    ensures r.Some? ==> |r.value| == LevelNumberOr1(level) >= 1
    ensures r.Some? ==> forall i :: 0 <= i < |r.value| ==> r.value[i] == '★'
  {
    var lv := LevelNumberOr1(level);
    if lv < 0 then None else Some(Stars(lv))
  }

  /** The icon has as many stars as the level, even above 5, where the badge stops at 5. */
  lemma IconNotClamped(n: int)
    requires n >= 1
    ensures LevelIcon(LevelNum(n)) == Some(Stars(n))
    ensures n > 5 ==> |LevelIcon(LevelNum(n)).value| > BadgeLevel(LevelNum(n)) == 5
  {
  }

  /**
   * `applyFilters` of the pages that keep the raw select value in
   * `state.level` (`membe1r.js`, `member_ok1.js`).
   */
  function TextLevelFilters(list: seq<Member>, alpha: string, search: string, level: string): seq<Member> {
    var key := LevelKeyOfText(level);
    ApplyFilters(list, alpha, search, if key.Some? then Some(Num(key.value)) else None)
  }

  /** "" and "0" switch the level filter off; "1".."5" filter on that level. */
  lemma TextLevelChoices(list: seq<Member>, alpha: string, search: string, k: nat)
    ensures TextLevelFilters(list, alpha, search, "") == ApplyFilters(list, alpha, search, None)
    ensures TextLevelFilters(list, alpha, search, Text.NatToString(k)) ==
            ApplyFilters(list, alpha, search, if k == 0 then None else Some(Num(k)))
  {
    LevelKeyOfTextOptions(k);
  }

  /**
   * A page's roster state and the day database it writes to. As on the
   * current page, the add buttons hold the Set of the last
   * `wireLeft(leftBox, onAddToToday(picked))`, and the alpha, search and
   * level handlers hold the Set built at page load.
   *
   * `member.js` calls `renderAlphaPagination`, which it does not define, right
   * after wiring the roster buttons; the error ends `initMembersPage` there.
   * So on that page `Refilter`, `OnDaySnapshot` and `OnMembersSnapshot` never
   * run: they are the handlers of `membe1r.js` and `member_ok1.js`.
   */
  class LegacyPage {
    var date: string
    var dayList: seq<DayEntry>
    /** The Set captured by the last `onAddToToday(picked)`, in insertion order. */
    var wired: seq<string>
    /** The Set `picked` of `initMembersPage`, captured by the filter handlers. */
    var loadPicked: seq<string>
    /** Whether the add buttons hold that very Set, so that an add grows it too. */
    var wiredIsLoad: bool
    const db: DaysDb

    /** A Set holds each id once, and one object seen through two names has one content. */
    ghost predicate Valid()
      reads this
    {
      Distinct(wired) && Distinct(loadPicked) && (wiredIsLoad ==> wired == loadPicked)
    }

    constructor (date: string, db: DaysDb)
      ensures this.date == date && this.db == db && dayList == []
      ensures wired == [] && loadPicked == [] && !wiredIsLoad
      ensures Valid()
    {
      this.date := date;
      this.db := db;
      dayList := [];
      wired := [];
      loadPicked := [];
      wiredIsLoad := false;
    }

    /** `state.dayList = await loadDayList(state.date)`, then `picked = new Set(ids)` is wired. */
    method Load()
      modifies this`dayList, this`wired, this`loadPicked, this`wiredIsLoad
      ensures dayList == LoadDayList(db.GetDay(date))
      ensures loadPicked == Dedup(Ids(dayList)) && wired == loadPicked && wiredIsLoad
      ensures Valid()
    {
      dayList := LoadDayList(db.GetDay(date));
      loadPicked := Dedup(Ids(dayList));
      wired := loadPicked;
      wiredIsLoad := true;
    }

    /** The alpha, search and level handlers (`membe1r.js`, `member_ok1.js`): the add buttons get the Set of page load again. */
    method Refilter()
      modifies this`wired, this`wiredIsLoad
      requires Valid()
      ensures wired == loadPicked && wiredIsLoad
      ensures Valid()
    {
      wired := loadPicked;
      wiredIsLoad := true;
    }

    /**
     * The `observeDay` listener (and the one the date picker installs) of
     * `membe1r.js` and `member_ok1.js`: the roster is the snapshot's
     * `playerIds` (or []) with every flag off, and `new Set(ids)` is wired.
     */
    method OnDaySnapshot(day: DayFields)
      modifies this`dayList, this`wired, this`wiredIsLoad
      requires Valid()
      ensures dayList == ResetFlags(day.playerIds.GetOr([]))
      ensures wired == Dedup(Ids(dayList)) && !wiredIsLoad
      ensures Valid()
    {
      var ids := day.playerIds.GetOr([]);
      dayList := ResetFlags(ids);
      wired := Dedup(ids);
      wiredIsLoad := false;
    }

    /**
     * The `observeMembers` listener (`membe1r.js`, `member_ok1.js`) and the end
     * of a member save: a fresh Set of the roster's ids is wired.
     */
    method OnMembersSnapshot()
      modifies this`wired, this`wiredIsLoad
      requires Valid()
      ensures wired == Dedup(Ids(dayList)) && !wiredIsLoad
      ensures Valid()
    {
      wired := Dedup(Ids(dayList));
      wiredIsLoad := false;
    }

    /** `saveDayList`: only the ids go out; the stored flags of those ids are kept. */
    method SaveDayList(now: int)
      modifies db`days
      ensures db.days == old(db.days)[date := Merge(old(db.Stored(date)),
                                                    PlayersPayload(date, Some(Ids(dayList)), old(db.Stored(date)), now))]
    {
      db.SetDayPlayers(date, Some(Ids(dayList)), now);
    }

    /**
     * The add button, `onAddToToday(pickedIds)`: the id joins the captured Set
     * and the roster becomes that Set, every flag off. When the Set is the one
     * of page load, it grows too. With a Set that matches the roster this is
     * `AddFromRoster`; with the Set of page load after the roster changed, ids
     * removed since come back.
     */
    method AddToToday(id: string, now: int)
      modifies this`dayList, this`wired, this`loadPicked, db`days
      requires Valid()
      ensures id in old(wired) ==>
                dayList == old(dayList) && wired == old(wired) && loadPicked == old(loadPicked) && db.days == old(db.days)
      ensures id !in old(wired) ==> wired == old(wired) + [id] && dayList == ResetFlags(wired)
      ensures id !in old(wired) ==>
                db.days == old(db.days)[date := Merge(old(db.Stored(date)),
                                                      PlayersPayload(date, Some(wired), old(db.Stored(date)), now))]
      ensures loadPicked == if wiredIsLoad then wired else old(loadPicked)
      ensures old(wired) == Dedup(Ids(old(dayList))) ==>
                (id in Ids(old(dayList)) ==> dayList == old(dayList)) &&
                (id !in Ids(old(dayList)) ==> dayList == ResetFlags(AddedIds(old(dayList), id)))
      ensures Valid()
    {
      DedupMembership(Ids(dayList), id);
      if id !in wired {
        wired := wired + [id];
        if wiredIsLoad {
          loadPicked := wired;
        }
        dayList := ResetFlags(wired);
        SaveDayList(now);
      }
    }

    /**
     * A drop from the member list: a fresh Set of the roster's ids, so a new id
     * goes last and every flag is off; a picked id changes nothing. This is
     * what the add button means to do.
     */
    method AddFromRoster(id: string, now: int)
      modifies this`dayList, this`wired, this`wiredIsLoad, db`days
      requires Valid()
      ensures id in Ids(old(dayList)) ==>
                dayList == old(dayList) && wired == old(wired) && wiredIsLoad == old(wiredIsLoad) && db.days == old(db.days)
      ensures id !in Ids(old(dayList)) ==> dayList == ResetFlags(AddedIds(old(dayList), id)) && Distinct(Ids(dayList))
      ensures id !in Ids(old(dayList)) && Distinct(Ids(old(dayList))) ==> Ids(dayList) == Ids(old(dayList)) + [id]
      ensures id !in Ids(old(dayList)) ==>
                db.days == old(db.days)[date := Merge(old(db.Stored(date)),
                                                      PlayersPayload(date, Some(Ids(dayList)), old(db.Stored(date)), now))]
      ensures id !in Ids(old(dayList)) ==> wired == Ids(dayList) && !wiredIsLoad
      ensures Valid()
    {
      if id !in Ids(dayList) {
        AddedDistinct(dayList, id);
        dayList := ResetFlags(AddedIds(dayList, id));
        wired := Ids(dayList);
        wiredIsLoad := false;
        SaveDayList(now);
      }
    }

    /** The cancel button and a drop onto the member list: the id leaves, every flag is off, and that Set is wired. */
    method Cancel(id: string, now: int)
      modifies this`dayList, this`wired, this`wiredIsLoad, db`days
      requires Valid()
      ensures id !in Ids(old(dayList)) ==>
                dayList == old(dayList) && wired == old(wired) && wiredIsLoad == old(wiredIsLoad) && db.days == old(db.days)
      ensures id in Ids(old(dayList)) ==>
                dayList == ResetFlags(CancelledIds(old(dayList), id)) && id !in Ids(dayList) && Distinct(Ids(dayList))
      ensures id in Ids(old(dayList)) && Distinct(Ids(old(dayList))) ==>
                Ids(dayList) == Filter(Ids(old(dayList)), (x: string) => x != id)
      ensures id in Ids(old(dayList)) ==>
                db.days == old(db.days)[date := Merge(old(db.Stored(date)),
                                                      PlayersPayload(date, Some(Ids(dayList)), old(db.Stored(date)), now))]
      ensures id in Ids(old(dayList)) ==> wired == Ids(dayList) && !wiredIsLoad
      ensures Valid()
    {
      if id in Ids(dayList) {
        CancelledDistinct(dayList, id);
        dayList := ResetFlags(CancelledIds(dayList, id));
        wired := Ids(dayList);
        wiredIsLoad := false;
        SaveDayList(now);
      }
    }

    /** The clear-today button (`member.js`): the roster is emptied and saved, and an empty Set is wired. */
    method ClearToday(now: int)
      modifies this`dayList, this`wired, this`wiredIsLoad, db`days
      requires Valid()
      ensures dayList == [] && wired == [] && !wiredIsLoad
      ensures db.days == old(db.days)[date := Merge(old(db.Stored(date)), PlayersPayload(date, Some([]), old(db.Stored(date)), now))]
      ensures Valid()
    {
      dayList := [];
      SaveDayList(now);
      wired := [];
      wiredIsLoad := false;
    }

    /** A drop of one roster row onto another (`member.js`): the ids move by splice, and every flag is off. */
    method Reorder(srcId: string, tgtId: string, now: int)
      modifies this`dayList, db`days
      requires Valid()
      ensures Valid()
      ensures ReorderedIds(old(dayList), srcId, tgtId).None? ==> dayList == old(dayList) && db.days == old(db.days)
      ensures ReorderedIds(old(dayList), srcId, tgtId).Some? ==>
                var s := IndexOf(Ids(old(dayList)), srcId);
                var t := IndexOf(Ids(old(dayList)), tgtId);
                dayList == ResetFlags(MoveTo(Ids(old(dayList)), s, t))
                && dayList[t].id == srcId
                && multiset(Ids(dayList)) == multiset(Ids(old(dayList)))
    {
      var r := ReorderedIds(dayList, srcId, tgtId);
      if r.Some? {
        dayList := ResetFlags(r.value);
        SaveDayList(now);
      }
    }

    /** The delete button: the id leaves the roster, which is written only when that removed something. */
    method DeleteMember(id: string, now: int)
      modifies this`dayList, db`days
      requires Valid()
      ensures Valid()
      ensures dayList == Pruned(old(dayList), id)
      ensures id !in Ids(old(dayList)) ==> dayList == old(dayList) && db.days == old(db.days)
      ensures id in Ids(old(dayList)) ==>
                db.days == old(db.days)[date := Merge(old(db.Stored(date)),
                                                      PlayersPayload(date, Some(Ids(dayList)), old(db.Stored(date)), now))]
    {
      var before := |dayList|;
      dayList := Pruned(dayList, id);
      if id !in Ids(old(dayList)) {
        PrunedNothing(old(dayList), id);
      }
      if |dayList| != before {
        SaveDayList(now);
      }
    }
  }

  /**
   * The add button after the day changed elsewhere and a filter changed
   * (`membe1r.js`, `member_ok1.js`): a day holding `a` is loaded, the day
   * listener reports it emptied, the search box is typed in, and `b` is added.
   * The roster written is `[a, b]`.
   */
  method StaleAddScenario(date: string, now: int) returns (afterSnapshot: seq<string>, afterAdd: seq<string>)
    ensures afterSnapshot == []
    ensures afterAdd == ["a", "b"]
  {
    var page := LoadedWith(date, now, ["a"]);
    page.OnDaySnapshot(NoFields.(playerIds := Some([])));
    afterSnapshot := Ids(page.dayList);
    page.Refilter();
    page.AddToToday("b", now);
    afterAdd := Ids(page.dayList);
  }

  /**
   * The add button after a member was deleted (`member.js`, which installs no
   * listener): a day holding `a` and `x` is loaded, member `x` is deleted, and
   * `b` is added. The roster written is `[a, x, b]`: the deleted member is back.
   */
  method DeleteThenAddScenario(date: string, now: int) returns (afterDelete: seq<string>, afterAdd: seq<string>)
    ensures afterDelete == ["a"]
    ensures afterAdd == ["a", "x", "b"]
  {
    var page := LoadedWith(date, now, ["a", "x"]);
    var loaded := page.dayList;
    assert loaded == [DayEntry("a", false), DayEntry("x", false)];
    page.DeleteMember("x", now);
    DroppedSecond(loaded, page.dayList);
    afterDelete := Ids(page.dayList);
    page.AddToToday("b", now);
    afterAdd := Ids(page.dayList);
  }

  /** Pruning `x` from `[a, x]` leaves `[a]`. */
  lemma DroppedSecond(loaded: seq<DayEntry>, r: seq<DayEntry>)
    requires loaded == [DayEntry("a", false), DayEntry("x", false)]
    requires r == Pruned(loaded, "x")
    ensures Ids(r) == ["a"]
  {
    assert DayEntry("a", false) in r;
    assert |r| < |loaded| by { assert "x" in Ids(loaded); }
    assert r == [DayEntry("a", false)] by {
      assert |r| == 1;
      assert r[0] in r;
    }
  }

  /** A page loaded on a day that holds the distinct ids `ids`. */
  method LoadedWith(date: string, now: int, ids: seq<string>) returns (page: LegacyPage)
    requires Distinct(ids)
    ensures fresh(page) && fresh(page.db) && page.date == date && page.Valid()
    ensures page.dayList == ResetFlags(ids) && page.loadPicked == ids && page.wired == ids && page.wiredIsLoad
  {
    var db := new DaysDb();
    db.SetDayPlayers(date, Some(ids), now);
    assert db.GetDay(date).fields.playerIds == Some(ids);
    page := new LegacyPage(date, db);
    page.Load();
    assert Ids(page.dayList) == ids;
    DedupDistinct(ids);
  }

  /** Pruning an id that is absent leaves the roster as it was. */
  lemma PrunedNothing(list: seq<DayEntry>, id: string)
    requires id !in Ids(list)
    ensures Pruned(list, id) == list
  {
    FilterAll(list, (e: DayEntry) => e.id != id);
  }
}
