/**
 * The parts of the courts page that decide something: composing standby
 * matches from the queue (`randomIntoStandby`), the swap button of a standby
 * card, the numbers read from the court-count, matches-to-create and
 * start-court inputs, and the hiding of excluded candidates.
 *
 * The page's listener state is passed in: `queueView` is the queue snapshot
 * (`{id, ...data}` per document), `excluded` the excluded-id set.
 */
module CourtsUi {
  import opened Common
  import opened Seqs
  import Text
  import opened CourtsService

  /** One document of the queue snapshot. */
  datatype QueueItem = QueueItem(id: string, player: Player, joinedAt: Ts)

  /** `q.joinedAt?.seconds || 0`: only Timestamps and plain objects carry `seconds`. */
  function JoinedSeconds(t: Ts): int {
    match t
    case Stamp(ms) => ms / 1000
    case Plain(s, _) => s
    case _ => 0
  }

  /** The comparator `(a, b) => secondsOf(a) - secondsOf(b)`, read as "a may come first". */
  function ByJoined(): (QueueItem, QueueItem) -> bool {
    (a: QueueItem, b: QueueItem) => JoinedSeconds(a.joinedAt) <= JoinedSeconds(b.joinedAt)
  }

  /** The eligible pool: queue entries not excluded, stably sorted by join time. */
  function Eligible(queueView: seq<QueueItem>, excluded: set<string>): seq<QueueItem> {
    SortStable(Filter(queueView, (q: QueueItem) => q.id !in excluded), ByJoined())
  }

  lemma ByJoinedIsTotalPreorder()
    ensures TotalPreorder(ByJoined())
  {
    KeyOrderIsTotalPreorder((q: QueueItem) => JoinedSeconds(q.joinedAt));
  }

  /**
   * The pool holds exactly the queue entries that are not excluded, it is in
   * ascending join time, and entries that joined in the same second keep their
   * queue order.
   */
  lemma EligiblePool(queueView: seq<QueueItem>, excluded: set<string>, e: QueueItem)
    ensures var el := Eligible(queueView, excluded);
            multiset(el) == multiset(Filter(queueView, (q: QueueItem) => q.id !in excluded))
            && (forall i :: 0 <= i < |el| ==> el[i].id !in excluded)
            && SortedBy(el, ByJoined())
            && Filter(el, TiesWith(ByJoined(), e))
               == Filter(Filter(queueView, (q: QueueItem) => q.id !in excluded), TiesWith(ByJoined(), e))
  {
    var kept := Filter(queueView, (q: QueueItem) => q.id !in excluded);
    var el := Eligible(queueView, excluded);
    ByJoinedIsTotalPreorder();
    SortStableSorted(kept, ByJoined());
    SortStableTies(kept, ByJoined(), e);
    forall i | 0 <= i < |el| ensures el[i].id !in excluded {
      assert el[i] in multiset(el);
      assert el[i] in kept;
    }
  }

  /**
   * `(m % courtCount) + 1` with JavaScript's `%` (sign of the dividend): `None`
   * is `NaN`, which a court count of 0 produces.
   */
  function CourtNumber(m: nat, courtCount: int): Option<nat> {
    if courtCount == 0 then None else Some(m % Abs(courtCount) + 1)
  }

  /** `"court" + courtNo`. */
  function CourtName(m: nat, courtCount: int): string {
    match CourtNumber(m, courtCount)
    case None => "courtNaN"
    case Some(n) => "court" + Text.NatToString(n)
  }

  /** With a real court count the court number lies in 1..courtCount and cycles with period courtCount. */
  lemma CourtNumberInRange(m: nat, courtCount: int)
    requires courtCount >= 1
    ensures CourtNumber(m, courtCount).Some?
    ensures 1 <= CourtNumber(m, courtCount).value <= courtCount
    ensures CourtNumber(m + courtCount, courtCount) == CourtNumber(m, courtCount)
    ensures m < courtCount ==> CourtNumber(m, courtCount) == Some(m + 1)
  {
    assert Abs(courtCount) == courtCount;
    ModShift(m, courtCount);
    ModBounds(m, courtCount);
  }

  lemma ModBounds(m: nat, c: int)
    requires c >= 1
    ensures 0 <= m % c < c
    ensures m < c ==> m % c == m
  {
  }

  lemma ModShift(m: nat, c: int)
    requires c >= 1
    ensures (m + c) % c == m % c
  {
    var a := m + c;
    var d := a / c - m / c - 1;
    assert d * c == m % c - a % c by {
      assert a == (a / c) * c + a % c;
      assert m == (m / c) * c + m % c;
      assert d * c == (a / c) * c - (m / c) * c - c;
    }
    if d >= 1 {
      MulAtLeast(d, c);
    } else if d <= -1 {
      MulAtLeast(-d, c);
    }
  }

  lemma MulAtLeast(d: int, c: int)
    requires d >= 1 && c >= 1
    ensures d * c >= c
  {
  }

  /** One standby match to create: the court and the two teams. */
  datatype Plan = Plan(courtId: string, teamA: seq<Player>, teamB: seq<Player>)

  /** Match `m` takes eligible[4m..4m+4] = p0..p3 and pairs p0+p3 against p1+p2. */
  function PlanAt(el: seq<QueueItem>, m: nat, courtCount: int): (r: Plan)
    requires 4 * m + 4 <= |el|
    ensures r.teamA == [el[4 * m].player, el[4 * m + 3].player]
    ensures r.teamB == [el[4 * m + 1].player, el[4 * m + 2].player]
  {
    Plan(CourtName(m, courtCount), [el[4 * m].player, el[4 * m + 3].player], [el[4 * m + 1].player, el[4 * m + 2].player])
  }

  /** How many matches `randomIntoStandby(matchesCount)` creates from `n` eligible entries. */
  function MatchCount(n: nat, matchesCount: int): (k: nat)
    ensures 4 * k <= n
    ensures n < 4 ==> k == 0
    ensures k == Min(Max(matchesCount, 0), n / 4)
  {
    if n < 4 then 0 else Min(Max(matchesCount, 0), n / 4)
  }

  function Plans(el: seq<QueueItem>, k: nat, courtCount: int): (r: seq<Plan>)
    requires 4 * k <= |el|
    ensures |r| == k
    ensures forall m :: 0 <= m < k ==> r[m] == PlanAt(el, m, courtCount)
  {
    seq(k, m requires 0 <= m < k => PlanAt(el, m, courtCount))
  }

  function ItemIds(items: seq<QueueItem>): (r: seq<string>)
    ensures |r| == |items|
    ensures forall i :: 0 <= i < |items| ==> r[i] == items[i].id
  {
    seq(|items|, i requires 0 <= i < |items| => items[i].id)
  }

  /** `popFromQueue` for each id in turn. */
  function PopAll(q: map<Key, QueueEntry>, st: map<Key, Stats>, day: Day, ids: seq<string>, now: Ts, clock: int)
    : (map<Key, QueueEntry>, map<Key, Stats>)
    decreases |ids|
  {
    if ids == [] then (q, st)
    else
      var r := PopAll(q, st, day, ids[..|ids| - 1], now, clock);
      PopEffect(r.0, r.1, (day, ids[|ids| - 1]), now, clock)
  }

  /** After the pops exactly the popped ids of that day are gone from the queue; the rest stay as they were. */
  lemma {:induction false} PopAllQueue(q: map<Key, QueueEntry>, st: map<Key, Stats>, day: Day, ids: seq<string>, now: Ts, clock: int)
    ensures var r := PopAll(q, st, day, ids, now, clock).0;
            (forall k :: k in r ==> k in q && r[k] == q[k])
            && (forall k :: k in q ==> (k in r <==> !(k.0 == day && k.1 in ids)))
    decreases |ids|
  {
    if ids != [] {
      var init := ids[..|ids| - 1];
      PopAllQueue(q, st, day, init, now, clock);
      assert forall x :: x in ids <==> x in init || x == ids[|ids| - 1] by {
        assert ids == init + [ids[|ids| - 1]];
      }
    }
  }

  /** Players that were not popped keep their stats. */
  lemma {:induction false} PopAllOthersStats(q: map<Key, QueueEntry>, st: map<Key, Stats>, day: Day, ids: seq<string>, now: Ts, clock: int, k: Key)
    requires !(k.0 == day && k.1 in ids)
    ensures StatsOf(PopAll(q, st, day, ids, now, clock).1, k) == StatsOf(st, k)
    decreases |ids|
  {
    if ids != [] {
      var init := ids[..|ids| - 1];
      assert k.0 == day ==> k.1 !in init;
      PopAllOthersStats(q, st, day, init, now, clock, k);
    }
  }

  /**
   * With distinct ids, each popped id that was queued is credited once with
   * the wait since its own `joinedAt`; one that was not queued is not touched.
   */
  lemma {:induction false} PopAllCredits(q: map<Key, QueueEntry>, st: map<Key, Stats>, day: Day, ids: seq<string>, now: Ts, clock: int, i: nat)
    requires Distinct(ids) && i < |ids|
    ensures var k := (day, ids[i]);
            StatsOf(PopAll(q, st, day, ids, now, clock).1, k)
            == if k in q then CreditWait(StatsOf(st, k), q[k].joinedAt, now, clock) else StatsOf(st, k)
    decreases |ids|
  {
    var init := ids[..|ids| - 1];
    var k := (day, ids[i]);
    if i == |ids| - 1 {
      assert ids[i] !in init;
      PopAllQueue(q, st, day, init, now, clock);
      PopAllOthersStats(q, st, day, init, now, clock, k);
    } else {
      assert Distinct(init);
      PopAllCredits(q, st, day, init, now, clock, i);
    }
  }

  /** The standby documents `randomIntoStandby` adds, with consecutive auto ids from `first`. */
  function AddPlans(sb: map<(Day, string, nat), Standby>, day: Day, first: nat, plans: seq<Plan>, uid: nat -> string, now: Ts)
    : map<(Day, string, nat), Standby>
    decreases |plans|
  {
    if plans == [] then sb
    else
      var p := plans[|plans| - 1];
      AddPlans(sb, day, first, plans[..|plans| - 1], uid, now)
        [(day, p.courtId, first + |plans| - 1) := NewStandby(AsInputs(p.teamA), AsInputs(p.teamB), uid, now)]
  }

  /**
   * Match `m` is stored under its court with auto id `first + m`; earlier
   * documents are kept, and with stored (well-formed) players the teams are
   * exactly the plan's.
   */
  lemma {:induction false} AddPlansStored(sb: map<(Day, string, nat), Standby>, day: Day, first: nat, plans: seq<Plan>, uid: nat -> string, now: Ts, m: nat)
    requires m < |plans|
    requires forall k :: k in sb ==> k.2 < first
    ensures var r := AddPlans(sb, day, first, plans, uid, now);
            var key := (day, plans[m].courtId, first + m);
            key in r && key !in sb
            && r[key] == NewStandby(AsInputs(plans[m].teamA), AsInputs(plans[m].teamB), uid, now)
    decreases |plans|
  {
    if m < |plans| - 1 {
      AddPlansStored(sb, day, first, plans[..|plans| - 1], uid, now, m);
    }
  }

  lemma {:induction false} AddPlansKeeps(sb: map<(Day, string, nat), Standby>, day: Day, first: nat, plans: seq<Plan>, uid: nat -> string, now: Ts)
    requires forall k :: k in sb ==> k.2 < first
    ensures var r := AddPlans(sb, day, first, plans, uid, now);
            (forall k :: k in sb ==> k in r && r[k] == sb[k])
            && (forall k :: k in r ==> k.2 < first + |plans|)
            && |r.Keys| == |sb.Keys| + |plans|
    decreases |plans|
  {
    if plans != [] {
      var init := plans[..|plans| - 1];
      AddPlansKeeps(sb, day, first, init, uid, now);
      var before := AddPlans(sb, day, first, init, uid, now);
      var p := plans[|plans| - 1];
      var key := (day, p.courtId, first + |plans| - 1);
      assert key !in before;
      assert before[key := NewStandby(AsInputs(p.teamA), AsInputs(p.teamB), uid, now)].Keys == before.Keys + {key};
    }
  }

  /** A match built from stored players keeps those players exactly. */
  lemma PlanTeamsStored(p: Plan, uid: nat -> string, now: Ts)
    requires forall i :: 0 <= i < |p.teamA| ==> WellFormed(p.teamA[i])
    requires forall i :: 0 <= i < |p.teamB| ==> WellFormed(p.teamB[i])
    ensures NewStandby(AsInputs(p.teamA), AsInputs(p.teamB), uid, now).teamA == p.teamA
    ensures NewStandby(AsInputs(p.teamA), AsInputs(p.teamB), uid, now).teamB == p.teamB
  {
    NormalizeStoredTeam(p.teamA, uid, 0);
    NormalizeStoredTeam(p.teamB, uid, |p.teamA|);
  }

  /**
   * `randomIntoStandby(matchesCount)`: take eligible entries four at a time,
   * create one standby match per group on court (m % courtCount) + 1, and pop
   * its four players; stop at `matchesCount` matches or when fewer than four
   * entries remain.
   */
  method RandomIntoStandby(store: CourtStore, day: Day, queueView: seq<QueueItem>, excluded: set<string>,
                           matchesCount: int, courtCount: int, uid: nat -> string, now: Ts, clock: int)
    returns (plans: seq<Plan>)
    requires store.Valid()
    modifies store`queue, store`playerStats, store`standby, store`nextAutoId
    ensures store.Valid()
    ensures var el := Eligible(queueView, excluded);
            var k := MatchCount(|el|, matchesCount);
            plans == Plans(el, k, courtCount)
            && store.nextAutoId == old(store.nextAutoId) + k
            && store.standby == AddPlans(old(store.standby), day, old(store.nextAutoId), plans, uid, now)
            && (store.queue, store.playerStats)
               == PopAll(old(store.queue), old(store.playerStats), day, ItemIds(el[..4 * k]), now, clock)
  {
    var el := Eligible(queueView, excluded);
    plans := PlaceMatches(store, day, el, matchesCount, courtCount, uid, now, clock);
  }

  /** The `while (pick.length < perMatch && idx < eligible.length)` loop: up to `n` entries from `idx` on. */
  method TakeNext<T>(el: seq<T>, idx0: nat, n: nat) returns (pick: seq<T>, idx: nat)
    requires idx0 <= |el|
    ensures idx == Min(idx0 + n, |el|) && idx0 <= idx
    ensures pick == el[idx0..idx]
  {
    pick := [];
    idx := idx0;
    while |pick| < n && idx < |el|
      invariant idx0 <= idx <= |el| && idx == idx0 + |pick| && |pick| <= n
      invariant pick == el[idx0..idx]
    {
      pick := pick + [el[idx]];
      idx := idx + 1;
    }
  }

  /** The loop of `randomIntoStandby` over the eligible pool `el`. */
  method PlaceMatches(store: CourtStore, day: Day, el: seq<QueueItem>,
                      matchesCount: int, courtCount: int, uid: nat -> string, now: Ts, clock: int)
    returns (plans: seq<Plan>)
    requires store.Valid()
    modifies store`queue, store`playerStats, store`standby, store`nextAutoId
    ensures store.Valid()
    ensures var k := MatchCount(|el|, matchesCount);
            plans == Plans(el, k, courtCount)
            && store.nextAutoId == old(store.nextAutoId) + k
            && store.standby == AddPlans(old(store.standby), day, old(store.nextAutoId), plans, uid, now)
            && (store.queue, store.playerStats)
               == PopAll(old(store.queue), old(store.playerStats), day, ItemIds(el[..4 * k]), now, clock)
  {
    var perMatch := 4;
    if |el| < perMatch {
      assert ItemIds(el[..0]) == [];
      return [];
    }
    ghost var first := store.nextAutoId;
    ghost var q0, s0, sb0 := store.queue, store.playerStats, store.standby;
    var idx := 0;
    var m := 0;
    plans := [];
    assert ItemIds(el[..0]) == [];
    while m < matchesCount
      invariant 0 <= m && idx == 4 * m && idx <= |el|
      invariant m <= Max(matchesCount, 0)
      invariant plans == Plans(el, m, courtCount)
      invariant store.Valid()
      invariant store.nextAutoId == first + m
      invariant store.standby == AddPlans(sb0, day, first, plans, uid, now)
      invariant (store.queue, store.playerStats) == PopAll(q0, s0, day, ItemIds(el[..4 * m]), now, clock)
    {
      var start := idx;
      var pick;
      pick, idx := TakeNext(el, idx, perMatch);
      if |pick| < perMatch {
        MatchCountShort(|el|, matchesCount, m);
        break;
      }
      var plan := PlaceOne(store, day, el, start, pick, m, courtCount, uid, now, clock,
                           q0, s0, sb0, first, plans);
      plans := plans + [plan];
      m := m + 1;
    }
    MatchCountReached(|el|, matchesCount, m);
  }

  /** One iteration with four entries picked: create match `m` and pop its players. */
  method PlaceOne(store: CourtStore, day: Day, el: seq<QueueItem>, start: nat, pick: seq<QueueItem>, m: nat,
                  courtCount: int, uid: nat -> string, now: Ts, clock: int,
                  ghost q0: map<Key, QueueEntry>, ghost s0: map<Key, Stats>,
                  ghost sb0: map<(Day, string, nat), Standby>, ghost first: nat, ghost plans: seq<Plan>)
    returns (plan: Plan)
    requires start == 4 * m && start + 4 <= |el| && pick == el[start..start + 4]
    requires plans == Plans(el, m, courtCount)
    requires store.Valid() && store.nextAutoId == first + m
    requires store.standby == AddPlans(sb0, day, first, plans, uid, now)
    requires (store.queue, store.playerStats) == PopAll(q0, s0, day, ItemIds(el[..start]), now, clock)
    modifies store`queue, store`playerStats, store`standby, store`nextAutoId
    ensures plans + [plan] == Plans(el, m + 1, courtCount)
    ensures store.Valid() && store.nextAutoId == first + m + 1
    ensures store.standby == AddPlans(sb0, day, first, plans + [plan], uid, now)
    ensures (store.queue, store.playerStats) == PopAll(q0, s0, day, ItemIds(el[..start + 4]), now, clock)
  {
    plan := CreatePlanned(store, day, el, pick, m, courtCount, uid, now, sb0, first, plans);
    ghost var added := store.standby;
    PopPick(store, day, el, start, now, clock, q0, s0);
    assert store.standby == added;
    PlansSnoc(el, m, courtCount);
  }

  /** `createStandbyMatch(dateKey, "court" + courtNo, teamA, teamB)` for match `m`. */
  method CreatePlanned(store: CourtStore, day: Day, el: seq<QueueItem>, pick: seq<QueueItem>, m: nat,
                       courtCount: int, uid: nat -> string, now: Ts,
                       ghost sb0: map<(Day, string, nat), Standby>, ghost first: nat, ghost plans: seq<Plan>)
    returns (plan: Plan)
    requires 4 * m + 4 <= |el| && pick == el[4 * m..4 * m + 4] && |plans| == m
    requires store.Valid() && store.nextAutoId == first + m
    requires store.standby == AddPlans(sb0, day, first, plans, uid, now)
    modifies store`standby, store`nextAutoId
    ensures plan == PlanAt(el, m, courtCount)
    ensures store.Valid() && store.nextAutoId == first + m + 1
    ensures store.standby == AddPlans(sb0, day, first, plans + [plan], uid, now)
  {
    plan := Plan(CourtName(m, courtCount), [pick[0].player, pick[3].player], [pick[1].player, pick[2].player]);
    store.CreateStandbyMatch(day, plan.courtId, AsInputs(plan.teamA), AsInputs(plan.teamB), uid, now);
    AddPlansSnoc(sb0, day, first, plans, plan, uid, now);
  }

  lemma AddPlansSnoc(sb: map<(Day, string, nat), Standby>, day: Day, first: nat, plans: seq<Plan>, p: Plan, uid: nat -> string, now: Ts)
    ensures AddPlans(sb, day, first, plans + [p], uid, now)
            == AddPlans(sb, day, first, plans, uid, now)[(day, p.courtId, first + |plans|) := NewStandby(AsInputs(p.teamA), AsInputs(p.teamB), uid, now)]
  {
    assert (plans + [p])[..|plans|] == plans;
  }

  lemma PlansSnoc(el: seq<QueueItem>, m: nat, courtCount: int)
    requires 4 * m + 4 <= |el|
    ensures Plans(el, m + 1, courtCount) == Plans(el, m, courtCount) + [PlanAt(el, m, courtCount)]
  {
  }

  /** The four `popFromQueue` calls of one match, for the entries el[start..start+4]. */
  method PopPick(store: CourtStore, day: Day, el: seq<QueueItem>, start: nat, now: Ts, clock: int,
                 ghost q0: map<Key, QueueEntry>, ghost s0: map<Key, Stats>)
    requires store.Valid() && start + 4 <= |el|
    requires (store.queue, store.playerStats) == PopAll(q0, s0, day, ItemIds(el[..start]), now, clock)
    modifies store`queue, store`playerStats
    ensures store.Valid()
    ensures (store.queue, store.playerStats) == PopAll(q0, s0, day, ItemIds(el[..start + 4]), now, clock)
  {
    var j := 0;
    while j < 4
      invariant 0 <= j <= 4
      invariant store.Valid()
      invariant (store.queue, store.playerStats) == PopAll(q0, s0, day, ItemIds(el[..start + j]), now, clock)
    {
      var _, _ := store.PopFromQueue(day, el[start + j].id, now, clock);
      assert ItemIds(el[..start + j + 1])[..start + j] == ItemIds(el[..start + j]);
      j := j + 1;
    }
  }

  /** Running out of entries after `m` full matches means `m` is the count. */
  lemma MatchCountShort(n: nat, matchesCount: int, m: nat)
    requires 4 <= n && 4 * m <= n < 4 * m + 4 && m < matchesCount
    ensures MatchCount(n, matchesCount) == m
  {
    assert n / 4 == m;
  }

  /** Stopping either at `matchesCount` or on running short gives the count. */
  lemma MatchCountReached(n: nat, matchesCount: int, m: nat)
    requires 4 <= n && 4 * m <= n && m <= Max(matchesCount, 0)
    requires m >= matchesCount || n < 4 * m + 4
    ensures MatchCount(n, matchesCount) == m
  {
    assert m <= n / 4;
    if n < 4 * m + 4 {
      assert n / 4 == m;
    }
  }

  /** Nothing is created or popped when fewer than four entries are eligible. */
  lemma TooFewEligible(queueView: seq<QueueItem>, excluded: set<string>, matchesCount: int, courtCount: int)
    requires |Eligible(queueView, excluded)| < 4
    ensures MatchCount(|Eligible(queueView, excluded)|, matchesCount) == 0
    ensures Plans(Eligible(queueView, excluded), 0, courtCount) == []
  {
  }

  /** Entries of the pool past the last full match stay queued. */
  lemma LeftoversStayQueued(q: map<Key, QueueEntry>, st: map<Key, Stats>, day: Day, el: seq<QueueItem>, k: nat, i: nat, now: Ts, clock: int)
    requires 4 * k <= i < |el| && (day, el[i].id) in q
    requires Distinct(ItemIds(el))
    ensures (day, el[i].id) in PopAll(q, st, day, ItemIds(el[..4 * k]), now, clock).0
  {
    PopAllQueue(q, st, day, ItemIds(el[..4 * k]), now, clock);
  }

  // ----- the swap button of a standby card -----

  /** The swap button: copies of both teams with seat 1 exchanged. */
  function SwapSeats(teamA: seq<Player>, teamB: seq<Player>): (r: (seq<Player>, seq<Player>))
    requires |teamA| >= 2 && |teamB| >= 2
    ensures |r.0| == |teamA| && |r.1| == |teamB|
    ensures r.0[0] == teamA[0] && r.1[0] == teamB[0]
    ensures r.0[1] == teamB[1] && r.1[1] == teamA[1]
    ensures forall i :: 2 <= i < |teamA| ==> r.0[i] == teamA[i]
    ensures forall i :: 2 <= i < |teamB| ==> r.1[i] == teamB[i]
  {
    (teamA[1 := teamB[1]], teamB[1 := teamA[1]])
  }

  /** Swapping twice gives the original teams back. */
  lemma SwapSeatsTwice(teamA: seq<Player>, teamB: seq<Player>)
    requires |teamA| >= 2 && |teamB| >= 2
    ensures var r := SwapSeats(teamA, teamB);
            SwapSeats(r.0, r.1) == (teamA, teamB)
  {
    var r := SwapSeats(teamA, teamB);
    assert r.0[1 := r.1[1]] == teamA;
    assert r.1[1 := r.0[1]] == teamB;
  }

  /** `updateStandbyFromCard`: delete the card's match, then add one with the swapped teams. */
  method SwapOnCard(store: CourtStore, day: Day, courtId: string, matchId: nat,
                    teamA: seq<Player>, teamB: seq<Player>, uid: nat -> string, now: Ts)
    requires store.Valid() && |teamA| >= 2 && |teamB| >= 2
    modifies store`standby, store`nextAutoId
    ensures store.Valid()
    ensures store.nextAutoId == old(store.nextAutoId) + 1
    ensures var r := SwapSeats(teamA, teamB);
            store.standby == (old(store.standby) - {(day, courtId, matchId)})
                               [(day, courtId, old(store.nextAutoId)) := NewStandby(AsInputs(r.0), AsInputs(r.1), uid, now)]
  {
    var r := SwapSeats(teamA, teamB);
    store.DeleteStandbyMatch(day, courtId, matchId);
    store.CreateStandbyMatch(day, courtId, AsInputs(r.0), AsInputs(r.1), uid, now);
  }

  // ----- numbers typed or selected on the page -----

  /** `parseInt(text, 10) || fallback`: `NaN` and 0 give the fallback. */
  function ParseOr(text: string, fallback: int): (n: int)
    ensures fallback != 0 ==> n != 0
    ensures Text.ParseInt(text).Some? && Text.ParseInt(text).value != 0 ==> n == Text.ParseInt(text).value
    ensures Text.ParseInt(text).None? || Text.ParseInt(text) == Some(0) ==> n == fallback
  {
    match Text.ParseInt(text)
    case None => fallback
    case Some(v) => if v == 0 then fallback else v
  }

  /** The court-count select: `parseInt(value) || 10`. */
  function CourtCountInput(value: string): int { ParseOr(value, 10) }

  /** The matches-to-create box: `parseInt(value) || 1`. */
  function MatchesToCreate(value: string): int { ParseOr(value, 1) }

  /** The court a standby card starts on: `"court" + (parseInt(sel.value) || 1)`. */
  function StartCourtId(selValue: string): string {
    "court" + Text.IntToString(ParseOr(selValue, 1))
  }

  /** The select offers "1".."20" (court count) and "1".."courtCount" (start court); each reads back as itself. */
  lemma SelectValuesReadBack(n: nat)
    requires n >= 1
    ensures CourtCountInput(Text.NatToString(n)) == n
    ensures MatchesToCreate(Text.NatToString(n)) == n
    ensures StartCourtId(Text.NatToString(n)) == "court" + Text.NatToString(n)
  {
    Text.ParseIntNatToString(n);
  }

  /** Garbage and "0" fall back to the defaults. */
  lemma InputFallbacks(text: string)
    requires Text.ParseInt(text).None? || Text.ParseInt(text) == Some(0)
    ensures CourtCountInput(text) == 10 && MatchesToCreate(text) == 1
    ensures StartCourtId(text) == "court1"
  {
    assert Text.NatToString(1) == "1";
  }

  /** A candidate of the day (attendee or checked-in member). */
  datatype Candidate = Candidate(id: string, name: string, level: Option<int>)

  /** `renderCandidates`: the candidates whose id is not excluded, in their order. */
  function VisibleCandidates(candidates: seq<Candidate>, excluded: set<string>): (r: seq<Candidate>)
    ensures forall c :: c in r <==> c in candidates && c.id !in excluded
    ensures SubseqOf(r, candidates)
  {
    var keep := (c: Candidate) => c.id !in excluded;
    FilterIsSubseq(candidates, keep);
    forall c ensures c in Filter(candidates, keep) <==> c in candidates && keep(c) {
      FilterMembership(candidates, keep, c);
    }
    Filter(candidates, keep)
  }
}
