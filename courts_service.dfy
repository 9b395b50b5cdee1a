/**
 * The court-session engine of the courts page: a per-day waiting queue, the
 * "not playing" exclusions, standby matches per court, one live match per
 * court, the finished-match history and the time/game counters.
 *
 * The database is a `CourtStore` whose maps are keyed by the document paths
 * under groups/{groupId}/dates/{dateKey}/…: queue/{playerId}, excluded/{playerId},
 * courts/{courtId}/standby_matches/{matchId}, courts/{courtId}/current_match/live,
 * courts/{courtId}/matches_history, stats/players/{playerId} and courts_stats/{courtId}.
 * Every service call is one sequential, atomic step. The client clock
 * (`Date.now()`) is the parameter `clock`; what `serverTimestamp()` resolves to
 * in the stored document is the parameter `now`; `uid()` is the parameter `uid`.
 */
module CourtsService {
  import opened Common
  import opened Seqs
  import Text

  /** groups/{groupId}/dates/{dateKey}: the prefix of every path of one session day. */
  datatype Day = Day(groupId: string, dateKey: string)

  /** A document inside one day, identified by its id (player id or court id). */
  type Key = (Day, string)

  /**
   * The timestamp values `toMillis` can meet: nothing (`null`/`undefined`), the
   * client-side `serverTimestamp()` sentinel, a resolved Firestore `Timestamp`
   * (kept as whole milliseconds), a plain `{seconds, nanoseconds}` object, or a bare number.
   */
  datatype Ts = Missing | Sentinel | Stamp(ms: int) | Plain(seconds: int, nanos: int) | Millis(n: int)

  /** JavaScript truthiness of a timestamp value. */
  predicate Truthy(t: Ts) {
    !(t.Missing? || (t.Millis? && t.n == 0))
  }

  /**
   * `toMillis`: a Timestamp gives its own milliseconds, a plain object with
   * non-zero seconds gives seconds*1000 + floor(nanos/1e6), and everything else
   * (nothing, the sentinel, zero seconds, a bare number) falls back to the clock.
   */
  function ToMillis(t: Ts, clock: int): (ms: int)
    ensures t.Stamp? ==> ms == t.ms
    ensures t.Plain? && t.seconds != 0 ==> ms == t.seconds * 1000 + t.nanos / 1000000
    ensures !t.Stamp? && !(t.Plain? && t.seconds != 0) ==> ms == clock
  {
    match t
    case Missing => clock
    case Stamp(ms) => ms
    case Plain(s, n) => if s != 0 then s * 1000 + n / 1000000 else clock
    case _ => clock
  }

  /**
   * `rangeMs`: elapsed milliseconds between two timestamps, never negative: the
   * elapsed time when it is positive, zero when the clock went backwards.
   */
  function RangeMs(startedAt: Ts, finishedAt: Ts, clock: int): (d: nat)
    ensures d >= ToMillis(finishedAt, clock) - ToMillis(startedAt, clock)
    ensures d == 0 || d == ToMillis(finishedAt, clock) - ToMillis(startedAt, clock)
  {
    var s := ToMillis(startedAt, clock);
    var f := ToMillis(finishedAt, clock);
    if f - s < 0 then 0 else f - s
  }

  /** A plain `{seconds, nanoseconds}` copy of a Timestamp gives the same milliseconds. */
  lemma PlainAgreesWithStamp(seconds: int, nanos: nat, clock: int)
    requires seconds != 0 && nanos < 1000000000
    ensures ToMillis(Plain(seconds, nanos), clock) == ToMillis(Stamp(seconds * 1000 + nanos / 1000000), clock)
  {
  }

  /** A match finished (at the clock) after it started lasted clock - start. */
  lemma RangeOfStamp(startMs: int, clock: int)
    requires startMs <= clock
    ensures RangeMs(Stamp(startMs), Sentinel, clock) == clock - startMs
  {
  }

  // ----- players -----

  /** A player as the engine stores it. */
  datatype Player = Player(id: string, name: string, level: int)

  /** A player as a caller hands it in: "" stands for a missing id or name. */
  datatype PlayerIn = PlayerIn(id: string, name: string, level: Option<int>)

  /** `normalizePlayer`: id defaults to a fresh `uid()`, name to "Unknown", level (only if nullish) to 0. */
  function NormalizePlayer(p: PlayerIn, uid: string): (r: Player)
    // what the caller gave is kept ...
    ensures p.id != "" ==> r.id == p.id
    ensures p.name != "" ==> r.name == p.name
    ensures p.level.Some? ==> r.level == p.level.value
    // ... and only what is missing is filled in, so the result is never nameless
    ensures p.id == "" ==> r.id == uid
    ensures r.name != ""
    ensures p.level.None? ==> r.level == 0
  {
    Player(if p.id != "" then p.id else uid, if p.name != "" then p.name else "Unknown", p.level.GetOr(0))
  }

  /** A stored player handed back to the engine. */
  function AsInput(p: Player): PlayerIn {
    PlayerIn(p.id, p.name, Some(p.level))
  }

  /** Normalising a player that already has an id and a name changes nothing. */
  lemma NormalizeStored(p: Player, uid: string)
    requires p.id != "" && p.name != ""
    ensures NormalizePlayer(AsInput(p), uid) == p
  {
  }

  /** Normalisation is idempotent. */
  lemma NormalizeIdempotent(p: PlayerIn, uid: string, uid2: string)
    requires uid != ""
    ensures NormalizePlayer(AsInput(NormalizePlayer(p, uid)), uid2) == NormalizePlayer(p, uid)
  {
  }

  /** `team.map(normalizePlayer)`: the i-th player draws the fresh id `uid(from + i)`. */
  function NormalizeTeam(team: seq<PlayerIn>, uid: nat -> string, from: nat): (r: seq<Player>)
    ensures |r| == |team|
    ensures forall i :: 0 <= i < |team| ==> r[i] == NormalizePlayer(team[i], uid(from + i))
  {
    seq(|team|, i requires 0 <= i < |team| => NormalizePlayer(team[i], uid(from + i)))
  }

  function AsInputs(team: seq<Player>): (r: seq<PlayerIn>)
    ensures |r| == |team|
  {
    seq(|team|, i requires 0 <= i < |team| => AsInput(team[i]))
  }

  predicate WellFormed(p: Player) { p.id != "" && p.name != "" }

  /** Re-normalising a team of stored players gives the same team back. */
  lemma {:induction false} NormalizeStoredTeam(team: seq<Player>, uid: nat -> string, from: nat)
    requires forall i :: 0 <= i < |team| ==> WellFormed(team[i])
    ensures NormalizeTeam(AsInputs(team), uid, from) == team
  {
    var r := NormalizeTeam(AsInputs(team), uid, from);
    forall i | 0 <= i < |team| ensures r[i] == team[i] {
      NormalizeStored(team[i], uid(from + i));
    }
  }

  // ----- documents -----

  /** queue/{playerId}: `{player, joinedAt, waitTotalMs}`. */
  datatype QueueEntry = QueueEntry(player: Player, joinedAt: Ts, waitTotalMs: int)

  /** courts/{courtId}/standby_matches/{matchId}. */
  datatype Standby = Standby(teamA: seq<Player>, teamB: seq<Player>, createdAt: Ts)

  /** The payload `createStandbyMatch` adds: both teams normalised, stamped `createdAt`. */
  function NewStandby(teamA: seq<PlayerIn>, teamB: seq<PlayerIn>, uid: nat -> string, now: Ts): (r: Standby)
    ensures |r.teamA| == |teamA| && |r.teamB| == |teamB| && r.createdAt == now
  {
    Standby(NormalizeTeam(teamA, uid, 0), NormalizeTeam(teamB, uid, |teamA|), now)
  }

  /** courts/{courtId}/current_match/live; a history record is a copy with state "finished". */
  datatype Live = Live(courtId: string, state: string, teamA: seq<Player>, teamB: seq<Player>, startedAt: Ts)

  /** matches_history entry: `{...live, state: "finished", finishedAt}`. */
  datatype Finished = Finished(record: Live, finishedAt: Ts)

  /** stats/players/{playerId}; a field that was never written is `None`. */
  datatype Stats = Stats(games: Option<int>, wins: Option<int>, losses: Option<int>,
                         playTimeMsTotal: Option<int>, waitTimeMsTotal: Option<int>,
                         updatedAt: Option<Ts>)

  /** A player's counters before anything was written. */
  const NoStats := Stats(None, None, None, None, None, None)

  /** `(x || 0)` on a stored counter. */
  function Num(x: Option<int>): int { x.GetOr(0) }

  function StatsOf(st: map<Key, Stats>, k: Key): Stats {
    if k in st then st[k] else NoStats
  }

  predicate CounterOk(x: Option<int>) { x.None? || x.value >= 0 }

  predicate StatsOk(s: Stats) {
    CounterOk(s.games) && CounterOk(s.wins) && CounterOk(s.losses)
    && CounterOk(s.playTimeMsTotal) && CounterOk(s.waitTimeMsTotal)
  }

  /** Every counter of `b` is at least the one of `a`, and wins/losses were not touched. */
  predicate Grows(a: Stats, b: Stats) {
    Num(a.games) <= Num(b.games) && Num(a.playTimeMsTotal) <= Num(b.playTimeMsTotal)
    && Num(a.waitTimeMsTotal) <= Num(b.waitTimeMsTotal)
    && a.wins == b.wins && a.losses == b.losses
  }

  /**
   * `incPlayerCounter` with `waitDeltaMsFromJoinedAt`: when `joinedAt` is truthy,
   * add max(0, toMillis(serverTimestamp()) - toMillis(joinedAt)); always stamp `updatedAt`.
   */
  function CreditWait(cur: Stats, joinedAt: Ts, now: Ts, clock: int): (r: Stats)
    ensures Grows(cur, r) && (StatsOk(cur) ==> StatsOk(r))
    ensures r.games == cur.games && r.playTimeMsTotal == cur.playTimeMsTotal
    ensures Truthy(joinedAt) ==>
      Num(r.waitTimeMsTotal) == Num(cur.waitTimeMsTotal) + Max(0, clock - ToMillis(joinedAt, clock))
    ensures !Truthy(joinedAt) ==> r.waitTimeMsTotal == cur.waitTimeMsTotal
    ensures r.updatedAt == Some(now)
  {
    var waited := Max(0, ToMillis(Sentinel, clock) - ToMillis(joinedAt, clock));
    var c := if Truthy(joinedAt) then cur.(waitTimeMsTotal := Some(Num(cur.waitTimeMsTotal) + waited)) else cur;
    c.(updatedAt := Some(now))
  }

  /** `incPlayerCounter` with `playDeltaFromRange`: one more game and `delta` more play time. */
  function CreditPlay(cur: Stats, delta: nat, now: Ts): (r: Stats)
    ensures Grows(cur, r) && (StatsOk(cur) ==> StatsOk(r))
    ensures Num(r.games) == Num(cur.games) + 1
    ensures Num(r.playTimeMsTotal) == Num(cur.playTimeMsTotal) + delta
    ensures r.waitTimeMsTotal == cur.waitTimeMsTotal && r.updatedAt == Some(now)
    ensures r.wins == cur.wins && r.losses == cur.losses
  {
    cur.(playTimeMsTotal := Some(Num(cur.playTimeMsTotal) + delta),
         games := Some(Num(cur.games) + 1),
         updatedAt := Some(now))
  }

  // ----- effects of the operations on the store, as functions of the old state -----

  /**
   * `joinQueue`: create the entry only when none exists. A player without an
   * id makes `doc(queueCol, player.id)` throw before anything is read or written.
   */
  function JoinEffect(q: map<Key, QueueEntry>, day: Day, p: PlayerIn, uid: string, now: Ts): map<Key, QueueEntry> {
    var k := (day, p.id);
    if p.id == "" || k in q then q else q[k := QueueEntry(NormalizePlayer(p, uid), now, 0)]
  }

  /** Joining twice is the same as joining once. */
  lemma JoinIdempotent(q: map<Key, QueueEntry>, day: Day, p: PlayerIn, uid: string, uid2: string, now: Ts, now2: Ts)
    ensures JoinEffect(JoinEffect(q, day, p, uid, now), day, p, uid2, now2) == JoinEffect(q, day, p, uid, now)
  {
  }

  /** `popFromQueue` on queue and stats: absent is a no-op; present is deleted and credited with its wait. */
  function PopEffect(q: map<Key, QueueEntry>, st: map<Key, Stats>, k: Key, now: Ts, clock: int)
    : (r: (map<Key, QueueEntry>, map<Key, Stats>))
    ensures k !in q ==> r == (q, st)
    ensures k in q ==> r.0 == q - {k} && r.1 == st[k := CreditWait(StatsOf(st, k), q[k].joinedAt, now, clock)]
  {
    if k !in q then (q, st)
    else (q - {k}, st[k := CreditWait(StatsOf(st, k), q[k].joinedAt, now, clock)])
  }

  /** A second pop of the same id finds nothing and changes nothing. */
  lemma PopOnce(q: map<Key, QueueEntry>, st: map<Key, Stats>, k: Key, now: Ts, clock: int, now2: Ts, clock2: int)
    ensures var r := PopEffect(q, st, k, now, clock);
            PopEffect(r.0, r.1, k, now2, clock2) == r
  {
  }

  /** `toggleExclude`: delete when present, otherwise create with `createdAt`; an empty id throws in `doc`. */
  function ToggleEffect(ex: map<Key, Ts>, k: Key, now: Ts): map<Key, Ts> {
    if k.1 == "" then ex else if k in ex then ex - {k} else ex[k := now]
  }

  /** Two toggles restore membership of every id. */
  lemma ToggleTwice(ex: map<Key, Ts>, k: Key, now: Ts, now2: Ts, j: Key)
    ensures (j in ToggleEffect(ToggleEffect(ex, k, now), k, now2)) == (j in ex)
  {
  }

  /**
   * `team[index] = p` followed by `updateDoc`: inside the team it replaces
   * that seat; one past the end it appends; a negative index sets a non-element
   * property so the stored team is unchanged; further out the array gets holes,
   * which Firestore refuses (`None`: nothing is written).
   */
  function SeatAssign(team: seq<Player>, index: int, p: Player): (r: Option<seq<Player>>)
    ensures 0 <= index < |team| ==> r == Some(team[index := p])
    ensures index == |team| ==> r == Some(team + [p])
    ensures index < 0 ==> r == Some(team)
    ensures index > |team| ==> r == None
  {
    if index < 0 then Some(team)
    else if index < |team| then Some(team[index := p])
    else if index == |team| then Some(team + [p])
    else None
  }

  /** An in-range seat assignment changes that seat only. */
  lemma SeatAssignOnlyThatSeat(team: seq<Player>, index: int, p: Player, j: int)
    requires 0 <= index < |team| && 0 <= j < |team| && j != index
    ensures SeatAssign(team, index, p).Some?
    ensures |SeatAssign(team, index, p).value| == |team|
    ensures SeatAssign(team, index, p).value[j] == team[j] && SeatAssign(team, index, p).value[index] == p
  {
  }

  /** The standby map after `startMatch(day, courtId, {id})`: the id is looked up under `courtId`. */
  function StandbyAfterStart(sb: map<(Day, string, nat), Standby>, day: Day, courtId: string, id: Option<nat>)
    : map<(Day, string, nat), Standby>
  {
    if id.Some? then sb - {(day, courtId, id.value)} else sb
  }

  /**
   * As written, a standby match created for one court and started on another
   * is not deleted: the lookup uses the court it starts on.
   */
  lemma StartOnOtherCourtKeepsStandby(sb: map<(Day, string, nat), Standby>, day: Day, origin: string, target: string, id: nat)
    requires (day, origin, id) in sb && origin != target
    ensures (day, origin, id) in StandbyAfterStart(sb, day, target, Some(id))
  {
  }

  /** Corrected: starting a standby match removes it from the court it was listed under. */
  function StandbyAfterStartFrom(sb: map<(Day, string, nat), Standby>, day: Day, origin: string, id: Option<nat>)
    : (r: map<(Day, string, nat), Standby>)
    ensures id.Some? ==> (day, origin, id.value) !in r
    ensures forall k :: k in r ==> k in sb && r[k] == sb[k]
    ensures forall k :: k in sb && (id.None? || k != (day, origin, id.value)) ==> k in r
  {
    if id.Some? then sb - {(day, origin, id.value)} else sb
  }

  /** `incPlayersPlayTime`: credit one game and `delta` to each player occurrence, in order. */
  function CreditPlays(st: map<Key, Stats>, day: Day, players: seq<Player>, delta: nat, now: Ts): map<Key, Stats>
    decreases |players|
  {
    if players == [] then st
    else
      var before := CreditPlays(st, day, players[..|players| - 1], delta, now);
      var k := (day, players[|players| - 1].id);
      before[k := CreditPlay(StatsOf(before, k), delta, now)]
  }

  function Ids(players: seq<Player>): (r: seq<string>)
    ensures |r| == |players|
  {
    seq(|players|, i requires 0 <= i < |players| => players[i].id)
  }

  /** How often `k` is credited by a run over `players` on `day`. */
  function Occurrences(day: Day, players: seq<Player>, k: Key): nat {
    if k.0 == day then Count(Ids(players), k.1) else 0
  }

  lemma {:induction false} OccurrencesStep(day: Day, players: seq<Player>, k: Key)
    requires players != []
    ensures Occurrences(day, players, k)
         == Occurrences(day, players[..|players| - 1], k)
            + (if (day, players[|players| - 1].id) == k then 1 else 0)
  {
    var init := players[..|players| - 1];
    assert Ids(players) == Ids(init) + [players[|players| - 1].id];
    CountConcat(Ids(init), [players[|players| - 1].id], k.1);
  }

  /**
   * Every occurrence of a player in the teams adds one game and `delta` play time;
   * waiting time, wins and losses, and every other key are left alone.
   */
  lemma {:induction false} CreditPlaysCounts(st: map<Key, Stats>, day: Day, players: seq<Player>, delta: nat, now: Ts, k: Key)
    ensures var r := StatsOf(CreditPlays(st, day, players, delta, now), k);
            var n := Occurrences(day, players, k);
            Num(r.games) == Num(StatsOf(st, k).games) + n
            && Num(r.playTimeMsTotal) == Num(StatsOf(st, k).playTimeMsTotal) + n * delta
            && r.waitTimeMsTotal == StatsOf(st, k).waitTimeMsTotal
            && r.wins == StatsOf(st, k).wins && r.losses == StatsOf(st, k).losses
            && (n == 0 ==> r == StatsOf(st, k))
    decreases |players|
  {
    if players != [] {
      var init := players[..|players| - 1];
      var last := players[|players| - 1];
      CreditPlaysCounts(st, day, init, delta, now, k);
      OccurrencesStep(day, players, k);
      var before := CreditPlays(st, day, init, delta, now);
      var m := Occurrences(day, init, k);
      var kl := (day, last.id);
      var after := before[kl := CreditPlay(StatsOf(before, kl), delta, now)];
      assert CreditPlays(st, day, players, delta, now) == after;
      if kl == k {
        assert StatsOf(after, k) == CreditPlay(StatsOf(before, k), delta, now);
        MulStep(m, delta);
      } else {
        assert StatsOf(after, k) == StatsOf(before, k);
      }
    }
  }

  lemma MulStep(m: nat, delta: nat)
    ensures (m + 1) * delta == m * delta + delta
  {
  }

  /** No counter of any player ever decreases, and keys are only added. */
  lemma {:induction false} CreditPlaysGrow(st: map<Key, Stats>, day: Day, players: seq<Player>, delta: nat, now: Ts)
    ensures var r := CreditPlays(st, day, players, delta, now);
            forall k :: k in st ==> k in r && Grows(st[k], r[k])
    decreases |players|
  {
    if players != [] {
      CreditPlaysGrow(st, day, players[..|players| - 1], delta, now);
    }
  }

  /** Crediting play time keeps every counter non-negative. */
  lemma {:induction false} CreditPlaysStatsOk(st: map<Key, Stats>, day: Day, players: seq<Player>, delta: nat, now: Ts)
    requires forall k :: k in st ==> StatsOk(st[k])
    ensures forall k :: k in CreditPlays(st, day, players, delta, now) ==> StatsOk(CreditPlays(st, day, players, delta, now)[k])
    decreases |players|
  {
    if players != [] {
      var init := players[..|players| - 1];
      CreditPlaysStatsOk(st, day, init, delta, now);
      var before := CreditPlays(st, day, init, delta, now);
      var k := (day, players[|players| - 1].id);
      if k in before {
        assert StatsOk(before[k]);
      } else {
        assert StatsOf(before, k) == Stats(None, None, None, None, None, None);
      }
    }
  }

  /** The history gains exactly one record, at the end. */
  function LogOf(h: map<Key, seq<Finished>>, k: Key): seq<Finished> {
    if k in h then h[k] else []
  }

  function CourtTotal(cs: map<Key, int>, k: Key): int {
    if k in cs then cs[k] else 0
  }

  class CourtStore {
    var queue: map<Key, QueueEntry>
    var excluded: map<Key, Ts>
    var standby: map<(Day, string, nat), Standby>
    /** Next auto id `addDoc` hands out: auto ids never repeat. */
    var nextAutoId: nat
    var live: map<Key, Live>
    var history: map<Key, seq<Finished>>
    var playerStats: map<Key, Stats>
    /** courts_stats/{courtId}.playTimeMsTotal */
    var courtStats: map<Key, int>

    /**
     * Counters are never negative, every standby id was handed out before, and
     * no queue or exclusion document has an empty id (`doc` refuses one).
     */
    ghost predicate Valid()
      reads this
    {
      (forall k :: k in playerStats ==> StatsOk(playerStats[k]))
      && (forall k :: k in courtStats ==> courtStats[k] >= 0)
      && (forall k :: k in standby ==> k.2 < nextAutoId)
      && (forall k :: k in queue ==> k.1 != "")
      && (forall k :: k in excluded ==> k.1 != "")
    }

    constructor ()
      ensures Valid()
      ensures queue == map[] && excluded == map[] && standby == map[] && live == map[]
      ensures history == map[] && playerStats == map[] && courtStats == map[]
    {
      queue, excluded, standby, nextAutoId := map[], map[], map[], 0;
      live, history, playerStats, courtStats := map[], map[], map[], map[];
    }

    /**
     * `joinQueue`: a player already queued keeps the old entry. A player
     * without an id throws (`thrown`) and nothing is written.
     */
    method JoinQueue(day: Day, p: PlayerIn, uid: string, now: Ts) returns (thrown: bool)
      requires Valid()
      modifies this`queue
      ensures Valid()
      ensures thrown == (p.id == "")
      ensures queue == JoinEffect(old(queue), day, p, uid, now)
      ensures thrown || (day, p.id) in old(queue) ==> queue == old(queue)
      ensures !thrown && (day, p.id) !in old(queue) ==>
        queue == old(queue)[(day, p.id) := QueueEntry(NormalizePlayer(p, uid), now, 0)]
    {
      thrown := p.id == "";
      if thrown {
        return;
      }
      var k := (day, p.id);
      if k !in queue {
        queue := queue[k := QueueEntry(NormalizePlayer(p, uid), now, 0)];
      }
    }

    /** `leaveQueue`: remove the entry if there is one; stats are not touched. An empty id throws. */
    method LeaveQueue(day: Day, playerId: string) returns (thrown: bool)
      requires Valid()
      modifies this`queue
      ensures Valid()
      ensures thrown == (playerId == "")
      ensures thrown ==> queue == old(queue)
      ensures queue == old(queue) - {(day, playerId)}
    {
      thrown := playerId == "";
      if thrown {
        return;
      }
      var k := (day, playerId);
      if k in queue {
        queue := queue - {k};
      }
    }

    /**
     * `popFromQueue`: `None` (null) when absent; otherwise the stored player,
     * its wait credited. An empty id throws (`thrown`) before any read; no
     * queue document has that id, so the effect is the absent case.
     */
    method PopFromQueue(day: Day, playerId: string, now: Ts, clock: int) returns (player: Option<Player>, thrown: bool)
      requires Valid()
      modifies this`queue, this`playerStats
      ensures Valid()
      ensures thrown == (playerId == "")
      ensures thrown ==> queue == old(queue) && playerStats == old(playerStats) && player.None?
      ensures (queue, playerStats) == PopEffect(old(queue), old(playerStats), (day, playerId), now, clock)
      ensures player == if (day, playerId) in old(queue) then Some(old(queue)[(day, playerId)].player) else None
    {
      thrown := playerId == "";
      if thrown {
        return None, true;
      }
      var k := (day, playerId);
      if k !in queue {
        return None, false;
      }
      var data := queue[k];
      queue := queue - {k};
      IncPlayerWait(day, playerId, data.joinedAt, now, clock);
      player := Some(data.player);
    }

    /** `incPlayerCounter` with a wait delta, as a merge write on stats/players/{playerId}. */
    method IncPlayerWait(day: Day, playerId: string, joinedAt: Ts, now: Ts, clock: int)
      requires Valid()
      modifies this`playerStats
      ensures Valid()
      ensures playerStats == old(playerStats)[(day, playerId) := CreditWait(StatsOf(old(playerStats), (day, playerId)), joinedAt, now, clock)]
    {
      var k := (day, playerId);
      var curr := StatsOf(playerStats, k);
      playerStats := playerStats[k := CreditWait(curr, joinedAt, now, clock)];
    }

    /** `toggleExclude`; an empty id throws (`thrown`) and nothing is written. */
    method ToggleExclude(day: Day, playerId: string, now: Ts) returns (thrown: bool)
      requires Valid()
      modifies this`excluded
      ensures Valid()
      ensures thrown == (playerId == "")
      ensures thrown ==> excluded == old(excluded)
      ensures excluded == ToggleEffect(old(excluded), (day, playerId), now)
    {
      thrown := playerId == "";
      if thrown {
        return;
      }
      var k := (day, playerId);
      if k in excluded {
        excluded := excluded - {k};
      } else {
        excluded := excluded[k := now];
      }
    }

    /** `createStandbyMatch`: `addDoc` with both teams normalised, under a fresh id. */
    method CreateStandbyMatch(day: Day, courtId: string, teamA: seq<PlayerIn>, teamB: seq<PlayerIn>, uid: nat -> string, now: Ts)
      requires Valid()
      modifies this`standby, this`nextAutoId
      ensures Valid()
      ensures (day, courtId, old(nextAutoId)) !in old(standby)
      ensures nextAutoId == old(nextAutoId) + 1
      ensures standby == old(standby)[(day, courtId, old(nextAutoId)) := NewStandby(teamA, teamB, uid, now)]
    {
      var id := nextAutoId;
      standby := standby[(day, courtId, id) := NewStandby(teamA, teamB, uid, now)];
      nextAutoId := nextAutoId + 1;
    }

    /** `deleteStandbyMatch`: deleting a missing document is a no-op. */
    method DeleteStandbyMatch(day: Day, courtId: string, matchId: nat)
      requires Valid()
      modifies this`standby
      ensures Valid()
      ensures standby == old(standby) - {(day, courtId, matchId)}
    {
      standby := standby - {(day, courtId, matchId)};
    }

    /**
     * `swapPlayerInStandby`: a missing match is a no-op; otherwise only the chosen
     * side is rewritten (any side other than "A" means team B). `ok` is false when
     * Firestore refuses the write (an index past the end of the team).
     */
    method SwapPlayerInStandby(day: Day, courtId: string, matchId: nat, side: string, index: int, newPlayer: PlayerIn, uid: string)
      returns (ok: bool)
      requires Valid()
      modifies this`standby
      ensures Valid()
      ensures (day, courtId, matchId) !in old(standby) ==> ok && standby == old(standby)
      ensures (day, courtId, matchId) in old(standby) ==>
        var m := old(standby)[(day, courtId, matchId)];
        var np := NormalizePlayer(newPlayer, uid);
        var r := SeatAssign(if side == "A" then m.teamA else m.teamB, index, np);
        ok == r.Some?
        && standby == (if r.None? then old(standby)
                       else old(standby)[(day, courtId, matchId) :=
                              if side == "A" then m.(teamA := r.value) else m.(teamB := r.value)])
    {
      var k := (day, courtId, matchId);
      if k !in standby {
        return true;
      }
      var data := standby[k];
      var team := if side == "A" then data.teamA else data.teamB;
      var r := SeatAssign(team, index, NormalizePlayer(newPlayer, uid));
      if r.None? {
        return false;
      }
      if side == "A" {
        standby := standby[k := data.(teamA := r.value)];
      } else {
        standby := standby[k := data.(teamB := r.value)];
      }
      ok := true;
    }

    /**
     * `startMatch`: overwrite the court's live slot, then (when the match has an
     * id) delete the standby with that id under the SAME court id.
     */
    method StartMatch(day: Day, courtId: string, matchId: Option<nat>, teamA: seq<PlayerIn>, teamB: seq<PlayerIn>, uid: nat -> string, now: Ts)
      requires Valid()
      modifies this`live, this`standby
      ensures Valid()
      ensures live == old(live)[(day, courtId) :=
                Live(courtId, "live", NormalizeTeam(teamA, uid, 0), NormalizeTeam(teamB, uid, |teamA|), now)]
      ensures standby == StandbyAfterStart(old(standby), day, courtId, matchId)
    {
      live := live[(day, courtId) := Live(courtId, "live", NormalizeTeam(teamA, uid, 0), NormalizeTeam(teamB, uid, |teamA|), now)];
      if matchId.Some? {
        DeleteStandbyMatch(day, courtId, matchId.value);
      }
    }

    /** Corrected start: the standby is deleted under the court it was listed for. */
    method StartStandbyMatch(day: Day, origin: string, courtId: string, matchId: Option<nat>, teamA: seq<PlayerIn>, teamB: seq<PlayerIn>, uid: nat -> string, now: Ts)
      requires Valid()
      modifies this`live, this`standby
      ensures Valid()
      ensures live == old(live)[(day, courtId) :=
                Live(courtId, "live", NormalizeTeam(teamA, uid, 0), NormalizeTeam(teamB, uid, |teamA|), now)]
      ensures standby == StandbyAfterStartFrom(old(standby), day, origin, matchId)
    {
      live := live[(day, courtId) := Live(courtId, "live", NormalizeTeam(teamA, uid, 0), NormalizeTeam(teamB, uid, |teamA|), now)];
      if matchId.Some? {
        DeleteStandbyMatch(day, origin, matchId.value);
      }
    }

    /** `incPlayersPlayTime`: one `incPlayerCounter` per player, in order. */
    method IncPlayersPlayTime(day: Day, players: seq<Player>, startedAt: Ts, finishedAt: Ts, now: Ts, clock: int)
      requires Valid()
      modifies this`playerStats
      ensures Valid()
      ensures playerStats == CreditPlays(old(playerStats), day, players, RangeMs(startedAt, finishedAt, clock), now)
    {
      var delta := RangeMs(startedAt, finishedAt, clock);
      var i := 0;
      while i < |players|
        invariant 0 <= i <= |players|
        invariant playerStats == CreditPlays(old(playerStats), day, players[..i], delta, now)
      {
        var k := (day, players[i].id);
        playerStats := playerStats[k := CreditPlay(StatsOf(playerStats, k), delta, now)];
        assert players[..i + 1][..i] == players[..i];
        i := i + 1;
      }
      assert players[..i] == players;
      CreditPlaysStatsOk(old(playerStats), day, players, delta, now);
    }

    /** `incCourtPlayTime`: merge-write the court's total play time. */
    method IncCourtPlayTime(day: Day, courtId: string, startedAt: Ts, finishedAt: Ts, clock: int)
      requires Valid()
      modifies this`courtStats
      ensures Valid()
      ensures courtStats == old(courtStats)[(day, courtId) := CourtTotal(old(courtStats), (day, courtId)) + RangeMs(startedAt, finishedAt, clock)]
    {
      var k := (day, courtId);
      var curr := CourtTotal(courtStats, k);
      courtStats := courtStats[k := curr + RangeMs(startedAt, finishedAt, clock)];
    }

    /**
     * `finishMatch`: without a live match it throws ("no match on this court yet")
     * and writes nothing (`ok` false). Otherwise the live record is copied to the
     * history with state "finished", the live slot is emptied, and players and
     * court are credited with the match duration (`finishedAt` is the
     * `serverTimestamp()` sentinel, which `toMillis` reads as the clock).
     */
    method FinishMatch(day: Day, courtId: string, now: Ts, clock: int) returns (ok: bool)
      requires Valid()
      modifies this`history, this`live, this`playerStats, this`courtStats
      ensures Valid()
      ensures ok == ((day, courtId) in old(live))
      ensures !ok ==> history == old(history) && live == old(live)
                      && playerStats == old(playerStats) && courtStats == old(courtStats)
      ensures ok ==>
        var m := old(live)[(day, courtId)];
        var d := RangeMs(m.startedAt, Sentinel, clock);
        history == old(history)[(day, courtId) := LogOf(old(history), (day, courtId)) + [Finished(m.(state := "finished"), now)]]
        && live == old(live) - {(day, courtId)}
        && playerStats == CreditPlays(old(playerStats), day, m.teamA + m.teamB, d, now)
        && courtStats == old(courtStats)[(day, courtId) := CourtTotal(old(courtStats), (day, courtId)) + d]
    {
      var k := (day, courtId);
      if k !in live {
        return false;
      }
      var m := live[k];
      var finishedAt := Sentinel;
      history := history[k := LogOf(history, k) + [Finished(m.(state := "finished"), now)]];
      live := live - {k};
      IncPlayersPlayTime(day, m.teamA + m.teamB, m.startedAt, finishedAt, now, clock);
      IncCourtPlayTime(day, courtId, m.startedAt, finishedAt, clock);
      ok := true;
    }
  }

  /**
   * `getCourtCount`: the stored text (or "10" when there is none or it is empty)
   * read with `parseInt`; `NaN` falls back to 10. Zero or negative values pass through.
   */
  function GetCourtCount(stored: Option<string>): int {
    var text := if stored.None? || stored.value == "" then "10" else stored.value;
    match Text.ParseInt(text)
    case None => 10
    case Some(v) => v
  }

  /** `setCourtCount(n)` stores `String(n)`, which `getCourtCount` reads back. */
  lemma CourtCountRoundTrip(n: nat)
    ensures GetCourtCount(Some(Text.NatToString(n))) == n
  {
    Text.ParseIntNatToString(n);
  }

  /** Nothing stored gives 10 courts. */
  lemma CourtCountDefault()
    ensures GetCourtCount(None) == 10 && GetCourtCount(Some("")) == 10
  {
    assert Text.NatToString(10) == "10";
    Text.ParseIntNatToString(10);
  }

  /** Text that is not a number gives the default of 10. */
  lemma CourtCountGarbage(s: string)
    requires s != "" && Text.ParseInt(s).None?
    ensures GetCourtCount(Some(s)) == 10
  {
  }
}
