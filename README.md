# Badminton club manager: a verified model

This project models the logic of a badminton club web app and proves
properties of that model in Dafny.

The app keeps a members list and a per-day roster of who signed up and who
arrived. It runs a court session: a waiting queue, players marked as not
playing, standby matches per court, one live match per court, a match history,
and time and game counters. It also manages groups, invites and the current
group.

The model covers these parts of the app:

- **CourtsService** (`courtsService.js`, the court-session engine): a class
  `CourtStore` holds one map per Firestore collection, keyed by the path layout
  of the store (day, court, document id). Each service function is a method:
  join, leave and pop queue entries, toggle exclusion, create, delete and swap
  in standby matches, start and finish matches, and credit counters. The
  timestamp helpers `toMillis` and `rangeMs`, `normalizePlayer` and the court
  count setting are pure functions.
- **CourtsUi** (`courts/ui.js`): `randomIntoStandby`, which composes matches
  from the queue, as the loop it is. It is proved against the functions
  `Eligible`, `MatchCount`, `Plans`, `AddPlans` and `PopAll`. The module also
  covers the swap button, the numbers read from the inputs, and the candidate
  filter.
- **DaysExtend / DaysExtendCompat** (`firebase.days.extend*.js`): day documents
  and the payloads of `setDayPlayers`, `setDayRoster` and `setDayArrived`.
  Firestore's `merge: true` write is modelled field by field: the nested
  `arrived` map is merged key by key. The module also covers what the script
  installs on `window.DB`.
- **MemberCommon / MemberPageV6 / MemberPageLegacy** (`member2.js`, and the
  older `member.js`, `membe1r.js`, `member_ok1.js`): level labels, the badge and
  the level filter, the list filters, and roster rebuilds through a `Set` of
  picked ids. `member2.js` keeps each arrived flag through add, cancel and
  reorder. The older pages reset every flag. Each page also keeps the `Set`
  its add buttons were last wired with, and the one built at page load that
  the filter handlers wire again. `member.js` stops setting up at its call of
  the undefined `renderAlphaPagination`, so its filter handlers and listeners
  never run; those of the model are the ones of `membe1r.js` and
  `member_ok1.js`. The month statistics of the profile window are also
  covered.
- **Pager** (`ui-pager.v1.js`): `paginate`, the button bar and the click guard.
- **MiniCal / JsDate** (`minical.js`): the calendar's view month and selection
  as a class, the 42-cell grid, the ISO date string and the badges. `JsDate` is
  a proleptic Gregorian calendar with day numbers, just enough to state what
  the grid walks through.
- **AppMain** (`main.js`): `AppState` and the local-storage `Storage` object.
- **CourtModule / GameModule** (`js/modules/court.js`, `js/modules/game.js`):
  the local roster of signed players, the random court card, and the game log
  per date.
- **GroupCommon / GroupState / GroupState113** (`group_state.js` and
  `group_state.1.1.3.js`): the current group kept in `localStorage`, group, member
  and mapping documents, joining by invite or code, leaving, deleting, and the
  listing and sorting of "my groups".
- **Utils** (`utils.js`): `escapeHtml`, `uid`, `load`/`save` and
  `todayKeyFrom`.
- **Common / Seqs / Text**: shared pieces.
  - `Option`.
  - JavaScript's `filter`, a stable sort, `indexOf` and `splice`.
  - `String(n)`, `parseInt`, `Number`, `trim`, and ASCII case mapping.

Code that changes state in place is a class with `modifies` clauses. Its new
state is tied to specification functions, and lemmas about those functions
carry the properties. Code that only computes is functions and lemmas.

These are passed in as parameters:

- the clock (`clock`, which is `Date.now()`);
- what `serverTimestamp()` resolves to (`now`);
- random choices: the permutation behind the shuffle, the picks of
  `makeInviteCode`, and the fresh ids;
- the order of query snapshots, as a sequence of ids with a ghost predicate
  saying that it lists exactly the matching documents;
- `localeCompare`, as an abstract total preorder `le` on names.

## Model

| member | source | states |
|---|---|---|
| `CourtsService.ToMillis` | assets/js/courts/services/courtsService.js:155-160 | A resolved Timestamp gives its own milliseconds. A plain object with non-zero seconds gives seconds*1000 + floor(nanos/1e6). Nothing, the pending sentinel, zero seconds and a bare number all fall back to the clock. |
| `CourtsService.RangeMs` | assets/js/courts/services/courtsService.js:151-154 | The duration is never negative and never less than finish - start. It is either 0 or exactly finish - start, on the milliseconds of `ToMillis`. |
| `CourtsService.PlainAgreesWithStamp` | assets/js/courts/services/courtsService.js:157-158 | A plain `{seconds, nanoseconds}` copy of a Timestamp reads as the same milliseconds as the Timestamp. |
| `CourtsService.RangeOfStamp` | assets/js/courts/services/courtsService.js:130-134 | A match finished now (the sentinel falls back to the clock) after a resolved start lasted exactly clock - start. |
| `CourtsService.NormalizePlayer` | assets/js/courts/services/courtsService.js:8-10 | A given id, name or level is kept. A missing id becomes the fresh uid and a missing name "Unknown", so the name is never empty. A nullish level becomes 0. |
| `CourtsService.NormalizeStored` | assets/js/courts/services/courtsService.js:8-10 | Normalising a player that already has an id and a name gives it back unchanged. |
| `CourtsService.NormalizeIdempotent` | assets/js/courts/services/courtsService.js:8-10 | Normalising twice is normalising once. |
| `CourtsService.NormalizeTeam` | assets/js/courts/services/courtsService.js:93 | `team.map(normalizePlayer)` keeps the length, and seat i is the normalisation of seat i. |
| `CourtsService.NormalizeStoredTeam` | assets/js/courts/services/courtsService.js:117-118 | Re-normalising a team of stored players gives the same team back. |
| `CourtsService.NewStandby` | assets/js/courts/services/courtsService.js:92-95 | The standby payload keeps both team sizes and is stamped with `createdAt`. |
| `CourtsService.CreditWait` | assets/js/courts/services/courtsService.js:162-178 | A truthy `joinedAt` adds max(0, now - joinedAt) to `waitTimeMsTotal`. Otherwise the wait is unchanged. Games and play time are untouched, `updatedAt` is stamped, no counter decreases, and non-negative counters stay non-negative. |
| `CourtsService.CreditPlay` | assets/js/courts/services/courtsService.js:171-177 | One more game and `delta` more play time, counting from the zero record. Wait, wins and losses are never written, and no counter decreases. |
| `CourtsService.JoinIdempotent` | assets/js/courts/services/courtsService.js:47-54 | Joining twice gives the same queue as joining once, whatever the second call's player and time. |
| `CourtsService.PopEffect` | assets/js/courts/services/courtsService.js:62-70 | An absent id changes neither the queue nor the stats. A present id is deleted from the queue and credited with its wait. |
| `CourtsService.PopOnce` | assets/js/courts/services/courtsService.js:62-70 | Popping the same id a second time finds nothing and changes nothing. |
| `CourtsService.ToggleTwice` | assets/js/courts/services/courtsService.js:79-83 | Two toggles of an id leave the membership of every id as before. |
| `CourtsService.SeatAssign` | assets/js/courts/services/courtsService.js:104-106 | `team[index] = p` replaces a seat inside the team and appends one past the end. A negative index leaves the stored team unchanged. An index further out would leave holes, which Firestore refuses. |
| `CourtsService.SeatAssignOnlyThatSeat` | assets/js/courts/services/courtsService.js:99-107 | An in-range swap keeps the team's length, puts the new player in that seat, and leaves every other seat as it was. |
| `CourtsService.StartOnOtherCourtKeepsStandby` | assets/js/courts/services/courtsService.js:121-123 | As written, a standby match listed under one court and started on another is not deleted. |
| `CourtsService.StandbyAfterStartFrom` | assets/js/courts/services/courtsService.js:121-123 | Corrected start: the started standby is gone from the court it was listed under. Every other standby is kept unchanged, and nothing is added. |
| `CourtsService.CreditPlaysCounts` | assets/js/courts/services/courtsService.js:138-142 | A player occurring c times in teamA ++ teamB gets c more games and c*delta more play time. Wait, wins and losses are unchanged, and players outside the match keep their stats. |
| `CourtsService.CreditPlaysGrow` | assets/js/courts/services/courtsService.js:138-142 | Crediting a match never lowers a counter of any player and only adds keys. |
| `CourtsService.CreditPlaysStatsOk` | assets/js/courts/services/courtsService.js:162-178 | Every counter that was non-negative stays non-negative. |
| `CourtsService.CourtStore.constructor` | assets/js/courts/services/firestore.js:45-61 | An empty store: every collection empty. |
| `CourtsService.CourtStore.JoinQueue` | assets/js/courts/services/courtsService.js:47-54 | An empty player id throws before any write. A queued player keeps its old entry. Otherwise exactly one entry is created: the normalised player, `joinedAt` now, `waitTotalMs` 0. |
| `CourtsService.CourtStore.LeaveQueue` | assets/js/courts/services/courtsService.js:56-60 | An empty player id throws and nothing changes. Otherwise the entry is removed if present and nothing else changes; stats are not touched. |
| `CourtsService.CourtStore.PopFromQueue` | assets/js/courts/services/courtsService.js:62-70 | An empty player id throws and nothing changes. Returns null and changes nothing for an absent id. For a present id: returns the stored player, deletes the entry and credits the wait (`PopEffect`). |
| `CourtsService.CourtStore.IncPlayerWait` | assets/js/courts/services/courtsService.js:162-178 | One merge write of the player's stats document with the wait credit. |
| `CourtsService.CourtStore.ToggleExclude` | assets/js/courts/services/courtsService.js:79-83 | An empty player id throws and nothing changes. Otherwise the id's exclusion document is deleted when present and created when absent. The queue is unaffected. |
| `CourtsService.CourtStore.CreateStandbyMatch` | assets/js/courts/services/courtsService.js:92-95 | The payload is added under a fresh auto id, and earlier standby matches are kept. |
| `CourtsService.CourtStore.DeleteStandbyMatch` | assets/js/courts/services/courtsService.js:96-98 | That document is removed; deleting a missing one is a no-op. |
| `CourtsService.CourtStore.SwapPlayerInStandby` | assets/js/courts/services/courtsService.js:99-107 | A missing match is a no-op. Otherwise only the chosen side is rewritten, through `SeatAssign` with the normalised player, and the other team is unchanged. |
| `CourtsService.CourtStore.StartMatch` | assets/js/courts/services/courtsService.js:113-124 | The live slot is overwritten with `{courtId, state "live", normalised teams, startedAt}`. When the match has an id, the standby with that id is deleted under the court it starts on. |
| `CourtsService.CourtStore.StartStandbyMatch` | assets/js/courts/services/courtsService.js:113-124 | Corrected start: the same live slot, with the standby deleted under the court it was listed for. |
| `CourtsService.CourtStore.IncPlayersPlayTime` | assets/js/courts/services/courtsService.js:138-142 | The loop of one `incPlayerCounter` per player, in order, equals `CreditPlays` with the match duration. |
| `CourtsService.CourtStore.IncCourtPlayTime` | assets/js/courts/services/courtsService.js:143-149 | The court's total play time grows by the duration, starting from 0. |
| `CourtsService.CourtStore.FinishMatch` | assets/js/courts/services/courtsService.js:125-135 | Without a live match: an error and no write. Otherwise the history gains one copy of the live record, marked "finished". The live slot is emptied. Every player occurrence and the court are credited with the duration. |
| `CourtsService.CourtCountRoundTrip` | assets/js/courts/services/courtsService.js:13-19 | `setCourtCount(n)` then `getCourtCount()` gives n. |
| `CourtsService.CourtCountDefault` | assets/js/courts/services/courtsService.js:13-16 | Nothing stored (or an empty string) gives 10 courts. |
| `CourtsService.CourtCountGarbage` | assets/js/courts/services/courtsService.js:14-15 | Stored text that `parseInt` cannot read gives 10. |
| `CourtsUi.ByJoinedIsTotalPreorder` | assets/js/courts/ui.js:241 | The join-time comparator is a consistent total preorder, so the sort is well defined. |
| `CourtsUi.EligiblePool` | assets/js/courts/ui.js:239-241 | The pool holds exactly the queue entries that are not excluded (as a multiset). It is ascending by join second. Entries with equal seconds keep their queue order, because the sort is stable. |
| `CourtsUi.CourtNumberInRange` | assets/js/courts/ui.js:255 | With a court count of at least 1, match m goes to a court in 1..courtCount. The assignment cycles with period courtCount, and the first courtCount matches go to courts 1, 2, and so on. |
| `CourtsUi.PlanAt` | assets/js/courts/ui.js:253-254 | Match m pairs the 4 consecutive entries p0..p3 at 4m as teamA = [p0, p3] and teamB = [p1, p2]. |
| `CourtsUi.MatchCount` | assets/js/courts/ui.js:243-252 | The number of matches is min(matchesCount, floor(n/4)). It uses at most n entries and is 0 when fewer than 4 are eligible. |
| `CourtsUi.Plans` | assets/js/courts/ui.js:246-256 | The k planned matches are, in order, the plans of the groups of four. |
| `CourtsUi.PopAllQueue` | assets/js/courts/ui.js:257 | After popping a list of ids, exactly those ids of that day are gone from the queue, and every other entry is as it was. |
| `CourtsUi.PopAllOthersStats` | assets/js/courts/ui.js:257 | Players that were not popped keep their stats. |
| `CourtsUi.PopAllCredits` | assets/js/courts/ui.js:257 | With distinct ids, each popped player that was queued is credited once, with the wait since its own `joinedAt`. One that was not queued is untouched. |
| `CourtsUi.AddPlansStored` | assets/js/courts/ui.js:256 | Match m is stored under its court with auto id first + m. Earlier documents are kept. With stored players the teams are exactly the plan's. |
| `CourtsUi.AddPlansKeeps` | assets/js/courts/ui.js:256 | Creating the planned matches adds only new ids and keeps every standby document that was there. |
| `CourtsUi.PlanTeamsStored` | assets/js/courts/ui.js:253-256 | A match built from stored players stores those players exactly. |
| `CourtsUi.RandomIntoStandby` | assets/js/courts/ui.js:238-259 | Creates exactly `MatchCount` matches from the eligible pool. Each takes the next four entries, stored under court (m mod courtCount) + 1 with the `PlanAt` teams. Exactly the used entries are popped and credited, in order. |
| `CourtsUi.TakeNext` | assets/js/courts/ui.js:249-251 | The inner while loop picks the next min(n, remaining) entries, consecutively from idx. |
| `CourtsUi.PlaceMatches` | assets/js/courts/ui.js:246-258 | The match loop ends with the plans, the standby documents and the popped queue described in `RandomIntoStandby`. |
| `CourtsUi.PlaceOne` | assets/js/courts/ui.js:253-257 | One iteration with four picked entries extends the plans, the standby documents and the popped prefix by one match. |
| `CourtsUi.CreatePlanned` | assets/js/courts/ui.js:253-256 | `createStandbyMatch` for match m stores the `PlanAt` teams under the next auto id. |
| `CourtsUi.PopPick` | assets/js/courts/ui.js:257 | The four pops of one match extend the popped prefix by those four entries. |
| `CourtsUi.MatchCountShort` | assets/js/courts/ui.js:249-252 | Running short of four entries after m matches makes m the count. |
| `CourtsUi.MatchCountReached` | assets/js/courts/ui.js:247-252 | Stopping at `matchesCount`, or on running short, gives the count. |
| `CourtsUi.TooFewEligible` | assets/js/courts/ui.js:243-244 | With fewer than 4 eligible entries, no match is created and nothing is popped. |
| `CourtsUi.LeftoversStayQueued` | assets/js/courts/ui.js:246-258 | Eligible entries past the last full match stay queued. |
| `CourtsUi.SwapSeats` | assets/js/courts/ui.js:186-187 | The copies exchange seat 1 of each team. Seat 0 and every later seat are unchanged. |
| `CourtsUi.SwapSeatsTwice` | assets/js/courts/ui.js:185-189 | Swapping twice gives the original teams back. |
| `CourtsUi.SwapOnCard` | assets/js/courts/ui.js:196-199 | The card's match is deleted, then a match with the swapped teams is created under a new id on the same court. Other standby documents are kept. |
| `CourtsUi.ParseOr` | assets/js/courts/ui.js:54-56 | `parseInt(text) or fallback`: a non-zero number is itself, while `NaN` and 0 give the fallback. A non-zero fallback makes the result non-zero. |
| `CourtsUi.SelectValuesReadBack` | assets/js/courts/ui.js:182 | Every option "1".."n" of the court count, matches and start court inputs reads back as that number, and the start court as "court" + n. |
| `CourtsUi.InputFallbacks` | assets/js/courts/ui.js:191 | Garbage and "0" give 10 courts, 1 match and start court "court1". |
| `CourtsUi.VisibleCandidates` | assets/js/courts/ui.js:88-89 | The listed candidates are exactly those whose id is not excluded, in their order. |
| `DaysExtend.Ym` | assets/js/firebase.days.extend.js:34 | `dateStr.slice(0, 7)`: the first min(7, length) characters. |
| `DaysExtend.ArrivedOfSpec` | assets/js/firebase.days.extend.js:44 | The arrived map built from a roster has exactly the roster's ids as keys. Each id maps to the flag of its last entry. |
| `DaysExtend.ArrivedOfUniform` | assets/js/firebase.days.extend.js:33 | When every entry of an id carries the same flag, the map holds that flag. |
| `DaysExtend.PlayersWithFlags` | assets/js/firebase.days.extend.js:29 | `players` has the ids in order, each flag taken from the previous arrived map (false when absent). |
| `DaysExtend.PlayersPayloadSpec` | assets/js/firebase.days.extend.js:24-38 | The `setDayPlayers` payload fields: `playerIds` = ids (or []), and `players` as above. `arrived` has exactly one key per id, agreeing with `players`. `ym` is the first 7 characters, and `date` is dateStr. |
| `DaysExtend.RosterPayloadSpec` | assets/js/firebase.days.extend.js:41-53 | `playerIds` are the roster's ids in order, and `players` is the roster. `arrived` is keyed by exactly those ids, as `!!x.arrived`. |
| `DaysExtend.ArrivedPayload` | assets/js/firebase.days.extend.js:56-61 | The `setDayArrived` payload holds only `arrived` (or {}) and `updatedAt`. |
| `DaysExtend.Merge` | assets/js/firebase.days.extend.js:30-37 | A merge write replaces the fields the payload has and keeps the others. |
| `DaysExtend.DaysDb.constructor` | assets/js/firebase.days.extend.js:7 | An empty `days` collection. |
| `DaysExtend.DaysDb.GetDay` | assets/js/firebase.days.extend.js:11-15 | The stored fields under the id, or `{id, playerIds: []}` for a missing day. |
| `DaysExtend.DaysDb.SetDayPlayers` | assets/js/firebase.days.extend.js:24-38 | The day becomes the merge of what was stored with the payload built from the stored flags. |
| `DaysExtend.DaysDb.SetDayRoster` | assets/js/firebase.days.extend.js:41-53 | The day becomes the merge of what was stored with the roster payload. |
| `DaysExtend.DaysDb.SetDayArrived` | assets/js/firebase.days.extend.js:56-61 | Only `arrived` and `updatedAt` change; the ids, players, `ym` and `date` stay as they were. |
| `DaysExtend.StaleFlagSurvives` | assets/js/firebase.days.extend.js:30-37 | A flag of an id dropped by a later `setDayPlayers` (with some id left) survives in the merged `arrived` map. |
| `DaysExtend.ReaddedKeepsOldFlag` | assets/js/firebase.days.extend.js:24-38 | A player dropped and added again comes back with the flag from before the drop. |
| `DaysExtend.Install` | assets/js/firebase.days.extend.js:5-24 | Without a database nothing is installed. Otherwise each reader is installed only if missing, and the writers are always replaced. |
| `DaysExtend.InstallIdempotent` | assets/js/firebase.days.extend.js:8-24 | Loading the script twice is the same as loading it once. |
| `DaysExtendCompat.CompatPrevArrived` | assets/js/firebase.days.extend.compat.js:39 | The previous flags are the stored `arrived` map, or {} when the day or the map is missing. |
| `DaysExtendCompat.CompatPlayersPayloadSame` | assets/js/firebase.days.extend.compat.js:36-50 | The compat payload equals the modular one. It keeps id order and the earlier flags, and its `ym` is `String(date).slice(0, 7)`. |
| `MemberCommon.LevelOfLabel` | assets/js/member2.js:65-72 | A label found in the table stands for a level in 1..5, whose label it is. A name `Object.prototype` provides gives that inherited member, not null. Any other text gives null. |
| `MemberCommon.LabelsRoundTrip` | assets/js/member2.js:72 | The table maps each level's label back to the level. |
| `MemberCommon.LevelNumberOr1` | assets/js/member2.js:74 | `Number(level) or 1`: never 0. A non-zero number is itself, while absent, 0 and `NaN` give 1. |
| `MemberCommon.BadgeLevel` | assets/js/member2.js:73-78 | The badge shows a level in 1..5. |
| `MemberCommon.BadgeClamps` | assets/js/member.js:70-75 | Levels 1..5 show as themselves, above 5 as 5, below 1 as 1, and absent as 1. |
| `MemberCommon.BadgeOfNonNumber` | assets/js/membe1r.js:22-27 | Text that is not a number, and "0", show as level 1. |
| `MemberCommon.ParseLevelFilter` | assets/js/member2.js:79-86 | null and "" give null. An all-digit string gives its number when in 1..5 and null otherwise. Other text gives the trimmed label's level, the inherited member for an `Object.prototype` name, or null. Any number lies in 1..5. |
| `MemberCommon.ParseLevelFilterOptions` | assets/js/member.js:76-83 | The options "1".."5" and the five labels select their own level. |
| `MemberCommon.LabelIsPlainText` | assets/js/member2.js:84-85 | A level label is no number, and `trim` leaves it as it is. |
| `MemberCommon.ParseLevelFilterOutOfRange` | assets/js/member2.js:81-82 | The digits of 0 or of a number above 5 select nothing. |
| `MemberCommon.LevelKeyOfText` | assets/js/membe1r.js:147-150 | The older pages filter by `Number(level)` only when it is neither 0 nor `NaN`, and "" switches the filter off. |
| `MemberCommon.LevelKeyOfTextOptions` | assets/js/member_ok1.js:68-71 | "0" turns the level filter off, and "1".."5" select that level. |
| `MemberCommon.FilterMeanings` | assets/js/member2.js:158-169 | Spells out each filter: the upper-cased name starts with the letter; the trimmed, lower-cased query is a substring of the lower-cased name; the numeric level is equal. An inherited member as the level matches no member. |
| `MemberCommon.InheritedFilterHidesAll` | assets/js/member2.js:166-168 | The select value "constructor" parses to an inherited member, and that level filter hides every member. |
| `MemberCommon.ConstructorIsInherited` | assets/js/member2.js:84-85 | "constructor" is no number and has nothing to trim, so it is looked up in the table and finds the inherited member. |
| `MemberCommon.FilterIfSpec` | assets/js/member2.js:160-166 | An active filter keeps exactly the passing members, in order. |
| `MemberCommon.ChainSpec` | assets/js/member2.js:158-169 | The three chained filters give a subsequence of exactly the members passing all three. |
| `MemberCommon.ApplyFiltersSpec` | assets/js/member2.js:158-169 | `applyFilters` returns a subsequence of its input, holding exactly the members that pass every active filter. |
| `MemberCommon.AlphaButtons` | assets/js/membe1r.js:154-163 | Exactly 26 letter buttons. |
| `MemberCommon.AlphaButtonsAreAtoZ` | assets/js/membe1r.js:156 | The buttons are A through Z in order, each one upper-case letter. |
| `MemberCommon.FindArrived` | assets/js/member2.js:386 | An id not on the roster is found as not arrived. |
| `MemberCommon.Rebuild` | assets/js/member2.js:295-298 | Rebuilding from a list of ids gives exactly those ids in that order. |
| `MemberCommon.ResetFlags` | assets/js/member.js:351 | The older rebuild gives exactly the ids, none arrived. |
| `MemberCommon.AddedDistinct` | assets/js/member2.js:449-450 | After adding a new id through the `Set`, the ids are distinct and end with it (the others in order). |
| `MemberCommon.CancelledDistinct` | assets/js/member2.js:292-295 | After a cancel through the `Set`, the ids are distinct and lack the id. With distinct ids before, they are the old ids without it, in order. |
| `MemberCommon.ReorderedIds` | assets/js/member2.js:395-399 | The splice applies exactly when both ids are present and differ. |
| `MemberCommon.FindArrivedOfEntry` | assets/js/member2.js:400 | With distinct ids, the flag found for an entry's id is that entry's own. |
| `MemberCommon.RebuildSelf` | assets/js/member2.js:386 | Rebuilding a roster with distinct ids from its own ids gives it back, flags and all. |
| `MemberCommon.AddKeepsFlags` | assets/js/member2.js:382-386 | Adding a new id appends it, not arrived. The others keep their order and flags, and the ids stay distinct. |
| `MemberCommon.CancelKeepsFlags` | assets/js/member2.js:292-298 | A cancel removes exactly that id's entries. The rest keep order and flags. |
| `MemberCommon.MoveToIds` | assets/js/member2.js:399 | The ids of a moved roster are the moved ids. |
| `MemberCommon.ReorderKeepsFlags` | assets/js/member2.js:394-400 | A reorder moves the source entry, with its flag, to the target's index. The result is a permutation of the same entries. |
| `MemberCommon.ResetMatchesIds` | assets/js/member.js:371 | The older pages' rebuild gives the same ids as the flag-keeping one, with every flag false. |
| `MemberCommon.LoadDayList` | assets/js/member.js:128-132 | `loadDayList` gives `playerIds` (or []) with every flag false. |
| `MemberCommon.Pruned` | assets/js/member.js:229-232 | The delete button's filter keeps exactly the entries with another id. The length is unchanged exactly when the id was absent. |
| `MemberPageV6.RosterOfDay` | assets/js/member2.js:128-135 | `loadDay` prefers the `players` array. Otherwise it zips `playerIds` (or []) with the `arrived` map, absent flags false. |
| `MemberPageV6.MissingDayIsEmpty` | assets/js/member2.js:128-135 | A day never written loads as []. |
| `MemberPageV6.RosterReadsBack` | assets/js/member2.js:136-139 | What `setDayRoster` writes, `loadDay` reads back unchanged, whatever was stored before. |
| `MemberPageV6.IdsAndFlagsLoad` | assets/js/member2.js:132-134 | A day in the older layout (ids and an arrived map) loads as those ids in order, each with its flag. |
| `MemberPageV6.StatsBounds` | assets/js/member2.js:519-532 | arrived is at most signed, which is at most the number of days. |
| `MemberPageV6.SignedEveryDay` | assets/js/member2.js:526-528 | Signing up on every day of the month counts every day. |
| `MemberPageV6.MonthStats` | assets/js/member2.js:519-532 | The forEach over an array of day documents counts the days whose roster has the member (`signed`), and among those the arrived ones. |
| `MemberPageV6.MonthDaysOf` | assets/js/member2.js:518 | The reader in the `getMonthDays` slot gives a plain object exactly when it is the earlier one of `firebase.js` (assets/js/firebase.js:97-105); the extension gives its array, and a missing reader []. |
| `MemberPageV6.ProfileStats` | assets/js/member2.js:518-537 | `days.forEach` throws on a plain object, so no count is shown; on an array the counts are `MonthStats`', arrived at most signed at most the days. |
| `MemberPageV6.ProfileAfterFirebase` | assets/js/member2.js:521 | As written: with `firebase.js`'s reader installed before the day extension, which keeps it, the profile window throws for every member. |
| `MemberPageV6.MapSigned` | assets/js/firebase.js:100-103 | The number of dates of the plain-object month whose ids hold the member. |
| `MemberPageV6.ProfileStatsEither` | assets/js/member2.js:519-532 | Corrected: an array gives `MonthStats`' counts; a plain-object month counts the dates whose ids hold the member as signed, and none as arrived. |
| `MemberPageV6.FirstIndexArrived` | assets/js/member2.js:526 | `find` gives the entry at the first index of the id. |
| `MemberPageV6.MemberPage.constructor` | assets/js/member2.js:653-659 | A page for a date with an empty roster and no Set wired yet. |
| `MemberPageV6.MemberPage.Load` | assets/js/member2.js:659-662 | The roster is what `loadDay` makes of the stored day. The Set of its ids is wired, and it is the Set the filter handlers keep. |
| `MemberPageV6.MemberPage.Refilter` | assets/js/member2.js:670-681 | The add buttons get the Set of page load again, whatever the roster is now. |
| `MemberPageV6.MemberPage.OnDaySnapshot` | assets/js/member2.js:612-622 | The roster is the snapshot normalised as `loadDay` does, and a fresh Set of its ids is wired. |
| `MemberPageV6.MemberPage.OnMembersSnapshot` | assets/js/member2.js:603-607 | The roster stays, and a fresh Set of its ids is wired, as at the end of a member save. |
| `MemberPageV6.MemberPage.SaveDayRoster` | assets/js/member2.js:136-139 | The roster goes out whole, and reads back unchanged. |
| `MemberPageV6.MemberPage.AddToToday` | assets/js/member2.js:446-453 | An id in the wired Set changes nothing. Otherwise the id joins that Set, and also the Set of page load when they are one object. The roster is rebuilt from the Set, each flag taken from the current roster, and the saved day reads back as the roster. When the Set matches the roster this is `AddFromRoster`. |
| `MemberPageV6.MemberPage.AddFromRoster` | assets/js/member2.js:382-389 | A picked id changes nothing. A new id goes last, not arrived, while the others keep order and flags. The saved day reads back as the roster, and the roster's Set is wired. |
| `MemberPageV6.MemberPage.Cancel` | assets/js/member2.js:286-302 | An absent id changes nothing. Otherwise exactly that id leaves, while the rest keep order and flags. The saved day reads back as the roster, and the roster's Set is wired. |
| `MemberPageV6.MemberPage.ClearToday` | assets/js/member2.js:353-359 | The roster is emptied and saved, reads back as [], and an empty Set is wired. |
| `MemberPageV6.MemberPage.Reorder` | assets/js/member2.js:393-401 | Absent or equal ids change nothing. Otherwise the source moves to the target's index with its flag, and the day is saved. |
| `MemberPageV6.MemberPage.ToggleArrived` | assets/js/member2.js:319-323 | Only the first entry with the id flips, and an unknown id changes nothing. |
| `MemberPageV6.MemberPage.DeleteMember` | assets/js/member2.js:236-238 | The id leaves the roster, which is saved. |
| `MemberPageV6.CancelRemoves` | assets/js/member2.js:292-298 | After a cancel the id is gone and the ids stay distinct. |
| `MemberPageV6.StaleAddScenario` | assets/js/member2.js:446-450 | Load a day where `a` has arrived, cancel `a`, let the day listener run, type a search, add `b`: the roster written is [a, b], with `a` not arrived. |
| `MemberPageV6.LoadedWithA` | assets/js/member2.js:659-662 | A fresh page loaded on a day whose one member `a` has arrived holds [a] and wires {a}. |
| `MemberPageV6.SingleIdLoads` | assets/js/member2.js:660 | A one-entry roster of `a` makes the Set {a}. |
| `MemberPageV6.CancelLast` | assets/js/member2.js:292-298 | Cancelling the only entry leaves []. |
| `MemberPageV6.RebuildFromNothing` | assets/js/member2.js:450 | Rebuilt against an empty roster, every flag is off. |
| `MemberPageLegacy.Stars` | assets/js/member_ok1.js:16 | `"★".repeat(n)` is n stars. |
| `MemberPageLegacy.LevelIcon` | assets/js/member_ok1.js:14-17 | `Number(level) or 1` stars, not clamped; a negative count throws. |
| `MemberPageLegacy.IconNotClamped` | assets/js/member_ok1.js:14-17 | Level n gives n stars, even above 5, where the badge stops at 5. |
| `MemberPageLegacy.TextLevelChoices` | assets/js/membe1r.js:140-152 | In the older filters "" and "0" switch the level filter off, and "1".."5" filter on that level. |
| `MemberPageLegacy.LegacyPage.constructor` | assets/js/member.js:573-578 | A page for a date with an empty roster and no Set wired yet. |
| `MemberPageLegacy.LegacyPage.Load` | assets/js/member.js:578-582 | The roster is `loadDayList` of the stored day. The Set of its ids is wired, and it is the Set the filter handlers keep. |
| `MemberPageLegacy.LegacyPage.Refilter` | assets/js/membe1r.js:456-473 | The alpha, search and level handlers (likewise member_ok1.js:290-307) give the add buttons the Set of page load again, whatever the roster is now. |
| `MemberPageLegacy.LegacyPage.OnDaySnapshot` | assets/js/membe1r.js:427-438 | The roster is the snapshot's `playerIds` (or []) with every flag off, and `new Set(ids)` is wired (likewise member_ok1.js:268-275). |
| `MemberPageLegacy.LegacyPage.OnMembersSnapshot` | assets/js/membe1r.js:416-425 | The roster stays, and a fresh Set of its ids is wired (likewise member_ok1.js:260-266), as at the end of a member save. |
| `MemberPageLegacy.LegacyPage.SaveDayList` | assets/js/member.js:133-136 | Only the ids go out, through `setDayPlayers`. |
| `MemberPageLegacy.LegacyPage.AddToToday` | assets/js/member.js:442-450 | An id in the wired Set changes nothing. Otherwise the id joins that Set, and also the Set of page load when they are one object. The roster becomes the Set with every flag off, and that is what is written. When the Set matches the roster this is `AddFromRoster`. |
| `MemberPageLegacy.LegacyPage.AddFromRoster` | assets/js/member.js:347-355 | A picked id changes nothing. A new id goes last and every flag is off. The roster's Set is wired. |
| `MemberPageLegacy.LegacyPage.Cancel` | assets/js/member.js:388-396 | An absent id changes nothing. Otherwise the id leaves, every flag is off, and the roster's Set is wired. |
| `MemberPageLegacy.LegacyPage.ClearToday` | assets/js/member.js:304-310 | The roster is emptied and written, and an empty Set is wired. |
| `MemberPageLegacy.LegacyPage.Reorder` | assets/js/member.js:364-372 | Absent or equal ids change nothing. Otherwise the ids move by splice and every flag is off. |
| `MemberPageLegacy.LegacyPage.DeleteMember` | assets/js/member.js:229-232 | The id leaves the roster. The roster is written only when that removed something. |
| `MemberPageLegacy.PrunedNothing` | assets/js/member_ok1.js:143-145 | Pruning an absent id leaves the roster as it was. |
| `MemberPageLegacy.StaleAddScenario` | assets/js/membe1r.js:316-325 | On `membe1r.js` or `member_ok1.js`: load a day holding `a`, let the day listener report it emptied, type a search, add `b`: the roster written is [a, b]. |
| `MemberPageLegacy.DeleteThenAddScenario` | assets/js/member.js:442-447 | On `member.js`: load a day holding `a` and `x`, delete member `x` (which re-wires nothing, assets/js/member.js:229-232), add `b`: the roster written is [a, x, b]. |
| `MemberPageLegacy.LoadedWith` | assets/js/member.js:578-582 | A fresh page loaded on a day holding distinct ids holds them, every flag off, and wires their Set as the Set of page load. |
| `Pager.PageSize` | assets/js/ui-pager.v1.js:29 | The size is at least 1. A given size of at least 1 is kept, a missing one is 12, and a negative one becomes 1. |
| `Pager.CeilDivBounds` | assets/js/ui-pager.v1.js:31 | `pages` is the fewest pages, at least one, that hold every element. |
| `Pager.Paginate` | assets/js/ui-pager.v1.js:26-36 | The page lies in [1, pages]. `data` is `arr[(page-1)*size, page*size)` truncated, so never longer than size. `start` is 1-based, `end` = min(start0 + size, total), and `total` is the length. |
| `Pager.AllPages` | assets/js/ui-pager.v1.js:26-36 | Concatenating `data` over pages 1..pages gives back the array. |
| `Pager.PagesPrefix` | assets/js/ui-pager.v1.js:33-35 | The first k pages together are the first min(k*size, total) elements. |
| `Pager.Markup` | assets/js/ui-pager.v1.js:50-70 | Prev is disabled iff page <= 1, and next iff page >= pages. The buttons span max(1, page-2)..min(pages, page+2), at most 5, all in range, with the current page active. |
| `Pager.ClickTarget` | assets/js/ui-pager.v1.js:72-80 | A click passes a page on exactly when `parseInt` reads a page in 1..pages other than the current one. |
| `Pager.ClickGuard` | assets/js/ui-pager.v1.js:76 | The disabled prev and next buttons and the current page never call `onChange`; any other page in range does. |
| `MiniCal.Iso` | assets/js/minical.js:22 | The text has the form Y-MM-DD. |
| `MiniCal.ParseIsoDate` | assets/js/minical.js:13 | A date the text is read as is a real calendar day. |
| `MiniCal.IsoRoundTrip` | assets/js/minical.js:22 | Reading back `_iso` of a day with a four-digit year gives the day, with month+1 and two-digit padding. |
| `MiniCal.IsoInjective` | assets/js/minical.js:22 | Different days have different texts. |
| `MiniCal.MonthLabel` | assets/js/minical.js:23 | "" exactly outside 0..11. |
| `MiniCal.Badge` | assets/js/minical.js:19 | No badge for a missing, non-array or empty entry. "99+" exactly above 99, and the exact count otherwise. |
| `MiniCal.Marks` | assets/js/minical.js:19 | One badge per cell, in order. There are none without a sessions source. |
| `MiniCal.Grid` | assets/js/minical.js:21 | Exactly 42 consecutive days from the Sunday on or before the 1st of month m of `FullYear(y)`, so a view year from 0 to 99 draws 1900 + y. `inMonth` holds iff the cell's month is m, and every day of the month is in its cell. |
| `MiniCal.FullYear` | assets/js/minical.js:21 | The year `new Date(y, m, d)` builds: 0..99 read as 1900 + y, any other kept; the result is never a two-digit year. |
| `MiniCal.GridDays` | assets/js/minical.js:21 | The cells walk day by day from that Sunday. |
| `MiniCal.MonthCovered` | assets/js/minical.js:21 | Each day k of the month sits in cell weekday(1st) + k - 1. |
| `MiniCal.ShiftView` | assets/js/minical.js:20 | The month wraps: below 0 it goes to 11 of the year before, above 11 to 0 of the next. Otherwise the year is unchanged. The month stays in 0..11. |
| `MiniCal.ShiftCountsMonths` | assets/js/minical.js:14-15 | Each button moves the month count 12*y + m by exactly one. |
| `MiniCal.ShiftRoundTrip` | assets/js/minical.js:20 | One month on and one back, or back and on, restores (year, month). |
| `MiniCal.MiniCalendar.constructor` | assets/js/minical.js:6-7 | `init` shows today's month and selects today. |
| `MiniCal.MiniCalendar.Shift` | assets/js/minical.js:20 | The view moves as `ShiftView` says, and the selection is kept. |
| `MiniCal.MiniCalendar.GoToday` | assets/js/minical.js:16 | Today's month and day are selected and emitted when there is a handler. |
| `MiniCal.MiniCalendar.SetSelected` | assets/js/minical.js:13 | An invalid date is ignored. A valid one comes into view and is selected as its `_iso`. |
| `MiniCal.MiniCalendar.ClickCell` | assets/js/minical.js:17-18 | The cell's date becomes the selection and is emitted when there is a handler. |
| `JsDate.Weekday` | assets/js/minical.js:21 | `getDay()` lies in 0..6. |
| `JsDate.NextDayNumber` | assets/js/minical.js:21 | `setDate(getDate() + 1)` moves to a valid day whose day number is one more. |
| `JsDate.AddDaysNumber` | assets/js/minical.js:21 | Adding n days adds n to the day number and stays valid. |
| `JsDate.SubThenAdd` | assets/js/minical.js:21 | Going back n days and forward n returns to the date. |
| `JsDate.BackToSunday` | assets/js/minical.js:21 | Going back weekday(d) days lands on a Sunday. |
| `AppMain.OrElse` | assets/js/main.js:5 | `a or b`: null and "" fall through. |
| `AppMain.AppState.constructor` | assets/js/main.js:2-3 | The field starts null. |
| `AppMain.AppState.GetDate` | assets/js/main.js:5 | The date by that preference. |
| `AppMain.AppState.SetDate` | assets/js/main.js:4 | The field and the session item both take the key. Later `getDate` gives it, or today when it is "". |
| `AppMain.MemberIds` | assets/js/main.js:20 | The ids of the members, in order. |
| `AppMain.SavedMembers` | assets/js/main.js:17-28 | A known id replaces that element in place, with the length and other members unchanged. An unknown id changes nothing. No id appends the member under the fresh id. |
| `AppMain.SaveThenFind` | assets/js/main.js:19-27 | Looking up the returned id finds the saved member, unless the id was unknown. Distinct ids stay distinct. |
| `AppMain.DeleteSpec` | assets/js/main.js:29-33 | No member keeps the id. Every other member is kept, in order. |
| `AppMain.DefaultSession` | assets/js/main.js:37 | The default record given for a date with nothing saved is truthy, so `or` stops at it. |
| `AppMain.SessionOf` | assets/js/main.js:35-38 | An unsaved date gives the default record, and the result is never falsy. |
| `AppMain.SaveThenGetSession` | assets/js/main.js:35-43 | A saved (truthy) session reads back. Other dates read as before. |
| `AppMain.LocalDb.constructor` | assets/js/main.js:11-14 | `init` keeps an existing document and starts a missing one as `{members: [], sessions: {}}`. |
| `AppMain.LocalDb.SaveMember` | assets/js/main.js:17-28 | The members become `SavedMembers`, and `saveMember` returns the member's id, or the fresh one. |
| `AppMain.LocalDb.DeleteMember` | assets/js/main.js:29-33 | Every member with that id is removed. |
| `AppMain.LocalDb.GetSession` | assets/js/main.js:35-38 | The session of the date, today when none is passed. |
| `AppMain.LocalDb.SaveSession` | assets/js/main.js:39-43 | Only that date's session changes, and it reads back. |
| `CourtModule.SpliceOne` | js/modules/court.js:58 | `splice(index, 1)` removes at the index, counting from the end when negative. Out of range it removes nothing (or the first element far below). |
| `CourtModule.RemoveKeepsOthers` | js/modules/court.js:57-60 | Removing index k keeps every other player, in order. |
| `CourtModule.Picked` | js/modules/court.js:69-70 | The first four of the shuffled arrived players. |
| `CourtModule.PickedAreArrived` | js/modules/court.js:63-70 | The four chosen players come from four different positions of the arrived list, and all have arrived. |
| `CourtModule.CourtCard` | js/modules/court.js:77-78 | Team A is the first two chosen names and team B the last two. |
| `CourtModule.CourtPage.constructor` | js/modules/court.js:4-8 | An empty list, no current game. |
| `CourtModule.CourtPage.SaveSigned` | js/modules/court.js:21-23 | The list is written under `signedPlayers-` + date. |
| `CourtModule.CourtPage.Load` | js/modules/court.js:16-19 | The list is the stored list, or [] when missing, and the first render writes it back. Text that cannot be parsed throws and changes nothing. |
| `CourtModule.CourtPage.AddGuest` | js/modules/court.js:45-50 | An empty or cancelled name changes nothing. Otherwise `{name, arrived: false}` goes last and the list is saved. |
| `CourtModule.CourtPage.ToggleArrived` | js/modules/court.js:52-55 | Only the player at that index flips. An index with no player throws before anything changes. |
| `CourtModule.CourtPage.RemovePlayer` | js/modules/court.js:57-60 | Exactly that index is removed and the list is saved. |
| `CourtModule.CourtPage.RandomizeToCourt` | js/modules/court.js:62-91 | With fewer than 4 arrived players nothing happens. Otherwise four distinct arrived players make the game, team A two and team B two. The signed list is not reordered. |
| `CourtModule.CourtPage.SaveCurrentGame` | js/modules/court.js:93-100 | With no game nothing happens. Otherwise the game gets its end time, is appended to its date's log, and is cleared. |
| `GameModule.GamesKey` | js/modules/game.js:3 | The key is `games-` followed by the date. |
| `GameModule.GamesKeyInjective` | js/modules/game.js:3 | Different dates use different keys. |
| `GameModule.GamesOf` | js/modules/game.js:10-14 | A date never saved gives []. A stored list is itself. Unparseable text throws. |
| `GameModule.AfterSave` | js/modules/game.js:2-8 | A save writes only that date's key, or nothing when the read throws. |
| `GameModule.SaveAppends` | js/modules/game.js:2-8 | After a save, the date's list is the old one with the game appended, so it grows by one. Every other date reads as before. |
| `GameModule.GameStore.constructor` | js/modules/game.js:1-14 | The store holds the given items. |
| `GameModule.GameStore.GetGamesByDate` | js/modules/game.js:10-14 | The date's list as `GamesOf` reads it. |
| `GameModule.GameStore.SaveGame` | js/modules/game.js:2-8 | Read, push, write back under `games-` + date. Nothing is written when the read throws. |
| `GroupCommon.CurrentGroup.constructor` | assets/js/group_state.js:13 | The store starts with what `localStorage` holds. |
| `GroupCommon.CurrentGroup.Get` | assets/js/group_state.js:15 | The stored id, or "default" when missing or empty. Never "". |
| `GroupCommon.CurrentGroup.Set` | assets/js/group_state.js:16-19 | The id is stored and announced. A later `Get` returns it (an empty id reads as "default"). |
| `GroupCommon.CollectRowsSpec` | assets/js/group_state.1.1.3.js:140-188 | A row is collected exactly when its id is listed and the row is kept. Distinct ids stay distinct. |
| `GroupCommon.ByNameIsTotalPreorder` | assets/js/group_state.1.1.3.js:189 | The name comparator is a consistent total preorder. |
| `GroupCommon.SortByNameSpec` | assets/js/group_state.1.1.3.js:189 | Sorting by name gives a name-ordered permutation. |
| `GroupCommon.PermutedIdsDistinct` | assets/js/group_state.1.1.3.js:225 | Reordering rows with distinct ids keeps them distinct. |
| `GroupState113.DictHasNoLookalikes` | assets/js/group_state.1.1.3.js:46 | The dictionary has 32 characters, with no I, O, 0 or 1. |
| `GroupState113.MakeInviteCode` | assets/js/group_state.1.1.3.js:45-49 | The code has len characters, each the dictionary character of that round's pick, so none of I, O, 0 or 1. |
| `GroupState113.JoinRole` | assets/js/group_state.1.1.3.js:115 | The role is "owner" iff the user is `ownerUid`. |
| `GroupState113.Deactivated` | assets/js/group_state.1.1.3.js:129-131 | The merge write sets `active: false` and keeps the role. |
| `GroupState113.RoleIn` | assets/js/group_state.1.1.3.js:149-177 | With a membership document, the group is kept unless `active === false`, with the document's role (default "member"). Without one, or on a read error, it is kept as "owner" only for the owner. |
| `GroupState113.Row` | assets/js/group_state.1.1.3.js:141-187 | A row exists only for a group that was read, exists and is not deleted. It carries the group's name. |
| `GroupState113.CollectedSpec` | assets/js/group_state.1.1.3.js:140-188 | A group of the mirror list is listed exactly when its row is kept. Distinct ids stay distinct. |
| `GroupState113.OwnedRows` | assets/js/group_state.1.1.3.js:201-204 | `listOwnerGroups`: each owned group, in query order, as owner. |
| `GroupState113.LastWithId` | assets/js/group_state.1.1.3.js:217 | `map.set` overwrites: the value kept is the last row with the id. |
| `GroupState113.UnionValueStep` | assets/js/group_state.1.1.3.js:218-224 | Taking in an owned row adds a new id as owner, promotes a known id to owner, and leaves other ids alone. |
| `GroupState113.UnionById` | assets/js/group_state.1.1.3.js:216-225 | The Map holds each id of mine and owned exactly once. An owned id is an owner row, and any other keeps its role from mine. |
| `GroupState113.SetMine` | assets/js/group_state.1.1.3.js:217 | The first loop loads the last row of mine per id, in first-seen order. |
| `GroupState113.SetOwned` | assets/js/group_state.1.1.3.js:218-224 | The second loop takes in every owned row. |
| `GroupState113.TakeOwned` | assets/js/group_state.1.1.3.js:219-223 | One turn: a new id is added, and a known non-owner is promoted. |
| `GroupState113.SortedOwnedRows` | assets/js/group_state.1.1.3.js:205 | Sorting the owned rows keeps them owner rows. |
| `GroupState113.SortKeepsUnion` | assets/js/group_state.1.1.3.js:225 | Sorting the union by name keeps its rows, its ids and their distinctness, and puts them in name order. |
| `GroupState113.GroupDb.constructor` | assets/js/group_state.1.1.3.js:59-70 | The collections as given. |
| `GroupState113.GroupDb.DeleteGroup` | assets/js/group_state.1.1.3.js:83-98 | A missing group is a no-op (Done). A non-owner gets "not-owner" with no writes. For the owner the group is marked deleted and the owner's membership made inactive. |
| `GroupState113.GroupDb.JoinByCode` | assets/js/group_state.1.1.3.js:108-125 | A missing or deleted group gives "not-found". A code that differs after upper-casing gives "invalid-code". Otherwise the membership is active with "owner" iff the user is the owner, and the mirror carries the name and that role. |
| `GroupState113.GroupDb.LeaveGroup` | assets/js/group_state.1.1.3.js:127-132 | The membership becomes inactive, and nothing else changes. |
| `GroupState113.GroupDb.ListMyGroups` | assets/js/group_state.1.1.3.js:135-191 | The rows are the kept groups of the mirror list, sorted by name. |
| `GroupState113.GroupDb.ListMyGroupsWithOwned` | assets/js/group_state.1.1.3.js:210-226 | Each id of mine and owned appears once, owned as owner and the others with their role, sorted by name. A failing list counts as empty. |
| `GroupState113.JoinThenListed` | assets/js/group_state.1.1.3.js:108-191 | After a join, the group is listed with the role the join wrote. |
| `GroupState113.LeaveThenHidden` | assets/js/group_state.1.1.3.js:127-177 | After leaving, the group is no longer listed. |
| `GroupState113.DeleteThenHidden` | assets/js/group_state.1.1.3.js:83-147 | After the owner deletes a group it is listed for nobody. |
| `GroupState.WithOwnerMappingsSpec` | assets/js/group_state.js:215-223 | Every owned group ends up mapped. Existing mappings keep their role, and only missing ones are written, as "owner". |
| `GroupState.WithOwnerMappingsIdempotent` | assets/js/group_state.js:219-221 | Running the loop again writes nothing. |
| `GroupState.MappedRow` | assets/js/group_state.js:47-53 | A missing or deleted group is skipped. The row has the group's name and the mapping's role, or "member" when that role is empty. |
| `GroupState.MappedRowsSpec` | assets/js/group_state.js:46-55 | A group is listed exactly when it is mapped, exists and is not deleted, each once. |
| `GroupState.OwnerFirstIsTotalPreorder` | assets/js/group_state.js:56 | The owner-first comparator is a consistent total preorder. |
| `GroupState.SortOwnerFirst` | assets/js/group_state.js:56 | The result is a permutation of the rows. Every owner row comes before every other row, and rows of the same rank are in name order. |
| `GroupState.JoinOutcome` | assets/js/group_state.js:169-177 | Success exactly when signed in, the invite exists, and it is not `active === false`. The error messages come in that order. |
| `GroupState.SecondJoinFails` | assets/js/group_state.js:182 | A consumed invite cannot join again. |
| `GroupState.JoinDemotesOwner` | assets/js/group_state.js:179-180 | As written, the owner who joins with a code of their own group is listed as "member" from then on. |
| `GroupState.JoinRole` | assets/js/group_state.js:179-180 | Corrected: the role written is "owner" exactly for the group's owner, and "member" otherwise. |
| `GroupState.JoinKeepsRole` | assets/js/group_state.js:179-180 | With the corrected role, a listed joined group shows "owner" exactly for its owner. |
| `GroupState.OwnerRow` | assets/js/group_state.js:238-246 | A mapped group gives an owner row exactly when its mapping role is "owner" and the group exists and is not deleted; the row is then its `listMyGroups` row. |
| `GroupState.OwnerGroupsSpec` | assets/js/group_state.js:228-252 | `listOwnerGroups`: empty when signed out; otherwise exactly the existing, undeleted groups mapped to the user as owner, in name order, each once. |
| `GroupState.JoinDropsOwnerGroup` | assets/js/group_state.js:179-180 | As written, the owner's own group is in the owner list before they join it with a code, and out of it after. |
| `GroupState.JoinKeepsOwnerGroup` | assets/js/group_state.js:179-180 | With the corrected role, the owner's own group stays in the owner list after the join. |
| `GroupState.InviteRowOf` | assets/js/group_state.js:158 | The row is the invite's id with its own fields. |
| `GroupState.InviteOrder` | assets/js/group_state.js:159 | The sorted invites are the group's invites, each once, newest first by `createdAt.seconds`. Ties, including missing times, keep snapshot order. |
| `GroupState.InviteRowsOfGroup` | assets/js/group_state.js:155-161 | Every listed invite is one of the group's, with its own fields. |
| `GroupState.GroupDb.constructor` | assets/js/group_state.js:13 | The collections as given, and a current-group store under `currentGroupId`. |
| `GroupState.GroupDb.EnsureDefaultGroupExists` | assets/js/group_state.js:22-37 | The current group is created if missing, named after its id and owned by the user. A signed-in user is written as its owner in both membership and mapping. |
| `GroupState.GroupDb.EnsureOwnerMappings` | assets/js/group_state.js:204-226 | Signed out: [] and no writes. Otherwise it returns every owned group id and writes exactly the missing mappings. |
| `GroupState.GroupDb.ListMyGroups` | assets/js/group_state.js:40-58 | Owner mappings are ensured first. The rows are the mapped live groups, sorted owner-first and then by name. |
| `GroupState.GroupDb.JoinGroup` | assets/js/group_state.js:169-184 | Refuses a missing and then a revoked invite, with no writes. Otherwise the user is written as "member" in membership and mapping, and the invite is consumed. |
| `GroupState.GroupDb.JoinGroupKeepingOwner` | assets/js/group_state.js:169-184 | Corrected join: the same checks and writes, with the owner's role kept as "owner". |
| `GroupState.GroupDb.RevokeInvite` | assets/js/group_state.js:164-166 | The invite becomes `active: false` (created when missing), and no one can join with it. |
| `GroupState.GroupDb.ListInvites` | assets/js/group_state.js:155-161 | The loop pushes one row per invite, then sorts newest first. |
| `GroupState.GroupDb.LeaveGroup` | assets/js/group_state.js:80-92 | Signed out: an error and no writes. Otherwise membership and mapping are deleted. Leaving the current group switches to "default" and makes sure it exists. |
| `GroupState.GroupDb.DeleteGroup` | assets/js/group_state.js:94-104 | A missing group makes the update throw. Otherwise the group is soft-deleted (`isDeleted`). Deleting the current group falls back to "default" and makes sure it exists. |
| `GroupState.DeletedIsHidden` | assets/js/group_state.js:51 | A deleted group is no longer listed, whatever the mapping says. |
| `GroupState.LeaveThenListed` | assets/js/group_state.js:41-92 | After a leave, a group the user does not own is gone, but the owner's own group comes back as "owner". |
| `Utils.ReplaceAll` | assets/js/utils.js:4-9 | `replaceAll` of an absent character changes nothing, and the character is absent afterwards unless the replacement contains it. |
| `Utils.EscapeChar` | assets/js/utils.js:3-10 | Exactly the five characters & < > " ' are mapped to something other than themselves. |
| `Utils.EscapeHtmlPerChar` | assets/js/utils.js:3-10 | Because & is replaced first, the chain equals the per-character mapping, with no double escaping. |
| `Utils.EscapeHtmlNoMarkup` | assets/js/utils.js:3-10 | The output contains no raw < > " or '. |
| `Utils.UnescapeEscape` | assets/js/utils.js:3-10 | Decoding the five entities gives the text back, so escaping loses nothing. |
| `Utils.Uid` | assets/js/utils.js:11-13 | `uid()` starts with "m_" and is at most 13 characters; with a clock of at least 36^3 its tail has 4 characters. |
| `Utils.LoadFrom` | assets/js/utils.js:14-19 | A missing key or stored text that fails to parse gives the fallback. |
| `Utils.SaveThenLoad` | assets/js/utils.js:14-23 | After `save(key, data)`, `load(key)` gives the data, and every other key loads as before. |
| `Utils.Store.constructor` | assets/js/utils.js:14-23 | The store holds the given items. |
| `Utils.Store.Load` | assets/js/utils.js:14-19 | `load` as `LoadFrom` reads it. |
| `Utils.Store.Save` | assets/js/utils.js:20-23 | Only that key changes, and it loads back as the data. |
| `Utils.TodayKeyFrom` | assets/js/utils.js:24-26 | The key is as long as the prefix plus the date. |
| `Utils.TodayKeyParts` | assets/js/utils.js:24-26 | The key is p followed by the date, with p defaulting to "bm_day_", so different dates give different keys. |
| `Seqs.SortStableTies` | assets/js/courts/ui.js:241 | The stable sort keeps elements that tie in their input order. |
| `Seqs.SortStableSorted` | assets/js/group_state.js:56 | With a consistent comparator the sorted list is in order. |
| `Seqs.MoveTo` | assets/js/member2.js:399 | The double splice puts the source at the target's index and is a permutation. |
| `Seqs.FilterIsSubseq` | assets/js/member2.js:158-169 | `filter` gives a subsequence. |
| `Text.ParseIntIntToString` | assets/js/ui-pager.v1.js:75 | `parseInt` reads back what `String(i)` printed, for negative numbers too. |
| `Text.ParseIntNatToString` | assets/js/courts/services/courtsService.js:14-18 | `parseInt` reads back what `String(n)` printed. |
| `Text.Pad2RoundTrip` | assets/js/minical.js:22 | `padStart(2, "0")` of a number below 100 is exactly two digits that read back as the number. |
| `JsDate.DaysInMonth` | assets/js/minical.js:21 | Every month has 28 to 31 days. |
| `JsDate.YearLength` | assets/js/minical.js:21 | A year counted from March has 366 days after a leap February, and 365 otherwise. |
| `JsDate.PrevDayInverse` | assets/js/minical.js:21 | The day before a valid date is valid, and the day after it is the date again. |
| `JsDate.SubDaysValid` | assets/js/minical.js:21 | `new Date(y, m, 1 - s)` is a valid date. |
| `JsDate.SubDaysNumber` | assets/js/minical.js:21 | Going back n days lowers the day number by n. |
| `JsDate.AddDaysAdd` | assets/js/minical.js:21 | Moving a days and then b days is moving a + b days. |
| `JsDate.WalkMonth` | assets/js/minical.js:21 | Walking from the 1st meets each day of the month in turn. |
| `Text.NatToString` | assets/js/courts/ui.js:182 | `String(n)` is a non-empty run of digits, and "0" exactly for 0. |
| `Text.NatToStringRoundTrip` | assets/js/courts/ui.js:182 | The digits of `String(n)` are worth n. |
| `Text.TrimStart` | assets/js/member2.js:84 | The result is a suffix that starts with no whitespace. |
| `Text.TrimEnd` | assets/js/member2.js:84 | The result is a prefix that ends with no whitespace. |
| `Text.ToUpper` | assets/js/member2.js:160 | Upper-casing keeps the length. |
| `Text.ToLower` | assets/js/member2.js:162-163 | Lower-casing keeps the length. |
| `Text.IncludesAt` | assets/js/member2.js:163 | `includes` holds exactly when the text occurs at some index. |
| `Text.LeadingDigits` | assets/js/ui-pager.v1.js:75 | `parseInt` reads the longest prefix of digits. |
| `Text.Pad2` | assets/js/minical.js:22 | `padStart(2, "0")` gives at least two digits. |
| `Seqs.Filter` | assets/js/member2.js:160-166 | `filter` keeps a subset of the elements, each one passing, and is never longer. |
| `Seqs.FilterMembership` | assets/js/member2.js:160-166 | An element is kept exactly when it is in the input and passes. |
| `Seqs.FilterConcat` | assets/js/member2.js:158-169 | Filtering a concatenation filters each part. |
| `Seqs.FilterFilter` | assets/js/member2.js:158-169 | Two chained filters are one filter by both conditions. |
| `Seqs.FilterDistinct` | assets/js/member2.js:292-295 | Filtering distinct ids keeps them distinct. |
| `Seqs.IndexOf` | assets/js/member2.js:397 | `indexOf` is -1 exactly when absent. Otherwise it is the first position of the element. |
| `Seqs.IndexOfAppend` | assets/js/member2.js:449-450 | Appending keeps the positions of earlier elements, and a new element is found at the end. |
| `Seqs.Dedup` | assets/js/member2.js:292 | `new Set` gives distinct elements, exactly those of the input. |
| `Seqs.DedupDistinct` | assets/js/member2.js:292 | `new Set` of distinct ids keeps them as they were. |
| `Seqs.DedupMembership` | assets/js/member2.js:448 | An id is in the Set exactly when it is in the sequence the Set was built from. |
| `Seqs.FilterNone` | assets/js/member2.js:166-168 | A filter that no element passes keeps nothing. |
| `Seqs.RemoveAt` | assets/js/member2.js:399 | `splice(k, 1)` shortens the list by one. |
| `Seqs.InsertAt` | assets/js/member2.js:399 | `splice(k, 0, x)` lengthens the list by one and puts x at k. |
| `Seqs.SortStable` | assets/js/courts/ui.js:241 | The stable sort is a permutation of its input. |
| `Seqs.InsertSortedSorted` | assets/js/courts/ui.js:241 | Inserting into a sorted list keeps it sorted. |
| `Seqs.TiesOrdered` | assets/js/courts/ui.js:241 | Under a consistent comparator, when x does not sort before y, x and y do not both tie with e. |
| `Seqs.KeyOrderIsTotalPreorder` | assets/js/courts/ui.js:241 | Comparing by an integer key is a consistent comparator. |
| `Utils.ReplaceAllConcat` | assets/js/utils.js:4-9 | `replaceAll` of one character works part by part. |
| `Utils.EscapeHtmlConcat` | assets/js/utils.js:3-10 | Escaping works part by part. |
| `Utils.EscapeOne` | assets/js/utils.js:4-9 | A single character escapes to its own entity, so no replacement rewrites an earlier entity. |
| `Utils.EscapeSpecNoMarkup` | assets/js/utils.js:3-10 | The per-character mapping leaves no raw < > " or '. |
| `Utils.UnescapeHead` | assets/js/utils.js:3-10 | Decoding reads the entity of a character back as that character. |
| `Utils.ToBase36` | assets/js/utils.js:12 | `toString(36)` is never empty. |
| `Utils.Base36Four` | assets/js/utils.js:12 | A clock of at least 36^3 gives at least four base-36 digits. |
| `Utils.JsSlice` | assets/js/utils.js:12 | `slice` with JavaScript's clamping is never longer than the text. |
| `MemberCommon.FindArrivedOfMember` | assets/js/member2.js:386 | With distinct ids, a roster entry's id finds that entry's flag. |
| `MemberCommon.PrunedLength` | assets/js/member.js:229-232 | The filter keeps the length exactly when the id was absent. |
| `AppMain.DateOf` | assets/js/main.js:5 | `getDate` prefers the field, then the session key, then today. It is never empty while today is not. |
| `GroupState.AllMappedUnchanged` | assets/js/group_state.js:219-221 | With every owned group already mapped, the loop changes nothing. |

## Left out

- `member.js`: `initMembersPage` calls `renderAlphaPagination` at
  assets/js/member.js:589, and that file does not define it. The error is
  caught at assets/js/member.js:631, so the search, level and date handlers
  (assets/js/member.js:596-628) and `subscribeRealtime` are never installed
  there. The model's `Refilter`, `OnDaySnapshot` and `OnMembersSnapshot` are
  the handlers of `membe1r.js` and `member_ok1.js`.
- `CourtModule.CourtPage.Load`: when the stored list does not parse,
  `initCourtSystem` throws (js/modules/court.js:9) before it wires the add,
  randomize and save buttons (js/modules/court.js:11-13). The class returns
  `ok == false` but does not stop `AddGuest`, `RandomizeToCourt` or
  `SaveCurrentGame` from being called afterwards.
- DOM rendering, event wiring, toasts, modals, drag and drop, and Bootstrap.
  Only the state a handler installs is modelled: the queue snapshot, the
  excluded set, the day roster and the calendar's state.
- Realtime listeners (`onSnapshot`), and `subscribe*` and its resubscribe
  bookkeeping. Listener data comes in as parameters. On the members pages
  the handlers are `OnDaySnapshot` and `OnMembersSnapshot`.
- The members pages' date picker is not modelled. It sets `state.date`,
  falling back to today, and installs a day listener for the new date. That
  listener is `OnDaySnapshot`.
- The member add and edit form of the members pages writes member documents,
  which are not modelled. Only the Set it wires at the end is, as
  `OnMembersSnapshot`.
- An empty group id or date key also makes `doc` throw in `courtsService.js`.
  The model treats them as ordinary keys; only the empty player id throws.
- Concurrency. Every service call is one sequential, atomic step. So the race
  in the read-then-merge counters and two starts on one court are not
  modelled.
- Randomness.
  - `uid()`, `crypto.randomUUID()`, the shuffle of `court.js`, and the draws of
    `makeInviteCode` are parameters.
  - `createInvite`'s code and `uid(n)` of `group_state.js` are not modelled.
    They are random strings with no contract beyond their shape.
- The clock, timezone and locale.
  - `Date.now()`, `serverTimestamp()`, `new Date()` and `todayKey()` are
    parameters.
  - `localeCompare` is an abstract total preorder on names.
  - `toLocaleDateString`, `formatThaiDate` and `monthThai` are not modelled.
  - The calendar works in one civil calendar with no timezone offset. The
    shift between UTC parsing and local getters in `new Date(iso)` is not
    modelled.
- `MemberPageV6.MonthStats` takes the array the day extensions' `getMonthDays`
  returns. On a page that loads `firebase.js` first, its plain-object reader
  stays in the slot (assets/js/firebase.days.extend.js:64) and the count throws;
  `ProfileStats` and `ProfileAfterFirebase` model that case.
- `MiniCal.ParseIsoDate` reads only the date-only form `YYYY-MM-DD`. The other
  texts `new Date` accepts are read as invalid.
- Timestamps.
  - A resolved Firestore Timestamp is kept in whole milliseconds; the
    sub-millisecond part is left out.
  - A bare number passed as a timestamp gives the clock. That is what
    `toMillis` does, although a number of epoch milliseconds might be expected.
- The Firebase SDK and its initialisation.
  - Documents are plain maps keyed by the store's path layout.
  - `getDoc`/`setDoc`/`updateDoc`/`deleteDoc` are map reads and writes, and
    `{merge: true}` is a field-wise merge.
  - Security rules, failed writes and network errors are left out, except
    where the code catches them: `listMyGroups` of the 1.1.3 build, and
    `listMyGroupsWithOwned`.
- `ensureOwnerMappings`: its `try`/`catch` for a failure midway is not
  modelled (it would return [] after some writes). The dynamic `import()` of
  the SDK is left out too.
- Fields the model does not read are not stored.
  - Timestamps: `joinedAt` of memberships, `mappedAt`, `consumedAt`,
    `revokedAt`, `deletedAt`, `createdAt` of groups.
  - `consumedBy`, `createdBy`, an invite's `code` field, and the 1.1.3
    mirror's `updatedAt`.
  - Their writes are left out with them.
- JSON and `localStorage`.
  - Serialisation is the identity on the stored values; `Malformed` stands
    for text that does not parse.
  - `structuredClone` is the identity.
  - `setItem` quota errors are not modelled.
- `escapeHtml`: `String(str)` of a non-string argument is not modelled, and
  the argument is text.
- Unicode.
  - `toUpperCase`/`toLowerCase` map only ASCII letters.
  - `trim` removes the JavaScript whitespace characters listed in the `Text`
    module.
  - `Number(text)` reads only optionally signed decimal integers. Fractions,
    exponents, hexadecimal and `Infinity` read as `NaN`.
- `createGroup`, `renameGroup` and `getInviteLink`: both builds write or read
  documents without a contract beyond the write itself, and they are not
  modelled.
- `OwnerGroups`: `listOwnerGroups` of `group_state.js` loads the Firebase
  SDK through a dynamic import, and a failure there or in a read returns
  `[]`. The model leaves out those failures and keeps the signed-out case.
- `mountGroupSwitcher`, `mountOwnerGroupSwitcher`, `renderRoleBadge` and
  `waitForAuthReady` are not modelled: they are UI, or they wait on
  authentication.
- `saveDayRoster` of `member2.js` has a fallback for an API without
  `setDayRoster`. It is left out because the day extension always installs
  `setDayRoster`.
- The Google Sheets client, and the JSON export and import of `main.js`.
  These are network and file I/O.
- `CourtsService.NewStandby`: its own contract states only team sizes and the
  stamp. What the stored teams are is stated by `CourtsUi.PlanTeamsStored`
  and `CourtsService.NormalizeStoredTeam`.
- `MiniCal.Iso`: its own contract states only the shape of the text. Its
  meaning is stated by `MiniCal.IsoRoundTrip` and `MiniCal.IsoInjective`.
- `js/modules/court.js` contains escaped backticks (lines 31 and 72), so it
  does not parse as written. The model follows the list logic it evidently
  means.

## Findings

| source | as written | input that shows it | evidently intended | confidence | as-written member | corrected member |
|---|---|---|---|---|---|---|
| assets/js/courts/services/courtsService.js:121-123 | `startMatch` deletes the standby under the court it starts on. The card's start button passes `"court" + courtNo` from its select (assets/js/courts/ui.js:191). | A standby listed under court1 is started with "2" selected. court2 goes live, and the standby stays listed under court1. | The started standby leaves the court it was listed under | not executed | `CourtsService.StartOnOtherCourtKeepsStandby` | `CourtsService.StandbyAfterStartFrom` |
| assets/js/member2.js:446-450 | The add button rebuilds the roster from the Set it captured. The alpha, search and level handlers (assets/js/member2.js:670-681) wire the Set built at page load again, while cancel and the day listener wire fresh Sets. | Load a day where `a` has arrived, cancel `a`, type in the search box, then add `b`. The roster written is [a, b], with `a` not arrived. | The add extends the roster of the moment, as the drop from the member list does | not executed | `MemberPageV6.StaleAddScenario` | `MemberPageV6.MemberPage.AddFromRoster` |
| assets/js/membe1r.js:316-325 | The same capture: the filter handlers (assets/js/membe1r.js:456-473, and likewise assets/js/member_ok1.js:290-307) wire the Set of page load again, while the day listener wires fresh Sets. | Load a day holding `a`, let the day be emptied on another device, type in the search box, then add `b`. The roster written is [a, b]. | The add extends the roster of the moment, as the drop from the member list does | not executed | `MemberPageLegacy.StaleAddScenario` | `MemberPageLegacy.LegacyPage.AddFromRoster` |
| assets/js/member2.js:521 | `openProfileModal` calls `days.forEach` on what `DB.getMonthDays` returns. `firebase.js` installs a reader that returns a plain object `{date: playerIds}` (assets/js/firebase.js:97-105), and both day extensions keep an existing reader (assets/js/firebase.days.extend.js:64, assets/js/firebase.days.extend.compat.js:29). | Load `firebase.js`, then a day extension, and open any member's profile. `forEach` is not a function of the object, so the window never shows its counts. | The profile window shows the month's counts whatever shape the reader returns | not executed | `MemberPageV6.ProfileAfterFirebase` | `MemberPageV6.ProfileStatsEither` |
| assets/js/member.js:442-447 | The add buttons keep the Set of page load. The delete button (assets/js/member.js:229-232) prunes the roster but re-wires nothing, and no listener runs on this page. | Load a day holding `a` and `x`, delete member `x`, then add `b`. The roster written is [a, x, b]: the deleted member is back on the day. | The add extends the roster of the moment | not executed | `MemberPageLegacy.DeleteThenAddScenario` | `MemberPageLegacy.LegacyPage.AddFromRoster` |
| assets/js/group_state.js:179-180 | `joinGroup` writes role "member" for everyone, the group's owner included. `ensureOwnerMappings` only fills in missing mappings. | The owner joins their own group with one of its invite codes. From then on `listMyGroups` shows that group as "member", and `listOwnerGroups` leaves it out, so `mountOwnerGroupSwitcher` (assets/js/group_state.js:271) no longer offers it as owned. | The owner keeps "owner", as the 1.1.3 build does (assets/js/group_state.1.1.3.js:115) | not executed | `GroupState.JoinDemotesOwner` | `GroupState.JoinRole` |
