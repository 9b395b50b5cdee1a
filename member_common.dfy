/**
 * What the four versions of the members page share: members and their
 * levels, the level badge and the level filter, the left-list filters, and
 * the day-roster rebuilds done through a `Set` of picked ids.
 */
module MemberCommon {
  import opened Common
  import opened Seqs
  import Text
  import opened DaysExtend

  /** A member's `level` as stored: a number, a string, or absent. */
  datatype Level = LevelNum(n: int) | LevelText(s: string) | LevelMissing

  datatype Member = Member(id: string, name: Option<string>, level: Level)

  /** `Number(m.level || 0)`; `None` is `NaN`. */
  function LevelOr0(l: Level): Option<int> {
    match l
    case LevelNum(n) => Some(n)
    case LevelText(s) => Text.JsNumber(s)
    case LevelMissing => Some(0)
  }

  // ----- level labels -----

  /** The `key` of `LEVELS[k]`. */
  function LevelLabel(k: int): string
    requires 1 <= k <= 5
  {
    if k == 1 then "มือใหม่"
    else if k == 2 then "เบา"
    else if k == 3 then "กลาง"
    else if k == 4 then "หนัก"
    else "โปร"
  }

  /**
   * The property names a plain object inherits from `Object.prototype`
   * (section 20.1.3 of ECMA-262, with the `__proto__` accessor and the
   * legacy accessor helpers of its Annex B). Reading one of them on
   * `LEVEL_TEXT_TO_NUM` gives a function or an object, which is truthy.
   */
  const ObjectPrototypeNames: set<string> :=
    {"constructor", "hasOwnProperty", "isPrototypeOf", "propertyIsEnumerable",
     "toLocaleString", "toString", "valueOf", "__proto__",
     "__defineGetter__", "__defineSetter__", "__lookupGetter__", "__lookupSetter__"}

  /**
   * A value of `state.levelFilter` other than `null`: a level number, or a
   * member inherited from `Object.prototype`, which no `Number(...)` equals.
   */
  datatype LevelKey = Num(n: int) | Inherited

  /**
   * `LEVEL_TEXT_TO_NUM[t] || null`: a label gives its number, an inherited
   * property name gives that inherited member, anything else `null`.
   */
  function LevelOfLabel(t: string): (r: Option<LevelKey>)
    ensures r.Some? && r.value.Num? ==> 1 <= r.value.n <= 5 && LevelLabel(r.value.n) == t
    ensures r == Some(Inherited) <==> t in ObjectPrototypeNames
    ensures r.None? <==> t !in ObjectPrototypeNames && forall k :: 1 <= k <= 5 ==> LevelLabel(k) != t
  {
    if t == "มือใหม่" then Some(Num(1))
    else if t == "เบา" then Some(Num(2))
    else if t == "กลาง" then Some(Num(3))
    else if t == "หนัก" then Some(Num(4))
    else if t == "โปร" then Some(Num(5))
    else if t in ObjectPrototypeNames then Some(Inherited)
    else None
  }

  /** The table maps each label back to its number. */
  lemma LabelsRoundTrip(k: int)
    requires 1 <= k <= 5
    ensures LevelOfLabel(LevelLabel(k)) == Some(Num(k))
  {
  }

  /**
   * `Number(level) || 1` for the argument of `levelBadge(m.level || 1)` and
   * `levelIcon(m.level || 1)`: an absent level is 1, and so are 0 and `NaN`.
   */
  function LevelNumberOr1(level: Level): (lv: int)
    ensures lv != 0
    ensures level.LevelNum? && level.n != 0 ==> lv == level.n
    ensures level.LevelMissing? || level == LevelNum(0) ==> lv == 1
  {
    var raw := match level
      case LevelNum(n) => Some(n)
      case LevelText(s) => Text.JsNumber(s)
      case LevelMissing => Some(1);
    if raw.None? || raw == Some(0) then 1 else raw.value
  }

  /** The level the badge shows: that number clamped into 1..5. */
  function BadgeLevel(level: Level): (k: int)
    ensures 1 <= k <= 5
  {
    Min(5, Max(1, LevelNumberOr1(level)))
  }

  /** The badge's label. */
  function BadgeLabel(level: Level): string {
    LevelLabel(BadgeLevel(level))
  }

  /** A level in 1..5 is shown as itself; 0 and `NaN` as 1; anything above 5 as 5 and below 1 as 1. */
  lemma BadgeClamps(n: int)
    ensures 1 <= n <= 5 ==> BadgeLevel(LevelNum(n)) == n
    ensures n > 5 ==> BadgeLevel(LevelNum(n)) == 5
    ensures n < 1 ==> BadgeLevel(LevelNum(n)) == 1
    ensures BadgeLevel(LevelMissing) == 1
  {
  }

  /** Text that is not a number, and "0", show as level 1. */
  lemma BadgeOfNonNumber(s: string)
    requires Text.JsNumber(s).None? || Text.JsNumber(s) == Some(0)
    ensures BadgeLevel(LevelText(s)) == 1
  {
  }

  // ----- the level filter select -----

  /**
   * `parseLevelFilter(val)`: nothing for `null` or ""; a string of digits is
   * its number when in 1..5 and nothing otherwise; any other text is looked up
   * (trimmed) among the labels.
   */
  function ParseLevelFilter(val: Option<string>): (r: Option<LevelKey>)
    ensures r.Some? && r.value.Num? ==> 1 <= r.value.n <= 5
    ensures val.None? || val == Some("") ==> r.None?
    ensures val.Some? && val.value != "" && Text.AllDigits(val.value) ==>
              r == (var n := Text.DigitsValue(val.value); if 1 <= n <= 5 then Some(Num(n)) else None)
    ensures val.Some? && !Text.AllDigits(val.value) ==> r == LevelOfLabel(Text.Trim(val.value))
    ensures r == Some(Inherited) <==>
              val.Some? && !Text.AllDigits(val.value) && Text.Trim(val.value) in ObjectPrototypeNames
  {
    match val
    case None => None
    case Some(s) =>
      if s == "" then None
      else if Text.AllDigits(s) then
        var n := Text.DigitsValue(s);
        if 1 <= n <= 5 then Some(Num(n)) else None
      else LevelOfLabel(Text.Trim(s))
  }

  /** The options "1".."5" and the five labels all select their level. */
  lemma ParseLevelFilterOptions(k: int)
    requires 1 <= k <= 5
    ensures ParseLevelFilter(Some(Text.NatToString(k))) == Some(Num(k))
    ensures ParseLevelFilter(Some(LevelLabel(k))) == Some(Num(k))
  {
    Text.NatToStringRoundTrip(k);
    LabelIsPlainText(k);
    LabelsRoundTrip(k);
  }

  /** A level label is no number, and `trim` leaves it as it is. */
  lemma LabelIsPlainText(k: int)
    requires 1 <= k <= 5
    ensures !Text.AllDigits(LevelLabel(k)) && Text.Trim(LevelLabel(k)) == LevelLabel(k)
  {
    var l := LevelLabel(k);
    assert !Text.IsDigit(l[0]);
    assert !Text.IsJsSpace(l[0]) && !Text.IsJsSpace(l[|l| - 1]);
    assert Text.TrimStart(l) == l;
    assert Text.TrimEnd(l) == l;
  }

  /** A number outside 1..5 selects nothing. */
  lemma ParseLevelFilterOutOfRange(n: nat)
    requires n == 0 || n > 5
    ensures ParseLevelFilter(Some(Text.NatToString(n))) == None
  {
    Text.NatToStringRoundTrip(n);
  }

  /**
   * The older pages keep the raw select value: `if (level)` and then
   * `Number(level)`, filtering only when that is neither 0 nor `NaN`.
   */
  function LevelKeyOfText(level: string): (r: Option<int>)
    ensures r.Some? ==> r.value != 0 && Text.JsNumber(level) == r
    ensures level == "" || Text.JsNumber(level).None? || Text.JsNumber(level) == Some(0) ==> r.None?
  {
    if level == "" then None
    else match Text.JsNumber(level)
      case None => None
      case Some(v) => if v == 0 then None else Some(v)
  }

  /** "0" turns the level filter off; "1".."5" select that level. */
  lemma LevelKeyOfTextOptions(n: nat)
    ensures LevelKeyOfText(Text.NatToString(n)) == if n == 0 then None else Some(n)
  {
    var s := Text.NatToString(n);
    assert Text.TrimStart(s) == s;
    assert Text.TrimEnd(s) == s;
    Text.NatToStringRoundTrip(n);
  }

  // ----- the left-list filters -----

  function NameOf(m: Member): string { m.name.GetOr("") }

  function SearchKey(search: string): string { Text.ToLower(Text.Trim(search)) }

  /** The alpha filter, set when a letter is chosen. */
  function AlphaFilter(alpha: string): Option<Member -> bool> {
    if alpha != "" then Some(ByAlpha(alpha)) else None
  }

  /** The search filter, set when the trimmed lower-case text is not empty. */
  function SearchFilter(search: string): Option<Member -> bool> {
    if search != "" && SearchKey(search) != "" then Some(BySearch(SearchKey(search))) else None
  }

  /** The level filter, set when `state.levelFilter` is not `null`. */
  function LevelFilter(level: Option<LevelKey>): Option<Member -> bool> {
    if level.Some? then Some(ByLevel(level.value)) else None
  }

  predicate AlphaOk(m: Member, alpha: string) { Passes(AlphaFilter(alpha), m) }
  predicate SearchOk(m: Member, search: string) { Passes(SearchFilter(search), m) }
  predicate LevelOk(m: Member, level: Option<LevelKey>) { Passes(LevelFilter(level), m) }

  /** What each filter admits, spelled out. */
  lemma FilterMeanings(m: Member, alpha: string, search: string, level: Option<LevelKey>)
    ensures AlphaOk(m, alpha) <==> alpha == "" || Text.StartsWith(Text.ToUpper(NameOf(m)), alpha)
    ensures SearchOk(m, search) <==>
            search == "" || SearchKey(search) == "" || Text.Includes(Text.ToLower(NameOf(m)), SearchKey(search))
    ensures LevelOk(m, level) <==> level.None? || (level.value.Num? && LevelOr0(m.level) == Some(level.value.n))
  {
  }

  /** `m => (m.name || "").toUpperCase().startsWith(alpha)`. */
  function ByAlpha(alpha: string): Member -> bool {
    (m: Member) => Text.StartsWith(Text.ToUpper(NameOf(m)), alpha)
  }

  /** `m => (m.name || "").toLowerCase().includes(q)`. */
  function BySearch(q: string): Member -> bool {
    (m: Member) => Text.Includes(Text.ToLower(NameOf(m)), q)
  }

  /** `m => Number(m.level || 0) === level`: an inherited member equals no number. */
  function ByLevel(level: LevelKey): Member -> bool {
    (m: Member) => level.Num? && LevelOr0(m.level) == Some(level.n)
  }

  /** A filter that is applied only when it is set. */
  function FilterIf<T>(s: seq<T>, p: Option<T -> bool>): seq<T> {
    if p.Some? then Filter(s, p.value) else s
  }

  /** Three optional filters one after the other. */
  function Chain<T>(list: seq<T>, p1: Option<T -> bool>, p2: Option<T -> bool>, p3: Option<T -> bool>): seq<T> {
    FilterIf(FilterIf(FilterIf(list, p1), p2), p3)
  }

  predicate Passes<T>(p: Option<T -> bool>, x: T) { p.None? || p.value(x) }

  lemma FilterIfSpec<T>(s: seq<T>, p: Option<T -> bool>, x: T)
    ensures SubseqOf(FilterIf(s, p), s)
    ensures x in FilterIf(s, p) <==> x in s && Passes(p, x)
  {
    if p.Some? {
      FilterIsSubseq(s, p.value);
      FilterMembership(s, p.value, x);
    } else {
      SubseqRefl(s);
    }
  }

  lemma ChainSpec<T>(list: seq<T>, p1: Option<T -> bool>, p2: Option<T -> bool>, p3: Option<T -> bool>, x: T)
    ensures SubseqOf(Chain(list, p1, p2, p3), list)
    ensures x in Chain(list, p1, p2, p3) <==> x in list && Passes(p1, x) && Passes(p2, x) && Passes(p3, x)
  {
    var a := FilterIf(list, p1);
    var b := FilterIf(a, p2);
    FilterIfSpec(list, p1, x);
    FilterIfSpec(a, p2, x);
    FilterIfSpec(b, p3, x);
    SubseqTrans(Chain(list, p1, p2, p3), b, a);
    SubseqTrans(Chain(list, p1, p2, p3), a, list);
  }

  /**
   * `applyFilters(list)`: the alpha prefix (upper case), then the trimmed
   * lower-case search text, then the level, each only when set. `level` is
   * the filter value, `None` when the page's level filter is off.
   */
  function ApplyFilters(list: seq<Member>, alpha: string, search: string, level: Option<LevelKey>): seq<Member> {
    Chain(list, AlphaFilter(alpha), SearchFilter(search), LevelFilter(level))
  }

  /**
   * The filtered list keeps the input's order, and holds exactly the members
   * passing every active filter.
   */
  lemma ApplyFiltersSpec(list: seq<Member>, alpha: string, search: string, level: Option<LevelKey>, m: Member)
    ensures SubseqOf(ApplyFilters(list, alpha, search, level), list)
    ensures m in ApplyFilters(list, alpha, search, level) <==>
            m in list && AlphaOk(m, alpha) && SearchOk(m, search) && LevelOk(m, level)
  {
    ChainSpec(list, AlphaFilter(alpha), SearchFilter(search), LevelFilter(level), m);
  }

  /**
   * A level filter holding an inherited member (the text "constructor", say)
   * is active but equals no member's level, so the list comes out empty.
   */
  lemma InheritedFilterHidesAll(list: seq<Member>, alpha: string, search: string)
    ensures ParseLevelFilter(Some("constructor")) == Some(Inherited)
    ensures ApplyFilters(list, alpha, search, Some(Inherited)) == []
  {
    ConstructorIsInherited();
    FilterNone(FilterIf(FilterIf(list, AlphaFilter(alpha)), SearchFilter(search)), ByLevel(Inherited));
  }

  /** "constructor" is no number and has no space to trim, and `Object.prototype` provides it. */
  lemma ConstructorIsInherited()
    ensures ParseLevelFilter(Some("constructor")) == Some(Inherited)
  {
    var s := "constructor";
    assert s[0] == 'c' && !Text.IsDigit(s[0]);
    assert !Text.AllDigits(s);
    assert !Text.IsJsSpace(s[0]);
    assert Text.TrimStart(s) == s;
    assert !Text.IsJsSpace(s[|s| - 1]);
    assert Text.TrimEnd(s) == s;
    assert s in ObjectPrototypeNames;
  }

  lemma {:induction false} SubseqRefl<T>(s: seq<T>)
    ensures SubseqOf(s, s)
  {
    if s != [] {
      SubseqRefl(s[1..]);
    }
  }

  lemma {:induction false} SubseqTrans<T>(a: seq<T>, b: seq<T>, c: seq<T>)
    requires SubseqOf(a, b) && SubseqOf(b, c)
    ensures SubseqOf(a, c)
    decreases |c|
  {
    if a != [] && c != [] {
      if b[0] == c[0] {
        if a[0] == b[0] {
          SubseqTrans(a[1..], b[1..], c[1..]);
        } else {
          SubseqTrans(a, b[1..], c[1..]);
        }
      } else {
        SubseqTrans(a, b, c[1..]);
        SubseqSkip(a, c);
      }
    }
  }

  // ----- the alphabet bar -----

  const Alphabet := "ABCDEFGHIJKLMNOPQRSTUVWXYZ"

  /** The letters of `renderAlphaPagination`, one button each. */
  function AlphaButtons(): (r: seq<string>)
    ensures |r| == 26
    ensures forall i :: 0 <= i < 26 ==> r[i] == [Alphabet[i]]
  {
    seq(26, i requires 0 <= i < 26 => [Alphabet[i]])
  }

  /** The buttons are A through Z in order, each a single upper-case letter. */
  lemma AlphaButtonsAreAtoZ()
    ensures forall i :: 0 <= i < 26 ==> AlphaButtons()[i] == [('A' as int + i) as char]
    ensures forall i :: 0 <= i < 26 ==> Text.ToUpper(AlphaButtons()[i]) == AlphaButtons()[i]
  {
    forall i | 0 <= i < 26 ensures Alphabet[i] == ('A' as int + i) as char {
      AlphabetAt(i);
    }
  }

  lemma AlphabetAt(i: int)
    requires 0 <= i < 26
    ensures Alphabet[i] == ('A' as int + i) as char
  {
    if i < 13 {
      if i < 6 {
        if i == 0 {} else if i == 1 {} else if i == 2 {} else if i == 3 {} else if i == 4 {} else {}
      } else {
        if i == 6 {} else if i == 7 {} else if i == 8 {} else if i == 9 {} else if i == 10 {} else if i == 11 {} else {}
      }
    } else {
      if i < 19 {
        if i == 13 {} else if i == 14 {} else if i == 15 {} else if i == 16 {} else if i == 17 {} else {}
      } else {
        if i == 19 {} else if i == 20 {} else if i == 21 {} else if i == 22 {} else if i == 23 {} else if i == 24 {} else {}
      }
    }
  }

  // ----- the day roster -----

  /** `!!list.find(a => a.id === x)?.arrived`: the flag of the first entry for `x`, false if none. */
  function FindArrived(list: seq<DayEntry>, x: string): (b: bool)
    ensures x !in Ids(list) ==> !b
  {
    if list == [] then false
    else if list[0].id == x then list[0].arrived
    else
      assert Ids(list[1..]) == Ids(list)[1..];
      FindArrived(list[1..], x)
  }

  /** `ids.map(x => ({id: x, arrived: !!(state.dayList.find(...)?.arrived)}))`. */
  function Rebuild(ids: seq<string>, list: seq<DayEntry>): (r: seq<DayEntry>)
    ensures Ids(r) == ids
  {
    seq(|ids|, i requires 0 <= i < |ids| => DayEntry(ids[i], FindArrived(list, ids[i])))
  }

  /** `ids.map(x => ({id: x, arrived: false}))`. */
  function ResetFlags(ids: seq<string>): (r: seq<DayEntry>)
    ensures Ids(r) == ids
    ensures forall i :: 0 <= i < |r| ==> !r[i].arrived
  {
    seq(|ids|, i requires 0 <= i < |ids| => DayEntry(ids[i], false))
  }

  /** `picked.add(id)` on `new Set(ids)`, read back with `Array.from`. */
  function AddedIds(list: seq<DayEntry>, id: string): seq<string> {
    Dedup(Ids(list)) + [id]
  }

  /** `picked.delete(id)` on `new Set(ids)`, read back with `Array.from`. */
  function CancelledIds(list: seq<DayEntry>, id: string): seq<string> {
    Filter(Dedup(Ids(list)), (x: string) => x != id)
  }

  /** The ids after an add of a new id are distinct, and end with it. */
  lemma AddedDistinct(list: seq<DayEntry>, id: string)
    requires id !in Ids(list)
    ensures Distinct(AddedIds(list, id))
    ensures Distinct(Ids(list)) ==> AddedIds(list, id) == Ids(list) + [id]
  {
    var d := Dedup(Ids(list));
    assert id !in d;
    DistinctAppend(d, id);
    if Distinct(Ids(list)) {
      DedupDistinct(Ids(list));
    }
  }

  /** The ids after a cancel are distinct and lack the cancelled id. */
  lemma CancelledDistinct(list: seq<DayEntry>, id: string)
    ensures Distinct(CancelledIds(list, id))
    ensures id !in CancelledIds(list, id)
    ensures Distinct(Ids(list)) ==> CancelledIds(list, id) == Filter(Ids(list), (x: string) => x != id)
  {
    FilterDistinct(Dedup(Ids(list)), (x: string) => x != id);
    if Distinct(Ids(list)) {
      DedupDistinct(Ids(list));
    }
  }

  /** `ids.splice(tgt, 0, ids.splice(src, 1)[0])` when both ids are present and differ; `None` otherwise. */
  function ReorderedIds(list: seq<DayEntry>, srcId: string, tgtId: string): (r: Option<seq<string>>)
    ensures r.Some? <==> srcId in Ids(list) && tgtId in Ids(list) && srcId != tgtId
  {
    var ids := Ids(list);
    var s := IndexOf(ids, srcId);
    var t := IndexOf(ids, tgtId);
    if s > -1 && t > -1 && s != t then Some(MoveTo(ids, s, t)) else None
  }

  /** With distinct ids, the flag found for an entry's id is that entry's own. */
  lemma {:induction false} FindArrivedOfEntry(list: seq<DayEntry>, k: nat)
    requires Distinct(Ids(list)) && k < |list|
    ensures FindArrived(list, list[k].id) == list[k].arrived
  {
    if k > 0 {
      assert Ids(list)[0] != Ids(list)[k];
      assert Ids(list[1..]) == Ids(list)[1..];
      FindArrivedOfEntry(list[1..], k - 1);
    }
  }

  lemma FindArrivedOfMember(list: seq<DayEntry>, e: DayEntry)
    requires Distinct(Ids(list)) && e in list
    ensures FindArrived(list, e.id) == e.arrived
  {
    var k :| 0 <= k < |list| && list[k] == e;
    FindArrivedOfEntry(list, k);
  }

  /** Rebuilding a roster with distinct ids from its own ids gives it back. */
  lemma RebuildSelf(list: seq<DayEntry>)
    requires Distinct(Ids(list))
    ensures Rebuild(Ids(list), list) == list
  {
    forall k | 0 <= k < |list| ensures Rebuild(Ids(list), list)[k] == list[k] {
      FindArrivedOfEntry(list, k);
    }
  }

  /**
   * Adding a new id to a roster with distinct ids appends it, not arrived;
   * the other entries keep their order and flags.
   */
  lemma AddKeepsFlags(list: seq<DayEntry>, id: string)
    requires Distinct(Ids(list)) && id !in Ids(list)
    ensures Rebuild(AddedIds(list, id), list) == list + [DayEntry(id, false)]
    ensures Distinct(Ids(list + [DayEntry(id, false)]))
  {
    DedupDistinct(Ids(list));
    var ids := Ids(list) + [id];
    assert AddedIds(list, id) == ids;
    var r := Rebuild(ids, list);
    var want := list + [DayEntry(id, false)];
    assert |r| == |want|;
    forall k | 0 <= k < |list| ensures r[k] == want[k] {
      FindArrivedOfEntry(list, k);
    }
    assert r[|list|] == DayEntry(id, FindArrived(list, id));
    assert Ids(want) == ids;
  }

  /** Cancelling removes exactly the entries for that id; the rest keep their order and flags. */
  lemma CancelKeepsFlags(list: seq<DayEntry>, id: string)
    requires Distinct(Ids(list))
    ensures Rebuild(CancelledIds(list, id), list) == Filter(list, (e: DayEntry) => e.id != id)
  {
    DedupDistinct(Ids(list));
    FilterIds(list, id);
    var kept := Filter(list, (e: DayEntry) => e.id != id);
    assert Ids(kept) == CancelledIds(list, id);
    FilterDistinctIds(list, id);
    forall k | 0 <= k < |kept| ensures Rebuild(Ids(kept), list)[k] == kept[k] {
      assert kept[k] in kept;
      FilterMembership(list, (e: DayEntry) => e.id != id, kept[k]);
      FindArrivedOfMember(list, kept[k]);
    }
  }

  lemma {:induction false} FilterIds(list: seq<DayEntry>, id: string)
    ensures Ids(Filter(list, (e: DayEntry) => e.id != id)) == Filter(Ids(list), (x: string) => x != id)
  {
    if list != [] {
      FilterIds(list[1..], id);
      assert Ids(list[1..]) == Ids(list)[1..];
    }
  }

  lemma FilterDistinctIds(list: seq<DayEntry>, id: string)
    requires Distinct(Ids(list))
    ensures Distinct(Ids(Filter(list, (e: DayEntry) => e.id != id)))
  {
    FilterIds(list, id);
    FilterDistinct(Ids(list), (x: string) => x != id);
  }

  /** The ids of a moved roster are the moved ids. */
  lemma MoveToIds(list: seq<DayEntry>, s: nat, t: nat)
    requires s < |list| && t < |list|
    ensures Ids(MoveTo(list, s, t)) == MoveTo(Ids(list), s, t)
  {
    var ids := Ids(list);
    assert Ids(RemoveAt(list, s)) == RemoveAt(ids, s);
    var rest := RemoveAt(list, s);
    assert Ids(InsertAt(rest, t, list[s])) == InsertAt(Ids(rest), t, ids[s]);
  }

  /**
   * Reordering a roster with distinct ids moves the source entry, with its
   * flag, to the target's index; the result has the same entries.
   */
  lemma ReorderKeepsFlags(list: seq<DayEntry>, srcId: string, tgtId: string)
    requires Distinct(Ids(list))
    ensures var r := ReorderedIds(list, srcId, tgtId);
            r.Some? ==> (var s := IndexOf(Ids(list), srcId);
                         var t := IndexOf(Ids(list), tgtId);
                         var moved := Rebuild(r.value, list);
                         moved == MoveTo(list, s, t)
                         && moved[t] == list[s] && list[s].id == srcId
                         && multiset(moved) == multiset(list))
  {
    var r := ReorderedIds(list, srcId, tgtId);
    if r.Some? {
      var s := IndexOf(Ids(list), srcId);
      var t := IndexOf(Ids(list), tgtId);
      var m := MoveTo(list, s, t);
      MoveToIds(list, s, t);
      forall k | 0 <= k < |m| ensures Rebuild(r.value, list)[k] == m[k] {
        assert m[k] in multiset(list);
        FindArrivedOfMember(list, m[k]);
      }
    }
  }

  /** The older pages reset flags: the same ids as the flag-keeping rebuild, none arrived. */
  lemma ResetMatchesIds(ids: seq<string>, list: seq<DayEntry>)
    ensures Ids(ResetFlags(ids)) == Ids(Rebuild(ids, list))
    ensures forall i :: 0 <= i < |ids| ==> ResetFlags(ids)[i] == Rebuild(ids, list)[i].(arrived := false)
  {
  }

  /** `loadDayList` of the older pages: `playerIds` (or []) with every flag off. */
  function LoadDayList(d: DayDoc): (r: seq<DayEntry>)
    ensures Ids(r) == d.fields.playerIds.GetOr([])
    ensures forall i :: 0 <= i < |r| ==> !r[i].arrived
  {
    ResetFlags(d.fields.playerIds.GetOr([]))
  }

  /** `dayList.filter(x => x.id !== id)`, as the delete button does. */
  function Pruned(list: seq<DayEntry>, id: string): (r: seq<DayEntry>)
    ensures |r| <= |list|
    ensures forall e :: e in r <==> e in list && e.id != id
    ensures |r| == |list| <==> id !in Ids(list)
  {
    var p := (e: DayEntry) => e.id != id;
    forall e ensures e in Filter(list, p) <==> e in list && p(e) {
      FilterMembership(list, p, e);
    }
    PrunedLength(list, id);
    Filter(list, p)
  }

  lemma {:induction false} PrunedLength(list: seq<DayEntry>, id: string)
    ensures |Filter(list, (e: DayEntry) => e.id != id)| == |list| <==> id !in Ids(list)
  {
    if list != [] {
      PrunedLength(list[1..], id);
      assert Ids(list[1..]) == Ids(list)[1..];
      assert Ids(list) == [list[0].id] + Ids(list[1..]);
    }
  }
}
