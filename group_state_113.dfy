/**
 * Group state, build 1.1.3 (`group_state.1.1.3.js`): groups with an invite
 * code and a soft `deleted` flag, per-group membership documents with a role
 * and an `active` flag, and a per-user mirror list of groups; joining by
 * code, leaving, deleting, and the group lists of the switcher.
 *
 * Store layout (map keys): `groups/{gid}`, `groupMembers/{gid}/members/{uid}`
 * keyed by `(gid, uid)`, `ownerGroups/{uid}/list/{gid}` keyed by `(uid, gid)`.
 */
module GroupState113 {
  import opened Common
  import opened Seqs
  import opened Text
  import opened GroupCommon

  /** The `localStorage` key of the current group id in this build. */
  const CurrentGroupKey := "bm.currentGroupId"

  /** The 32 characters of invite codes: no `I`, `O`, `0` or `1`. */
  const InviteDict := "ABCDEFGHJKLMNPQRSTUVWXYZ23456789"

  predicate Lookalike(c: char) {
    c == 'I' || c == 'O' || c == '0' || c == '1'
  }

  lemma DictHasNoLookalikes()
    ensures |InviteDict| == 32
    ensures forall i :: 0 <= i < |InviteDict| ==> !Lookalike(InviteDict[i])
  {
  }

  /**
   * `makeInviteCode(len)`: `picks[i]` is `Math.floor(Math.random() * 32)` of
   * round `i`, the random choice.
   */
  method MakeInviteCode(len: nat, picks: seq<nat>) returns (code: string)
    requires |picks| == len && forall i :: 0 <= i < len ==> picks[i] < |InviteDict|
    ensures |code| == len
    ensures forall i :: 0 <= i < len ==> code[i] == InviteDict[picks[i]]
    ensures forall i :: 0 <= i < len ==> code[i] in InviteDict && !Lookalike(code[i])
  {
    DictHasNoLookalikes();
    code := "";
    var i := 0;
    while i < len
      invariant 0 <= i <= len && |code| == i
      invariant forall k :: 0 <= k < i ==> code[k] == InviteDict[picks[k]]
    {
      code := code + [InviteDict[picks[i]]];
      i := i + 1;
    }
  }

  // ----- documents -----

  /** `groups/{gid}`: a missing name or code reads as `""`; `deleted` is whatever was written, if anything. */
  datatype Group = Group(name: string, ownerUid: string, inviteCode: string, deleted: Option<bool>)

  /** `groupMembers/{gid}/members/{uid}`: a missing role reads as `""`. */
  datatype Membership = Membership(role: string, active: Option<bool>)

  /** `ownerGroups/{uid}/list/{gid}`. */
  datatype Mirror = Mirror(name: string, role: string)

  predicate IsDeleted(g: Group) {
    g.deleted == Some(true)
  }

  /** The role a join writes: `"owner"` exactly for the group's owner. */
  function JoinRole(g: Group, uid: string): (role: string)
    ensures role == "owner" <==> uid == g.ownerUid
  {
    if uid == g.ownerUid then "owner" else "member"
  }

  /** `setDoc(…, {active: false}, {merge: true})` on a membership document. */
  function Deactivated(members: map<(string, string), Membership>, key: (string, string)): (m: Membership)
    ensures m.active == Some(false)
    ensures key in members ==> m.role == members[key].role
  {
    if key in members then members[key].(active := Some(false)) else Membership("", Some(false))
  }

  /** Invite codes compare after upper-casing, a missing code counting as `""`. */
  predicate CodeMatches(g: Group, code: Option<string>) {
    ToUpper(g.inviteCode) == ToUpper(code.GetOr(""))
  }

  // ----- role resolution of listMyGroups -----

  /**
   * The role under which one group is listed, or `None` when it is skipped.
   * `mem` is the membership document, `None` when it is missing or its read
   * throws: then only the owner sees the group, as owner.
   */
  function RoleIn(g: Group, mem: Option<Membership>, uid: string): (r: Option<string>)
    ensures mem.Some? ==> (r.Some? <==> mem.value.active != Some(false))
    ensures mem.Some? && r.Some? ==> r.value == if mem.value.role != "" then mem.value.role else "member"
    ensures mem.None? ==> (r.Some? <==> uid == g.ownerUid)
    ensures mem.None? && r.Some? ==> r.value == "owner"
  {
    if mem.Some? then
      if mem.value.active != Some(false) then Some(if mem.value.role != "" then mem.value.role else "member") else None
    else if g.ownerUid == uid then Some("owner")
    else None
  }

  /**
   * The row of group `gid` in `listMyGroups`: skipped when its read throws
   * (`groupErr`), when it is missing or deleted, or when role resolution
   * drops it; `memberErr` holds the groups whose membership read throws.
   */
  function Row(groups: map<string, Group>, members: map<(string, string), Membership>, uid: string,
               gid: string, groupErr: set<string>, memberErr: set<string>): (r: Option<Listed>)
    ensures r.Some? ==> r.value.id == gid && gid in groups && !IsDeleted(groups[gid]) && gid !in groupErr
    ensures r.Some? ==> r.value.name == groups[gid].name
  {
    if gid in groupErr || gid !in groups || IsDeleted(groups[gid]) then None
    else
      var mem := if gid in memberErr || (gid, uid) !in members then None else Some(members[(gid, uid)]);
      match RoleIn(groups[gid], mem, uid)
      case None => None
      case Some(role) => Some(Listed(gid, groups[gid].name, role))
  }

  /** The rows of `listMyGroups` before sorting, in the order of the mirror query. */
  function Collected(groups: map<string, Group>, members: map<(string, string), Membership>, uid: string,
                     quick: seq<string>, groupErr: set<string>, memberErr: set<string>): seq<Listed>
  {
    CollectRows(quick, gid => Row(groups, members, uid, gid, groupErr, memberErr))
  }

  /** A row is listed exactly when its group came back from the mirror query and was not skipped; distinct ids stay distinct. */
  lemma CollectedSpec(groups: map<string, Group>, members: map<(string, string), Membership>, uid: string,
                      quick: seq<string>, groupErr: set<string>, memberErr: set<string>)
    ensures var rows := Collected(groups, members, uid, quick, groupErr, memberErr);
            forall r :: r in rows <==> r.id in quick && Row(groups, members, uid, r.id, groupErr, memberErr) == Some(r)
    ensures Distinct(quick) ==> Distinct(ListedIds(Collected(groups, members, uid, quick, groupErr, memberErr)))
  {
    CollectRowsSpec(quick, gid => Row(groups, members, uid, gid, groupErr, memberErr));
  }

  /** The query snapshot of `ownerGroups/{uid}/list`: every mirrored group of the user, once. */
  ghost predicate MirrorQuery(mirror: map<(string, string), Mirror>, uid: string, quick: seq<string>) {
    Distinct(quick) && forall g :: g in quick <==> (uid, g) in mirror
  }

  /** The query snapshot of `groups where ownerUid == uid and deleted == false`. */
  ghost predicate OwnerQuery(groups: map<string, Group>, uid: string, ownedIds: seq<string>) {
    Distinct(ownedIds)
    && forall g :: g in ownedIds <==> g in groups && groups[g].ownerUid == uid && groups[g].deleted == Some(false)
  }

  /** `listOwnerGroups` rows, before sorting: each owned group as owner. */
  function OwnedRows(groups: map<string, Group>, ownedIds: seq<string>): (rows: seq<Listed>)
    requires forall g :: g in ownedIds ==> g in groups
    ensures ListedIds(rows) == ownedIds
    ensures forall i :: 0 <= i < |rows| ==> rows[i] == Listed(ownedIds[i], groups[ownedIds[i]].name, "owner")
  {
    seq(|ownedIds|, i requires 0 <= i < |ownedIds| => Listed(ownedIds[i], groups[ownedIds[i]].name, "owner"))
  }

  // ----- the union of listMyGroupsWithOwned -----

  /** The last row of `s` with id `k`: `map.set` overwrites, so the last one wins. */
  function LastWithId(s: seq<Listed>, k: string): (r: Listed)
    requires k in ListedIds(s)
    ensures r in s && r.id == k
    decreases |s|
  {
    if s[|s| - 1].id == k then s[|s| - 1]
    else
      assert ListedIds(s[..|s| - 1]) == ListedIds(s)[..|s| - 1];
      LastWithId(s[..|s| - 1], k)
  }

  /** The value the union keeps for id `k`: my row, promoted to owner if I own the group, else the owned row. */
  function UnionValue(mine: seq<Listed>, owned: seq<Listed>, k: string): Listed
    requires k in ListedIds(mine) || k in ListedIds(owned)
  {
    if k in ListedIds(mine) then
      var cur := LastWithId(mine, k);
      if k in ListedIds(owned) then cur.(myRole := "owner") else cur
    else owned[IndexOf(ListedIds(owned), k)]
  }

  lemma ListedIdsSnoc(s: seq<Listed>, i: int)
    requires 0 <= i < |s|
    ensures ListedIds(s[..i + 1]) == ListedIds(s[..i]) + [s[i].id]
  {
  }

  lemma LastWithIdSnoc(s: seq<Listed>, i: int, k: string)
    requires 0 <= i < |s| && (k in ListedIds(s[..i]) || k == s[i].id)
    ensures ListedIds(s[..i + 1]) == ListedIds(s[..i]) + [s[i].id]
    ensures LastWithId(s[..i + 1], k) == if k == s[i].id then s[i] else LastWithId(s[..i], k)
  {
    ListedIdsSnoc(s, i);
    assert s[..i + 1][..i] == s[..i];
  }

  /** The map after the loop over `mine[..i]`; `order` is its key order. */
  ghost predicate MineLoaded(mine: seq<Listed>, i: int, order: seq<string>, m: map<string, Listed>)
    requires 0 <= i <= |mine|
  {
    Distinct(order)
    && (forall k :: k in order <==> k in ListedIds(mine[..i]))
    && (forall k :: k in m <==> k in order)
    && (forall k :: k in m ==> m[k] == LastWithId(mine[..i], k) && m[k].id == k)
  }

  /** The map after the loop over `mine` and `owned[..j]`. */
  ghost predicate OwnedLoaded(mine: seq<Listed>, owned: seq<Listed>, j: int, order: seq<string>, m: map<string, Listed>)
    requires 0 <= j <= |owned|
  {
    Distinct(order)
    && (forall k :: k in order <==> k in ListedIds(mine) || k in ListedIds(owned[..j]))
    && (forall k :: k in m <==> k in order)
    && (forall k :: k in m ==> m[k] == UnionValue(mine, owned[..j], k) && m[k].id == k)
  }

  lemma MineStep(mine: seq<Listed>, i: int, order: seq<string>, m: map<string, Listed>)
    requires 0 <= i < |mine| && MineLoaded(mine, i, order, m)
    ensures var g := mine[i];
            MineLoaded(mine, i + 1, if g.id in m then order else order + [g.id], m[g.id := g])
  {
    var g := mine[i];
    ListedIdsSnoc(mine, i);
    forall k | k in ListedIds(mine[..i + 1])
      ensures LastWithId(mine[..i + 1], k) == if k == g.id then g else LastWithId(mine[..i], k)
    {
      LastWithIdSnoc(mine, i, k);
    }
  }

  lemma MineDone(mine: seq<Listed>, order: seq<string>, m: map<string, Listed>)
    requires MineLoaded(mine, |mine|, order, m)
    ensures OwnedLoaded(mine, [], 0, order, m)
  {
    assert mine[..|mine|] == mine;
  }

  /** How the value kept for `k` changes when `owned[j]` is taken in. */
  lemma UnionValueStep(mine: seq<Listed>, owned: seq<Listed>, j: int, k: string)
    requires 0 <= j < |owned| && (k in ListedIds(mine) || k in ListedIds(owned[..j + 1]))
    requires forall g :: g in owned ==> g.myRole == "owner"
    ensures ListedIds(owned[..j + 1]) == ListedIds(owned[..j]) + [owned[j].id]
    ensures k != owned[j].id || k in ListedIds(owned[..j]) ==>
              UnionValue(mine, owned[..j + 1], k) == (if k in ListedIds(mine) && k == owned[j].id then LastWithId(mine, k).(myRole := "owner") else UnionValue(mine, owned[..j], k))
    ensures k == owned[j].id && k in ListedIds(mine) ==> UnionValue(mine, owned[..j + 1], k) == LastWithId(mine, k).(myRole := "owner")
    ensures k == owned[j].id && k !in ListedIds(mine) && k !in ListedIds(owned[..j]) ==> UnionValue(mine, owned[..j + 1], k) == owned[j]
    ensures k !in ListedIds(mine) && k in ListedIds(owned[..j]) ==> UnionValue(mine, owned[..j], k).myRole == "owner"
  {
    ListedIdsSnoc(owned, j);
    var ids, ids' := ListedIds(owned[..j]), ListedIds(owned[..j + 1]);
    IndexOfAppend(ids, owned[j].id, k);
    if k !in ListedIds(mine) && k in ids {
      var p := IndexOf(ids, k);
      assert owned[..j + 1][p] == owned[..j][p];
      assert owned[..j][p] in owned;
    }
  }

  lemma OwnedStepNew(mine: seq<Listed>, owned: seq<Listed>, j: int, order: seq<string>, m: map<string, Listed>)
    requires 0 <= j < |owned| && OwnedLoaded(mine, owned, j, order, m)
    requires forall g :: g in owned ==> g.myRole == "owner"
    requires owned[j].id !in m
    ensures OwnedLoaded(mine, owned, j + 1, order + [owned[j].id], m[owned[j].id := owned[j]])
  {
    var g := owned[j];
    var m' := m[g.id := g];
    UnionValueStep(mine, owned, j, g.id);
    forall k | k in m'
      ensures m'[k] == UnionValue(mine, owned[..j + 1], k)
    {
      UnionValueStep(mine, owned, j, k);
    }
  }

  lemma OwnedStepPromote(mine: seq<Listed>, owned: seq<Listed>, j: int, order: seq<string>, m: map<string, Listed>)
    requires 0 <= j < |owned| && OwnedLoaded(mine, owned, j, order, m)
    requires forall g :: g in owned ==> g.myRole == "owner"
    requires owned[j].id in m
    ensures var g := owned[j];
            OwnedLoaded(mine, owned, j + 1, order, m[g.id := m[g.id].(myRole := "owner")])
  {
    var g := owned[j];
    var m' := m[g.id := m[g.id].(myRole := "owner")];
    UnionValueStep(mine, owned, j, g.id);
    forall k | k in m'
      ensures m'[k] == UnionValue(mine, owned[..j + 1], k)
    {
      UnionValueStep(mine, owned, j, k);
    }
  }

  lemma OwnedStepKeep(mine: seq<Listed>, owned: seq<Listed>, j: int, order: seq<string>, m: map<string, Listed>)
    requires 0 <= j < |owned| && OwnedLoaded(mine, owned, j, order, m)
    requires forall g :: g in owned ==> g.myRole == "owner"
    requires owned[j].id in m && m[owned[j].id].myRole == "owner"
    ensures OwnedLoaded(mine, owned, j + 1, order, m)
  {
    var g := owned[j];
    OwnedStepPromote(mine, owned, j, order, m);
    assert m[g.id := m[g.id].(myRole := "owner")] == m;
  }

  /** Reading the values out in key order. */
  lemma UnionDone(mine: seq<Listed>, owned: seq<Listed>, order: seq<string>, m: map<string, Listed>)
    requires OwnedLoaded(mine, owned, |owned|, order, m)
    ensures var vals := seq(|order|, n requires 0 <= n < |order| && order[n] in m => m[order[n]]);
            Distinct(ListedIds(vals))
            && (forall k :: k in ListedIds(vals) <==> k in ListedIds(mine) || k in ListedIds(owned))
            && (forall i :: 0 <= i < |vals| ==> vals[i] == UnionValue(mine, owned, vals[i].id))
  {
    assert owned[..|owned|] == owned;
    var vals := seq(|order|, n requires 0 <= n < |order| && order[n] in m => m[order[n]]);
    assert ListedIds(vals) == order;
  }

  /**
   * The two loops into a JavaScript `Map` (insertion-ordered) and
   * `Array.from(map.values())`: `order` is the map's key order.
   */
  method UnionById(mine: seq<Listed>, owned: seq<Listed>) returns (vals: seq<Listed>)
    requires forall g :: g in owned ==> g.myRole == "owner"
    ensures Distinct(ListedIds(vals))
    ensures forall k :: k in ListedIds(vals) <==> k in ListedIds(mine) || k in ListedIds(owned)
    ensures forall i :: 0 <= i < |vals| ==> vals[i] == UnionValue(mine, owned, vals[i].id)
  {
    var order, m := SetMine(mine);
    MineDone(mine, order, m);
    order, m := SetOwned(mine, owned, order, m);
    UnionDone(mine, owned, order, m);
    vals := seq(|order|, n requires 0 <= n < |order| && order[n] in m => m[order[n]]);
  }

  /** `for (const g of mine) map.set(g.id, g)`. */
  method SetMine(mine: seq<Listed>) returns (order: seq<string>, m: map<string, Listed>)
    ensures MineLoaded(mine, |mine|, order, m)
  {
    order, m := [], map[];
    var i := 0;
    while i < |mine|
      invariant 0 <= i <= |mine| && MineLoaded(mine, i, order, m)
    {
      var g := mine[i];
      MineStep(mine, i, order, m);
      if g.id !in m {
        order := order + [g.id];
      }
      m := m[g.id := g];
      i := i + 1;
    }
  }

  /** The loop over `owned`. */
  method SetOwned(mine: seq<Listed>, owned: seq<Listed>, order0: seq<string>, m0: map<string, Listed>)
    returns (order: seq<string>, m: map<string, Listed>)
    requires forall g :: g in owned ==> g.myRole == "owner"
    requires OwnedLoaded(mine, owned, 0, order0, m0)
    ensures OwnedLoaded(mine, owned, |owned|, order, m)
  {
    order, m := order0, m0;
    var j := 0;
    while j < |owned|
      invariant 0 <= j <= |owned| && OwnedLoaded(mine, owned, j, order, m)
    {
      order, m := TakeOwned(mine, owned, j, order, m);
      j := j + 1;
    }
  }

  /** One turn of the loop over `owned`: a new id is added, a known one is promoted to owner. */
  method TakeOwned(mine: seq<Listed>, owned: seq<Listed>, j: int, order0: seq<string>, m0: map<string, Listed>)
    returns (order: seq<string>, m: map<string, Listed>)
    requires forall g :: g in owned ==> g.myRole == "owner"
    requires 0 <= j < |owned| && OwnedLoaded(mine, owned, j, order0, m0)
    ensures OwnedLoaded(mine, owned, j + 1, order, m)
  {
    order, m := order0, m0;
    var g := owned[j];
    if g.id !in m {
      OwnedStepNew(mine, owned, j, order, m);
      m := m[g.id := g];
      order := order + [g.id];
    } else {
      var cur := m[g.id];
      if cur.myRole != "owner" {
        OwnedStepPromote(mine, owned, j, order, m);
        m := m[g.id := cur.(myRole := "owner")];
      } else {
        OwnedStepKeep(mine, owned, j, order, m);
      }
    }
  }

  /** Sorting the owned rows keeps every one an owner row. */
  lemma SortedOwnedRows(groups: map<string, Group>, ownedIds: seq<string>, le: (string, string) -> bool)
    requires forall id :: id in ownedIds ==> id in groups
    ensures forall g :: g in SortStable(OwnedRows(groups, ownedIds), ByName(le)) ==> g.myRole == "owner"
  {
    forall g | g in SortStable(OwnedRows(groups, ownedIds), ByName(le))
      ensures g.myRole == "owner"
    {
      assert g in multiset(OwnedRows(groups, ownedIds));
    }
  }

  /** Sorting the union by name keeps its rows, its ids and their distinctness. */
  lemma SortKeepsUnion(vals: seq<Listed>, le: (string, string) -> bool)
    requires Distinct(ListedIds(vals))
    ensures var rows := SortStable(vals, ByName(le));
            Distinct(ListedIds(rows))
            && (forall k :: k in ListedIds(rows) <==> k in ListedIds(vals))
            && (forall r :: r in rows ==> r in vals)
            && (TotalPreorder(le) ==> SortedBy(rows, ByName(le)))
  {
    var rows := SortStable(vals, ByName(le));
    PermutedIdsDistinct(vals, rows);
    forall k
      ensures k in ListedIds(rows) <==> k in ListedIds(vals)
    {
      if k in ListedIds(rows) {
        var p :| 0 <= p < |rows| && rows[p].id == k;
        assert rows[p] in multiset(vals);
      }
      if k in ListedIds(vals) {
        var p :| 0 <= p < |vals| && vals[p].id == k;
        assert vals[p] in multiset(rows);
      }
    }
    forall r | r in rows
      ensures r in vals
    {
      assert r in multiset(vals);
    }
    if TotalPreorder(le) {
      SortByNameSpec(vals, le);
    }
  }

  /** The class holding the three collections and the signed-in user. */
  class GroupDb {
    var groups: map<string, Group>
    var members: map<(string, string), Membership>
    var mirror: map<(string, string), Mirror>

    constructor (groups: map<string, Group>, members: map<(string, string), Membership>, mirror: map<(string, string), Mirror>)
      ensures this.groups == groups && this.members == members && this.mirror == mirror
    {
      this.groups, this.members, this.mirror := groups, members, mirror;
    }

    /**
     * `deleteGroup`: a missing group is a no-op, a non-owner gets
     * `"not-owner"` with nothing written, and for the owner the group is
     * flagged deleted and the owner's membership made inactive.
     */
    method DeleteGroup(gid: string, user: Option<string>) returns (st: Status)
      modifies this`groups, this`members
      ensures user.None? ==> st == Thrown("no-auth")
      ensures user.Some? && gid !in old(groups) ==> st == Done
      ensures user.Some? && gid in old(groups) && old(groups)[gid].ownerUid != user.value ==> st == Thrown("not-owner")
      ensures st != Done || gid !in old(groups) ==> groups == old(groups) && members == old(members)
      ensures user.Some? && gid in old(groups) && old(groups)[gid].ownerUid == user.value ==>
                st == Done
                && groups == old(groups)[gid := old(groups)[gid].(deleted := Some(true))]
                && members == old(members)[(gid, user.value) := Deactivated(old(members), (gid, user.value))]
    {
      if user.None? {
        return Thrown("no-auth");
      }
      var uid := user.value;
      if gid !in groups {
        return Done;
      }
      if groups[gid].ownerUid != uid {
        return Thrown("not-owner");
      }
      groups := groups[gid := groups[gid].(deleted := Some(true))];
      members := members[(gid, uid) := Deactivated(members, (gid, uid))];
      st := Done;
    }

    /**
     * `joinByCode`: a missing or deleted group is `"not-found"`, a code that
     * differs after upper-casing is `"invalid-code"`; otherwise the
     * membership becomes active with the owner's role for the owner and
     * `"member"` for anyone else, and the mirror row carries the same role.
     */
    method JoinByCode(gid: string, code: Option<string>, user: Option<string>) returns (st: Status)
      modifies this`members, this`mirror
      ensures user.None? ==> st == Thrown("no-auth")
      ensures user.Some? && (gid !in old(groups) || IsDeleted(old(groups)[gid])) ==> st == Thrown("not-found")
      ensures user.Some? && gid in old(groups) && !IsDeleted(old(groups)[gid]) && !CodeMatches(old(groups)[gid], code) ==>
                st == Thrown("invalid-code")
      ensures st != Done ==> members == old(members) && mirror == old(mirror)
      ensures st == Done <==> user.Some? && gid in old(groups) && !IsDeleted(old(groups)[gid]) && CodeMatches(old(groups)[gid], code)
      ensures st == Done ==>
                var g := old(groups)[gid]; var role := JoinRole(g, user.value);
                members == old(members)[(gid, user.value) := Membership(role, Some(true))]
                && mirror == old(mirror)[(user.value, gid) := Mirror(g.name, role)]
    {
      if user.None? {
        return Thrown("no-auth");
      }
      var uid := user.value;
      if gid !in groups || IsDeleted(groups[gid]) {
        return Thrown("not-found");
      }
      var g := groups[gid];
      if ToUpper(g.inviteCode) != ToUpper(code.GetOr("")) {
        return Thrown("invalid-code");
      }
      members := members[(gid, uid) := Membership(JoinRole(g, uid), Some(true))];
      mirror := mirror[(uid, gid) := Mirror(g.name, JoinRole(g, uid))];
      st := Done;
    }

    /** `leaveGroup`: the membership is made inactive; the mirror row stays. */
    method LeaveGroup(gid: string, user: Option<string>) returns (st: Status)
      modifies this`members
      ensures user.None? ==> st == Thrown("no-auth") && members == old(members)
      ensures user.Some? ==> st == Done && members == old(members)[(gid, user.value) := Deactivated(old(members), (gid, user.value))]
    {
      if user.None? {
        return Thrown("no-auth");
      }
      members := members[(gid, user.value) := Deactivated(members, (gid, user.value))];
      st := Done;
    }

    /**
     * `listMyGroups` over the snapshot `quick` of the user's mirror list:
     * the loop collects the rows role resolution keeps, then sorts them by name.
     */
    method ListMyGroups(user: Option<string>, quick: seq<string>, groupErr: set<string>, memberErr: set<string>,
                        le: (string, string) -> bool) returns (st: Status, rows: seq<Listed>)
      requires user.Some? ==> MirrorQuery(mirror, user.value, quick)
      ensures user.None? ==> st == Thrown("no-auth") && rows == []
      ensures user.Some? ==> st == Done && rows == SortStable(Collected(groups, members, user.value, quick, groupErr, memberErr), ByName(le))
    {
      if user.None? {
        return Thrown("no-auth"), [];
      }
      var uid := user.value;
      var results: seq<Listed> := [];
      var i := 0;
      while i < |quick|
        invariant 0 <= i <= |quick|
        invariant results == Collected(groups, members, uid, quick[..i], groupErr, memberErr)
      {
        var id := quick[i];
        assert quick[..i + 1][..i] == quick[..i];
        if id !in groupErr && id in groups && !IsDeleted(groups[id]) {
          var gd := groups[id];
          var myRole := "member";
          var active := true;
          if id !in memberErr && (id, uid) in members {
            var md := members[(id, uid)];
            myRole := if md.role != "" then md.role else "member";
            active := md.active != Some(false);
          } else if gd.ownerUid == uid {
            myRole := "owner";
          } else {
            active := false;
          }
          if active {
            results := results + [Listed(id, gd.name, myRole)];
          }
        }
        i := i + 1;
      }
      assert quick[..i] == quick;
      rows := SortStable(results, ByName(le));
      st := Done;
    }

    /**
     * `listMyGroupsWithOwned`: my groups and the groups I own (either list
     * counting as empty when its call fails), each id once, owned ones as
     * owner, sorted by name.
     */
    method ListMyGroupsWithOwned(user: Option<string>, quick: seq<string>, groupErr: set<string>, memberErr: set<string>,
                                 mineFails: bool, ownedIds: seq<string>, ownedFails: bool,
                                 le: (string, string) -> bool) returns (st: Status, rows: seq<Listed>)
      requires user.Some? ==> MirrorQuery(mirror, user.value, quick) && OwnerQuery(groups, user.value, ownedIds)
      ensures user.None? ==> st == Thrown("no-auth") && rows == []
      ensures user.Some? ==>
                var mine := if mineFails then [] else SortStable(Collected(groups, members, user.value, quick, groupErr, memberErr), ByName(le));
                var owned := if ownedFails then [] else SortStable(OwnedRows(groups, ownedIds), ByName(le));
                st == Done
                && Distinct(ListedIds(rows))
                && (forall k :: k in ListedIds(rows) <==> k in ListedIds(mine) || k in ListedIds(owned))
                && (forall r :: r in rows ==> r == UnionValue(mine, owned, r.id))
                && (TotalPreorder(le) ==> SortedBy(rows, ByName(le)))
    {
      if user.None? {
        return Thrown("no-auth"), [];
      }
      var uid := user.value;
      var mine: seq<Listed> := [];
      if !mineFails {
        var _, r := ListMyGroups(user, quick, groupErr, memberErr, le);
        mine := r;
      }
      var owned: seq<Listed> := [];
      if !ownedFails {
        owned := SortStable(OwnedRows(groups, ownedIds), ByName(le));
        SortedOwnedRows(groups, ownedIds, le);
      }
      var vals := UnionById(mine, owned);
      rows := SortStable(vals, ByName(le));
      SortKeepsUnion(vals, le);
      st := Done;
    }
  }

  // ----- what the list shows after each write -----

  /** After a successful join, the group is listed with the role the join wrote (unless its reads throw). */
  lemma JoinThenListed(groups: map<string, Group>, members: map<(string, string), Membership>, uid: string, gid: string,
                       groupErr: set<string>, memberErr: set<string>)
    requires gid in groups && !IsDeleted(groups[gid]) && gid !in groupErr && gid !in memberErr
    ensures var m := members[(gid, uid) := Membership(JoinRole(groups[gid], uid), Some(true))];
            Row(groups, m, uid, gid, groupErr, memberErr) == Some(Listed(gid, groups[gid].name, JoinRole(groups[gid], uid)))
  {
  }

  /** After leaving, the group is no longer listed; only an unreadable membership lets the owner still see it. */
  lemma LeaveThenHidden(groups: map<string, Group>, members: map<(string, string), Membership>, uid: string, gid: string,
                        groupErr: set<string>, memberErr: set<string>)
    ensures var m := members[(gid, uid) := Deactivated(members, (gid, uid))];
            Row(groups, m, uid, gid, groupErr, memberErr).Some? ==>
              gid in memberErr && gid in groups && groups[gid].ownerUid == uid
  {
  }

  /** After the owner deletes a group it is listed for nobody. */
  lemma DeleteThenHidden(groups: map<string, Group>, members: map<(string, string), Membership>, uid: string, gid: string,
                         other: string, groupErr: set<string>, memberErr: set<string>)
    requires gid in groups
    ensures var gs := groups[gid := groups[gid].(deleted := Some(true))];
            Row(gs, members, other, gid, groupErr, memberErr).None?
  {
  }
}
