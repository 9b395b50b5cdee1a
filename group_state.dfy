/**
 * Group state, first build (`group_state.js`): groups with a soft
 * `isDeleted` flag, per-group membership documents, the per-user mapping
 * `users/{uid}/groups/{gid}` that the group list is read from, and invite
 * documents that are consumed by a join; the current group falls back to the
 * auto-created `"default"` group when it is left or deleted.
 *
 * Store layout (map keys): `groups/{gid}`, `groups/{gid}/members/{uid}` keyed
 * by `(gid, uid)`, `users/{uid}/groups/{gid}` keyed by `(uid, gid)`,
 * `groups/{gid}/invites/{code}` keyed by `(gid, code)`.
 */
module GroupState {
  import opened Common
  import opened Seqs
  import opened GroupCommon

  /** The `localStorage` key of the current group id in this build. */
  const CurrentGroupKey := "currentGroupId"

  /** The reasons `joinGroup` throws with. */
  const NotSignedIn := "not signed in"
  const InvalidInvite := "โค้ดเชิญไม่ถูกต้อง"
  const RevokedInvite := "โค้ดนี้ถูกยกเลิกแล้ว"

  // ----- documents -----

  /** `groups/{gid}`: a missing name reads as `""`, a missing or falsy `isDeleted` as `false`. */
  datatype GroupDoc = GroupDoc(name: string, ownerUid: Option<string>, isDeleted: bool)

  /** `groups/{gid}/invites/{code}`: `active` as written, if at all, and `createdAt.seconds` once resolved. */
  datatype Invite = Invite(active: Option<bool>, createdAt: Option<int>)

  /** A row of `listInvites`: the code and the invite's fields. */
  datatype InviteRow = InviteRow(id: string, active: Option<bool>, createdAt: Option<int>)

  // ----- ensureOwnerMappings -----

  /** The query snapshot of `groups where ownerUid == uid`: every group the user owns, once. */
  ghost predicate OwnerQuery(groups: map<string, GroupDoc>, uid: string, ownedIds: seq<string>) {
    Distinct(ownedIds) && forall g :: g in ownedIds <==> g in groups && groups[g].ownerUid == Some(uid)
  }

  /** The mappings after the loop of `ensureOwnerMappings` over `ids`: each missing one is written with role `"owner"`. */
  function WithOwnerMappings(mappings: map<(string, string), string>, uid: string, ids: seq<string>): map<(string, string), string>
    decreases |ids|
  {
    if ids == [] then mappings
    else
      var m := WithOwnerMappings(mappings, uid, ids[..|ids| - 1]);
      var key := (uid, ids[|ids| - 1]);
      if key in m then m else m[key := "owner"]
  }

  /**
   * Every owned group ends up mapped; a mapping that existed keeps its role,
   * whatever it was, and only the missing ones are written, as owner.
   */
  lemma {:induction false} WithOwnerMappingsSpec(mappings: map<(string, string), string>, uid: string, ids: seq<string>)
    ensures var r := WithOwnerMappings(mappings, uid, ids);
            (forall k :: k in r <==> k in mappings || (k.0 == uid && k.1 in ids))
            && (forall k :: k in mappings ==> r[k] == mappings[k])
            && (forall k :: k in r && k !in mappings ==> r[k] == "owner")
    decreases |ids|
  {
    if ids != [] {
      var init := ids[..|ids| - 1];
      WithOwnerMappingsSpec(mappings, uid, init);
      assert ids == init + [ids[|ids| - 1]];
    }
  }

  /** Running the loop again writes nothing. */
  lemma {:induction false} WithOwnerMappingsIdempotent(mappings: map<(string, string), string>, uid: string, ids: seq<string>)
    ensures WithOwnerMappings(WithOwnerMappings(mappings, uid, ids), uid, ids) == WithOwnerMappings(mappings, uid, ids)
  {
    var once := WithOwnerMappings(mappings, uid, ids);
    WithOwnerMappingsSpec(mappings, uid, ids);
    AllMappedUnchanged(once, uid, ids);
  }

  lemma {:induction false} AllMappedUnchanged(mappings: map<(string, string), string>, uid: string, ids: seq<string>)
    requires forall g :: g in ids ==> (uid, g) in mappings
    ensures WithOwnerMappings(mappings, uid, ids) == mappings
    decreases |ids|
  {
    if ids != [] {
      AllMappedUnchanged(mappings, uid, ids[..|ids| - 1]);
      assert ids[|ids| - 1] in ids;
    }
  }

  // ----- listMyGroups -----

  /**
   * The row of group `gid` in `listMyGroups`: missing and deleted groups are
   * skipped, and the role is the mapping's, `"member"` when it has none.
   */
  function MappedRow(groups: map<string, GroupDoc>, mappings: map<(string, string), string>, uid: string, gid: string)
    : (r: Option<Listed>)
    ensures r.Some? <==> gid in groups && !groups[gid].isDeleted
    ensures r.Some? ==> r.value.id == gid && r.value.name == groups[gid].name
    ensures r.Some? && (uid, gid) in mappings && mappings[(uid, gid)] != "" ==> r.value.myRole == mappings[(uid, gid)]
    ensures r.Some? && ((uid, gid) !in mappings || mappings[(uid, gid)] == "") ==> r.value.myRole == "member"
  {
    if gid in groups && !groups[gid].isDeleted then
      var role := if (uid, gid) in mappings && mappings[(uid, gid)] != "" then mappings[(uid, gid)] else "member";
      Some(Listed(gid, groups[gid].name, role))
    else None
  }

  /** The query snapshot of `users/{uid}/groups`: every group mapped for the user, once. */
  ghost predicate MappingQuery(mappings: map<(string, string), string>, uid: string, mapped: seq<string>) {
    Distinct(mapped) && forall g :: g in mapped <==> (uid, g) in mappings
  }

  /** The rows before sorting, in the order of the mapping snapshot. */
  function MappedRows(groups: map<string, GroupDoc>, mappings: map<(string, string), string>, uid: string, mapped: seq<string>)
    : seq<Listed>
  {
    CollectRows(mapped, gid => MappedRow(groups, mappings, uid, gid))
  }

  /** A group is listed exactly when it is mapped, exists and is not deleted; each once. */
  lemma MappedRowsSpec(groups: map<string, GroupDoc>, mappings: map<(string, string), string>, uid: string, mapped: seq<string>)
    ensures forall r :: r in MappedRows(groups, mappings, uid, mapped) <==>
              r.id in mapped && r.id in groups && !groups[r.id].isDeleted && MappedRow(groups, mappings, uid, r.id) == Some(r)
    ensures Distinct(mapped) ==> Distinct(ListedIds(MappedRows(groups, mappings, uid, mapped)))
  {
    CollectRowsSpec(mapped, gid => MappedRow(groups, mappings, uid, gid));
  }

  /** `owner` ranks 0, any other role 1. */
  function Rank(r: Listed): int {
    if r.myRole == "owner" then 0 else 1
  }

  /** The comparator `rank(a) - rank(b) || (a.name || "").localeCompare(b.name || "")`, read as "a may come first". */
  function OwnerFirst(le: (string, string) -> bool): (Listed, Listed) -> bool {
    (a: Listed, b: Listed) => Rank(a) < Rank(b) || (Rank(a) == Rank(b) && le(a.name, b.name))
  }

  lemma OwnerFirstIsTotalPreorder(le: (string, string) -> bool)
    requires TotalPreorder(le)
    ensures TotalPreorder(OwnerFirst(le))
  {
    var c := OwnerFirst(le);
    forall a: Listed, b: Listed
      ensures c(a, b) || c(b, a)
    {
      assert le(a.name, b.name) || le(b.name, a.name);
    }
    forall a: Listed, b: Listed, d: Listed | c(a, b) && c(b, d)
      ensures c(a, d)
    {
      if Rank(a) == Rank(b) == Rank(d) {
        assert le(a.name, b.name) && le(b.name, d.name);
      }
    }
  }

  /**
   * The sorted list is a permutation of the rows; every owner row comes
   * before every other row, and rows of the same rank are in name order.
   */
  lemma SortOwnerFirst(rows: seq<Listed>, le: (string, string) -> bool)
    requires TotalPreorder(le)
    ensures var s := SortStable(rows, OwnerFirst(le));
            multiset(s) == multiset(rows)
            && (forall i, j :: 0 <= i < j < |s| && s[j].myRole == "owner" ==> s[i].myRole == "owner")
            && (forall i, j :: 0 <= i < j < |s| && Rank(s[i]) == Rank(s[j]) ==> le(s[i].name, s[j].name))
  {
    var s := SortStable(rows, OwnerFirst(le));
    OwnerFirstIsTotalPreorder(le);
    SortStableSorted(rows, OwnerFirst(le));
    forall i, j | 0 <= i < j < |s|
      ensures s[j].myRole == "owner" ==> s[i].myRole == "owner"
      ensures Rank(s[i]) == Rank(s[j]) ==> le(s[i].name, s[j].name)
    {
      assert OwnerFirst(le)(s[i], s[j]);
      assert Rank(s[i]) <= Rank(s[j]);
    }
  }

  // ----- joining -----

  /** The outcome of `joinGroup`: not signed in, no invite, a revoked invite, or success. */
  function JoinOutcome(invites: map<(string, string), Invite>, gid: string, code: string, user: Option<string>): (st: Status)
    ensures st == Done <==> user.Some? && (gid, code) in invites && invites[(gid, code)].active != Some(false)
  {
    if user.None? then Thrown(NotSignedIn)
    else if (gid, code) !in invites then Thrown(InvalidInvite)
    else if invites[(gid, code)].active == Some(false) then Thrown(RevokedInvite)
    else Done
  }

  /** The invite after a join consumes it: `{active: false}` merged in. */
  function Consumed(invites: map<(string, string), Invite>, key: (string, string)): map<(string, string), Invite>
    requires key in invites
  {
    invites[key := invites[key].(active := Some(false))]
  }

  /** A consumed code cannot join again, and a revoked or consumed invite stays unusable after another revoke. */
  lemma SecondJoinFails(invites: map<(string, string), Invite>, gid: string, code: string, user: Option<string>, other: Option<string>)
    requires JoinOutcome(invites, gid, code, user) == Done
    ensures JoinOutcome(Consumed(invites, (gid, code)), gid, code, other) != Done
    ensures other.Some? ==> JoinOutcome(Consumed(invites, (gid, code)), gid, code, other) == Thrown(RevokedInvite)
  {
  }

  /**
   * As written, a join maps the user as `"member"` whoever they are. For the
   * group's owner, whose mapping said `"owner"`, the mapping is overwritten,
   * `ensureOwnerMappings` leaves it (it only fills in missing mappings), and
   * the list then shows the owner's own group as a member's.
   */
  lemma JoinDemotesOwner(groups: map<string, GroupDoc>, mappings: map<(string, string), string>, uid: string, gid: string,
                         ownedIds: seq<string>)
    requires gid in groups && !groups[gid].isDeleted && groups[gid].ownerUid == Some(uid)
    requires (uid, gid) in mappings && mappings[(uid, gid)] == "owner"
    ensures var after := WithOwnerMappings(mappings[(uid, gid) := "member"], uid, ownedIds);
            MappedRow(groups, after, uid, gid) == Some(Listed(gid, groups[gid].name, "member"))
  {
    WithOwnerMappingsSpec(mappings[(uid, gid) := "member"], uid, ownedIds);
  }

  /** Corrected: the role a join writes is `"owner"` exactly for the group's owner. */
  function JoinRole(groups: map<string, GroupDoc>, gid: string, uid: string): (role: string)
    ensures role == "owner" <==> gid in groups && groups[gid].ownerUid == Some(uid)
    ensures role != "owner" ==> role == "member"
  {
    if gid in groups && groups[gid].ownerUid == Some(uid) then "owner" else "member"
  }

  /** With the corrected role, every joined group that is listed shows the role its owner relation gives. */
  lemma JoinKeepsRole(groups: map<string, GroupDoc>, mappings: map<(string, string), string>, uid: string, gid: string,
                      ownedIds: seq<string>)
    requires gid in groups && !groups[gid].isDeleted
    ensures var after := WithOwnerMappings(mappings[(uid, gid) := JoinRole(groups, gid, uid)], uid, ownedIds);
            MappedRow(groups, after, uid, gid) == Some(Listed(gid, groups[gid].name, JoinRole(groups, gid, uid)))
            && (groups[gid].ownerUid == Some(uid) ==> Rank(Listed(gid, groups[gid].name, JoinRole(groups, gid, uid))) == 0)
  {
    WithOwnerMappingsSpec(mappings[(uid, gid) := JoinRole(groups, gid, uid)], uid, ownedIds);
  }

  // ----- listOwnerGroups -----

  /**
   * The row of group `gid` in `listOwnerGroups`: only a mapping whose role
   * is `"owner"` counts (a missing or empty role reads as `"member"`), and the
   * group must exist and not be deleted.
   */
  function OwnerRow(groups: map<string, GroupDoc>, mappings: map<(string, string), string>, uid: string, gid: string)
    : (r: Option<Listed>)
    ensures r.Some? <==> gid in groups && !groups[gid].isDeleted && (uid, gid) in mappings && mappings[(uid, gid)] == "owner"
    ensures r.Some? ==> r.value == Listed(gid, groups[gid].name, "owner")
    ensures r.Some? ==> r == MappedRow(groups, mappings, uid, gid)
  {
    var row := MappedRow(groups, mappings, uid, gid);
    if row.Some? && row.value.myRole == "owner" then row else None
  }

  /**
   * `listOwnerGroups`: signed out it is empty; otherwise the owner rows of
   * the mapping snapshot `mapped`, sorted by name.
   */
  function OwnerGroups(groups: map<string, GroupDoc>, mappings: map<(string, string), string>, user: Option<string>,
                       mapped: seq<string>, le: (string, string) -> bool): seq<Listed>
  {
    if user.None? then []
    else SortStable(CollectRows(mapped, gid => OwnerRow(groups, mappings, user.value, gid)), ByName(le))
  }

  /**
   * A row is listed exactly when its group is mapped to the user as owner,
   * exists and is not deleted; the list is in name order, each group once,
   * and signed out it is empty.
   */
  lemma OwnerGroupsSpec(groups: map<string, GroupDoc>, mappings: map<(string, string), string>, user: Option<string>,
                        mapped: seq<string>, le: (string, string) -> bool)
    requires TotalPreorder(le)
    ensures user.None? ==> OwnerGroups(groups, mappings, user, mapped, le) == []
    ensures user.Some? ==>
              var s := OwnerGroups(groups, mappings, user, mapped, le);
              (forall r :: r in s <==> r.id in mapped && r.id in groups && !groups[r.id].isDeleted
                                       && (user.value, r.id) in mappings && mappings[(user.value, r.id)] == "owner"
                                       && r == Listed(r.id, groups[r.id].name, "owner"))
              && SortedBy(s, ByName(le))
              && (Distinct(mapped) ==> Distinct(ListedIds(s)))
  {
    if user.Some? {
      var row := gid => OwnerRow(groups, mappings, user.value, gid);
      var rows := CollectRows(mapped, row);
      CollectRowsSpec(mapped, row);
      SortByNameSpec(rows, le);
      var s := SortStable(rows, ByName(le));
      forall r ensures r in s <==> r in rows {
        assert r in s <==> multiset(s)[r] > 0;
        assert r in rows <==> multiset(rows)[r] > 0;
      }
      if Distinct(mapped) {
        PermutedIdsDistinct(rows, s);
      }
    }
  }

  /**
   * As written, after the owner joins their own group the group also drops
   * out of `listOwnerGroups`, which `mountOwnerGroupSwitcher` lists first.
   */
  lemma JoinDropsOwnerGroup(groups: map<string, GroupDoc>, mappings: map<(string, string), string>, uid: string, gid: string,
                            ownedIds: seq<string>, mapped: seq<string>, le: (string, string) -> bool)
    requires TotalPreorder(le)
    requires gid in groups && !groups[gid].isDeleted && groups[gid].ownerUid == Some(uid)
    requires (uid, gid) in mappings && mappings[(uid, gid)] == "owner"
    requires gid in mapped
    ensures gid in ListedIds(OwnerGroups(groups, mappings, Some(uid), mapped, le))
    ensures gid !in ListedIds(OwnerGroups(groups, WithOwnerMappings(mappings[(uid, gid) := "member"], uid, ownedIds), Some(uid), mapped, le))
  {
    var after := WithOwnerMappings(mappings[(uid, gid) := "member"], uid, ownedIds);
    WithOwnerMappingsSpec(mappings[(uid, gid) := "member"], uid, ownedIds);
    OwnerGroupsSpec(groups, mappings, Some(uid), mapped, le);
    OwnerGroupsSpec(groups, after, Some(uid), mapped, le);
    var before := OwnerGroups(groups, mappings, Some(uid), mapped, le);
    var r := Listed(gid, groups[gid].name, "owner");
    assert r in before;
    var k :| 0 <= k < |before| && before[k] == r;
    assert ListedIds(before)[k] == gid;
    var s := OwnerGroups(groups, after, Some(uid), mapped, le);
    forall i | 0 <= i < |s|
      ensures ListedIds(s)[i] != gid
    {
      assert s[i] in s;
    }
  }

  /** With the corrected role, the owner's own group stays in `listOwnerGroups` after the join. */
  lemma JoinKeepsOwnerGroup(groups: map<string, GroupDoc>, mappings: map<(string, string), string>, uid: string, gid: string,
                            ownedIds: seq<string>, mapped: seq<string>, le: (string, string) -> bool)
    requires TotalPreorder(le)
    requires gid in groups && !groups[gid].isDeleted && groups[gid].ownerUid == Some(uid)
    requires gid in mapped
    ensures gid in ListedIds(OwnerGroups(groups, WithOwnerMappings(mappings[(uid, gid) := JoinRole(groups, gid, uid)], uid, ownedIds),
                                         Some(uid), mapped, le))
  {
    var after := WithOwnerMappings(mappings[(uid, gid) := JoinRole(groups, gid, uid)], uid, ownedIds);
    WithOwnerMappingsSpec(mappings[(uid, gid) := JoinRole(groups, gid, uid)], uid, ownedIds);
    OwnerGroupsSpec(groups, after, Some(uid), mapped, le);
    var s := OwnerGroups(groups, after, Some(uid), mapped, le);
    var r := Listed(gid, groups[gid].name, "owner");
    assert r in s;
    var k :| 0 <= k < |s| && s[k] == r;
    assert ListedIds(s)[k] == gid;
  }

  // ----- listInvites -----

  /** `createdAt?.seconds || 0`. */
  function Seconds(r: InviteRow): int {
    r.createdAt.GetOr(0)
  }

  /** The comparator `(b.seconds || 0) - (a.seconds || 0)`: newest first. */
  function NewestFirst(): (InviteRow, InviteRow) -> bool {
    (a: InviteRow, b: InviteRow) => -Seconds(a) <= -Seconds(b)
  }

  /** The query snapshot of `groups/{gid}/invites`: every invite of the group, once. */
  ghost predicate InviteQuery(invites: map<(string, string), Invite>, gid: string, codes: seq<string>) {
    Distinct(codes) && forall c :: c in codes <==> (gid, c) in invites
  }

  function InviteRowOf(invites: map<(string, string), Invite>, gid: string, code: string): (r: InviteRow)
    requires (gid, code) in invites
    ensures r.id == code && r.active == invites[(gid, code)].active && r.createdAt == invites[(gid, code)].createdAt
  {
    var inv := invites[(gid, code)];
    InviteRow(code, inv.active, inv.createdAt)
  }

  /** The rows `snap.forEach` pushes, in snapshot order. */
  function InviteRows(invites: map<(string, string), Invite>, gid: string, codes: seq<string>): seq<InviteRow>
    requires forall c :: c in codes ==> (gid, c) in invites
  {
    seq(|codes|, i requires 0 <= i < |codes| => InviteRowOf(invites, gid, codes[i]))
  }

  /**
   * The sorted invites are the group's invites, each once, newest first, with
   * invites created in the same second (or both missing a time) in snapshot order.
   */
  lemma InviteOrder(invites: map<(string, string), Invite>, gid: string, codes: seq<string>, e: InviteRow)
    requires forall c :: c in codes ==> (gid, c) in invites
    ensures var s := SortStable(InviteRows(invites, gid, codes), NewestFirst());
            multiset(s) == multiset(InviteRows(invites, gid, codes))
            && (forall i, j :: 0 <= i < j < |s| ==> Seconds(s[i]) >= Seconds(s[j]))
            && Filter(s, TiesWith(NewestFirst(), e)) == Filter(InviteRows(invites, gid, codes), TiesWith(NewestFirst(), e))
  {
    var rows := InviteRows(invites, gid, codes);
    var s := SortStable(rows, NewestFirst());
    KeyOrderIsTotalPreorder((r: InviteRow) => -Seconds(r));
    assert TotalPreorder(NewestFirst());
    SortStableSorted(rows, NewestFirst());
    SortStableTies(rows, NewestFirst(), e);
    forall i, j | 0 <= i < j < |s|
      ensures Seconds(s[i]) >= Seconds(s[j])
    {
      assert NewestFirst()(s[i], s[j]);
    }
  }

  /** Every listed invite is one of the group's, shown with its own fields. */
  lemma InviteRowsOfGroup(invites: map<(string, string), Invite>, gid: string, codes: seq<string>)
    requires InviteQuery(invites, gid, codes)
    ensures var s := SortStable(InviteRows(invites, gid, codes), NewestFirst());
            |s| == |codes|
            && (forall r :: r in s ==> (gid, r.id) in invites && r == InviteRowOf(invites, gid, r.id))
            && (forall c :: (gid, c) in invites ==> exists r :: r in s && r.id == c)
  {
    var rows := InviteRows(invites, gid, codes);
    var s := SortStable(rows, NewestFirst());
    forall r | r in s
      ensures (gid, r.id) in invites && r == InviteRowOf(invites, gid, r.id)
    {
      assert r in multiset(rows);
    }
    forall c | (gid, c) in invites
      ensures exists r :: r in s && r.id == c
    {
      var i :| 0 <= i < |codes| && codes[i] == c;
      assert rows[i] in multiset(s);
    }
  }

  /** The store of this build, with the signed-in user passed to each call and the current group kept apart. */
  class GroupDb {
    var groups: map<string, GroupDoc>
    var members: map<(string, string), string>
    var mappings: map<(string, string), string>
    var invites: map<(string, string), Invite>
    const current: CurrentGroup

    constructor (groups: map<string, GroupDoc>, members: map<(string, string), string>,
                 mappings: map<(string, string), string>, invites: map<(string, string), Invite>, stored: Option<string>)
      ensures this.groups == groups && this.members == members && this.mappings == mappings && this.invites == invites
      ensures fresh(current) && current.key == CurrentGroupKey && current.stored == stored && current.events == []
    {
      this.groups, this.members, this.mappings, this.invites := groups, members, mappings, invites;
      current := new CurrentGroup(CurrentGroupKey, stored);
    }

    /**
     * `ensureDefaultGroupExists`: the current group is created if missing,
     * named after its id and owned by the user; a signed-in user is then
     * written as its owner, in both the membership and the mapping.
     */
    method EnsureDefaultGroupExists(user: Option<string>) returns (gid: string)
      modifies this`groups, this`members, this`mappings
      ensures gid == current.Get()
      ensures groups == if gid in old(groups) then old(groups) else old(groups)[gid := GroupDoc(gid, user, false)]
      ensures user.None? ==> members == old(members) && mappings == old(mappings)
      ensures user.Some? ==>
                members == old(members)[(gid, user.value) := "owner"]
                && mappings == old(mappings)[(user.value, gid) := "owner"]
      ensures gid in groups
    {
      gid := current.Get();
      if gid !in groups {
        groups := groups[gid := GroupDoc(gid, user, false)];
      }
      if user.Some? {
        members := members[(gid, user.value) := "owner"];
        mappings := mappings[(user.value, gid) := "owner"];
      }
    }

    /** `ensureOwnerMappings`: the loop over the owned groups, writing each missing mapping. */
    method EnsureOwnerMappings(user: Option<string>, ownedIds: seq<string>) returns (ensured: seq<string>)
      requires user.Some? ==> OwnerQuery(groups, user.value, ownedIds)
      modifies this`mappings
      ensures user.None? ==> ensured == [] && mappings == old(mappings)
      ensures user.Some? ==> ensured == ownedIds && mappings == WithOwnerMappings(old(mappings), user.value, ownedIds)
      ensures user.Some? ==> forall g :: g in ensured <==> g in groups && groups[g].ownerUid == user
    {
      if user.None? {
        return [];
      }
      var uid := user.value;
      ensured := [];
      var i := 0;
      while i < |ownedIds|
        invariant 0 <= i <= |ownedIds|
        invariant ensured == ownedIds[..i]
        invariant mappings == WithOwnerMappings(old(mappings), uid, ownedIds[..i])
      {
        var gid := ownedIds[i];
        assert ownedIds[..i + 1][..i] == ownedIds[..i];
        if (uid, gid) !in mappings {
          mappings := mappings[(uid, gid) := "owner"];
        }
        ensured := ensured + [gid];
        i := i + 1;
      }
      assert ownedIds[..i] == ownedIds;
    }

    /**
     * `listMyGroups`: owner mappings are ensured first; `mapped` is the
     * snapshot of the user's mappings taken after that, in document order.
     */
    method ListMyGroups(user: Option<string>, ownedIds: seq<string>, mapped: seq<string>, le: (string, string) -> bool)
      returns (rows: seq<Listed>)
      requires user.Some? ==>
                 OwnerQuery(groups, user.value, ownedIds)
                 && MappingQuery(WithOwnerMappings(mappings, user.value, ownedIds), user.value, mapped)
      modifies this`mappings
      ensures user.None? ==> rows == [] && mappings == old(mappings)
      ensures user.Some? ==> mappings == WithOwnerMappings(old(mappings), user.value, ownedIds)
      ensures user.Some? ==> rows == SortStable(MappedRows(groups, mappings, user.value, mapped), OwnerFirst(le))
    {
      var _ := EnsureOwnerMappings(user, ownedIds);
      if user.None? {
        return [];
      }
      var uid := user.value;
      var out: seq<Listed> := [];
      var i := 0;
      while i < |mapped|
        invariant 0 <= i <= |mapped|
        invariant out == MappedRows(groups, mappings, uid, mapped[..i])
      {
        var gid := mapped[i];
        assert mapped[..i + 1][..i] == mapped[..i];
        if gid in groups && !groups[gid].isDeleted {
          var role := if (uid, gid) in mappings && mappings[(uid, gid)] != "" then mappings[(uid, gid)] else "member";
          out := out + [Listed(gid, groups[gid].name, role)];
        }
        i := i + 1;
      }
      assert mapped[..i] == mapped;
      rows := SortStable(out, OwnerFirst(le));
    }

    /**
     * `joinGroup` as written: a missing invite and then a revoked one are
     * refused; otherwise the user is written as `"member"` in the membership
     * and the mapping, and the invite is consumed.
     */
    method JoinGroup(gid: string, code: string, user: Option<string>) returns (st: Status)
      modifies this`members, this`mappings, this`invites
      ensures st == JoinOutcome(old(invites), gid, code, user)
      ensures st != Done ==> members == old(members) && mappings == old(mappings) && invites == old(invites)
      ensures st == Done ==>
                members == old(members)[(gid, user.value) := "member"]
                && mappings == old(mappings)[(user.value, gid) := "member"]
                && invites == Consumed(old(invites), (gid, code))
    {
      if user.None? {
        return Thrown(NotSignedIn);
      }
      var uid := user.value;
      if (gid, code) !in invites {
        return Thrown(InvalidInvite);
      }
      var inv := invites[(gid, code)];
      if inv.active == Some(false) {
        return Thrown(RevokedInvite);
      }
      members := members[(gid, uid) := "member"];
      mappings := mappings[(uid, gid) := "member"];
      invites := invites[(gid, code) := inv.(active := Some(false))];
      st := Done;
    }

    /** Corrected `joinGroup`: the same checks, with the owner written as owner. */
    method JoinGroupKeepingOwner(gid: string, code: string, user: Option<string>) returns (st: Status)
      modifies this`members, this`mappings, this`invites
      ensures st == JoinOutcome(old(invites), gid, code, user)
      ensures st != Done ==> members == old(members) && mappings == old(mappings) && invites == old(invites)
      ensures st == Done ==>
                var role := JoinRole(groups, gid, user.value);
                members == old(members)[(gid, user.value) := role]
                && mappings == old(mappings)[(user.value, gid) := role]
                && invites == Consumed(old(invites), (gid, code))
    {
      if user.None? {
        return Thrown(NotSignedIn);
      }
      var uid := user.value;
      if (gid, code) !in invites {
        return Thrown(InvalidInvite);
      }
      var inv := invites[(gid, code)];
      if inv.active == Some(false) {
        return Thrown(RevokedInvite);
      }
      var role := JoinRole(groups, gid, uid);
      members := members[(gid, uid) := role];
      mappings := mappings[(uid, gid) := role];
      invites := invites[(gid, code) := inv.(active := Some(false))];
      st := Done;
    }

    /** `revokeInvite`: `{active: false}` merged into the invite, creating it when missing. */
    method RevokeInvite(gid: string, code: string)
      modifies this`invites
      ensures (gid, code) in old(invites) ==> invites == Consumed(old(invites), (gid, code))
      ensures (gid, code) !in old(invites) ==> invites == old(invites)[(gid, code) := Invite(Some(false), None)]
      ensures forall uid :: JoinOutcome(invites, gid, code, Some(uid)) == Thrown(RevokedInvite)
    {
      if (gid, code) in invites {
        invites := invites[(gid, code) := invites[(gid, code)].(active := Some(false))];
      } else {
        invites := invites[(gid, code) := Invite(Some(false), None)];
      }
    }

    /** `listInvites` over the snapshot `codes` of the group's invites: the loop pushes one row per invite, then the rows are sorted. */
    method ListInvites(gid: string, codes: seq<string>) returns (out: seq<InviteRow>)
      requires InviteQuery(invites, gid, codes)
      ensures out == SortStable(InviteRows(invites, gid, codes), NewestFirst())
    {
      var rows: seq<InviteRow> := [];
      var i := 0;
      while i < |codes|
        invariant 0 <= i <= |codes|
        invariant rows == InviteRows(invites, gid, codes[..i])
      {
        var inv := invites[(gid, codes[i])];
        rows := rows + [InviteRow(codes[i], inv.active, inv.createdAt)];
        i := i + 1;
      }
      assert codes[..i] == codes;
      out := SortStable(rows, NewestFirst());
    }

    /**
     * `leaveGroup`: the membership and the mapping are deleted; leaving the
     * current group switches to `"default"` and makes sure it exists.
     */
    method LeaveGroup(gid: string, user: Option<string>) returns (st: Status)
      modifies this`groups, this`members, this`mappings, current`stored, current`events
      ensures user.None? ==>
                st == Thrown(NotSignedIn) && groups == old(groups) && members == old(members)
                && mappings == old(mappings) && current.stored == old(current.stored) && current.events == old(current.events)
      ensures user.Some? && old(current.Get()) != gid ==>
                st == Done && groups == old(groups) && current.stored == old(current.stored) && current.events == old(current.events)
                && members == old(members) - {(gid, user.value)} && mappings == old(mappings) - {(user.value, gid)}
      ensures user.Some? && old(current.Get()) == gid ==>
                st == Done && current.Get() == "default" && current.events == old(current.events) + ["default"]
                && groups == (if "default" in old(groups) then old(groups) else old(groups)["default" := GroupDoc("default", user, false)])
                && members == (old(members) - {(gid, user.value)})[("default", user.value) := "owner"]
                && mappings == (old(mappings) - {(user.value, gid)})[(user.value, "default") := "owner"]
    {
      if user.None? {
        return Thrown(NotSignedIn);
      }
      var uid := user.value;
      members := members - {(gid, uid)};
      mappings := mappings - {(uid, gid)};
      if current.Get() == gid {
        current.Set("default");
        var _ := EnsureDefaultGroupExists(user);
      }
      st := Done;
    }

    /**
     * `deleteGroup`: the update of a missing group throws; otherwise the
     * group is flagged deleted, and deleting the current group switches to
     * `"default"` and makes sure it exists. Members and mappings are left.
     */
    method DeleteGroup(gid: string, user: Option<string>) returns (st: Status)
      modifies this`groups, this`members, this`mappings, current`stored, current`events
      ensures gid !in old(groups) ==>
                st == Thrown("not-found") && groups == old(groups) && members == old(members)
                && mappings == old(mappings) && current.stored == old(current.stored) && current.events == old(current.events)
      ensures gid in old(groups) && old(current.Get()) != gid ==>
                st == Done && groups == old(groups)[gid := old(groups)[gid].(isDeleted := true)]
                && members == old(members) && mappings == old(mappings)
                && current.stored == old(current.stored) && current.events == old(current.events)
      ensures gid in old(groups) && old(current.Get()) == gid ==>
                var flagged := old(groups)[gid := old(groups)[gid].(isDeleted := true)];
                st == Done && current.Get() == "default" && current.events == old(current.events) + ["default"]
                && groups == (if "default" in flagged then flagged else flagged["default" := GroupDoc("default", user, false)])
                && (user.None? ==> members == old(members) && mappings == old(mappings))
                && (user.Some? ==>
                      members == old(members)[("default", user.value) := "owner"]
                      && mappings == old(mappings)[(user.value, "default") := "owner"])
    {
      if gid !in groups {
        return Thrown("not-found");
      }
      groups := groups[gid := groups[gid].(isDeleted := true)];
      if current.Get() == gid {
        current.Set("default");
        var _ := EnsureDefaultGroupExists(user);
      }
      st := Done;
    }
  }

  /** After a delete the group is no longer listed, whatever the user's mapping says. */
  lemma DeletedIsHidden(groups: map<string, GroupDoc>, mappings: map<(string, string), string>, uid: string, gid: string,
                        mapped: seq<string>)
    requires gid in groups
    ensures forall r :: r in MappedRows(groups[gid := groups[gid].(isDeleted := true)], mappings, uid, mapped) ==> r.id != gid
  {
    MappedRowsSpec(groups[gid := groups[gid].(isDeleted := true)], mappings, uid, mapped);
  }

  /**
   * Listing after a leave: a group the user does not own is gone, but the
   * owner's own group comes back, as owner, because the mapping the leave
   * deleted is missing and so is written again.
   */
  lemma LeaveThenListed(groups: map<string, GroupDoc>, mappings: map<(string, string), string>, uid: string, gid: string,
                        ownedIds: seq<string>, mapped: seq<string>)
    requires OwnerQuery(groups, uid, ownedIds)
    requires MappingQuery(WithOwnerMappings(mappings - {(uid, gid)}, uid, ownedIds), uid, mapped)
    ensures var rows := MappedRows(groups, WithOwnerMappings(mappings - {(uid, gid)}, uid, ownedIds), uid, mapped);
            (gid !in groups || groups[gid].ownerUid != Some(uid) ==> forall r :: r in rows ==> r.id != gid)
            && (gid in groups && !groups[gid].isDeleted && groups[gid].ownerUid == Some(uid) ==>
                  Listed(gid, groups[gid].name, "owner") in rows)
  {
    var after := WithOwnerMappings(mappings - {(uid, gid)}, uid, ownedIds);
    WithOwnerMappingsSpec(mappings - {(uid, gid)}, uid, ownedIds);
    MappedRowsSpec(groups, after, uid, mapped);
  }
}
