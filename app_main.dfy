/**
 * The local-storage build of the app (`main.js`): the working date held by
 * `AppState` and mirrored in `sessionStorage`, and the `Storage` object that
 * keeps one JSON document `{members, sessions}` under the app key.
 */
module AppMain {
  import opened Common
  import opened Seqs

  /** A JSON value as the document stores it. */
  datatype Json = JNull | JBool(b: bool) | JNum(n: int) | JStr(s: string) | JArr(items: seq<Json>) | JObj(fields: map<string, Json>)

  /** JavaScript truthiness of a parsed value. */
  predicate Truthy(j: Json) {
    match j
    case JNull => false
    case JBool(b) => b
    case JNum(n) => n != 0
    case JStr(s) => s != ""
    case _ => true
  }

  /** `a || b` for an optional string: `null` and `""` fall through. */
  function OrElse(a: Option<string>, b: string): (r: string)
    ensures a.Some? && a.value != "" ==> r == a.value
    ensures (a.None? || a.value == "") ==> r == b
  {
    if a.Some? && a.value != "" then a.value else b
  }

  // ----- AppState -----

  /**
   * `AppState.getDate()` over its field, the `sessionStorage` item and today's
   * key: the field when it is set, else the stored key, else today; never
   * empty while today is not.
   */
  function DateOf(dateKey: Option<string>, stored: Option<string>, today: string): (d: string)
    ensures dateKey.Some? && dateKey.value != "" ==> d == dateKey.value
    ensures (dateKey.None? || dateKey.value == "") && stored.Some? && stored.value != "" ==> d == stored.value
    ensures (dateKey.None? || dateKey.value == "") && (stored.None? || stored.value == "") ==> d == today
    ensures today != "" ==> d != ""
  {
    OrElse(dateKey, OrElse(stored, today))
  }

  /** The date picked for the whole app, and its copy in `sessionStorage`. */
  class AppState {
    var dateKey: Option<string>
    var stored: Option<string>

    /** A fresh page: the field is `null`, the session item is whatever an earlier page left. */
    constructor (stored: Option<string>)
      ensures dateKey == None && this.stored == stored
    {
      dateKey := None;
      this.stored := stored;
    }

    function GetDate(today: string): (d: string)
      reads this
      ensures d == DateOf(dateKey, stored, today)
    {
      DateOf(dateKey, stored, today)
    }

    /** `setDate`: both the field and the session item take the key; an empty key leaves today in effect. */
    method SetDate(key: string)
      modifies this
      ensures dateKey == Some(key) && stored == Some(key)
      ensures forall today :: GetDate(today) == if key != "" then key else today
    {
      dateKey := Some(key);
      stored := Some(key);
    }
  }

  // ----- members -----

  /** A member record: its `id` (`""` when it has none) and the rest of its fields. */
  datatype MemberRecord = MemberRecord(id: string, fields: map<string, Json>)

  function MemberIds(ms: seq<MemberRecord>): (r: seq<string>)
    ensures |r| == |ms| && forall i :: 0 <= i < |ms| ==> r[i] == ms[i].id
  {
    seq(|ms|, i requires 0 <= i < |ms| => ms[i].id)
  }

  /**
   * The member list after `saveMember(member)`: a known id replaces the first
   * record with that id, an unknown id changes nothing, and a member without
   * an id is appended under the fresh id.
   */
  function SavedMembers(ms: seq<MemberRecord>, member: MemberRecord, freshId: string): (r: seq<MemberRecord>)
    ensures member.id != "" && member.id in MemberIds(ms) ==>
              var i := IndexOf(MemberIds(ms), member.id);
              |r| == |ms| && r[i] == member && forall j :: 0 <= j < |ms| && j != i ==> r[j] == ms[j]
    ensures member.id != "" && member.id !in MemberIds(ms) ==> r == ms
    ensures member.id == "" ==> r == ms + [member.(id := freshId)]
  {
    if member.id != "" then
      var i := IndexOf(MemberIds(ms), member.id);
      if i != -1 then ms[i := member] else ms
    else ms + [member.(id := freshId)]
  }

  /** The id `saveMember` returns. */
  function SavedId(member: MemberRecord, freshId: string): string {
    if member.id != "" then member.id else freshId
  }

  /**
   * Looking up the returned id after a save finds the saved member, unless
   * its id was unknown; and distinct ids stay distinct when the fresh id is new.
   */
  lemma SaveThenFind(ms: seq<MemberRecord>, member: MemberRecord, freshId: string)
    requires freshId != "" && freshId !in MemberIds(ms)
    ensures var r := SavedMembers(ms, member, freshId); var id := SavedId(member, freshId);
            (member.id == "" || member.id in MemberIds(ms)) ==>
              id in MemberIds(r) && r[IndexOf(MemberIds(r), id)] == member.(id := id)
    ensures Distinct(MemberIds(ms)) ==> Distinct(MemberIds(SavedMembers(ms, member, freshId)))
  {
    var r := SavedMembers(ms, member, freshId);
    var ids := MemberIds(ms);
    if member.id == "" {
      assert MemberIds(r) == ids + [freshId];
      IndexOfAppend(ids, freshId, freshId);
      if Distinct(ids) {
        DistinctAppend(ids, freshId);
      }
    } else if member.id in ids {
      var i := IndexOf(ids, member.id);
      assert MemberIds(r) == ids[i := member.id];
      assert MemberIds(r) == ids;
    }
  }

  /** `deleteMember(id)`: `members.filter(m => m.id !== id)`. */
  function WithoutMember(ms: seq<MemberRecord>, id: string): seq<MemberRecord> {
    Filter(ms, (m: MemberRecord) => m.id != id)
  }

  /** After a delete no record has the id, every other record is kept, and their order is unchanged. */
  lemma DeleteSpec(ms: seq<MemberRecord>, id: string)
    ensures id !in MemberIds(WithoutMember(ms, id))
    ensures SubseqOf(WithoutMember(ms, id), ms)
    ensures forall m :: m in ms && m.id != id ==> m in WithoutMember(ms, id)
    ensures forall m :: m in WithoutMember(ms, id) ==> m in ms && m.id != id
  {
    var p := (m: MemberRecord) => m.id != id;
    var r := Filter(ms, p);
    FilterIsSubseq(ms, p);
    forall m | m in ms || m in r
      ensures (m in r) == (m in ms && m.id != id)
    {
      FilterMembership(ms, p, m);
    }
  }

  // ----- sessions -----

  /** The record `getSession` gives for a date with nothing saved. */
  function DefaultSession(): (s: Json)
    ensures Truthy(s)
  {
    JObj(map[
      "checkins" := JObj(map[]), "courts" := JArr([]), "preQueue" := JArr([]),
      "expenses" := JObj(map["total" := JNum(0)]), "gamesCount" := JObj(map[]),
      "gameNames" := JObj(map[]), "waitingManual" := JArr([]), "lastPartner" := JObj(map[])])
  }

  /** `data.sessions[dateKey] || default`. */
  function SessionOf(sessions: map<string, Json>, key: string): (s: Json)
    ensures key !in sessions ==> s == DefaultSession()
    ensures Truthy(s)
  {
    if key in sessions && Truthy(sessions[key]) then sessions[key] else DefaultSession()
  }

  /** Saving a session and reading the same date gives it back; every other date reads as before. */
  lemma SaveThenGetSession(sessions: map<string, Json>, key: string, session: Json, other: string)
    ensures Truthy(session) ==> SessionOf(sessions[key := session], key) == session
    ensures !Truthy(session) ==> SessionOf(sessions[key := session], key) == DefaultSession()
    ensures other != key ==> SessionOf(sessions[key := session], other) == SessionOf(sessions, other)
  {
  }

  /** The date argument, `todayKey()` when it is not passed. */
  function KeyOr(dateKey: Option<string>, today: string): string {
    dateKey.GetOr(today)
  }

  /** The app document in `localStorage`, read and written whole by each `Storage` call. */
  class LocalDb {
    var members: seq<MemberRecord>
    var sessions: map<string, Json>

    /** `Storage.init`: an existing document is kept, a missing one starts as `{members: [], sessions: {}}`. */
    constructor (stored: Option<(seq<MemberRecord>, map<string, Json>)>)
      ensures stored.None? ==> members == [] && sessions == map[]
      ensures stored.Some? ==> members == stored.value.0 && sessions == stored.value.1
    {
      if stored.Some? {
        members, sessions := stored.value.0, stored.value.1;
      } else {
        members, sessions := [], map[];
      }
    }

    function GetMembers(): seq<MemberRecord>
      reads this
    {
      members
    }

    /** `saveMember`; the fresh id stands for `crypto.randomUUID()`. */
    method SaveMember(member: MemberRecord, freshId: string) returns (id: string)
      modifies this`members
      ensures members == SavedMembers(old(members), member, freshId)
      ensures id == SavedId(member, freshId)
    {
      if member.id != "" {
        var i := IndexOf(MemberIds(members), member.id);
        if i != -1 {
          members := members[i := member];
        }
        id := member.id;
      } else {
        members := members + [member.(id := freshId)];
        id := freshId;
      }
    }

    method DeleteMember(id: string)
      modifies this`members
      ensures members == WithoutMember(old(members), id)
    {
      members := WithoutMember(members, id);
    }

    function GetSession(dateKey: Option<string>, today: string): (s: Json)
      reads this
      ensures s == SessionOf(sessions, KeyOr(dateKey, today))
    {
      SessionOf(sessions, KeyOr(dateKey, today))
    }

    method SaveSession(session: Json, dateKey: Option<string>, today: string)
      modifies this`sessions
      ensures sessions == old(sessions)[KeyOr(dateKey, today) := session]
      ensures Truthy(session) ==> GetSession(dateKey, today) == session
    {
      sessions := sessions[KeyOr(dateKey, today) := session];
    }
  }
}
