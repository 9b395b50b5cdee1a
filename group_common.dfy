/**
 * What the two builds of the group state share: the current group id kept
 * in `localStorage` (under a key each build names), the outcome of an
 * awaited call that may throw, the rows the group lists return, and the
 * name order the lists are sorted by.
 */
module GroupCommon {
  import opened Common
  import opened Seqs

  /** A call that resolves, or throws with a reason. */
  datatype Status = Done | Thrown(reason: string)

  /** The current group id and the `group:changed` events announcing it. */
  class CurrentGroup {
    const key: string
    var stored: Option<string>
    var events: seq<string>

    constructor (key: string, stored: Option<string>)
      ensures this.key == key && this.stored == stored && events == []
    {
      this.key := key;
      this.stored := stored;
      events := [];
    }

    /** `localStorage.getItem(key) || "default"`. */
    function Get(): (g: string)
      reads this
      ensures stored.Some? && stored.value != "" ==> g == stored.value
      ensures stored.None? || stored.value == "" ==> g == "default"
      ensures g != ""
    {
      if stored.Some? && stored.value != "" then stored.value else "default"
    }

    /** `setCurrentGroupId`: store the id and announce it; a later `Get` returns it (an empty id reads as `"default"`). */
    method Set(gid: string)
      modifies this`stored, this`events
      ensures stored == Some(gid) && events == old(events) + [gid]
      ensures Get() == if gid != "" then gid else "default"
    {
      stored := Some(gid);
      events := events + [gid];
    }
  }

  /** A row of a group list: the group id, its name (`""` when it has none) and my role in it. */
  datatype Listed = Listed(id: string, name: string, myRole: string)

  function ListedIds(rows: seq<Listed>): (r: seq<string>)
    ensures |r| == |rows| && forall i :: 0 <= i < |rows| ==> r[i] == rows[i].id
  {
    seq(|rows|, i requires 0 <= i < |rows| => rows[i].id)
  }

  /** The rows a listing loop pushes: one for each id whose row is kept, in the order of the ids. */
  function CollectRows(ids: seq<string>, row: string -> Option<Listed>): seq<Listed>
    decreases |ids|
  {
    if ids == [] then []
    else
      var init := CollectRows(ids[..|ids| - 1], row);
      match row(ids[|ids| - 1])
      case None => init
      case Some(r) => init + [r]
  }

  /** A row is collected exactly when its id is listed and its row is kept; distinct ids stay distinct. */
  lemma {:induction false} CollectRowsSpec(ids: seq<string>, row: string -> Option<Listed>)
    requires forall g :: row(g).Some? ==> row(g).value.id == g
    ensures forall r :: r in CollectRows(ids, row) <==> r.id in ids && row(r.id) == Some(r)
    ensures Distinct(ids) ==> Distinct(ListedIds(CollectRows(ids, row)))
    decreases |ids|
  {
    if ids != [] {
      var init := ids[..|ids| - 1];
      var last := ids[|ids| - 1];
      CollectRowsSpec(init, row);
      assert ids == init + [last];
      var rows := CollectRows(ids, row);
      var before := CollectRows(init, row);
      forall r
        ensures r in rows <==> r.id in ids && row(r.id) == Some(r)
      {
        if r.id == last && row(r.id) == Some(r) {
          assert rows[|rows| - 1] == r;
        }
      }
      if Distinct(ids) {
        assert Distinct(init);
        if row(last).Some? {
          assert ListedIds(rows) == ListedIds(before) + [last];
          assert last !in init;
          assert last !in ListedIds(before);
        }
      }
    }
  }

  /** `(a.name || "").localeCompare(b.name || "") <= 0`, for an abstract locale order on names. */
  function ByName(le: (string, string) -> bool): (Listed, Listed) -> bool {
    (a: Listed, b: Listed) => le(a.name, b.name)
  }

  lemma ByNameIsTotalPreorder(le: (string, string) -> bool)
    requires TotalPreorder(le)
    ensures TotalPreorder(ByName(le))
  {
    var c := ByName(le);
    forall a: Listed, b: Listed
      ensures c(a, b) || c(b, a)
    {
      assert le(a.name, b.name) || le(b.name, a.name);
    }
    forall a: Listed, b: Listed, d: Listed | c(a, b) && c(b, d)
      ensures c(a, d)
    {
      assert le(a.name, b.name) && le(b.name, d.name);
    }
  }

  /** Sorting a list by name gives a name-ordered permutation of it. */
  lemma {:induction false} SortByNameSpec(rows: seq<Listed>, le: (string, string) -> bool)
    requires TotalPreorder(le)
    ensures SortedBy(SortStable(rows, ByName(le)), ByName(le))
    ensures multiset(SortStable(rows, ByName(le))) == multiset(rows)
  {
    ByNameIsTotalPreorder(le);
    SortStableSorted(rows, ByName(le));
  }

  /** With distinct ids, each row occurs at most once. */
  lemma {:induction false} DistinctIdsOnce(a: seq<Listed>, v: Listed)
    requires Distinct(ListedIds(a))
    ensures multiset(a)[v] <= 1
  {
    if a != [] {
      assert a == [a[0]] + a[1..];
      assert ListedIds(a[1..]) == ListedIds(a)[1..];
      DistinctIdsOnce(a[1..], v);
    }
  }

  lemma TwiceInMultiset(b: seq<Listed>, i: int, j: int)
    requires 0 <= i < j < |b| && b[i] == b[j]
    ensures multiset(b)[b[i]] >= 2
  {
    assert b == b[..j] + [b[j]] + b[j + 1..];
    assert b[i] in b[..j];
  }

  /** Reordering rows whose ids are distinct keeps the ids distinct. */
  lemma PermutedIdsDistinct(a: seq<Listed>, b: seq<Listed>)
    requires multiset(a) == multiset(b) && Distinct(ListedIds(a))
    ensures Distinct(ListedIds(b))
  {
    forall i, j | 0 <= i < j < |b|
      ensures b[i].id != b[j].id
    {
      assert b[i] in multiset(a) && b[j] in multiset(a);
      if b[i] == b[j] {
        TwiceInMultiset(b, i, j);
        DistinctIdsOnce(a, b[i]);
      }
    }
  }
}
