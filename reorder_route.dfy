/**
 * `PUT /api/songs/reorder`: persist a new order of the user's song list in
 * two transactions. The first parks every listed song at `-1000 - i`, the
 * second gives it its list position `i`. Each transaction is a batch of
 * single-row updates that either all commit or none do.
 */
module ReorderRoute {
  import opened Wrappers
  import opened Types
  import opened SongTable
  import SongsRoute

  /** One element of the request's `songs` array; its `order` is never read. */
  datatype SongOrder = SongOrder(id: SongId, order: int)

  /** What `body.songs` is after parsing. */
  datatype SongsField = Absent | NotArray | SongArray(items: seq<SongOrder>)

  /** The request body: unparseable JSON, a falsy value, or an object. */
  datatype ReorderBody = Unparseable | Falsy | Object(songs: SongsField)

  function ListedIds(items: seq<SongOrder>): (r: seq<SongId>)
    ensures |r| == |items| && forall i :: 0 <= i < |items| ==> r[i] == items[i].id
  {
    seq(|items|, i requires 0 <= i < |items| => items[i].id)
  }

  datatype Phase = Park | Final

  /** The order the phase gives the song at list position `i`. */
  function Target(phase: Phase, i: nat): int {
    match phase
    case Park => -1000 - i
    case Final => i
  }

  /** Parking values are pairwise distinct and all at most -1000; final values are the positions. */
  lemma TargetValues(i: nat, j: nat)
    ensures Target(Park, i) <= -1000
    ensures i != j ==> Target(Park, i) != Target(Park, j) && Target(Final, i) != Target(Final, j)
  {
  }

  /** Every listed id names a row of `owner`: the condition under which no update of a phase throws. */
  predicate AllOwned(t: Table, owner: UserId, ids: seq<SongId>) {
    forall i :: 0 <= i < |ids| ==> OwnedBy(t, ids[i], owner)
  }

  predicate DistinctIds(ids: seq<SongId>) {
    forall i, j :: 0 <= i < j < |ids| ==> ids[i] != ids[j]
  }

  /**
   * The table after the first `k` updates of a phase, applied one at a time:
   * `update({ where: { id, userId: owner }, data: { order } })` writes only a
   * row matching both the id and the owner.
   */
  function Applied(t: Table, owner: UserId, ids: seq<SongId>, phase: Phase, k: nat): Table
    requires k <= |ids|
    decreases k
  {
    if k == 0 then t
    else
      var prev := Applied(t, owner, ids, phase, k - 1);
      var id := ids[k - 1];
      if OwnedBy(prev, id, owner) then prev[id := prev[id].(order := Target(phase, k - 1))] else prev
  }

  /** Updates touch nothing but `order`: the same rows exist, with the same owners and contents. */
  lemma {:induction false} AppliedFrame(t: Table, owner: UserId, ids: seq<SongId>, phase: Phase, k: nat)
    requires k <= |ids|
    ensures Applied(t, owner, ids, phase, k).Keys == t.Keys
    ensures forall id :: id in t ==> Applied(t, owner, ids, phase, k)[id].(order := t[id].order) == t[id]
    decreases k
  {
    if k > 0 {
      AppliedFrame(t, owner, ids, phase, k - 1);
    }
  }

  /** A row survives the updates with its owner. */
  lemma {:induction false} OwnerKept(t: Table, owner: UserId, ids: seq<SongId>, phase: Phase, k: nat, id: SongId)
    requires k <= |ids| && id in t
    ensures id in Applied(t, owner, ids, phase, k)
    ensures Applied(t, owner, ids, phase, k)[id].owner == t[id].owner
    decreases k
  {
    if k > 0 {
      OwnerKept(t, owner, ids, phase, k - 1, id);
    }
  }

  /** With distinct listed ids, once its update has run the song at list position `i` has order `Target(phase, i)`. */
  lemma {:induction false} OrderAt(t: Table, owner: UserId, ids: seq<SongId>, phase: Phase, k: nat, i: nat)
    requires k <= |ids| && i < k && DistinctIds(ids) && AllOwned(t, owner, ids)
    ensures ids[i] in Applied(t, owner, ids, phase, k)
    ensures Applied(t, owner, ids, phase, k)[ids[i]].order == Target(phase, i)
    decreases k
  {
    assert OwnedBy(t, ids[k - 1], owner);
    OwnerKept(t, owner, ids, phase, k - 1, ids[k - 1]);
    if i < k - 1 {
      OrderAt(t, owner, ids, phase, k - 1, i);
      assert ids[i] != ids[k - 1];
    }
  }

  /** A row whose id is not among the first `k` listed ids is untouched by their updates. */
  lemma {:induction false} UnlistedKept(t: Table, owner: UserId, ids: seq<SongId>, phase: Phase, k: nat, id: SongId)
    requires k <= |ids| && id in t && id !in ids[..k]
    ensures id in Applied(t, owner, ids, phase, k)
    ensures Applied(t, owner, ids, phase, k)[id] == t[id]
    decreases k
  {
    if k > 0 {
      assert ids[k - 1] in ids[..k];
      assert ids[..k - 1] == ids[..k][..k - 1];
      UnlistedKept(t, owner, ids, phase, k - 1, id);
    }
  }

  /**
   * With distinct listed ids, after `k` updates the song at list position
   * `i < k` has order `Target(phase, i)` and every row not among the first
   * `k` listed ids (other users' songs, unlisted songs) is as it was.
   */
  lemma AppliedOrders(t: Table, owner: UserId, ids: seq<SongId>, phase: Phase, k: nat)
    requires k <= |ids| && DistinctIds(ids) && AllOwned(t, owner, ids)
    ensures Applied(t, owner, ids, phase, k).Keys == t.Keys
    ensures forall i :: 0 <= i < k ==> Applied(t, owner, ids, phase, k)[ids[i]].order == Target(phase, i)
    ensures forall id :: id in t && id !in ids[..k] ==> Applied(t, owner, ids, phase, k)[id] == t[id]
  {
    AppliedFrame(t, owner, ids, phase, k);
    forall i | 0 <= i < k ensures Applied(t, owner, ids, phase, k)[ids[i]].order == Target(phase, i) {
      OrderAt(t, owner, ids, phase, k, i);
    }
    forall id | id in t && id !in ids[..k] ensures Applied(t, owner, ids, phase, k)[id] == t[id] {
      UnlistedKept(t, owner, ids, phase, k, id);
    }
  }

  /**
   * One transaction of the phase, on a private copy of the table: `None` when
   * some update finds no row with that id and owner (the batch rolls back),
   * otherwise the table after all updates.
   */
  method RunPhase(t: Table, owner: UserId, ids: seq<SongId>, phase: Phase) returns (r: Option<Table>)
    ensures r == if AllOwned(t, owner, ids) then Some(Applied(t, owner, ids, phase, |ids|)) else None
  {
    var cur := t;
    var i := 0;
    while i < |ids|
      invariant 0 <= i <= |ids|
      invariant cur == Applied(t, owner, ids, phase, i)
      invariant forall j :: 0 <= j < i ==> OwnedBy(t, ids[j], owner)
    {
      AppliedFrame(t, owner, ids, phase, i);
      var id := ids[i];
      if !(id in cur && cur[id].owner == owner) {
        assert !OwnedBy(t, id, owner);
        return None;
      }
      cur := cur[id := cur[id].(order := Target(phase, i))];
      i := i + 1;
    }
    r := Some(cur);
  }

  /** The table after a committed parking phase. */
  function Parked(t: Table, owner: UserId, ids: seq<SongId>): Table {
    Applied(t, owner, ids, Park, |ids|)
  }

  /** The table after both phases committed. */
  function Renumbered(t: Table, owner: UserId, ids: seq<SongId>): Table {
    Applied(Parked(t, owner, ids), owner, ids, Final, |ids|)
  }

  /**
   * The handler. 401 without a session user and 400 for a missing body or a
   * non-array `songs`, both before any write; 500 when the body cannot be
   * parsed or a transaction fails. `phase1Ok` and `phase2Ok` stand for the
   * database accepting each transaction (connection, constraints); a listed
   * id without a row of this user fails its transaction as well.
   */
  method Put(db: Database, session: Option<UserId>, body: ReorderBody, phase1Ok: bool, phase2Ok: bool)
    returns (status: Status)
    modifies db
    ensures session.None? ==> status == Unauthorized && db.rows == old(db.rows)
    ensures session.Some? && body.Unparseable? ==> status == ServerError && db.rows == old(db.rows)
    ensures session.Some? && (body.Falsy? || (body.Object? && !body.songs.SongArray?)) ==>
      status == BadRequest && db.rows == old(db.rows)
    ensures session.Some? && body.Object? && body.songs.SongArray? ==>
      var owner := session.value;
      var ids := ListedIds(body.songs.items);
      if !phase1Ok || !AllOwned(old(db.rows), owner, ids) then
        status == ServerError && db.rows == old(db.rows)
      else if !phase2Ok then
        status == ServerError && db.rows == Parked(old(db.rows), owner, ids)
      else
        status == Ok && db.rows == Renumbered(old(db.rows), owner, ids)
  {
    if session.None? {
      return Unauthorized;
    }
    if body.Unparseable? {
      return ServerError;
    }
    if body.Falsy? || !body.songs.SongArray? {
      return BadRequest;
    }
    var owner := session.value;
    var ids := ListedIds(body.songs.items);

    var first := RunPhase(db.rows, owner, ids, Park);
    if !phase1Ok || first.None? {
      return ServerError;
    }
    db.rows := first.value;

    AppliedFrame(old(db.rows), owner, ids, Park, |ids|);
    var second := RunPhase(db.rows, owner, ids, Final);
    assert second.Some?;
    if !phase2Ok {
      return ServerError;
    }
    db.rows := second.value;
    status := Ok;
  }

  // ---------------------------------------------------------------------------
  // What the two phases guarantee
  // ---------------------------------------------------------------------------

  /** Every song of `owner` is listed. */
  ghost predicate Covers(t: Table, owner: UserId, ids: seq<SongId>) {
    forall id :: OwnedBy(t, id, owner) ==> id in ids
  }

  /** The orders of `owner`'s songs are not negative. */
  ghost predicate NonNegativeOrders(t: Table, owner: UserId) {
    forall id :: OwnedBy(t, id, owner) ==> t[id].order >= 0
  }

  /**
   * After both phases each listed song's order is its list position, and
   * every other row (another user's song, an unlisted song) is unchanged.
   */
  lemma RenumberedOrders(t: Table, owner: UserId, ids: seq<SongId>)
    requires DistinctIds(ids) && AllOwned(t, owner, ids)
    ensures Renumbered(t, owner, ids).Keys == t.Keys
    ensures forall i :: 0 <= i < |ids| ==> Renumbered(t, owner, ids)[ids[i]].order == i
    ensures forall id :: id in t && id !in ids ==> Renumbered(t, owner, ids)[id] == t[id]
  {
    var p := Parked(t, owner, ids);
    AppliedFrame(t, owner, ids, Park, |ids|);
    AppliedOrders(t, owner, ids, Park, |ids|);
    assert AllOwned(p, owner, ids);
    AppliedFrame(p, owner, ids, Final, |ids|);
    AppliedOrders(p, owner, ids, Final, |ids|);
    assert ids[..|ids|] == ids;
  }

  /**
   * Every intermediate state of the parking phase keeps the owner's orders
   * distinct, when the listed ids are distinct and the owner's orders start
   * distinct and non-negative.
   */
  lemma ParkingKeepsOrdersDistinct(t: Table, owner: UserId, ids: seq<SongId>, k: nat)
    requires k <= |ids| && DistinctIds(ids) && AllOwned(t, owner, ids)
    requires OrdersDistinct(t, owner) && NonNegativeOrders(t, owner)
    ensures OrdersDistinct(Applied(t, owner, ids, Park, k), owner)
  {
    var s := Applied(t, owner, ids, Park, k);
    AppliedFrame(t, owner, ids, Park, k);
    AppliedOrders(t, owner, ids, Park, k);
    forall a, b | OwnedBy(s, a, owner) && OwnedBy(s, b, owner) && a != b
      ensures s[a].order != s[b].order
    {
      assert s[a].(order := t[a].order) == t[a] && s[b].(order := t[b].order) == t[b];
      if a in ids[..k] && b in ids[..k] {
        var i :| 0 <= i < k && ids[i] == a;
        var j :| 0 <= j < k && ids[j] == b;
      } else if a in ids[..k] {
        var i :| 0 <= i < k && ids[i] == a;
      } else if b in ids[..k] {
        var j :| 0 <= j < k && ids[j] == b;
      }
    }
  }

  /**
   * During the renumbering phase the song at list position `i` has its final
   * order once its update has run and its parking value before.
   */
  lemma RenumberingOrderAt(t: Table, owner: UserId, ids: seq<SongId>, k: nat, i: nat)
    requires k <= |ids| && i < |ids| && DistinctIds(ids) && AllOwned(t, owner, ids)
    ensures ids[i] in Applied(Parked(t, owner, ids), owner, ids, Final, k)
    ensures Applied(Parked(t, owner, ids), owner, ids, Final, k)[ids[i]].order == if i < k then i else -1000 - i
  {
    var p := Parked(t, owner, ids);
    AppliedFrame(t, owner, ids, Park, |ids|);
    AppliedOrders(t, owner, ids, Park, |ids|);
    assert AllOwned(p, owner, ids);
    AppliedOrders(p, owner, ids, Final, k);
    if i >= k {
      assert ids[i] !in ids[..k];
    }
  }

  /**
   * Every intermediate state of the renumbering phase keeps the owner's
   * orders distinct, when in addition the list covers all the owner's songs.
   */
  lemma RenumberingKeepsOrdersDistinct(t: Table, owner: UserId, ids: seq<SongId>, k: nat)
    requires k <= |ids| && DistinctIds(ids) && AllOwned(t, owner, ids) && Covers(t, owner, ids)
    ensures OrdersDistinct(Applied(Parked(t, owner, ids), owner, ids, Final, k), owner)
  {
    var p := Parked(t, owner, ids);
    var s := Applied(p, owner, ids, Final, k);
    AppliedFrame(t, owner, ids, Park, |ids|);
    AppliedFrame(p, owner, ids, Final, k);
    forall a, b | OwnedBy(s, a, owner) && OwnedBy(s, b, owner) && a != b
      ensures s[a].order != s[b].order
    {
      assert s[a].(order := p[a].order) == p[a] && p[a].(order := t[a].order) == t[a];
      assert s[b].(order := p[b].order) == p[b] && p[b].(order := t[b].order) == t[b];
      assert OwnedBy(t, a, owner) && OwnedBy(t, b, owner);
      var i :| 0 <= i < |ids| && ids[i] == a;
      var j :| 0 <= j < |ids| && ids[j] == b;
      RenumberingOrderAt(t, owner, ids, k, i);
      RenumberingOrderAt(t, owner, ids, k, j);
    }
  }

  /**
   * Why the parking phase exists: assigning the final positions directly can
   * give two songs of one user the same order midway. Songs `a` (order 0) and
   * `b` (order 1) swapped: after the first update both have order 0.
   */
  lemma DirectRenumberingCollides(owner: UserId)
    ensures var t := map["a" := Row(owner, "A", None, [], 0), "b" := Row(owner, "B", None, [], 1)];
      OrdersDistinct(t, owner) && !OrdersDistinct(Applied(t, owner, ["b", "a"], Final, 1), owner)
  {
    var t := map["a" := Row(owner, "A", None, [], 0), "b" := Row(owner, "B", None, [], 1)];
    var s := Applied(t, owner, ["b", "a"], Final, 1);
    assert Applied(t, owner, ["b", "a"], Final, 0) == t;
    assert s["a"].order == 0 && s["b"].order == 0;
    assert OwnedBy(s, "a", owner) && OwnedBy(s, "b", owner) && "a" != "b";
  }

  /**
   * End to end: after a successful reorder whose list covers the user's
   * songs, `GET` lists them exactly in the submitted order.
   */
  lemma ListingFollowsSubmittedOrder(t: Table, owner: UserId, ids: seq<SongId>, l: seq<SongsRoute.Entry>)
    requires DistinctIds(ids) && AllOwned(t, owner, ids) && Covers(t, owner, ids)
    requires SongsRoute.IsListing(Renumbered(t, owner, ids), owner, l)
    ensures |l| == |ids| && forall i :: 0 <= i < |l| ==> l[i].0 == ids[i]
  {
    var r := Renumbered(t, owner, ids);
    RenumberedOrders(t, owner, ids);
    AppliedFrame(t, owner, ids, Park, |ids|);
    AppliedFrame(Parked(t, owner, ids), owner, ids, Final, |ids|);
    // Every listed entry is a listed song, so its order is its list position.
    forall e | e in l ensures exists i :: 0 <= i < |ids| && ids[i] == e.0 && e.1.order == i {
      assert OwnedBy(r, e.0, owner);
      assert OwnedBy(t, e.0, owner);
      var i :| 0 <= i < |ids| && ids[i] == e.0;
    }
    // The listing holds every listed song.
    forall i | 0 <= i < |ids| ensures (ids[i], r[ids[i]]) in l {
      assert OwnedBy(r, ids[i], owner);
    }
    ListingIsPositions(l, ids, r);
  }

  /** A strictly sorted listing of exactly the positions 0..n-1 lists them in that order. */
  lemma ListingIsPositions(l: seq<SongsRoute.Entry>, ids: seq<SongId>, r: Table)
    requires SongsRoute.SortedByOrder(l) && SongsRoute.DistinctIds(l)
    requires forall e :: e in l ==> exists i :: 0 <= i < |ids| && ids[i] == e.0 && e.1.order == i
    requires forall i :: 0 <= i < |ids| ==> ids[i] in r && (ids[i], r[ids[i]]) in l && r[ids[i]].order == i
    ensures |l| == |ids| && forall i :: 0 <= i < |l| ==> l[i].0 == ids[i]
  {
    var os := seq(|l|, a requires 0 <= a < |l| => l[a].1.order);
    forall a, b | 0 <= a < b < |os| ensures os[a] < os[b] {
      assert l[a] in l && l[b] in l;
      var i :| 0 <= i < |ids| && ids[i] == l[a].0 && l[a].1.order == i;
      var j :| 0 <= j < |ids| && ids[j] == l[b].0 && l[b].1.order == j;
    }
    forall a | 0 <= a < |os| ensures 0 <= os[a] < |ids| {
      assert l[a] in l;
    }
    forall v | 0 <= v < |ids| ensures v in os {
      var e := (ids[v], r[ids[v]]);
      assert e in l;
      var a :| 0 <= a < |l| && l[a] == e;
      assert os[a] == v;
    }
    PositionsInOrder(os, |ids|);
    forall a | 0 <= a < |l| ensures l[a].0 == ids[a] {
      assert l[a] in l;
      var i :| 0 <= i < |ids| && ids[i] == l[a].0 && l[a].1.order == i;
      assert os[a] == a;
    }
  }

  /** Strictly increasing values drawn from [0, n) that include every value of [0, n) are 0, 1, ..., n-1. */
  lemma PositionsInOrder(os: seq<int>, n: nat)
    requires forall a, b :: 0 <= a < b < |os| ==> os[a] < os[b]
    requires forall a :: 0 <= a < |os| ==> 0 <= os[a] < n
    requires forall v :: 0 <= v < n ==> v in os
    ensures |os| == n && forall a :: 0 <= a < n ==> os[a] == a
  {
    LowerBound(os, n);
    forall a | 0 <= a < |os| ensures os[a] == a {
      PositionAt(os, n, a);
    }
    if |os| > 0 {
      assert os[|os| - 1] >= |os| - 1;
    }
    if n > 0 {
      assert n - 1 in os;
      var b :| 0 <= b < |os| && os[b] == n - 1;
      assert os[b] == b;
    }
  }

  /** In a strictly increasing sequence of non-negative values the value at index a is at least a. */
  lemma {:induction false} LowerBound(os: seq<int>, n: nat)
    requires forall a, b :: 0 <= a < b < |os| ==> os[a] < os[b]
    requires forall a :: 0 <= a < |os| ==> 0 <= os[a] < n
    ensures forall a :: 0 <= a < |os| ==> os[a] >= a
    decreases |os|
  {
    if |os| > 0 {
      LowerBound(os[..|os| - 1], n);
      forall a | 0 <= a < |os| ensures os[a] >= a {
        if a == |os| - 1 && a > 0 {
          assert os[..|os| - 1][a - 1] == os[a - 1];
        } else if a < |os| - 1 {
          assert os[..|os| - 1][a] == os[a];
        }
      }
    }
  }

  lemma {:induction false} PositionAt(os: seq<int>, n: nat, a: nat)
    requires forall a, b :: 0 <= a < b < |os| ==> os[a] < os[b]
    requires forall a :: 0 <= a < |os| ==> 0 <= os[a] < n
    requires forall v :: 0 <= v < n ==> v in os
    requires forall a :: 0 <= a < |os| ==> os[a] >= a
    requires a < |os|
    ensures os[a] == a
    decreases a
  {
    assert a <= os[a] < n;
    assert a in os;
    var b :| 0 <= b < |os| && os[b] == a;
    if b < a {
      PositionAt(os, n, b);
    }
  }
}
