/**
 * `GET /api/songs` and `POST /api/songs`: list the session user's songs by
 * ascending `order`, and create a song at the end of that user's list.
 */
module SongsRoute {
  import opened Wrappers
  import opened Types
  import opened SongTable

  type Entry = (SongId, Row)

  predicate SortedByOrder(l: seq<Entry>) {
    forall i, j :: 0 <= i < j < |l| ==> l[i].1.order <= l[j].1.order
  }

  predicate DistinctIds(l: seq<Entry>) {
    forall i, j :: 0 <= i < j < |l| ==> l[i].0 != l[j].0
  }

  /**
   * `l` is an answer `findMany({ where: { userId: owner }, orderBy: { order: 'asc' } })`
   * may give: every row of `owner` exactly once, nothing else, ascending by `order`.
   */
  ghost predicate IsListing(t: Table, owner: UserId, l: seq<Entry>) {
    && SortedByOrder(l)
    && DistinctIds(l)
    && (forall e :: e in l ==> OwnedBy(t, e.0, owner) && t[e.0] == e.1)
    && (forall id :: OwnedBy(t, id, owner) ==> (id, t[id]) in l)
  }

  /** The position before the first entry whose order is at least `e`'s. */
  function InsertPos(l: seq<Entry>, e: Entry): (k: nat)
    ensures k <= |l|
    ensures forall i :: 0 <= i < k ==> l[i].1.order < e.1.order
    ensures k < |l| ==> e.1.order <= l[k].1.order
  {
    if l == [] || e.1.order <= l[0].1.order then 0 else 1 + InsertPos(l[1..], e)
  }

  /** Insert one entry into a listing sorted by `order`, keeping it sorted. */
  function InsertSorted(l: seq<Entry>, e: Entry): (r: seq<Entry>)
    requires SortedByOrder(l)
    ensures SortedByOrder(r) && |r| == |l| + 1
    ensures forall x :: x in r <==> x in l || x == e
    ensures var k := InsertPos(l, e);
      r[k] == e && (forall i :: 0 <= i < k ==> r[i] == l[i]) && (forall i :: k < i < |r| ==> r[i] == l[i - 1])
  {
    var k := InsertPos(l, e);
    var r := l[..k] + [e] + l[k..];
    InsertedAt(l, e, k, r);
    r
  }

  /** Splicing `e` in at a position where it fits keeps the listing sorted and adds exactly `e`. */
  lemma InsertedAt(l: seq<Entry>, e: Entry, k: nat, r: seq<Entry>)
    requires SortedByOrder(l) && k <= |l| && r == l[..k] + [e] + l[k..]
    requires forall i :: 0 <= i < k ==> l[i].1.order < e.1.order
    requires k < |l| ==> e.1.order <= l[k].1.order
    ensures SortedByOrder(r) && |r| == |l| + 1
    ensures forall x :: x in r <==> x in l || x == e
    ensures r[k] == e && (forall i :: 0 <= i < k ==> r[i] == l[i]) && (forall i :: k < i < |r| ==> r[i] == l[i - 1])
  {
    forall i | 0 <= i < |r| ensures r[i] == if i < k then l[i] else if i == k then e else l[i - 1] {
      if i < k {
        assert r[i] == l[..k][i];
      } else if i > k {
        assert r[i] == l[k..][i - k - 1];
      }
    }
    forall i, j | 0 <= i < j < |r| ensures r[i].1.order <= r[j].1.order {
      if j == k && i < k {
        assert r[i] == l[i];
      } else if i == k && j > k {
        assert r[j] == l[j - 1];
      }
    }
    forall x | x in l ensures x in r {
      var m :| 0 <= m < |l| && l[m] == x;
      assert r[if m < k then m else m + 1] == x;
    }
  }

  lemma DistinctAfterInsert(l: seq<Entry>, e: Entry)
    requires SortedByOrder(l) && DistinctIds(l)
    requires forall x :: x in l ==> x.0 != e.0
    ensures DistinctIds(InsertSorted(l, e))
  {
    var k := InsertPos(l, e);
    var r := InsertSorted(l, e);
    forall i, j | 0 <= i < j < |r| ensures r[i].0 != r[j].0 {
      if i == k {
        assert r[j] in l;
      } else if j == k {
        assert r[i] in l;
      } else {
        var i' := if i < k then i else i - 1;
        var j' := if j < k then j else j - 1;
        assert r[i] == l[i'] && r[j] == l[j'] && i' < j';
      }
    }
  }

  /** `GET`: 401 without a session user, 500 when the query fails, otherwise the user's listing. */
  method Get(db: Database, session: Option<UserId>, queryOk: bool) returns (status: Status, listing: seq<Entry>)
    ensures session.None? ==> status == Unauthorized && listing == []
    ensures session.Some? && !queryOk ==> status == ServerError && listing == []
    ensures session.Some? && queryOk ==> status == Ok && IsListing(db.rows, session.value, listing)
  {
    listing := [];
    if session.None? {
      return Unauthorized, [];
    }
    if !queryOk {
      return ServerError, [];
    }
    var owner := session.value;
    var t := db.rows;
    var remaining := t.Keys;
    while remaining != {}
      invariant remaining <= t.Keys
      invariant SortedByOrder(listing) && DistinctIds(listing)
      invariant forall e :: e in listing ==> OwnedBy(t, e.0, owner) && t[e.0] == e.1 && e.0 !in remaining
      invariant forall id :: OwnedBy(t, id, owner) && id !in remaining ==> (id, t[id]) in listing
      decreases remaining
    {
      var id :| id in remaining;
      remaining := remaining - {id};
      if t[id].owner == owner {
        DistinctAfterInsert(listing, (id, t[id]));
        listing := InsertSorted(listing, (id, t[id]));
      }
    }
    status := Ok;
  }

  /** `findFirst({ where: { userId: owner }, orderBy: { order: 'desc' } })`, as the order of the row found. */
  method LastOrder(t: Table, owner: UserId) returns (last: Option<int>)
    ensures last.None? <==> OwnerOrders(t, owner) == {}
    ensures last.Some? ==> last.value in OwnerOrders(t, owner)
    ensures last.Some? ==> forall o :: o in OwnerOrders(t, owner) ==> o <= last.value
  {
    last := None;
    var remaining := t.Keys;
    while remaining != {}
      invariant remaining <= t.Keys
      invariant last.None? <==> forall id :: id in t.Keys - remaining ==> t[id].owner != owner
      invariant last.Some? ==> last.value in OwnerOrders(t, owner)
      invariant last.Some? ==> forall id :: id in t.Keys - remaining && t[id].owner == owner ==> t[id].order <= last.value
      decreases remaining
    {
      var id :| id in remaining;
      remaining := remaining - {id};
      if t[id].owner == owner && (last.None? || t[id].order > last.value) {
        last := Some(t[id].order);
      }
    }
  }

  /** The parsed POST body; a missing `sequence` is `None`. */
  datatype PostBody = PostBody(title: string, key: Option<string>, sequence: Option<seq<SequenceItem>>)

  /**
   * `POST`: 401 without a session user; 500 when a query fails; otherwise the
   * new row (with the database-generated id `freshId`) gets the user's largest
   * order plus one, or 0 for a user with no songs.
   */
  method Post(db: Database, session: Option<UserId>, body: PostBody, freshId: SongId, queryOk: bool)
    returns (status: Status, created: Option<Entry>)
    requires freshId !in db.rows
    modifies db
    ensures session.None? || !queryOk ==> db.rows == old(db.rows) && created == None
    ensures session.None? ==> status == Unauthorized
    ensures session.Some? && !queryOk ==> status == ServerError
    ensures session.Some? && queryOk ==>
      var owner := session.value;
      var orders := OwnerOrders(old(db.rows), owner);
      && status == Ok && created.Some? && created.value.0 == freshId
      && db.rows == old(db.rows)[freshId := created.value.1]
      && created.value.1 == Row(owner, body.title, body.key, body.sequence.GetOr([]), created.value.1.order)
      && (orders == {} ==> created.value.1.order == 0)
      && (orders != {} ==> created.value.1.order - 1 in orders)
      && (forall o :: o in orders ==> o < created.value.1.order)
    ensures session.Some? && OrdersDistinct(old(db.rows), session.value) ==> OrdersDistinct(db.rows, session.value)
  {
    if session.None? {
      return Unauthorized, None;
    }
    if !queryOk {
      return ServerError, None;
    }
    var owner := session.value;
    var last := LastOrder(db.rows, owner);
    var nextOrder := if last.Some? then last.value + 1 else 0;
    var row := Row(owner, body.title, body.key, body.sequence.GetOr([]), nextOrder);
    ghost var t := db.rows;
    db.rows := db.rows[freshId := row];
    status, created := Ok, Some((freshId, row));
    if OrdersDistinct(t, owner) {
      forall a, b | OwnedBy(db.rows, a, owner) && OwnedBy(db.rows, b, owner) && a != b
        ensures db.rows[a].order != db.rows[b].order
      {
        if a != freshId && b != freshId {
          assert OwnedBy(t, a, owner) && OwnedBy(t, b, owner);
        } else if a == freshId {
          assert t[b].order in OwnerOrders(t, owner);
        } else {
          assert t[a].order in OwnerOrders(t, owner);
        }
      }
    }
  }
}
