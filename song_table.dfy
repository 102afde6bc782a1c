/**
 * The server's song table as the route handlers see it: rows keyed by song
 * id, each owned by one user and carrying its collection position `order`.
 */
module SongTable {
  import opened Wrappers
  import opened Types

  datatype Row = Row(owner: UserId, title: string, key: Option<string>, sequence: seq<SequenceItem>, order: int)

  type Table = map<SongId, Row>

  /** The HTTP statuses the handlers answer with. */
  datatype Status = Ok | BadRequest | Unauthorized | ServerError {
    function Code(): int {
      match this
      case Ok => 200
      case BadRequest => 400
      case Unauthorized => 401
      case ServerError => 500
    }
  }

  predicate OwnedBy(t: Table, id: SongId, owner: UserId) {
    id in t && t[id].owner == owner
  }

  /** The `order` values of one user's songs. */
  function OwnerOrders(t: Table, owner: UserId): set<int> {
    set id | id in t && t[id].owner == owner :: t[id].order
  }

  /** No two songs of `owner` share an `order`. */
  ghost predicate OrdersDistinct(t: Table, owner: UserId) {
    forall a, b :: OwnedBy(t, a, owner) && OwnedBy(t, b, owner) && a != b ==> t[a].order != t[b].order
  }

  /** Another user's row, added or replaced, does not change this user's orders. */
  lemma OwnerOrdersIgnoreOthers(t: Table, owner: UserId, id: SongId, row: Row)
    requires row.owner != owner && !OwnedBy(t, id, owner)
    ensures OwnerOrders(t[id := row], owner) == OwnerOrders(t, owner)
  {
    var t' := t[id := row];
    forall o | o in OwnerOrders(t', owner) ensures o in OwnerOrders(t, owner) {
      var x :| x in t' && t'[x].owner == owner && t'[x].order == o;
      assert x != id && x in t;
    }
    forall o | o in OwnerOrders(t, owner) ensures o in OwnerOrders(t', owner) {
      var x :| x in t && t[x].owner == owner && t[x].order == o;
      assert x != id && x in t';
    }
  }

  /** The database: the song table, updated in place by the route handlers. */
  class Database {
    var rows: Table

    constructor (initial: Table)
      ensures rows == initial
    {
      rows := initial;
    }
  }
}
