/**
 * An in-memory stand-in for the relational client repository.  Every call
 * takes a `fault` flag standing for the database failing that call; a failed
 * call changes nothing.  The repository's conventions are kept: a missing row
 * is read as "absent" with no error, updating a missing row is an error, and
 * deleting a missing row is not.
 */
module Store {
  import opened Wrappers
  import opened Models

  type Rows = map<string, Client>

  /** Every row is filed under the client id it carries (the table's key). */
  ghost predicate Keyed(rows: Rows) {
    forall id | id in rows :: rows[id].clientId == id
  }

  /** Every stored client satisfies the token invariant. */
  ghost predicate Consistent(rows: Rows) {
    forall id | id in rows :: Sound(rows[id])
  }

  /** The ids of a listing of clients. */
  ghost function Ids(list: seq<Client>): set<string> {
    set i | 0 <= i < |list| :: list[i].clientId
  }

  lemma IdsSnoc(list: seq<Client>, c: Client)
    ensures Ids(list + [c]) == Ids(list) + {c.clientId}
  {
    var ext := list + [c];
    forall id | id in Ids(ext) ensures id in Ids(list) + {c.clientId} {
      var i :| 0 <= i < |ext| && ext[i].clientId == id;
      if i < |list| {
        assert list[i].clientId == id;
      }
    }
    forall id | id in Ids(list) ensures id in Ids(ext) {
      var i :| 0 <= i < |list| && list[i].clientId == id;
      assert ext[i].clientId == id;
    }
    assert ext[|list|].clientId == c.clientId;
  }

  /** In a listing without repeated ids, an entry's id does not occur before it. */
  lemma FreshInPrefix(list: seq<Client>, i: nat)
    requires i < |list|
    requires forall a, b | 0 <= a < b < |list| :: list[a].clientId != list[b].clientId
    ensures list[i].clientId !in Ids(list[..i])
  {
  }

  /** `list` holds every stored client exactly once, as stored. */
  ghost predicate Enumerates(list: seq<Client>, rows: Rows) {
    && Ids(list) == rows.Keys
    && (forall i | 0 <= i < |list| :: list[i].clientId in rows && rows[list[i].clientId] == list[i])
    && (forall i, j | 0 <= i < j < |list| :: list[i].clientId != list[j].clientId)
  }

  /** Outcome of reading one row. */
  datatype Fetch = Found(client: Client) | Missing | Fault

  class ClientStore {
    var rows: Rows

    ghost predicate Valid()
      reads this
    {
      Keyed(rows)
    }

    constructor ()
      ensures Valid() && rows == map[]
    {
      rows := map[];
    }

    /** Reads one row; the row lock of the locking variant is not modelled. */
    method GetByID(id: string, fault: bool) returns (r: Fetch)
      ensures fault ==> r == Fault
      ensures !fault && id in rows ==> r == Found(rows[id])
      ensures !fault && id !in rows ==> r == Missing
    {
      if fault {
        return Fault;
      }
      if id in rows {
        return Found(rows[id]);
      }
      return Missing;
    }

    /** Lists every row, in an order the store chooses. */
    method GetAllClients(fault: bool) returns (r: Option<seq<Client>>)
      requires Valid()
      ensures r.None? <==> fault
      ensures r.Some? ==> Enumerates(r.value, rows)
    {
      if fault {
        return None;
      }
      var list: seq<Client> := [];
      var left := rows.Keys;
      while left != {}
        invariant left <= rows.Keys
        invariant Ids(list) == rows.Keys - left
        invariant forall i | 0 <= i < |list| :: list[i].clientId in rows && rows[list[i].clientId] == list[i]
        invariant forall i, j | 0 <= i < j < |list| :: list[i].clientId != list[j].clientId
        decreases left
      {
        var id :| id in left;
        IdsSnoc(list, rows[id]);
        list := list + [rows[id]];
        left := left - {id};
      }
      return Some(list);
    }

    /** Inserts a new row; an id already present violates the table's key. */
    method Create(c: Client, fault: bool) returns (err: bool)
      requires Valid()
      modifies this
      ensures Valid()
      ensures err <==> fault || c.clientId in old(rows)
      ensures rows == if err then old(rows) else old(rows)[c.clientId := c]
    {
      if fault || c.clientId in rows {
        return true;
      }
      rows := rows[c.clientId := c];
      return false;
    }

    /** Overwrites the row filed under `c.clientId`; a missing row is an error. */
    method Update(c: Client, fault: bool) returns (err: bool)
      requires Valid()
      modifies this
      ensures Valid()
      ensures err <==> fault || c.clientId !in old(rows)
      ensures rows == if err then old(rows) else old(rows)[c.clientId := c]
    {
      if fault || c.clientId !in rows {
        return true;
      }
      rows := rows[c.clientId := c];
      return false;
    }

    /** Removes the row for `id` if there is one; only a database fault is an error. */
    method Delete(id: string, fault: bool) returns (err: bool)
      requires Valid()
      modifies this
      ensures Valid()
      ensures err == fault
      ensures rows == if fault then old(rows) else old(rows) - {id}
    {
      if fault {
        return true;
      }
      rows := rows - {id};
      return false;
    }
  }
}
