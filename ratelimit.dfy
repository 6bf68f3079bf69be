/**
 * Token-bucket admission and the periodic refill sweep, over the client store.
 * Every request admitted costs a fixed number of tokens; a refill tick tops
 * up, by the client's rate, every client below capacity, without clamping.
 */
module RateLimit {
  import opened Wrappers
  import opened Models
  import opened Store

  /** Tokens charged for one admitted request. */
  const Cost: int := 10

  /** What an admission check reports: (true, nil), (false, nil) or (false, err). */
  datatype Admission = Allowed | Denied | Failed

  /** The record after one admitted request has been charged. */
  function Charged(c: Client): (r: Client)
    requires c.tokens >= Cost
    ensures r.clientId == c.clientId && r.capacity == c.capacity && r.ratePerSec == c.ratePerSec
    ensures r.tokens == c.tokens - Cost && r.tokens >= 0
    ensures Sound(c) ==> Sound(r)
  {
    c.(tokens := c.tokens - Cost)
  }

  /** The record after one refill tick: raised by its rate while below capacity, never clamped. */
  function Topped(c: Client): (r: Client)
    ensures r.clientId == c.clientId && r.capacity == c.capacity && r.ratePerSec == c.ratePerSec
    ensures c.tokens >= c.capacity ==> r == c
    ensures c.tokens < c.capacity ==> r.tokens - c.tokens == c.ratePerSec && r.tokens < c.capacity + c.ratePerSec
    ensures Sound(c) ==> Sound(r)
  {
    if c.tokens < c.capacity then c.(tokens := c.tokens + c.ratePerSec) else c
  }

  /**
   * The answer of an admission check for `id`, given whether the read and the
   * write-back of its record fail.  Unknown clients are refused (fail closed).
   */
  function Decide(rows: Rows, id: string, readFault: bool, writeFault: bool): (a: Admission)
    ensures a == Allowed <==> !readFault && !writeFault && id in rows && rows[id].tokens >= Cost
    ensures a == Failed <==> readFault || (writeFault && id in rows && rows[id].tokens >= Cost)
    ensures !readFault && id !in rows ==> a == Denied
  {
    if readFault then Failed
    else if id !in rows then Denied
    else if rows[id].tokens < Cost then Denied
    else if writeFault then Failed
    else Allowed
  }

  /** The store after an admission check: only an allowed request changes it. */
  function Admitted(rows: Rows, id: string, readFault: bool, writeFault: bool): (r: Rows)
    ensures r.Keys == rows.Keys
    ensures forall k | k in rows && k != id :: r[k] == rows[k]
    ensures id in rows && Decide(rows, id, readFault, writeFault) == Allowed ==> r[id] == Charged(rows[id])
    ensures Decide(rows, id, readFault, writeFault) != Allowed ==> r == rows
  {
    if Decide(rows, id, readFault, writeFault) == Allowed then rows[id := Charged(rows[id])] else rows
  }

  /**
   * The store after a refill sweep whose listing succeeded: every client is
   * topped up once, except those whose write-back failed, which keep their row.
   */
  function Refilled(rows: Rows, writeFaults: set<string>): (r: Rows)
    ensures r.Keys == rows.Keys
    ensures forall id | id in rows ::
      r[id] == if id in writeFaults then rows[id] else Topped(rows[id])
    ensures Consistent(rows) ==> Consistent(r)
  {
    map id | id in rows :: if id in writeFaults then rows[id] else Topped(rows[id])
  }

  /** Rows after the first `done` ids of a sweep have been processed. */
  ghost function PartlyRefilled(rows: Rows, done: set<string>, writeFaults: set<string>): Rows {
    map id | id in rows :: if id in done && id !in writeFaults then Topped(rows[id]) else rows[id]
  }

  /** Processing one more listed id tops up exactly that row, unless its write-back fails. */
  lemma RefillStep(rows: Rows, done: set<string>, writeFaults: set<string>, id: string)
    requires id in rows && id !in done
    ensures PartlyRefilled(rows, done + {id}, writeFaults)
         == PartlyRefilled(rows, done, writeFaults)[id := if id in writeFaults then rows[id] else Topped(rows[id])]
  {
  }

  /** Once every id has been processed, the sweep is complete. */
  lemma RefillAll(rows: Rows, writeFaults: set<string>)
    ensures PartlyRefilled(rows, rows.Keys, writeFaults) == Refilled(rows, writeFaults)
  {
  }

  class RateLimiter {
    const repo: ClientStore

    constructor (repo: ClientStore)
      ensures this.repo == repo
    {
      this.repo := repo;
    }

    /**
     * Admission check for one request of `clientId`: reads the record, refuses
     * an unknown client or one with fewer than `Cost` tokens, otherwise charges
     * `Cost` and writes the record back.  A failed read or write is an error.
     */
    method AllowRequest(clientId: string, readFault: bool, writeFault: bool) returns (a: Admission)
      requires repo.Valid()
      modifies repo
      ensures repo.Valid()
      ensures a == Decide(old(repo.rows), clientId, readFault, writeFault)
      ensures repo.rows == Admitted(old(repo.rows), clientId, readFault, writeFault)
    {
      var fetched := repo.GetByID(clientId, readFault);
      if fetched.Fault? {
        return Failed;
      }
      if fetched.Missing? {
        return Denied;
      }
      var client := fetched.client;
      if client.tokens < Cost {
        return Denied;
      }
      client := client.(tokens := client.tokens - Cost);
      var err := repo.Update(client, writeFault);
      if err {
        return Failed;
      }
      return Allowed;
    }

    /**
     * The body of the refill sweep for one listed client: re-reads it and,
     * while it is below capacity, adds its rate and writes it back.  A failed
     * write-back leaves the row as it was and is not reported.
     */
    method RefillClient(id: string, writeFault: bool)
      requires repo.Valid() && id in repo.rows
      modifies repo
      ensures repo.Valid()
      ensures repo.rows == old(repo.rows)[id := if writeFault then old(repo.rows)[id] else Topped(old(repo.rows)[id])]
    {
      var fetched := repo.GetByID(id, false);
      var client := fetched.client;
      if client.tokens < client.capacity {
        client := client.(tokens := client.tokens + client.ratePerSec);
        var _ := repo.Update(client, writeFault);
      }
    }

    /**
     * One refill tick: lists every client, re-reads each and, while it is
     * below capacity, adds its rate and writes it back.  A failed write-back
     * is ignored; only a failed listing is reported, and it changes nothing.
     */
    method RefillAllTokens(listFault: bool, writeFaults: set<string>) returns (ok: bool)
      requires repo.Valid()
      modifies repo
      ensures repo.Valid()
      ensures ok == !listFault
      ensures repo.rows == if listFault then old(repo.rows) else Refilled(old(repo.rows), writeFaults)
    {
      var listing := repo.GetAllClients(listFault);
      if listing.None? {
        return false;
      }
      var clients := listing.value;
      ghost var rows0 := repo.rows;
      ghost var done: set<string> := {};
      for i := 0 to |clients|
        invariant repo.Valid()
        invariant done == Ids(clients[..i])
        invariant repo.rows == PartlyRefilled(rows0, done, writeFaults)
      {
        var id := clients[i].clientId;
        FreshInPrefix(clients, i);
        RefillStep(rows0, done, writeFaults, id);
        RefillClient(id, id in writeFaults);
        IdsSnoc(clients[..i], clients[i]);
        assert clients[..i + 1] == clients[..i] + [clients[i]];
        done := done + {id};
      }
      assert clients[..|clients|] == clients;
      RefillAll(rows0, writeFaults);
      return true;
    }
  }
}
