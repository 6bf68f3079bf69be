/**
 * The quota-record rules of the client-management handlers: validation,
 * defaulting and clamping, each handler reduced to the status code it sends
 * and its effect on the client store.  The HTTP and JSON layer is reduced to
 * an optional request body (absent when the body does not decode).
 */
module Handlers {
  import opened Wrappers
  import opened Models
  import opened Store

  const StatusOK: int := 200
  const StatusCreated: int := 201
  const StatusNoContent: int := 204
  const StatusBadRequest: int := 400
  const StatusNotFound: int := 404
  const StatusInternalServerError: int := 500

  /**
   * The record a create request produces: a non-positive capacity or rate is
   * replaced by the configured default, and the bucket starts full.
   */
  function NewClient(req: CreateRequest, defaultCapacity: int, defaultRate: int): (c: Client)
    ensures c.clientId == req.clientId
    ensures req.capacity > 0 ==> c.capacity == req.capacity
    ensures req.capacity <= 0 ==> c.capacity == defaultCapacity
    ensures req.ratePerSec > 0 ==> c.ratePerSec == req.ratePerSec
    ensures req.ratePerSec <= 0 ==> c.ratePerSec == defaultRate
    ensures c.tokens == c.capacity
    ensures defaultCapacity > 0 && defaultRate > 0 ==> Sound(c)
  {
    var capacity := if req.capacity <= 0 then defaultCapacity else req.capacity;
    var rate := if req.ratePerSec <= 0 then defaultRate else req.ratePerSec;
    Client(req.clientId, capacity, rate, capacity)
  }

  /**
   * The record an update request produces: new settings, and a balance
   * lowered to the new capacity when above it, never raised.
   */
  function Reconfigured(c: Client, capacity: int, ratePerSec: int): (r: Client)
    requires capacity > 0 && ratePerSec > 0
    ensures r.clientId == c.clientId && r.capacity == capacity && r.ratePerSec == ratePerSec
    ensures r.tokens <= c.tokens && r.tokens <= capacity
    ensures r.tokens == c.tokens || r.tokens == capacity
    ensures c.tokens >= 0 ==> Sound(r)
  {
    var tokens := if c.tokens > capacity then capacity else c.tokens;
    c.(capacity := capacity, ratePerSec := ratePerSec, tokens := tokens)
  }

  /**
   * A create request passes validation when it decodes and names a client;
   * with positive defaults, what it stores is then a sound record under a
   * non-empty key.
   */
  predicate CreateValid(body: Option<CreateRequest>): (v: bool)
    ensures v ==> body.Some?
    ensures body.Some? && v ==> forall dc: int, dr: int | dc > 0 && dr > 0 ::
      Sound(NewClient(body.value, dc, dr)) && NewClient(body.value, dc, dr).clientId != ""
    ensures body.Some? && !v ==> body.value.clientId == ""
  {
    body.Some? && body.value.clientId != ""
  }

  /**
   * An update request passes validation when it decodes and both settings
   * are positive: exactly the settings under which an empty bucket is sound,
   * and under which every reconfigured record with a non-negative balance is.
   */
  predicate UpdateValid(body: Option<UpdateRequest>): (v: bool)
    ensures v ==> body.Some?
    ensures body.Some? ==> (v <==> Sound(Client("", body.value.capacity, body.value.ratePerSec, 0)))
    ensures body.Some? && v ==> forall c: Client | c.tokens >= 0 :: Sound(Reconfigured(c, body.value.capacity, body.value.ratePerSec))
  {
    body.Some? && body.value.capacity > 0 && body.value.ratePerSec > 0
  }

  /** The store after a create request. */
  function AfterCreate(rows: Rows, body: Option<CreateRequest>, defaultCapacity: int, defaultRate: int, fault: bool): (r: Rows)
    ensures !CreateValid(body) || fault || body.value.clientId in rows ==> r == rows
    ensures CreateValid(body) && !fault && body.value.clientId !in rows ==>
      r == rows[body.value.clientId := NewClient(body.value, defaultCapacity, defaultRate)]
  {
    if CreateValid(body) && !fault && body.value.clientId !in rows
    then rows[body.value.clientId := NewClient(body.value, defaultCapacity, defaultRate)]
    else rows
  }

  /** The store after an update request for `id`. */
  function AfterUpdate(rows: Rows, id: string, body: Option<UpdateRequest>, readFault: bool, writeFault: bool): (r: Rows)
    ensures r.Keys == rows.Keys
    ensures forall k | k in rows && k != id :: r[k] == rows[k]
    ensures UpdateValid(body) && !readFault && !writeFault && id in rows ==>
      r[id] == Reconfigured(rows[id], body.value.capacity, body.value.ratePerSec)
    ensures !UpdateValid(body) || readFault || writeFault ==> r == rows
  {
    if UpdateValid(body) && !readFault && !writeFault && id in rows
    then rows[id := Reconfigured(rows[id], body.value.capacity, body.value.ratePerSec)]
    else rows
  }

  /** The store after a delete request for `id`. */
  function AfterDelete(rows: Rows, id: string, fault: bool): (r: Rows)
    ensures id !in r || fault
    ensures r.Keys == if fault then rows.Keys else rows.Keys - {id}
    ensures forall k | k in r :: r[k] == rows[k]
  {
    if fault then rows else rows - {id}
  }

  class ClientHandler {
    const repo: ClientStore
    const defaultCapacity: int
    const defaultRate: int

    constructor (repo: ClientStore, defaultCapacity: int, defaultRate: int)
      ensures this.repo == repo && this.defaultCapacity == defaultCapacity && this.defaultRate == defaultRate
    {
      this.repo := repo;
      this.defaultCapacity := defaultCapacity;
      this.defaultRate := defaultRate;
    }

    /** GET /clients: lists every client and answers 201 (not 200), or 500 if the listing fails. */
    method GetClients(fault: bool) returns (status: int)
      requires repo.Valid()
      ensures status == (if fault then StatusInternalServerError else StatusCreated)
    {
      var listing := repo.GetAllClients(fault);
      if listing.None? {
        return StatusInternalServerError;
      }
      return StatusCreated;
    }

    /** POST /clients. */
    method CreateClient(body: Option<CreateRequest>, fault: bool) returns (status: int)
      requires repo.Valid()
      modifies repo
      ensures repo.Valid()
      ensures repo.rows == AfterCreate(old(repo.rows), body, defaultCapacity, defaultRate, fault)
      ensures !CreateValid(body) ==> status == StatusBadRequest
      ensures CreateValid(body) && (fault || body.value.clientId in old(repo.rows)) ==> status == StatusInternalServerError
      ensures CreateValid(body) && !fault && body.value.clientId !in old(repo.rows) ==> status == StatusCreated
    {
      if body.None? {
        return StatusBadRequest;
      }
      var req := body.value;
      if req.clientId == "" {
        return StatusBadRequest;
      }
      if req.capacity <= 0 {
        req := req.(capacity := defaultCapacity);
      }
      if req.ratePerSec <= 0 {
        req := req.(ratePerSec := defaultRate);
      }
      var client := Client(req.clientId, req.capacity, req.ratePerSec, req.capacity);
      var err := repo.Create(client, fault);
      if err {
        return StatusInternalServerError;
      }
      return StatusCreated;
    }

    /** PUT /clients/{id}. */
    method UpdateClient(id: string, body: Option<UpdateRequest>, readFault: bool, writeFault: bool) returns (status: int)
      requires repo.Valid()
      modifies repo
      ensures repo.Valid()
      ensures repo.rows == AfterUpdate(old(repo.rows), id, body, readFault, writeFault)
      ensures !UpdateValid(body) ==> status == StatusBadRequest
      ensures UpdateValid(body) && readFault ==> status == StatusInternalServerError
      ensures UpdateValid(body) && !readFault && id !in old(repo.rows) ==> status == StatusNotFound
      ensures UpdateValid(body) && !readFault && id in old(repo.rows) ==>
        status == (if writeFault then StatusInternalServerError else StatusOK)
    {
      if body.None? {
        return StatusBadRequest;
      }
      var req := body.value;
      if req.capacity <= 0 {
        return StatusBadRequest;
      }
      if req.ratePerSec <= 0 {
        return StatusBadRequest;
      }
      var fetched := repo.GetByID(id, readFault);
      if fetched.Fault? {
        return StatusInternalServerError;
      }
      if fetched.Missing? {
        return StatusNotFound;
      }
      var client := fetched.client;
      client := client.(capacity := req.capacity, ratePerSec := req.ratePerSec);
      if client.tokens > req.capacity {
        client := client.(tokens := req.capacity);
      }
      var err := repo.Update(client, writeFault);
      if err {
        return StatusInternalServerError;
      }
      return StatusOK;
    }

    /** DELETE /clients/{id}: 204 whether or not the client existed, 500 on a store fault. */
    method DeleteClient(id: string, fault: bool) returns (status: int)
      requires repo.Valid()
      modifies repo
      ensures repo.Valid()
      ensures repo.rows == AfterDelete(old(repo.rows), id, fault)
      ensures status == (if fault then StatusInternalServerError else StatusNoContent)
    {
      var err := repo.Delete(id, fault);
      if err {
        return StatusInternalServerError;
      }
      return StatusNoContent;
    }
  }
}
