/**
 * The backend pool and the per-request routing decision.  Backends are
 * objects whose liveness flag the health check overwrites; the pool keeps
 * them in registration order with a shared round-robin cursor.  Proxying is
 * reduced to the outcome "forwarded to backend i".
 */
module LoadBalancer {
  import opened Wrappers
  import opened Store
  import opened RateLimit
  import opened RoundRobin

  /** How a request ends: rejected with a status code, or forwarded once to `backend`. */
  datatype Outcome = Reject(status: int) | Forward(backend: Backend)

  const StatusTooManyRequests: int := 429
  const StatusInternalServerError: int := 500
  const StatusServiceUnavailable: int := 503

  /** Attempts beyond this many answer 503. */
  const MaxAttempts: int := 3

  /**
   * The attempt count a request's context carries, or 0 when it carries
   * none.  Nothing in the gateway ever stores one, so every request reads 0.
   */
  function AttemptsFromContext(stored: Option<int>): (n: int)
    ensures stored.None? ==> n == 0
    ensures stored.Some? ==> n == stored.value
  {
    match stored
    case Some(a) => a
    case None => 0
  }

  class Backend {
    const url: string
    var alive: bool

    /** A registered backend starts out live. */
    constructor (url: string)
      ensures this.url == url && alive
    {
      this.url := url;
      alive := true;
    }

    method SetAlive(alive: bool)
      modifies this
      ensures this.alive == alive
    {
      this.alive := alive;
    }

    method IsAlive() returns (a: bool)
      ensures a == alive
    {
      a := alive;
    }
  }

  class ServerPool {
    var backends: seq<Backend>
    var current: nat
    const rl: RateLimiter

    /** Every backend is registered once, as its own object. */
    ghost predicate Valid()
      reads this`backends
    {
      forall i, j | 0 <= i < j < |backends| :: backends[i] != backends[j]
    }

    /** The liveness flags, in pool order. */
    ghost function Alive(): seq<bool>
      reads this`backends, backends
    {
      var bs := backends;
      seq(|bs|, i requires 0 <= i < |bs| reads bs => bs[i].alive)
    }

    constructor (rl: RateLimiter)
      ensures Valid() && backends == [] && current == 0 && this.rl == rl
    {
      backends := [];
      current := 0;
      this.rl := rl;
    }

    /** Registers a new live backend at the end of the pool. */
    method AddBackend(url: string)
      requires Valid()
      modifies this`backends
      ensures Valid()
      ensures |backends| == |old(backends)| + 1 && backends[..|old(backends)|] == old(backends)
      ensures fresh(backends[|backends| - 1]) && backends[|backends| - 1].url == url
      ensures Alive() == old(Alive()) + [true]
      ensures current == old(current)
    {
      var backend := new Backend(url);
      backends := backends + [backend];
    }

    /** Advances the cursor by one and reduces it modulo the pool size. */
    method NextIndex() returns (i: nat)
      requires |backends| > 0
      modifies this`current
      ensures current == old(current) + 1
      ensures i == NextStart(old(current), |backends|)
    {
      current := current + 1;
      i := current % |backends|;
    }

    /**
     * Scans one cycle from the advanced cursor for the first live backend;
     * when it had to skip backends, the cursor is set to the one chosen.
     * Returns null when every backend is down.
     */
    method GetNextBackend() returns (b: Backend?)
      requires |backends| > 0
      modifies this`current
      ensures var choice := Pick(Alive(), old(current));
        && current == choice.cursor
        && (choice.picked.None? ==> b == null)
        && (choice.picked.Some? ==> b == backends[choice.picked.value])
    {
      ghost var alive := Alive();
      var next := NextIndex();
      var n := |backends|;
      var l := n + next;
      var i := next;
      while i < l
        invariant next <= i <= l
        invariant current == old(current) + 1
        invariant forall k | 0 <= k < i - next :: !alive[At(next, k, n)]
      {
        var idx := i % n;
        assert idx == At(next, i - next, n);
        var up := backends[idx].IsAlive();
        assert up == alive[idx];
        if up {
          ScanFindsFirst(alive, next, i - next);
          DistAt(next, i - next, n);
          assert Dist(next, next, n) == 0;
          assert Pick(alive, old(current)).picked == Some(idx);
          if i != next {
            assert idx != next;
            current := idx;
          } else {
            ModUnique(next, 0, next, n);
          }
          assert Alive() == alive;
          return backends[idx];
        }
        i := i + 1;
      }
      assert ScanFrom(alive, next, 0).None?;
      assert Pick(alive, old(current)).picked.None?;
      assert Alive() == alive;
      return null;
    }

    /** Overwrites every backend's liveness flag with its probe result. */
    method HealthCheck(probe: seq<bool>)
      requires Valid() && |probe| == |backends|
      modifies backends
      ensures Valid() && Alive() == probe
      ensures backends == old(backends) && current == old(current)
    {
      for i := 0 to |backends|
        invariant forall j | 0 <= j < i :: backends[j].alive == probe[j]
      {
        backends[i].SetAlive(probe[i]);
      }
    }

    /**
     * Handles one proxied request.  A request naming a client is first
     * admitted by the rate limiter (500 on a store error, 429 when refused);
     * an attempt count above `MaxAttempts` in the request's context answers
     * 503, before any selection; so does a pool with
     * no live backend, after the tokens were charged.  Otherwise the request
     * is forwarded once to the backend selected.
     */
    method LoadBalance(clientId: string, storedAttempts: Option<int>, readFault: bool, writeFault: bool) returns (o: Outcome)
      requires |backends| > 0 && rl.repo.Valid()
      modifies this`current, rl.repo
      ensures rl.repo.Valid()
      ensures rl.repo.rows == if clientId == "" then old(rl.repo.rows)
                              else Admitted(old(rl.repo.rows), clientId, readFault, writeFault)
      ensures var admission := if clientId == "" then Allowed else Decide(old(rl.repo.rows), clientId, readFault, writeFault);
        var choice := Pick(Alive(), old(current));
        var attempts := AttemptsFromContext(storedAttempts);
        && (admission == Failed ==> o == Reject(StatusInternalServerError))
        && (admission == Denied ==> o == Reject(StatusTooManyRequests))
        && (admission == Allowed && attempts > MaxAttempts ==> o == Reject(StatusServiceUnavailable))
        && (admission == Allowed && attempts <= MaxAttempts ==>
              o == (if choice.picked.None? then Reject(StatusServiceUnavailable) else Forward(backends[choice.picked.value])))
        && current == (if admission == Allowed && attempts <= MaxAttempts then choice.cursor else old(current))
    {
      if clientId != "" {
        var admission := rl.AllowRequest(clientId, readFault, writeFault);
        if admission == Failed {
          return Reject(StatusInternalServerError);
        }
        if admission == Denied {
          return Reject(StatusTooManyRequests);
        }
      }
      var attempts := AttemptsFromContext(storedAttempts);
      if attempts > MaxAttempts {
        return Reject(StatusServiceUnavailable);
      }
      var backend := GetNextBackend();
      if backend == null {
        return Reject(StatusServiceUnavailable);
      }
      return Forward(backend);
    }
  }
}
