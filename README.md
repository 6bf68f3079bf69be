# Admission-controlled reverse proxy: Dafny model

This project models the core of a Go gateway that rate-limits callers
against persisted token buckets and routes admitted requests round-robin to
live upstream backends. It also models the client-management handlers that
create, update and delete the quota records. The model covers three parts:

- **Backend pool** (`LoadBalancer`, `RoundRobin`). `ServerPool` is a class
  holding its `Backend` objects in registration order and a `nat` cursor.
  `GetNextBackend` advances the cursor and scans one cycle for the first live
  backend. If it skipped any, it overwrites the cursor with the chosen index.
  `HealthCheck` overwrites every liveness flag from a probe. `LoadBalance`
  decides a request's outcome in this order: admission (500 or 429), the
  attempt cap (503), selection (503), then one forward. The pure module
  `RoundRobin` specifies the selection (`Select`, `Pick`), and the method is
  proved against it.
- **Token-bucket rate limiter** (`RateLimit`). `AllowRequest` refuses an
  unknown client or one with fewer than 10 tokens. Otherwise it charges 10
  tokens and writes the record back. `RefillAllTokens` lists every client and
  adds its rate to each client below capacity. It does not clamp.
- **Quota record rules** (`Handlers`). Create rejects an empty id, replaces a
  non-positive capacity or rate by the configured default, and starts the
  bucket full. Update rejects non-positive settings, answers 404 for a
  missing client, and lowers the balance to the new capacity. Delete answers
  204 whether or not the client existed. Listing answers 201.

The database is an in-memory `ClientStore` holding a `map<string, Client>`
(`Store`). It keeps the repository's conventions: a missing row reads as
absent with no error, updating a missing row is an error, and deleting a
missing row is not. Every store call takes a `fault` flag that stands for
the database failing that call; a failed call changes nothing. `Quota` gives
every store-changing operation as a value (`Op`, `Apply`). It proves that the
token invariant `0 <= tokens < capacity + ratePerSec` (with positive
settings, `Models.Sound`) survives any history of operations.

Two behaviours differ from what a gateway of this kind is usually expected
to do. The model follows the code in both:

- A token bucket is normally clamped at its capacity. This code
  (internal/ratelimit/ratelimit.go:64-67) adds the rate without clamping.
  So `tokens <= capacity` is not an invariant (`Quota.RefillCanExceedCapacity`).
- An attempt cap normally bounds retries against other backends. This code
  forwards once (internal/loadbalancer/loadbalancer.go:136-145) and never
  stores an attempt count, so the cap check always reads 0.

Backends are registered at startup (cmd/main/main.go:39-46). Like the code's
exported API, the model does not restrict `AddBackend` to startup.

## Model

| member | source | states |
|---|---|---|
| `RoundRobin.NextStart` | internal/loadbalancer/loadbalancer.go:64-66 | the scan starts one position after the cursor, and always inside the pool |
| `RoundRobin.ScanFrom` | internal/loadbalancer/loadbalancer.go:70-80 | the offset returned is the first one at which the cyclic scan meets a live backend; none means every backend in the rest of the cycle is down |
| `RoundRobin.Select` | internal/loadbalancer/loadbalancer.go:68-80 | the backend chosen is live, and every backend fewer steps from the start index is down |
| `RoundRobin.SelectNoneIffAllDown` | internal/loadbalancer/loadbalancer.go:70-80 | selection finds nothing exactly when every backend is down |
| `RoundRobin.Pick` | internal/loadbalancer/loadbalancer.go:64-81 | the cursor keeps its increment when nothing was skipped or nothing is live, and otherwise becomes the chosen index |
| `RoundRobin.NextScanStartsAfterPick` | internal/loadbalancer/loadbalancer.go:64-81 | while some backend is live every call picks one, and the next call's scan starts just after the one picked |
| `RoundRobin.SkipsDownBackend` | internal/loadbalancer/loadbalancer.go:64-81 | with three backends, the middle one down and cursor 0, successive calls pick 2, 0, 2, 0 and never 1 |
| `LoadBalancer.ServerPool.constructor` | internal/loadbalancer/loadbalancer.go:48-52 | a new pool has no backends, cursor 0 and the given rate limiter |
| `LoadBalancer.Backend.SetAlive` | internal/loadbalancer/loadbalancer.go:29-33 | the liveness flag becomes the given value |
| `LoadBalancer.Backend.IsAlive` | internal/loadbalancer/loadbalancer.go:35-40 | returns the liveness flag |
| `LoadBalancer.ServerPool.AddBackend` | internal/loadbalancer/loadbalancer.go:54-62 | appends exactly one new live backend; the earlier backends, their order, their flags and the cursor are unchanged |
| `LoadBalancer.ServerPool.NextIndex` | internal/loadbalancer/loadbalancer.go:64-66 | the cursor grows by exactly 1 and the result is the new cursor modulo the pool size |
| `LoadBalancer.ServerPool.GetNextBackend` | internal/loadbalancer/loadbalancer.go:68-81 | returns the backend `Pick` chooses (the first live one in cyclic order), or null when all are down, and leaves the cursor `Pick` gives; no flag changes |
| `LoadBalancer.ServerPool.HealthCheck` | internal/loadbalancer/loadbalancer.go:83-88 | every backend's flag becomes its probe result; the backends, their order and the cursor are unchanged |
| `LoadBalancer.AttemptsFromContext` | internal/loadbalancer/utils.go:33-39 | a request context without an attempt count reads as 0 |
| `LoadBalancer.ServerPool.LoadBalance` | internal/loadbalancer/loadbalancer.go:111-146 | an empty client id skips the limiter; a limiter error gives 500 and a refusal gives 429, both with the cursor untouched; more than 3 attempts gives 503; no live backend gives 503 after the tokens were charged; otherwise one forward to the selected backend |
| `Store.ClientStore.GetByID` | internal/store/clientrepository.go:39-72 | a fault is an error, a missing row is absent without error, otherwise the stored row |
| `Store.ClientStore.GetAllClients` | internal/store/clientrepository.go:74-102 | on success lists every stored client exactly once, as stored; fails only on a fault |
| `Store.ClientStore.Create` | internal/store/clientrepository.go:25-37 | inserts the row unless the store faults or the id is already taken |
| `Store.ClientStore.Update` | internal/store/clientrepository.go:104-123 | overwrites the row; a missing row or a fault is an error and writes nothing |
| `Store.ClientStore.Delete` | internal/store/clientrepository.go:125-132 | removes the row if present; only a fault is an error |
| `RateLimit.Charged` | internal/ratelimit/ratelimit.go:30-36 | a charge lowers the balance by exactly 10 and leaves it non-negative; settings and id unchanged; keeps the token invariant |
| `RateLimit.Topped` | internal/ratelimit/ratelimit.go:64-67 | a client below capacity gains exactly its rate and ends below capacity plus rate; a client at or above capacity is untouched; keeps the token invariant |
| `RateLimit.Decide` | internal/ratelimit/ratelimit.go:20-45 | allowed exactly when the read and write succeed and the client exists with at least 10 tokens; an error exactly when the read fails or the write-back of a charge fails; an unknown client is refused without error |
| `RateLimit.Admitted` | internal/ratelimit/ratelimit.go:20-45 | only an allowed check changes the store, and only the checked client's record, which is charged |
| `RateLimit.Refilled` | internal/ratelimit/ratelimit.go:47-69 | a sweep adds or removes no client and tops each one up at most once, except a client whose write-back failed; it keeps the token invariant |
| `RateLimit.RateLimiter.constructor` | internal/ratelimit/ratelimit.go:15-17 | the limiter works on the given client store |
| `RateLimit.RateLimiter.AllowRequest` | internal/ratelimit/ratelimit.go:20-45 | returns `Decide` and leaves the store as `Admitted` says |
| `RateLimit.RateLimiter.RefillClient` | internal/ratelimit/ratelimit.go:56-67 | one listed client is topped up and written back, or keeps its row when the write fails; no other client changes |
| `RateLimit.RateLimiter.RefillAllTokens` | internal/ratelimit/ratelimit.go:47-69 | a failed listing is reported and changes nothing; otherwise the store becomes `Refilled`, ignoring per-client write errors |
| `Handlers.ClientHandler.constructor` | internal/handlers/handlers.go:20-22 | the handler works on the given store with the configured default capacity and rate |
| `Handlers.CreateValid` | internal/handlers/handlers.go:43-53 | a create body is accepted only when it decodes and names a client; a decoded body is refused only for an empty id; with positive defaults an accepted body yields a sound record under a non-empty key |
| `Handlers.UpdateValid` | internal/handlers/handlers.go:93-108 | an update body is accepted only when it decodes, and a decoded one exactly when its settings make an empty bucket sound; every reconfigured record with a non-negative balance is then sound |
| `Handlers.NewClient` | internal/handlers/handlers.go:54-71 | non-positive capacity or rate is replaced by the configured default, positive values are kept, and the bucket starts full |
| `Handlers.Reconfigured` | internal/handlers/handlers.go:122-126 | update sets the new settings and lowers the balance to the new capacity, never raising it; keeps the id and the token invariant |
| `Handlers.AfterCreate` | internal/handlers/handlers.go:39-83 | the store gains the new record only for a decoded request with a non-empty, unused id and no fault |
| `Handlers.AfterUpdate` | internal/handlers/handlers.go:85-139 | only a valid update of an existing client with no fault changes the store, and only that client's record |
| `Handlers.AfterDelete` | internal/handlers/handlers.go:141-153 | the client is gone unless the store faulted; every other record is unchanged |
| `Handlers.ClientHandler.GetClients` | internal/handlers/handlers.go:24-37 | answers 201 (not 200) on success and 500 when the listing fails |
| `Handlers.ClientHandler.CreateClient` | internal/handlers/handlers.go:39-83 | 400 for an undecodable body or an empty id, with the store untouched; 500 on a fault or a taken id; otherwise 201 and the store as `AfterCreate` says |
| `Handlers.ClientHandler.UpdateClient` | internal/handlers/handlers.go:85-139 | 400 for non-positive settings without reading the store; 500 on a read fault; 404 for a missing client with the store unchanged; otherwise 200, or 500 when the write fails |
| `Handlers.ClientHandler.DeleteClient` | internal/handlers/handlers.go:141-153 | 204 whenever the store does not fault, including for an id that did not exist |
| `Quota.ApplyPreservesConsistent` | internal/ratelimit/ratelimit.go:20-69 | admission, refill, create (with positive defaults), update and delete each keep `0 <= tokens < capacity + ratePerSec` for every client |
| `Quota.RunPreservesConsistent` | internal/ratelimit/ratelimit.go:20-69 | the token invariant holds after any history of those operations |
| `Quota.ChargedIffAllowed` | internal/ratelimit/ratelimit.go:30-44 | an admission check lowers the balance by exactly 10 when it allows the request, and leaves it unchanged otherwise |
| `Quota.RefillCanExceedCapacity` | internal/ratelimit/ratelimit.go:64-67 | 25 tokens with capacity 30 and rate 20 become 45, so `tokens <= capacity` is not kept |
| `Quota.DrainsThenDenies` | internal/ratelimit/ratelimit.go:30-44 | 25 tokens allow two requests (15, then 5) and refuse the third, leaving 5 |

## Left out

- Concurrency is not modelled. This covers the atomic cursor, the per-backend
  lock, the row lock taken when reading for update, and the background
  health-check and refill loops. Every operation is modelled as one
  sequential step.
- The cursor is an unbounded `nat`. The source's 64-bit wrap-around is not
  modelled, and token arithmetic is unbounded as well (Go `int` is 64-bit).
- A pool with no backends is excluded by a precondition on the selection
  methods and `LoadBalance`. `NextIndex` divides by the pool size, so the
  source panics on an empty pool. In the source that panic comes after
  admission (internal/loadbalancer/loadbalancer.go:115 runs before :136).
  So on an empty pool a client with an id is still charged 10 tokens
  before the panic. A request whose admission errs or is refused gets 500
  or 429 without any panic. The model covers neither path.
- The probe is a TCP dial with a 2-second timeout. It is modelled as a
  per-backend boolean sequence given to `HealthCheck`.
- Proxying is modelled as the outcome "forwarded to this backend". The
  upstream's response and its errors are not modelled.
- HTTP, JSON, logging and timestamps are not modelled. A body that does not
  decode is an absent request (400), and a response is its status code only.
- Database failures are not modelled as specific errors. Each one is a
  `fault` flag given to the call.
- Store.ClientStore.GetByID models both the plain and the locking read,
  since the lock has no effect in a sequential model.
- Store.ClientStore.Create rejects an id already present. The table's key
  constraint is not in the source; the model treats the client id as a
  unique key.
- RateLimit.RateLimiter.RefillAllTokens does not model a failed re-read of a
  listed client. On that path, and on the "client not found" path, the source
  logs a field of a nil record and would panic rather than skip. In a
  sequential store a listed client is always present.
- The configured default capacity and rate are constructor parameters of
  `ClientHandler`. The token invariant is proved only for positive defaults,
  since the configuration loader does not check them.
- Process bootstrap (internal/config/config.go, cmd/main/main.go) is not part
  of this model.
