/**
 * The token invariant over every operation that changes the client store:
 * admission checks, refill ticks, and the create, update and delete
 * handlers.  Each operation is given as a value so that whole histories can
 * be reasoned about.
 */
module Quota {
  import opened Wrappers
  import opened Models
  import opened Store
  import opened RateLimit
  import opened Handlers

  /** One store-changing operation, with the store faults that hit it. */
  datatype Op =
    | Admit(id: string, readFault: bool, writeFault: bool)
    | Refill(listFault: bool, writeFaults: set<string>)
    | Create(request: Option<CreateRequest>, defaultCapacity: int, defaultRate: int, fault: bool)
    | Update(id: string, change: Option<UpdateRequest>, readFault: bool, writeFault: bool)
    | Delete(id: string, fault: bool)

  /** The store after one operation, as the rate limiter and the handlers leave it. */
  function Apply(rows: Rows, op: Op): Rows {
    match op
    case Admit(id, readFault, writeFault) => Admitted(rows, id, readFault, writeFault)
    case Refill(listFault, writeFaults) => if listFault then rows else Refilled(rows, writeFaults)
    case Create(body, defaultCapacity, defaultRate, fault) => AfterCreate(rows, body, defaultCapacity, defaultRate, fault)
    case Update(id, body, readFault, writeFault) => AfterUpdate(rows, id, body, readFault, writeFault)
    case Delete(id, fault) => AfterDelete(rows, id, fault)
  }

  /** The store after a history of operations, applied in order. */
  function Run(rows: Rows, ops: seq<Op>): Rows
    decreases |ops|
  {
    if ops == [] then rows else Run(Apply(rows, ops[0]), ops[1..])
  }

  /** The configured create defaults are positive (the configuration does not check this). */
  predicate Configured(op: Op) {
    op.Create? ==> op.defaultCapacity > 0 && op.defaultRate > 0
  }

  /** Every single operation keeps `0 <= tokens < capacity + rate` for every stored client. */
  lemma ApplyPreservesConsistent(rows: Rows, op: Op)
    requires Consistent(rows) && Configured(op)
    ensures Consistent(Apply(rows, op))
  {
    var r := Apply(rows, op);
    match op
    case Admit(id, readFault, writeFault) =>
    case Refill(listFault, writeFaults) =>
    case Create(body, defaultCapacity, defaultRate, fault) =>
    case Update(id, body, readFault, writeFault) =>
      forall k | k in r ensures Sound(r[k]) {
        if k == id && UpdateValid(body) && !readFault && !writeFault {
          assert rows[id].tokens >= 0;
        }
      }
    case Delete(id, fault) =>
  }

  /**
   * The token invariant survives any history of operations; in particular it
   * holds of every store built up from the empty one.
   */
  lemma {:induction false} RunPreservesConsistent(rows: Rows, ops: seq<Op>)
    requires Consistent(rows)
    requires forall i | 0 <= i < |ops| :: Configured(ops[i])
    ensures Consistent(Run(rows, ops))
    decreases |ops|
  {
    if ops != [] {
      ApplyPreservesConsistent(rows, ops[0]);
      RunPreservesConsistent(Apply(rows, ops[0]), ops[1..]);
    }
  }

  /** Only an allowed admission check charges the client, and it charges exactly `Cost`. */
  lemma ChargedIffAllowed(rows: Rows, id: string, readFault: bool, writeFault: bool)
    requires id in rows
    ensures var r := Apply(rows, Admit(id, readFault, writeFault));
      (r[id].tokens == rows[id].tokens - Cost <==> Decide(rows, id, readFault, writeFault) == Allowed)
      && (r[id].tokens == rows[id].tokens <==> Decide(rows, id, readFault, writeFault) != Allowed)
  {
  }

  /**
   * A sound client's balance only goes above its capacity through a refill:
   * `tokens <= capacity` is not kept.  With 25 tokens, capacity 30 and rate
   * 20, one tick leaves 45.
   */
  lemma RefillCanExceedCapacity()
    ensures var rows := map["a" := Client("a", 30, 20, 25)];
      && Consistent(rows) && rows["a"].tokens <= rows["a"].capacity
      && Apply(rows, Refill(false, {}))["a"].tokens == 45
  {
  }

  /** With 25 tokens, two requests are admitted (25 -> 15 -> 5) and the third is refused, leaving 5. */
  lemma DrainsThenDenies()
    ensures var rows0 := map["a" := Client("a", 30, 20, 25)];
      var rows1 := Apply(rows0, Admit("a", false, false));
      var rows2 := Apply(rows1, Admit("a", false, false));
      && Decide(rows0, "a", false, false) == Allowed && rows1["a"].tokens == 15
      && Decide(rows1, "a", false, false) == Allowed && rows2["a"].tokens == 5
      && Decide(rows2, "a", false, false) == Denied && Apply(rows2, Admit("a", false, false)) == rows2
  {
  }
}
