/**
 * The quota record kept per client and the bodies of the client-management
 * requests.  Timestamps (last refill, creation, update) are not modelled.
 */
module Models {

  /** One client's token bucket as stored: its id, its settings and its balance. */
  datatype Client = Client(clientId: string, capacity: int, ratePerSec: int, tokens: int)

  /** Body of a create request; zero stands for a field left out of the JSON. */
  datatype CreateRequest = CreateRequest(clientId: string, capacity: int, ratePerSec: int)

  /** Body of an update request. */
  datatype UpdateRequest = UpdateRequest(capacity: int, ratePerSec: int)

  /**
   * The invariant the quota rules keep for every stored client: positive
   * settings, a balance that never goes negative, and a balance below
   * capacity plus one refill.  Refill does not clamp, so `tokens <= capacity`
   * is NOT part of it.
   */
  predicate Sound(c: Client) {
    && c.capacity > 0
    && c.ratePerSec > 0
    && 0 <= c.tokens < c.capacity + c.ratePerSec
  }
}
