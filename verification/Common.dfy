/** Shared vocabulary: optional values, thread and provider identities. */
module Common {

  datatype Option<+T> = None | Some(value: T)

  /** Threads are unboundedly many. */
  type Tid = nat

  /** The identity (address) of an installed provider. */
  type ProviderId = nat
}
