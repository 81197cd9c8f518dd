/**
 * The record invariants the settlement handlers are meant to keep.
 */
module Invariants {
  import opened Store
  import opened UserModel

  /** Intermediaries mirror the pool: with a pool, every vendedor and master
      holds exactly its balance; without one, there are none. */
  ghost predicate Mirrored(s: State) {
    match s.pool
    case None => forall id :: id in s.users ==> !IsIntermediary(s.users[id].role)
    case Some(p) => forall id :: id in s.users && IsIntermediary(s.users[id].role) ==> s.users[id].saldo == p.saldo
  }

  /** No balance in the store, the pool's included, is negative. */
  ghost predicate NonNegative(s: State) {
    && (s.pool.Some? ==> s.pool.value.saldo >= 0)
    && forall id :: id in s.users ==> s.users[id].saldo >= 0
  }

  /** Every cliente holds at least the schema's minimum. */
  ghost predicate ClienteFloor(s: State) {
    forall id :: id in s.users && s.users[id].role == Cliente ==> s.users[id].saldo >= MinSaldo
  }

  /** The invariants every handler keeps, whatever the request. */
  ghost predicate Consistent(s: State) {
    Mirrored(s) && UniqueIdentities(s.users)
  }
}
