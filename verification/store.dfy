/**
 * The abstract store the settlement handlers read and write: the
 * administrator balance (the pool), the user collection keyed by id, and
 * the sale ledger. Money is held in integer cents, so 100.00 is 10000.
 */
module Store {

  datatype Option<+T> = None | Some(value: T)

  /** The outcome of one handler: the state it commits, or the error it
      returns before committing (in which case nothing it wrote persists). */
  datatype Result<+T, +E> = Ok(value: T) | Err(error: E)

  type UserId = nat

  /** Account roles. `Other` stands for any role string that none of the
      handlers' branches name. */
  datatype Role = Admin | Vendedor | Master | Cliente | Other

  /** The roles whose balance follows the pool: top-ups credit them and
      every paid sale overwrites them. */
  const Intermediaries: set<Role> := {Vendedor, Master}

  /** The roles a sale overwrites when its payer is neither cliente nor admin. */
  const PoolFollowers: set<Role> := {Admin, Vendedor, Master}

  predicate IsIntermediary(r: Role) {
    r in Intermediaries
  }

  /** Roles with an independent balance that a sale debits. */
  predicate HoldsOwnBalance(r: Role) {
    r == Cliente || r == Admin
  }

  /** The administrator balance record; `currentSaldo` is a display copy. */
  datatype Pool = Pool(saldo: int, currentSaldo: int)

  datatype User = User(
    handle: string,
    name: string,
    email: string,
    role: Role,
    rango: string,
    saldo: int)

  /** The payer identity a sale records. */
  datatype Snapshot = Snapshot(id: UserId, handle: string, name: string, email: string)

  /** A fulfilment code attached to a sale. */
  datatype Pin = Pin(serial: string, key: string)

  datatype Sale = Sale(
    payer: Option<Snapshot>,
    quantity: int,
    product: string,
    productName: string,
    totalPrice: int,
    status: string,
    orderId: string,
    pins: seq<Pin>)

  datatype State = State(pool: Option<Pool>, users: map<UserId, User>, sales: seq<Sale>)

  datatype Error =
    | EmailTaken             // a user with that e-mail exists (409)
    | HandleTaken            // a user with that handle exists (409)
    | SaldoBelowMinimum      // cliente/admin balance missing or below 100.00 (400)
    | NoPoolForRole          // vendedor/master registration without a pool (400)
    | InvalidRango           // cliente rango outside diamante/oro/bronce (400)
    | ValidationFailed       // the schema rejected a document on save (500)
    | DuplicateKey           // the new document's id is already in use (500)
    | PoolNotFound           // no administrator balance record (404)
    | UserNotFound           // the authenticated caller's account is gone (404)
    | InsufficientUserFunds  // payer balance below the price (400)
    | InsufficientPoolFunds  // pool balance below the price (400)
    | InvalidRequest         // a route validator rejected the body (400)

  /** `b` differs from `a` at most in the balances of existing accounts. */
  ghost predicate OnlySaldoDiffers(a: map<UserId, User>, b: map<UserId, User>) {
    && b.Keys == a.Keys
    && forall id :: id in a ==> b[id] == a[id].(saldo := b[id].saldo)
  }

  /** Bulk `$set` of the balance of every account whose role is in `roles`. */
  function OverwriteSaldo(users: map<UserId, User>, roles: set<Role>, v: int): (r: map<UserId, User>)
    ensures OnlySaldoDiffers(users, r)
    ensures forall id :: id in users && users[id].role in roles ==> r[id].saldo == v
    ensures forall id :: id in users && users[id].role !in roles ==> r[id] == users[id]
  {
    map id | id in users :: if users[id].role in roles then users[id].(saldo := v) else users[id]
  }

  /** Bulk `$inc` of the balance of every account whose role is in `roles`. */
  function IncrementSaldo(users: map<UserId, User>, roles: set<Role>, d: int): (r: map<UserId, User>)
    ensures OnlySaldoDiffers(users, r)
    ensures forall id :: id in users ==>
      r[id].saldo == users[id].saldo + (if users[id].role in roles then d else 0)
  {
    map id | id in users :: if users[id].role in roles then users[id].(saldo := users[id].saldo + d) else users[id]
  }

  /** Single-document `$set` of a balance by id; a missing id matches nothing. */
  function SetSaldoOf(users: map<UserId, User>, id: UserId, v: int): (r: map<UserId, User>)
    ensures OnlySaldoDiffers(users, r)
    ensures id in users ==> r[id].saldo == v
    ensures forall other :: other in users && other != id ==> r[other] == users[other]
  {
    if id in users then users[id := users[id].(saldo := v)] else users
  }
}
