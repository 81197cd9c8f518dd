/**
 * The three balance-changing request handlers, each one atomic step from
 * a committed state to the next committed state or to an error:
 * registration (`createAccount`), pool top-up (`updateAdminBalance`) and
 * sale settlement (`createSale`).
 */
module Handlers {
  import opened Store
  import opened Text
  import opened UserModel

  /** The registration body. `saldo` is `None` when the field is absent. */
  datatype RegisterRequest = RegisterRequest(
    handle: string,
    name: string,
    email: string,
    password: string,
    role: Role,
    saldo: Option<int>,
    rango: string)

  /** The caller-supplied account in a sale body (the `user` field). */
  datatype AssertedUser = AssertedUser(
    id: UserId,
    handle: string,
    name: string,
    email: string,
    role: Role,
    saldo: int)

  /** The sale body. */
  datatype SaleRequest = SaleRequest(
    quantity: int,
    product: string,
    productName: string,
    totalPrice: int,
    status: string,
    orderId: string,
    pins: seq<Pin>,
    user: Option<AssertedUser>)

  /** The tiers a cliente may choose from. */
  const ClientRanks: set<string> := {"diamante", "oro", "bronce"}

  /** The tier every admin, vendedor and master receives. */
  const UnlimitedRango: string := "ultrap"

  // ---------------------------------------------------------------------
  // createAccount
  // ---------------------------------------------------------------------

  /** The balance a new account starts with: cliente and admin get the
      requested amount, which must be at least 100.00; vendedor and master
      copy the pool and need one to exist; any other role gets 0. */
  function InitialSaldo(role: Role, requested: Option<int>, pool: Option<Pool>): (r: Result<int, Error>)
    ensures HoldsOwnBalance(role) ==>
      (r.Ok? <==> requested.Some? && requested.value >= MinSaldo) &&
      (r.Ok? ==> r.value == requested.value) &&
      (r.Err? ==> r.error == SaldoBelowMinimum)
    ensures IsIntermediary(role) ==>
      (r.Ok? <==> pool.Some?) &&
      (r.Ok? ==> r.value == pool.value.saldo) &&
      (r.Err? ==> r.error == NoPoolForRole)
  {
    if HoldsOwnBalance(role) then
      if requested.None? || requested.value < MinSaldo then Err(SaldoBelowMinimum)
      else Ok(requested.value)
    else if IsIntermediary(role) then
      if pool.None? then Err(NoPoolForRole) else Ok(pool.value.saldo)
    else
      Ok(0)
  }

  /** The tier a new account gets: `ultrap` for admin, vendedor and master;
      a cliente's own choice, which must be one of the three client ranks. */
  function AssignRango(role: Role, requested: string): (r: Result<string, Error>)
    ensures role in PoolFollowers ==> r == Ok(UnlimitedRango)
    ensures role == Cliente ==> (r.Ok? <==> requested in ClientRanks)
    ensures role == Cliente && r.Ok? ==> r.value == requested
    ensures role == Cliente && r.Err? ==> r.error == InvalidRango
  {
    if role in PoolFollowers then Ok(UnlimitedRango)
    else if role == Cliente then
      if requested in ClientRanks then Ok(requested) else Err(InvalidRango)
    else Ok("")
  }

  /** The handler's checks and the document it builds, before `save`. */
  function RegisterPolicy(s: State, req: RegisterRequest): (r: Result<User, Error>)
    ensures r.Ok? <==>
      && !EmailInUse(s.users, CanonEmail(req.email))
      && !HandleInUse(s.users, CanonHandle(req.handle))
      && InitialSaldo(req.role, req.saldo, s.pool).Ok?
      && AssignRango(req.role, req.rango).Ok?
    ensures EmailInUse(s.users, CanonEmail(req.email)) ==> r == Err(EmailTaken)
    ensures !EmailInUse(s.users, CanonEmail(req.email)) && HandleInUse(s.users, CanonHandle(req.handle)) ==>
      r == Err(HandleTaken)
    ensures r.Ok? ==>
      && r.value.email == CanonEmail(req.email)
      && r.value.handle == CanonHandle(req.handle)
      && r.value.name == Trim(req.name)
      && r.value.role == req.role
      && !EmailInUse(s.users, r.value.email)
      && !HandleInUse(s.users, r.value.handle)
    ensures r.Ok? && HoldsOwnBalance(req.role) ==>
      req.saldo.Some? && req.saldo.value >= MinSaldo && r.value.saldo == req.saldo.value
    ensures r.Ok? && IsIntermediary(req.role) ==> s.pool.Some? && r.value.saldo == s.pool.value.saldo
    ensures r.Ok? && req.role != Cliente && req.role != Other ==> r.value.rango == UnlimitedRango
    ensures r.Ok? && req.role == Cliente ==> r.value.rango in ClientRanks && r.value.rango == req.rango
  {
    var email := CanonEmail(req.email);
    var handle := CanonHandle(req.handle);
    if EmailInUse(s.users, email) then Err(EmailTaken)
    else if HandleInUse(s.users, handle) then Err(HandleTaken)
    else
      match InitialSaldo(req.role, req.saldo, s.pool)
      case Err(e) => Err(e)
      case Ok(saldo) =>
        match AssignRango(req.role, req.rango)
        case Err(e) => Err(e)
        case Ok(rango) => Ok(User(handle, Trim(req.name), email, req.role, rango, saldo))
  }

  /** `createAccount`: the policy, then `save`, which runs the schema and
      inserts the document under the fresh id `id`. */
  function CreateAccount(s: State, id: UserId, req: RegisterRequest): (r: Result<State, Error>)
    ensures r.Ok? <==>
      && RegisterPolicy(s, req).Ok?
      && DocumentValid(RegisterPolicy(s, req).value, s.pool)
      && id !in s.users
    ensures r.Ok? ==>
      && id !in s.users
      && id in r.value.users
      && r.value == s.(users := s.users[id := r.value.users[id]])
    ensures r.Ok? ==>
      && DocumentValid(r.value.users[id], s.pool)
      && !EmailInUse(s.users, r.value.users[id].email)
      && !HandleInUse(s.users, r.value.users[id].handle)
    ensures RegisterPolicy(s, req).Err? ==> r == Err(RegisterPolicy(s, req).error)
    ensures r.Ok? ==> RegisterPolicy(s, req) == Ok(r.value.users[id])
  {
    match RegisterPolicy(s, req)
    case Err(e) => Err(e)
    case Ok(doc) =>
      if !DocumentValid(doc, s.pool) then Err(ValidationFailed)
      else if id in s.users then Err(DuplicateKey)
      else Ok(s.(users := s.users[id := doc]))
  }

  // ---------------------------------------------------------------------
  // updateAdminBalance
  // ---------------------------------------------------------------------

  /** `updateAdminBalance`: add `amount` to the pool, copy the result into
      the display field, and add the same amount to every vendedor and
      master account. */
  function UpdateAdminBalance(s: State, amount: int): (r: Result<State, Error>)
    ensures r.Err? <==> s.pool.None?
    ensures r.Err? ==> r.error == PoolNotFound
    ensures r.Ok? ==>
      var total := s.pool.value.saldo + amount;
      r.value.pool == Some(Pool(total, total))
    ensures r.Ok? ==> r.value.sales == s.sales && OnlySaldoDiffers(s.users, r.value.users)
    ensures r.Ok? ==> forall id :: id in s.users ==>
      r.value.users[id].saldo == s.users[id].saldo + (if IsIntermediary(s.users[id].role) then amount else 0)
  {
    match s.pool
    case None => Err(PoolNotFound)
    case Some(pool) =>
      var total := pool.saldo + amount;
      Ok(s.(pool := Some(pool.(saldo := total, currentSaldo := total)),
            users := IncrementSaldo(s.users, Intermediaries, amount)))
  }

  // ---------------------------------------------------------------------
  // createSale
  // ---------------------------------------------------------------------

  function MakeSale(payer: Option<Snapshot>, req: SaleRequest): Sale {
    Sale(payer, req.quantity, req.product, req.productName, req.totalPrice, req.status, req.orderId, req.pins)
  }

  /** The Sale schema's required strings, which `save` rejects when empty. */
  predicate SaleDocumentValid(sale: Sale) {
    && |sale.product| > 0
    && |sale.productName| > 0
    && |sale.status| > 0
    && |sale.orderId| > 0
    && forall i :: 0 <= i < |sale.pins| ==> |sale.pins[i].key| > 0
  }

  /** Save the sale record on top of the session's working state `w`. */
  function RecordSale(w: State, payer: Option<Snapshot>, req: SaleRequest): (r: Result<State, Error>)
    ensures r.Ok? <==> SaleDocumentValid(MakeSale(payer, req))
    ensures r.Err? ==> r.error == ValidationFailed
    ensures r.Ok? ==> r.value == w.(sales := w.sales + [MakeSale(payer, req)])
  {
    var sale := MakeSale(payer, req);
    if SaleDocumentValid(sale) then Ok(w.(sales := w.sales + [sale])) else Err(ValidationFailed)
  }

  /** The step every payer branch ends with: debit the pool (read before
      the session opened) by the price, overwrite every account whose role
      is in `mirrored` with the new pool balance, then record the sale.
      `users` is the session's working copy of the accounts. */
  function DebitPool(s: State, users: map<UserId, User>, price: int, mirrored: set<Role>,
                     payer: Snapshot, req: SaleRequest): (r: Result<State, Error>)
    requires s.pool.Some?
    ensures s.pool.value.saldo < price ==> r == Err(InsufficientPoolFunds)
    ensures r.Ok? <==> s.pool.value.saldo >= price && SaleDocumentValid(MakeSale(Some(payer), req))
    ensures r.Ok? ==>
      var left := s.pool.value.saldo - price;
      && r.value.pool == Some(s.pool.value.(saldo := left))
      && OnlySaldoDiffers(users, r.value.users)
      && (forall id :: id in users && users[id].role in mirrored ==> r.value.users[id].saldo == left)
      && (forall id :: id in users && users[id].role !in mirrored ==> r.value.users[id] == users[id])
      && r.value.sales == s.sales + [MakeSale(Some(payer), req)]
  {
    var pool := s.pool.value;
    if pool.saldo < price then Err(InsufficientPoolFunds)
    else
      var left := pool.saldo - price;
      RecordSale(State(Some(pool.(saldo := left)), OverwriteSaldo(users, mirrored, left), s.sales), Some(payer), req)
  }

  /** `createSale` for an authenticated caller `caller`, else for the
      caller-supplied `req.user`, else with no payer at all. */
  function CreateSale(s: State, caller: Option<UserId>, req: SaleRequest): (r: Result<State, Error>)
    ensures s.pool.None? ==> r == Err(PoolNotFound)
    ensures s.pool.Some? && caller.Some? && caller.value !in s.users ==> r == Err(UserNotFound)
    ensures r.Ok? ==>
      && s.pool.Some? && r.value.pool.Some?
      && r.value.pool.value.currentSaldo == s.pool.value.currentSaldo
      && OnlySaldoDiffers(s.users, r.value.users)
      && |r.value.sales| == |s.sales| + 1
      && r.value.sales[..|s.sales|] == s.sales
    ensures r.Ok? ==>
      var sale := r.value.sales[|s.sales|];
      && SaleDocumentValid(sale)
      && sale == MakeSale(sale.payer, req)
      && (sale.payer.None? <==> caller.None? && req.user.None?)
    ensures r.Ok? && r.value.sales[|s.sales|].payer.Some? ==>
      var left := r.value.pool.value.saldo;
      && s.pool.value.saldo >= req.totalPrice
      && left == s.pool.value.saldo - req.totalPrice
      && left >= 0
      && forall id :: id in r.value.users && IsIntermediary(r.value.users[id].role) ==> r.value.users[id].saldo == left
    ensures r.Ok? && r.value.sales[|s.sales|].payer.None? ==>
      r.value.pool == s.pool && r.value.users == s.users
  {
    if s.pool.None? then Err(PoolNotFound)
    else
      var price := req.totalPrice;
      match caller
      case Some(id) =>
        if id !in s.users then Err(UserNotFound)
        else
          var payer := s.users[id];
          var snap := Snapshot(id, payer.handle, payer.name, payer.email);
          if HoldsOwnBalance(payer.role) then
            if payer.saldo < price then Err(InsufficientUserFunds)
            else
              var debited := payer.(saldo := payer.saldo - price);
              if !DocumentValid(debited, s.pool) then Err(ValidationFailed)
              else DebitPool(s, s.users[id := debited], price, Intermediaries, snap, req)
          else
            DebitPool(s, s.users, price, PoolFollowers, snap, req)
      case None =>
        match req.user
        case Some(u) =>
          var snap := Snapshot(u.id, u.handle, u.name, u.email);
          if HoldsOwnBalance(u.role) then
            if u.saldo < price then Err(InsufficientUserFunds)
            else DebitPool(s, SetSaldoOf(s.users, u.id, u.saldo - price), price, Intermediaries, snap, req)
          else
            DebitPool(s, s.users, price, PoolFollowers, snap, req)
        case None =>
          RecordSale(s, None, req)
  }
}
