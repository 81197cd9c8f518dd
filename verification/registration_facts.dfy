/**
 * The registration policy: duplicate checks, the balance and tier each
 * role receives, what the schema then refuses, and the invariants a new
 * account keeps.
 */
module RegistrationFacts {
  import opened Store
  import opened Text
  import opened UserModel
  import opened Invariants
  import opened Handlers

  /** Neither the request's e-mail nor its handle is registered yet. */
  predicate Unregistered(s: State, req: RegisterRequest) {
    !EmailInUse(s.users, CanonEmail(req.email)) && !HandleInUse(s.users, CanonHandle(req.handle))
  }

  /** A registered e-mail is refused, and nothing is added. */
  lemma DuplicateEmailRejected(s: State, id: UserId, req: RegisterRequest)
    requires EmailInUse(s.users, CanonEmail(req.email))
    ensures CreateAccount(s, id, req) == Err(EmailTaken)
  {
  }

  /** A registered handle is refused, and nothing is added. */
  lemma DuplicateHandleRejected(s: State, id: UserId, req: RegisterRequest)
    requires !EmailInUse(s.users, CanonEmail(req.email))
    requires HandleInUse(s.users, CanonHandle(req.handle))
    ensures CreateAccount(s, id, req) == Err(HandleTaken)
  {
  }

  /** A cliente or admin needs a requested balance of at least 100.00, and
      is stored with exactly that balance. */
  lemma OwnBalanceRegistration(s: State, id: UserId, req: RegisterRequest)
    requires HoldsOwnBalance(req.role) && Unregistered(s, req)
    ensures req.saldo.None? || req.saldo.value < MinSaldo ==>
      CreateAccount(s, id, req) == Err(SaldoBelowMinimum)
    ensures CreateAccount(s, id, req).Ok? ==>
      req.saldo.Some? && CreateAccount(s, id, req).value.users[id].saldo == req.saldo.value
  {
  }

  /** A vendedor or master needs a pool and copies its balance; the
      requested balance plays no part. */
  lemma IntermediaryRegistration(s: State, id: UserId, req: RegisterRequest, other: Option<int>)
    requires IsIntermediary(req.role) && Unregistered(s, req)
    ensures s.pool.None? ==> CreateAccount(s, id, req) == Err(NoPoolForRole)
    ensures CreateAccount(s, id, req).Ok? ==>
      s.pool.Some? && CreateAccount(s, id, req).value.users[id].saldo == s.pool.value.saldo
    ensures RegisterPolicy(s, req.(saldo := other)) == RegisterPolicy(s, req)
  {
  }

  /** A cliente's tier must be one of the client ranks; every other
      accepted account gets `ultrap`. */
  lemma RangoAssignment(s: State, id: UserId, req: RegisterRequest)
    ensures req.role == Cliente && Unregistered(s, req) && req.saldo.Some? && req.saldo.value >= MinSaldo
            && req.rango !in ClientRanks ==>
      CreateAccount(s, id, req) == Err(InvalidRango)
    ensures CreateAccount(s, id, req).Ok? ==>
      CreateAccount(s, id, req).value.users[id].rango ==
        if req.role == Cliente then req.rango else UnlimitedRango
    ensures CreateAccount(s, id, req).Ok? && req.role == Cliente ==> req.rango in ClientRanks
  {
    if CreateAccount(s, id, req).Ok? {
      ValidDocumentFacts(CreateAccount(s, id, req).value.users[id], s.pool);
    }
  }

  /** A handle with no ASCII letter or digit slugs to the empty string,
      which the schema's `required` refuses: such a registration never
      creates an account, and fails at `save` once the handler's own
      checks pass. */
  lemma EmptySlugNeverRegisters(s: State, id: UserId, req: RegisterRequest)
    requires Slug(req.handle) == []
    ensures CreateAccount(s, id, req).Err?
    ensures RegisterPolicy(s, req).Ok? ==> CreateAccount(s, id, req) == Err(ValidationFailed)
  {
    CanonHandleIsSlug(req.handle);
  }

  /** The schema's role enum has no `master`, so a master account is never
      created, even though the handler assigns it a balance and a tier. */
  lemma MasterNeverRegisters(s: State, id: UserId, req: RegisterRequest)
    requires req.role == Master
    ensures CreateAccount(s, id, req).Err?
    ensures Unregistered(s, req) && s.pool.Some? ==>
      RegisterPolicy(s, req).Ok? && CreateAccount(s, id, req) == Err(ValidationFailed)
  {
  }

  /** The schema validator holds an admin to the pool's balance: an admin
      is created only when the requested balance equals it. */
  lemma AdminRegistrationMatchesPool(s: State, id: UserId, req: RegisterRequest)
    requires req.role == Admin
    ensures CreateAccount(s, id, req).Ok? ==>
      && s.pool.Some? && req.saldo == Some(s.pool.value.saldo)
      && CreateAccount(s, id, req).value.users[id].saldo == s.pool.value.saldo
  {
    if CreateAccount(s, id, req).Ok? {
      ValidDocumentFacts(CreateAccount(s, id, req).value.users[id], s.pool);
    }
  }

  /** The converse for an admin: unused e-mail and handle, a pool holding
      at least 100.00, a requested balance equal to the pool's, non-empty
      stored strings and a fresh id are enough, and the stored account is
      the normalised request with tier `ultrap`. */
  lemma AdminRegistrationSucceeds(s: State, id: UserId, req: RegisterRequest)
    requires req.role == Admin && Unregistered(s, req)
    requires s.pool.Some? && s.pool.value.saldo >= MinSaldo && req.saldo == Some(s.pool.value.saldo)
    requires |CanonHandle(req.handle)| > 0 && |Trim(req.name)| > 0 && |CanonEmail(req.email)| > 0
    requires id !in s.users
    ensures CreateAccount(s, id, req) ==
      Ok(s.(users := s.users[id := User(CanonHandle(req.handle), Trim(req.name), CanonEmail(req.email),
                                        Admin, UnlimitedRango, s.pool.value.saldo)]))
  {
  }

  /** The converse for a cliente: unused e-mail and handle, a balance of at
      least 100.00, a client rank, non-empty stored strings and a fresh id
      are enough, and the stored account is the normalised request. */
  lemma ClienteRegistrationSucceeds(s: State, id: UserId, req: RegisterRequest)
    requires req.role == Cliente && Unregistered(s, req)
    requires req.saldo.Some? && req.saldo.value >= MinSaldo && req.rango in ClientRanks
    requires |CanonHandle(req.handle)| > 0 && |Trim(req.name)| > 0 && |CanonEmail(req.email)| > 0
    requires id !in s.users
    ensures CreateAccount(s, id, req) ==
      Ok(s.(users := s.users[id := User(CanonHandle(req.handle), Trim(req.name), CanonEmail(req.email),
                                        Cliente, req.rango, req.saldo.value)]))
  {
  }

  /** The converse for a vendedor: with a pool holding at least 100.00 the
      account is created holding the pool's balance, whatever was asked. */
  lemma VendedorRegistrationSucceeds(s: State, id: UserId, req: RegisterRequest)
    requires req.role == Vendedor && Unregistered(s, req)
    requires s.pool.Some? && s.pool.value.saldo >= MinSaldo
    requires |CanonHandle(req.handle)| > 0 && |Trim(req.name)| > 0 && |CanonEmail(req.email)| > 0
    requires id !in s.users
    ensures CreateAccount(s, id, req) ==
      Ok(s.(users := s.users[id := User(CanonHandle(req.handle), Trim(req.name), CanonEmail(req.email),
                                        Vendedor, UnlimitedRango, s.pool.value.saldo)]))
  {
  }

  /** A new account keeps intermediaries mirroring the pool and handles
      and e-mails unique. */
  lemma CreateAccountKeepsConsistent(s: State, id: UserId, req: RegisterRequest)
    requires Consistent(s)
    requires CreateAccount(s, id, req).Ok?
    ensures Consistent(CreateAccount(s, id, req).value)
  {
    var t := CreateAccount(s, id, req).value;
    var u := t.users[id];
    ValidDocumentFacts(u, s.pool);
    AddKeepsUnique(s.users, id, u);
    assert t.users == s.users[id := u];
  }

  /** A new account starts with at least 100.00, so no balance becomes
      negative and clientes stay above the minimum. */
  lemma CreateAccountKeepsBounds(s: State, id: UserId, req: RegisterRequest)
    requires CreateAccount(s, id, req).Ok?
    ensures NonNegative(s) ==> NonNegative(CreateAccount(s, id, req).value)
    ensures ClienteFloor(s) ==> ClienteFloor(CreateAccount(s, id, req).value)
  {
    var t := CreateAccount(s, id, req).value;
    ValidDocumentFacts(t.users[id], s.pool);
  }
}
