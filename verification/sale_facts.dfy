/**
 * What sale settlement does in each payer branch, when it fails, and which
 * invariants it keeps.
 */
module SaleFacts {
  import opened Store
  import opened UserModel
  import opened Invariants
  import opened Handlers

  /** The account map after a paid sale: every account whose role is in
      `mirrored` holds the new pool balance, `payer` (when it is not such an
      account) holds `payerSaldo`, and everyone else is untouched. */
  ghost predicate SettledUsers(before: map<UserId, User>, after: map<UserId, User>,
                               mirrored: set<Role>, left: int, payer: Option<UserId>, payerSaldo: int)
  {
    && after.Keys == before.Keys
    && forall id :: id in before ==>
      after[id] ==
        if before[id].role in mirrored then before[id].(saldo := left)
        else if payer == Some(id) then before[id].(saldo := payerSaldo)
        else before[id]
  }

  /** An authenticated cliente or admin payer: the order of the checks and
      the error each one returns. */
  lemma AuthenticatedOwnBalanceErrors(s: State, id: UserId, req: SaleRequest)
    requires s.pool.Some? && id in s.users && HoldsOwnBalance(s.users[id].role)
    ensures
      var r := CreateSale(s, Some(id), req);
      var payer := s.users[id];
      var p := req.totalPrice;
      var after := payer.(saldo := payer.saldo - p);
      && (payer.saldo < p ==> r == Err(InsufficientUserFunds))
      && (payer.saldo >= p && !DocumentValid(after, s.pool) ==> r == Err(ValidationFailed))
      && (payer.saldo >= p && DocumentValid(after, s.pool) && s.pool.value.saldo < p ==>
            r == Err(InsufficientPoolFunds))
  {
  }

  /** An authenticated cliente or admin payer: the sale commits exactly
      when both balances cover the price and the debited account and the
      sale record pass the schema; then the payer is debited, the pool is
      debited, vendedor and master accounts take the new pool balance, and
      one sale is appended. */
  lemma AuthenticatedOwnBalanceSale(s: State, id: UserId, req: SaleRequest)
    requires s.pool.Some? && id in s.users && HoldsOwnBalance(s.users[id].role)
    ensures
      var r := CreateSale(s, Some(id), req);
      var payer := s.users[id];
      var p := req.totalPrice;
      var pool := s.pool.value;
      var after := payer.(saldo := payer.saldo - p);
      var sale := MakeSale(Some(Snapshot(id, payer.handle, payer.name, payer.email)), req);
      && (r.Ok? <==>
            payer.saldo >= p && DocumentValid(after, s.pool) && pool.saldo >= p && SaleDocumentValid(sale))
      && (r.Ok? ==>
            && r.value.pool == Some(pool.(saldo := pool.saldo - p))
            && r.value.users[id] == after
            && SettledUsers(s.users, r.value.users, Intermediaries, pool.saldo - p, Some(id), payer.saldo - p)
            && r.value.sales == s.sales + [sale])
  {
    var payer := s.users[id];
    var p := req.totalPrice;
    var after := payer.(saldo := payer.saldo - p);
    if payer.saldo >= p && DocumentValid(after, s.pool) && s.pool.value.saldo >= p {
      var w := s.users[id := after];
      var left := s.pool.value.saldo - p;
      var m := OverwriteSaldo(w, Intermediaries, left);
      assert !IsIntermediary(payer.role);
      assert m[id] == after;
      forall other | other in s.users
        ensures m[other] ==
          if s.users[other].role in Intermediaries then s.users[other].(saldo := left)
          else if Some(id) == Some(other) then s.users[other].(saldo := payer.saldo - p)
          else s.users[other]
      {
        if other != id {
          assert w[other] == s.users[other];
        }
      }
    }
  }

  /** An authenticated cliente never ends below the minimum, and an
      authenticated admin ends holding what the pool held before the sale:
      the schema validator runs when the debited account is saved. */
  lemma AuthenticatedPayerMeetsSchema(s: State, id: UserId, req: SaleRequest)
    requires id in s.users && HoldsOwnBalance(s.users[id].role)
    requires CreateSale(s, Some(id), req).Ok?
    ensures var t := CreateSale(s, Some(id), req).value;
      && t.users[id].saldo >= MinSaldo
      && (s.users[id].role == Admin ==> t.users[id].saldo == s.pool.value.saldo)
  {
    AuthenticatedOwnBalanceSale(s, id, req);
    var payer := s.users[id];
    ValidDocumentFacts(payer.(saldo := payer.saldo - req.totalPrice), s.pool);
  }

  /** An authenticated payer of any other role: only the pool is debited,
      and every admin, vendedor and master account, admins included, takes
      the new pool balance. */
  lemma AuthenticatedOtherRoleSale(s: State, id: UserId, req: SaleRequest)
    requires s.pool.Some? && id in s.users && !HoldsOwnBalance(s.users[id].role)
    ensures
      var r := CreateSale(s, Some(id), req);
      var payer := s.users[id];
      var p := req.totalPrice;
      var pool := s.pool.value;
      var sale := MakeSale(Some(Snapshot(id, payer.handle, payer.name, payer.email)), req);
      && (pool.saldo < p ==> r == Err(InsufficientPoolFunds))
      && (r.Ok? <==> pool.saldo >= p && SaleDocumentValid(sale))
      && (r.Ok? ==>
            && r.value.pool == Some(pool.(saldo := pool.saldo - p))
            && SettledUsers(s.users, r.value.users, PoolFollowers, pool.saldo - p, None, 0)
            && r.value.sales == s.sales + [sale])
  {
  }

  /** An unauthenticated caller asserting a cliente or admin account: the
      checks use the asserted balance, and the stored account with the
      asserted id (if any) is set to that asserted balance minus the price. */
  lemma AssertedOwnBalanceSale(s: State, req: SaleRequest)
    requires s.pool.Some? && req.user.Some? && HoldsOwnBalance(req.user.value.role)
    ensures
      var r := CreateSale(s, None, req);
      var u := req.user.value;
      var p := req.totalPrice;
      var pool := s.pool.value;
      var sale := MakeSale(Some(Snapshot(u.id, u.handle, u.name, u.email)), req);
      && (u.saldo < p ==> r == Err(InsufficientUserFunds))
      && (u.saldo >= p && pool.saldo < p ==> r == Err(InsufficientPoolFunds))
      && (r.Ok? <==> u.saldo >= p && pool.saldo >= p && SaleDocumentValid(sale))
      && (r.Ok? ==>
            && r.value.pool == Some(pool.(saldo := pool.saldo - p))
            && SettledUsers(s.users, r.value.users, Intermediaries, pool.saldo - p, Some(u.id), u.saldo - p)
            && r.value.sales == s.sales + [sale])
  {
    var u := req.user.value;
    var p := req.totalPrice;
    if u.saldo >= p && s.pool.value.saldo >= p {
      var w := SetSaldoOf(s.users, u.id, u.saldo - p);
      var left := s.pool.value.saldo - p;
      var m := OverwriteSaldo(w, Intermediaries, left);
      forall other | other in s.users
        ensures m[other] ==
          if s.users[other].role in Intermediaries then s.users[other].(saldo := left)
          else if Some(u.id) == Some(other) then s.users[other].(saldo := u.saldo - p)
          else s.users[other]
      {
        assert w[other].role == s.users[other].role;
      }
    }
  }

  /** An unauthenticated caller asserting any other role: as for an
      authenticated one, only the pool is debited and admin, vendedor and
      master accounts all take the new pool balance. */
  lemma AssertedOtherRoleSale(s: State, req: SaleRequest)
    requires s.pool.Some? && req.user.Some? && !HoldsOwnBalance(req.user.value.role)
    ensures
      var r := CreateSale(s, None, req);
      var u := req.user.value;
      var p := req.totalPrice;
      var pool := s.pool.value;
      var sale := MakeSale(Some(Snapshot(u.id, u.handle, u.name, u.email)), req);
      && (pool.saldo < p ==> r == Err(InsufficientPoolFunds))
      && (r.Ok? <==> pool.saldo >= p && SaleDocumentValid(sale))
      && (r.Ok? ==>
            && r.value.pool == Some(pool.(saldo := pool.saldo - p))
            && SettledUsers(s.users, r.value.users, PoolFollowers, pool.saldo - p, None, 0)
            && r.value.sales == s.sales + [sale])
  {
  }

  /** No authenticated caller and no asserted account: the sale is recorded
      with no payer and no balance changes. */
  lemma AnonymousSaleOnlyRecords(s: State, req: SaleRequest)
    requires s.pool.Some? && req.user.None?
    ensures
      var r := CreateSale(s, None, req);
      && (r.Ok? <==> SaleDocumentValid(MakeSale(None, req)))
      && (r.Ok? ==> r.value == s.(sales := s.sales + [MakeSale(None, req)]))
      && (r.Err? ==> r.error == ValidationFailed)
  {
  }

  /** Settling a sale keeps intermediaries mirroring the pool and handles
      and e-mails unique. */
  lemma CreateSaleKeepsConsistent(s: State, caller: Option<UserId>, req: SaleRequest)
    requires Consistent(s)
    requires CreateSale(s, caller, req).Ok?
    ensures Consistent(CreateSale(s, caller, req).value)
  {
    var t := CreateSale(s, caller, req).value;
    SaldoChangesKeepUnique(s.users, t.users);
  }

  /** Settling a sale never makes a balance negative: every check compares
      the balance it debits with the price. */
  lemma CreateSaleKeepsNonNegative(s: State, caller: Option<UserId>, req: SaleRequest)
    requires NonNegative(s)
    requires CreateSale(s, caller, req).Ok?
    ensures NonNegative(CreateSale(s, caller, req).value)
  {
    var t := CreateSale(s, caller, req).value;
    var p := req.totalPrice;
    match caller
    case Some(id) =>
      if HoldsOwnBalance(s.users[id].role) {
        AuthenticatedOwnBalanceSale(s, id, req);
      } else {
        AuthenticatedOtherRoleSale(s, id, req);
      }
    case None =>
      if req.user.Some? {
        if HoldsOwnBalance(req.user.value.role) {
          AssertedOwnBalanceSale(s, req);
        } else {
          AssertedOtherRoleSale(s, req);
        }
      }
  }

  /** A sale by an authenticated caller, or with no payer, keeps every
      cliente at or above the minimum. */
  lemma CreateSaleKeepsFloor(s: State, caller: Option<UserId>, req: SaleRequest)
    requires ClienteFloor(s)
    requires caller.Some? || req.user.None?
    requires CreateSale(s, caller, req).Ok?
    ensures ClienteFloor(CreateSale(s, caller, req).value)
  {
    match caller
    case Some(id) =>
      if HoldsOwnBalance(s.users[id].role) {
        AuthenticatedOwnBalanceSale(s, id, req);
        AuthenticatedPayerMeetsSchema(s, id, req);
      } else {
        AuthenticatedOtherRoleSale(s, id, req);
      }
    case None =>
      AnonymousSaleOnlyRecords(s, req);
  }

  /** The unauthenticated branch does not keep the floor: asserting a
      cliente with 100.00 and buying for 50.00 leaves the stored cliente,
      who had 200.00, with 50.00. */
  lemma AssertedSaleBreaksFloor()
    ensures
      var ana := User("ana", "Ana", "ana@example.com", Cliente, "oro", 20000);
      var s := State(Some(Pool(100000, 100000)), map[0 := ana], []);
      var req := SaleRequest(1, "p1", "Gift card", 5000, "done", "o1", [],
                             Some(AssertedUser(0, "ana", "Ana", "ana@example.com", Cliente, 10000)));
      && ClienteFloor(s)
      && CreateSale(s, None, req).Ok?
      && CreateSale(s, None, req).value.users[0].saldo == 5000
      && !ClienteFloor(CreateSale(s, None, req).value)
  {
    var ana := User("ana", "Ana", "ana@example.com", Cliente, "oro", 20000);
    var s := State(Some(Pool(100000, 100000)), map[0 := ana], []);
    var req := SaleRequest(1, "p1", "Gift card", 5000, "done", "o1", [],
                           Some(AssertedUser(0, "ana", "Ana", "ana@example.com", Cliente, 10000)));
    AssertedOwnBalanceSale(s, req);
    var t := CreateSale(s, None, req).value;
    assert t.users[0].saldo == 5000;
  }
}
