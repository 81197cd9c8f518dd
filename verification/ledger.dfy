/**
 * Sequences of requests. Each request runs as one session: it commits its
 * result or, on any error, leaves the store as it was. Over any sequence
 * the pool's balance equals its starting balance plus the top-ups minus
 * the prices of the paid sales recorded meanwhile, the sales ledger only
 * grows, and the record invariants hold throughout.
 */
module Ledger {
  import opened Store
  import opened UserModel
  import opened Invariants
  import opened Handlers
  import Router
  import RegistrationFacts
  import TopUpFacts
  import SaleFacts

  datatype Op =
    | Register(id: UserId, req: RegisterRequest)
    | TopUp(amount: int)
    | Sell(caller: Option<UserId>, sale: SaleRequest)

  function Exec(s: State, op: Op): Result<State, Error> {
    match op
    case Register(id, req) => Router.Register(s, id, req)
    case TopUp(amount) => UpdateAdminBalance(s, amount)
    case Sell(caller, req) => CreateSale(s, caller, req)
  }

  /** The committed store after one request. */
  function Step(s: State, op: Op): (t: State)
    ensures Exec(s, op).Err? ==> t == s
    ensures Exec(s, op).Ok? ==> t == Exec(s, op).value
  {
    match Exec(s, op)
    case Ok(t) => t
    case Err(_) => s
  }

  /** The committed store after the requests `ops`, in order. */
  function Run(s: State, ops: seq<Op>): State
    decreases |ops|
  {
    if |ops| == 0 then s else Run(Step(s, ops[0]), ops[1..])
  }

  /** What a recorded sale took from the pool: its price when it had a
      payer, nothing otherwise. */
  function DebitOf(sale: Sale): int {
    if sale.payer.Some? then sale.totalPrice else 0
  }

  function Debited(sales: seq<Sale>): int {
    if |sales| == 0 then 0 else DebitOf(sales[0]) + Debited(sales[1..])
  }

  function TopUpOf(op: Op): int {
    if op.TopUp? then op.amount else 0
  }

  function TopUps(ops: seq<Op>): int {
    if |ops| == 0 then 0 else TopUpOf(ops[0]) + TopUps(ops[1..])
  }

  /** Every account of `a` is still in `b`, with only its balance changed. */
  ghost predicate Grows(a: map<UserId, User>, b: map<UserId, User>) {
    && a.Keys <= b.Keys
    && forall id :: id in a ==> b[id] == a[id].(saldo := b[id].saldo)
  }

  /** A request that cannot break the cliente floor: anything but a sale
      paid from a caller-asserted account. */
  predicate FloorSafe(op: Op) {
    !(op.Sell? && op.caller.None? && op.sale.user.Some?)
  }

  lemma {:induction false} DebitedAppend(a: seq<Sale>, b: seq<Sale>)
    ensures Debited(a + b) == Debited(a) + Debited(b)
    decreases |a|
  {
    if |a| == 0 {
      assert a + b == b;
    } else {
      assert (a + b)[1..] == a[1..] + b;
      DebitedAppend(a[1..], b);
    }
  }

  lemma GrowsTransitive(a: map<UserId, User>, b: map<UserId, User>, c: map<UserId, User>)
    requires Grows(a, b) && Grows(b, c)
    ensures Grows(a, c)
  {
  }

  /** One request keeps the ledger's prefix and every existing account. */
  lemma StepGrows(s: State, op: Op)
    ensures |s.sales| <= |Step(s, op).sales|
    ensures Step(s, op).sales[..|s.sales|] == s.sales
    ensures Grows(s.users, Step(s, op).users)
  {
  }

  /** One request moves the pool by its top-up minus what the sale it
      recorded (if any) took. */
  lemma StepConservesPool(s: State, op: Op)
    requires s.pool.Some?
    ensures Step(s, op).pool.Some?
    ensures |s.sales| <= |Step(s, op).sales|
    ensures Step(s, op).pool.value.saldo ==
      s.pool.value.saldo + TopUpOf(op) - Debited(Step(s, op).sales[|s.sales|..])
  {
    var t := Step(s, op);
    if op.Sell? && Exec(s, op).Ok? {
      var sale := t.sales[|s.sales|];
      assert t.sales[|s.sales|..] == [sale];
      assert Debited([sale]) == DebitOf(sale);
    } else {
      assert t.sales[|s.sales|..] == [];
    }
  }

  lemma {:induction false} RunGrows(s: State, ops: seq<Op>)
    ensures |s.sales| <= |Run(s, ops).sales|
    ensures Run(s, ops).sales[..|s.sales|] == s.sales
    ensures Grows(s.users, Run(s, ops).users)
    decreases |ops|
  {
    if |ops| == 0 {
      assert Run(s, ops) == s;
    } else {
      var t := Step(s, ops[0]);
      StepGrows(s, ops[0]);
      RunGrows(t, ops[1..]);
      var f := Run(t, ops[1..]);
      assert f.sales[..|s.sales|] == f.sales[..|t.sales|][..|s.sales|];
      GrowsTransitive(s.users, t.users, f.users);
    }
  }

  /** Conservation: after any sequence of requests, the pool holds its
      starting balance plus every top-up minus the price of every paid
      sale recorded along the way. */
  lemma {:induction false} RunConservesPool(s: State, ops: seq<Op>)
    requires s.pool.Some?
    ensures Run(s, ops).pool.Some?
    ensures |s.sales| <= |Run(s, ops).sales|
    ensures Run(s, ops).pool.value.saldo ==
      s.pool.value.saldo + TopUps(ops) - Debited(Run(s, ops).sales[|s.sales|..])
    decreases |ops|
  {
    if |ops| == 0 {
      assert Run(s, ops) == s;
      assert s.sales[|s.sales|..] == [];
    } else {
      var t := Step(s, ops[0]);
      StepConservesPool(s, ops[0]);
      RunConservesPool(t, ops[1..]);
      RunGrows(t, ops[1..]);
      DebitedSplit(s.sales, t.sales, Run(t, ops[1..]).sales);
    }
  }

  /** What a ledger grew by, split at an intermediate ledger it extends. */
  lemma DebitedSplit(a: seq<Sale>, b: seq<Sale>, c: seq<Sale>)
    requires |a| <= |b| <= |c| && c[..|b|] == b
    ensures Debited(c[|a|..]) == Debited(b[|a|..]) + Debited(c[|b|..])
  {
    assert c[|a|..] == b[|a|..] + c[|b|..];
    DebitedAppend(b[|a|..], c[|b|..]);
  }

  /** One request keeps the store consistent. */
  lemma StepKeepsConsistent(s: State, op: Op)
    requires Consistent(s)
    ensures Consistent(Step(s, op))
  {
    if Exec(s, op).Ok? {
      match op
      case Register(id, req) => RegistrationFacts.CreateAccountKeepsConsistent(s, id, req);
      case TopUp(amount) => TopUpFacts.TopUpKeepsConsistent(s, amount);
      case Sell(caller, req) => SaleFacts.CreateSaleKeepsConsistent(s, caller, req);
    }
  }

  /** Every reachable store is consistent: intermediaries mirror the pool
      and handles and e-mails stay unique. */
  lemma {:induction false} RunKeepsConsistent(s: State, ops: seq<Op>)
    requires Consistent(s)
    ensures Consistent(Run(s, ops))
    decreases |ops|
  {
    if |ops| > 0 {
      StepKeepsConsistent(s, ops[0]);
      RunKeepsConsistent(Step(s, ops[0]), ops[1..]);
    }
  }

  lemma StepKeepsNonNegative(s: State, op: Op)
    requires NonNegative(s)
    requires op.TopUp? ==> op.amount >= 0
    ensures NonNegative(Step(s, op))
  {
    if Exec(s, op).Ok? {
      match op
      case Register(id, req) => RegistrationFacts.CreateAccountKeepsBounds(s, id, req);
      case TopUp(amount) => TopUpFacts.TopUpKeepsBounds(s, amount);
      case Sell(caller, req) => SaleFacts.CreateSaleKeepsNonNegative(s, caller, req);
    }
  }

  /** Without negative top-ups no balance, the pool's included, ever goes
      negative. */
  lemma {:induction false} RunKeepsNonNegative(s: State, ops: seq<Op>)
    requires NonNegative(s)
    requires forall i :: 0 <= i < |ops| && ops[i].TopUp? ==> ops[i].amount >= 0
    ensures NonNegative(Run(s, ops))
    decreases |ops|
  {
    if |ops| > 0 {
      StepKeepsNonNegative(s, ops[0]);
      assert forall i :: 0 <= i < |ops[1..]| ==> ops[1..][i] == ops[i + 1];
      RunKeepsNonNegative(Step(s, ops[0]), ops[1..]);
    }
  }

  lemma StepKeepsFloor(s: State, op: Op)
    requires ClienteFloor(s)
    requires FloorSafe(op)
    ensures ClienteFloor(Step(s, op))
  {
    if Exec(s, op).Ok? {
      match op
      case Register(id, req) => RegistrationFacts.CreateAccountKeepsBounds(s, id, req);
      case TopUp(amount) => TopUpFacts.TopUpKeepsBounds(s, amount);
      case Sell(caller, req) => SaleFacts.CreateSaleKeepsFloor(s, caller, req);
    }
  }

  /** Unless a sale is paid from a caller-asserted account, every cliente
      keeps at least the schema's minimum. */
  lemma {:induction false} RunKeepsFloor(s: State, ops: seq<Op>)
    requires ClienteFloor(s)
    requires forall i :: 0 <= i < |ops| ==> FloorSafe(ops[i])
    ensures ClienteFloor(Run(s, ops))
    decreases |ops|
  {
    if |ops| > 0 {
      StepKeepsFloor(s, ops[0]);
      assert forall i :: 0 <= i < |ops[1..]| ==> ops[1..][i] == ops[i + 1];
      RunKeepsFloor(Step(s, ops[0]), ops[1..]);
    }
  }
}
