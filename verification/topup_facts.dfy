/**
 * Pool top-ups: they compose additively, a top-up and its opposite cancel
 * out, and they keep intermediaries mirroring the pool.
 */
module TopUpFacts {
  import opened Store
  import opened UserModel
  import opened Invariants
  import opened Handlers

  /** Two top-ups in a row are one top-up of their sum. */
  lemma TopUpsCompose(s: State, a: int, b: int)
    requires s.pool.Some?
    ensures UpdateAdminBalance(s, a).Ok?
    ensures UpdateAdminBalance(UpdateAdminBalance(s, a).value, b) == UpdateAdminBalance(s, a + b)
  {
    var t := UpdateAdminBalance(s, a).value;
    var u := UpdateAdminBalance(t, b).value;
    var v := UpdateAdminBalance(s, a + b).value;
    assert u.users == v.users by {
      forall id | id in s.users
        ensures u.users[id] == v.users[id]
      {
        assert u.users[id] == s.users[id].(saldo := u.users[id].saldo);
        assert v.users[id] == s.users[id].(saldo := v.users[id].saldo);
      }
    }
  }

  /** Topping up by an amount and then by its opposite restores the store,
      provided the display field was in step with the pool to begin with. */
  lemma TopUpUndone(s: State, a: int)
    requires s.pool.Some? && s.pool.value.currentSaldo == s.pool.value.saldo
    ensures UpdateAdminBalance(s, a).Ok?
    ensures UpdateAdminBalance(UpdateAdminBalance(s, a).value, -a) == Ok(s)
  {
    TopUpsCompose(s, a, -a);
    var v := UpdateAdminBalance(s, 0).value;
    assert v.users == s.users by {
      forall id | id in s.users
        ensures v.users[id] == s.users[id]
      {
        assert v.users[id] == s.users[id].(saldo := v.users[id].saldo);
      }
    }
  }

  /** If intermediaries mirrored the pool before a top-up, they still do;
      handles and e-mails are untouched. */
  lemma TopUpKeepsConsistent(s: State, amount: int)
    requires Consistent(s)
    requires UpdateAdminBalance(s, amount).Ok?
    ensures Consistent(UpdateAdminBalance(s, amount).value)
  {
    var t := UpdateAdminBalance(s, amount).value;
    SaldoChangesKeepUnique(s.users, t.users);
  }

  /** A non-negative top-up keeps every balance non-negative; clientes are
      never touched. */
  lemma TopUpKeepsBounds(s: State, amount: int)
    requires UpdateAdminBalance(s, amount).Ok?
    ensures NonNegative(s) && amount >= 0 ==> NonNegative(UpdateAdminBalance(s, amount).value)
    ensures ClienteFloor(s) ==> ClienteFloor(UpdateAdminBalance(s, amount).value)
  {
  }
}
