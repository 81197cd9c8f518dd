/**
 * The User schema taken as account invariants: the role enum, the balance
 * minimum and default, the asynchronous balance validator, the required
 * strings, and the unique, lower-cased handle and e-mail.
 */
module UserModel {
  import opened Store
  import opened Text

  /** The schema's `min: 100`, in cents. The schema's `default: 100` is
      the same amount; registration always supplies a balance, so the
      default is never what gets stored and is not modelled separately. */
  const MinSaldo: int := 10000

  /** The schema's role enum, which the registration route's `isIn` list
      repeats; it has no `master`. */
  predicate InRoleEnum(r: Role) {
    r == Admin || r == Vendedor || r == Cliente
  }

  /** The asynchronous balance validator. `pool` is the record its
      `AdminBalance.findOne({})` returns. */
  predicate SaldoValidator(role: Role, value: int, pool: Option<Pool>) {
    if role == Cliente then value >= MinSaldo
    else if role == Admin || role == Vendedor then pool.Some? && value == pool.value.saldo
    else true
  }

  /** Whether `save` accepts the document: required strings non-empty, role
      in the enum, balance at least the minimum and accepted by the validator. */
  predicate DocumentValid(u: User, pool: Option<Pool>) {
    && |u.handle| > 0
    && |u.name| > 0
    && |u.email| > 0
    && InRoleEnum(u.role)
    && u.saldo >= MinSaldo
    && SaldoValidator(u.role, u.saldo, pool)
  }

  /** The stored form of an e-mail (`trim`, `lowercase`). */
  function CanonEmail(e: string): string {
    Canon(e)
  }

  /** The stored form of a requested handle: slugged, then `trim`, `lowercase`. */
  function CanonHandle(h: string): string {
    Canon(Slug(h))
  }

  predicate EmailInUse(users: map<UserId, User>, email: string) {
    exists id :: id in users && users[id].email == email
  }

  predicate HandleInUse(users: map<UserId, User>, handle: string) {
    exists id :: id in users && users[id].handle == handle
  }

  /** The unique indexes on `handle` and on `email`. */
  ghost predicate UniqueIdentities(users: map<UserId, User>) {
    forall a, b :: a in users && b in users && a != b ==>
      users[a].email != users[b].email && users[a].handle != users[b].handle
  }

  /** What every accepted document satisfies: no `master` or unknown role,
      at least 100.00, and admin and vendedor accounts hold exactly the
      pool's balance, which therefore exists. */
  lemma ValidDocumentFacts(u: User, pool: Option<Pool>)
    requires DocumentValid(u, pool)
    ensures u.role != Master && u.role != Other
    ensures u.saldo >= MinSaldo
    ensures u.role != Cliente ==> pool.Some? && u.saldo == pool.value.saldo
  {
  }

  /** The converse for a cliente: any non-empty identity with at least the
      minimum is accepted, whatever the pool. */
  lemma ClienteDocumentAccepted(u: User, pool: Option<Pool>)
    requires u.role == Cliente && u.saldo >= MinSaldo
    requires |u.handle| > 0 && |u.name| > 0 && |u.email| > 0
    ensures DocumentValid(u, pool)
  {
  }

  /** A handle is stored exactly as its slug. */
  lemma CanonHandleIsSlug(h: string)
    ensures CanonHandle(h) == Slug(h)
  {
    SlugIsCanonical(h);
  }

  /** Adding an account whose e-mail and handle are both unused keeps the
      unique indexes satisfied. */
  lemma AddKeepsUnique(users: map<UserId, User>, id: UserId, u: User)
    requires UniqueIdentities(users)
    requires id !in users
    requires !EmailInUse(users, u.email) && !HandleInUse(users, u.handle)
    ensures UniqueIdentities(users[id := u])
  {
    var m := users[id := u];
    forall a, b | a in m && b in m && a != b
      ensures m[a].email != m[b].email && m[a].handle != m[b].handle
    {
      if a == id {
        assert users[b].email != u.email;
        assert users[b].handle != u.handle;
      } else if b == id {
        assert users[a].email != u.email;
        assert users[a].handle != u.handle;
      }
    }
  }

  /** Changing only balances keeps the unique indexes satisfied. */
  lemma SaldoChangesKeepUnique(a: map<UserId, User>, b: map<UserId, User>)
    requires UniqueIdentities(a)
    requires OnlySaldoDiffers(a, b)
    ensures UniqueIdentities(b)
  {
    forall x, y | x in b && y in b && x != y
      ensures b[x].email != b[y].email && b[x].handle != b[y].handle
    {
      assert b[x] == a[x].(saldo := b[x].saldo);
      assert b[y] == a[y].(saldo := b[y].saldo);
    }
  }
}
