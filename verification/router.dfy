/**
 * The request validators on the registration and top-up routes, as pure
 * predicates over the request body, and the registration route: a body
 * any validator rejects never reaches the handler.
 */
module Router {
  import opened Store
  import opened Text
  import opened UserModel
  import opened Handlers

  /** JavaScript's `!value` for an absent or numeric field. */
  predicate Falsy(v: Option<int>) {
    v.None? || v.value == 0
  }

  /** `password` has at least 8 characters. */
  predicate PasswordAccepted(req: RegisterRequest) {
    |req.password| >= 8
  }

  /** The custom `saldo` validator: a cliente must send a non-zero balance,
      and any other role that sends one must send at least 100.00. */
  predicate SaldoAccepted(req: RegisterRequest) {
    && !(req.role == Cliente && Falsy(req.saldo))
    && !(req.role != Cliente && req.saldo.Some? && req.saldo.value < MinSaldo)
  }

  /** All registration validators; the e-mail syntax check is not modelled. */
  predicate RegisterBodyAccepted(req: RegisterRequest) {
    && |req.handle| > 0
    && |req.name| > 0
    && PasswordAccepted(req)
    && InRoleEnum(req.role)
    && SaldoAccepted(req)
  }

  /** `POST /auth/register`: the validators, then `createAccount`. */
  function Register(s: State, id: UserId, req: RegisterRequest): (r: Result<State, Error>)
    ensures !RegisterBodyAccepted(req) ==> r == Err(InvalidRequest)
    ensures RegisterBodyAccepted(req) ==> r == CreateAccount(s, id, req)
    ensures r.Ok? ==>
      && |req.password| >= 8
      && InRoleEnum(req.role)
      && CreateAccount(s, id, req) == r
      && r.value.users[id].saldo >= MinSaldo
  {
    if !RegisterBodyAccepted(req) then Err(InvalidRequest)
    else CreateAccount(s, id, req)
  }

  /** The route refuses `master` before the handler, which would also let
      the schema refuse it, ever runs. */
  lemma MasterRejectedByRoute(s: State, id: UserId, req: RegisterRequest)
    requires req.role == Master
    ensures Register(s, id, req) == Err(InvalidRequest)
  {
  }

  /** The route checks a vendedor's requested balance even though the
      handler then ignores it in favour of the pool's (see
      `RegistrationFacts.IntermediaryRegistration`). */
  lemma VendedorRequestedSaldoChecked(s: State, id: UserId, req: RegisterRequest)
    requires req.role == Vendedor && req.saldo.Some? && req.saldo.value < MinSaldo
    ensures Register(s, id, req) == Err(InvalidRequest)
  {
  }

  /** A cliente body without a balance (or with 0) stops at the route. */
  lemma ClienteSaldoRequired(s: State, id: UserId, req: RegisterRequest)
    requires req.role == Cliente && Falsy(req.saldo)
    ensures Register(s, id, req) == Err(InvalidRequest)
  {
  }

  // ---------------------------------------------------------------------
  // PUT /admin/balance: `saldo` must be numeric
  // ---------------------------------------------------------------------

  function StripSign(s: string): (t: string)
    ensures |t| <= |s|
  {
    if |s| > 0 && (s[0] == '+' || s[0] == '-') then s[1..] else s
  }

  predicate DigitsIn(t: string, lo: int, hi: int)
    requires 0 <= lo <= hi <= |t|
  {
    forall j :: lo <= j < hi ==> IsDigit(t[j])
  }

  /** The unsigned part of a number: digits, or digits, a '.', and at least
      one more digit. */
  predicate NumericBody(t: string) {
    || (|t| > 0 && DigitsIn(t, 0, |t|))
    || exists k :: 0 <= k < |t| - 1 && t[k] == '.' && DigitsIn(t, 0, k) && DigitsIn(t, k + 1, |t|)
  }

  /** The numeric check with default options: an optional sign, then the
      pattern `([0-9]*[.])?[0-9]+` over the whole string. */
  predicate IsNumeric(s: string) {
    NumericBody(StripSign(s))
  }

  /** A character that is neither a digit nor '.' rules a string out. */
  lemma StrayCharacterRejected(t: string, j: int)
    requires 0 <= j < |t| && !IsDigit(t[j]) && t[j] != '.'
    ensures !NumericBody(t)
  {
    forall k | 0 <= k < |t| - 1 && t[k] == '.'
      ensures !(DigitsIn(t, 0, k) && DigitsIn(t, k + 1, |t|))
    {
      if j < k {
        assert !DigitsIn(t, 0, k);
      } else {
        assert !DigitsIn(t, k + 1, |t|);
      }
    }
  }

  /** Two '.' characters rule a string out. */
  lemma SecondDotRejected(t: string, a: int, b: int)
    requires 0 <= a < b < |t| && t[a] == '.' && t[b] == '.'
    ensures !NumericBody(t)
  {
    assert !DigitsIn(t, 0, |t|) by { assert !IsDigit(t[a]); }
    forall k | 0 <= k < |t| - 1 && t[k] == '.'
      ensures !(DigitsIn(t, 0, k) && DigitsIn(t, k + 1, |t|))
    {
      if a < k {
        assert !IsDigit(t[a]);
      } else {
        assert !IsDigit(t[b]);
      }
    }
  }

  /** A string whose only '.' is its last character is ruled out. */
  lemma TrailingDotRejected(t: string)
    requires |t| > 0 && t[|t| - 1] == '.' && DigitsIn(t, 0, |t| - 1)
    ensures !NumericBody(t)
  {
    assert !IsDigit(t[|t| - 1]);
    forall k | 0 <= k < |t| - 1
      ensures t[k] != '.'
    {
      assert IsDigit(t[k]);
    }
  }

  /** One left-to-right pass deciding `IsNumeric`. */
  method ScanNumeric(s: string) returns (ok: bool)
    ensures ok <==> IsNumeric(s)
  {
    var t := StripSign(s);
    var i := 0;
    var dot := -1;
    var bad := false;
    while i < |t| && !bad
      invariant 0 <= i <= |t|
      invariant -1 <= dot < i
      invariant !bad && dot == -1 ==> DigitsIn(t, 0, i)
      invariant !bad && dot >= 0 ==> t[dot] == '.' && DigitsIn(t, 0, dot) && DigitsIn(t, dot + 1, i)
      invariant bad ==> !NumericBody(t)
    {
      if t[i] == '.' {
        if dot >= 0 {
          SecondDotRejected(t, dot, i);
          bad := true;
        } else {
          dot := i;
        }
      } else if !IsDigit(t[i]) {
        StrayCharacterRejected(t, i);
        bad := true;
      }
      i := i + 1;
    }
    if bad {
      ok := false;
    } else if dot == -1 {
      ok := |t| > 0;
    } else if dot < |t| - 1 {
      ok := true;
    } else {
      TrailingDotRejected(t);
      ok := false;
    }
  }
}
