/** The request records the controllers validate before calling the services,
    with their Bean Validation constraints. Validating a record yields the set
    of violated (field, constraint) pairs; a record is accepted when that set
    is empty. */
module Requests {

  /** The constraint annotations used on the request records. */
  datatype Constraint =
    | NotBlank
    | Size(min: int, max: int)
    | Pattern(regexp: string, message: string)
    | Email

  datatype Violation = Violation(field: string, constraint: Constraint)

  /** String.trim: drops leading and trailing characters at or below U+0020. */
  function Trim(s: string): (r: string)
    ensures |r| <= |s|
  {
    TrimEnd(TrimStart(s))
  }

  function TrimStart(s: string): (r: string)
    ensures |r| <= |s|
    ensures r == [] || r[0] > ' '
    ensures r == s[|s| - |r|..]
  {
    if s == [] || s[0] > ' ' then s else TrimStart(s[1..])
  }

  function TrimEnd(s: string): (r: string)
    ensures |r| <= |s|
    ensures r == [] || r[|r| - 1] > ' '
    ensures r == s[..|r|]
  {
    if s == [] || s[|s| - 1] > ' ' then s else TrimEnd(s[..|s| - 1])
  }

  /** @NotBlank: the value trimmed is not empty. */
  predicate IsNotBlank(s: string)
  {
    |Trim(s)| > 0
  }

  /** @Size(min, max) on a string: its length lies in [min, max]. */
  predicate HasSize(s: string, min: int, max: int)
  {
    min <= |s| <= max
  }

  /** A value is not blank exactly when it holds some character above U+0020. */
  lemma {:induction false} NotBlankMeansVisibleChar(s: string)
    ensures IsNotBlank(s) <==> exists i :: 0 <= i < |s| && s[i] > ' '
  {
    TrimStartKeepsVisible(s);
    var t := TrimStart(s);
    TrimEndKeepsVisible(t);
    if IsNotBlank(s) {
      var i :| 0 <= i < |t| && t[i] > ' ';
      assert s[|s| - |t| + i] == t[i];
    }
  }

  lemma {:induction false} TrimStartKeepsVisible(s: string)
    ensures (exists i :: 0 <= i < |s| && s[i] > ' ') <==>
            (exists i :: 0 <= i < |TrimStart(s)| && TrimStart(s)[i] > ' ')
  {
    if s != [] && s[0] <= ' ' {
      TrimStartKeepsVisible(s[1..]);
      if exists i :: 0 <= i < |s| && s[i] > ' ' {
        var i :| 0 <= i < |s| && s[i] > ' ';
        assert s[1..][i - 1] == s[i];
      }
      if exists i :: 0 <= i < |s[1..]| && s[1..][i] > ' ' {
        var i :| 0 <= i < |s[1..]| && s[1..][i] > ' ';
        assert s[i + 1] == s[1..][i];
      }
    }
  }

  lemma {:induction false} TrimEndKeepsVisible(s: string)
    ensures (exists i :: 0 <= i < |s| && s[i] > ' ') <==> |TrimEnd(s)| > 0
  {
    if s != [] && s[|s| - 1] <= ' ' {
      var p := s[..|s| - 1];
      TrimEndKeepsVisible(p);
      if exists i :: 0 <= i < |s| && s[i] > ' ' {
        var i :| 0 <= i < |s| && s[i] > ' ';
        assert p[i] == s[i];
      }
      if exists i :: 0 <= i < |p| && p[i] > ' ' {
        var i :| 0 <= i < |p| && p[i] > ' ';
        assert s[i] == p[i];
      }
    }
  }

  // ---------------------------------------------------------------------
  // CreateTransactionRequest

  const TypeMessage: string := "Type must be either 'buy' or 'sell'"
  const TypeRegexp: string := "buy|sell"

  /** The record's `type` component is called `kind` here. Quantity, price and
      fee are primitive doubles, so their @NotNull constraints cannot fail and
      they carry no other constraint. */
  datatype CreateTransactionRequest =
    CreateTransactionRequest(cryptoId: string, kind: string, quantity: real, price: real, fee: real)

  /** @Pattern matches the whole value against "buy|sell", case-sensitively. */
  predicate MatchesBuyOrSell(s: string)
  {
    s == "buy" || s == "sell"
  }

  function CreateTransactionViolations(r: CreateTransactionRequest): set<Violation>
  {
    (if IsNotBlank(r.cryptoId) then {} else {Violation("cryptoId", NotBlank)})
    + (if |r.cryptoId| <= 255 then {} else {Violation("cryptoId", Size(0, 255))})
    + (if IsNotBlank(r.kind) then {} else {Violation("type", NotBlank)})
    + (if |r.kind| <= 10 then {} else {Violation("type", Size(0, 10))})
    + (if MatchesBuyOrSell(r.kind) then {} else {Violation("type", Pattern(TypeRegexp, TypeMessage))})
  }

  /** A transaction request is accepted exactly when its crypto id is not blank
      and at most 255 characters and its type is literally "buy" or "sell";
      the pattern makes the type's own not-blank and size checks redundant, and
      no sign or range of the amounts is checked. */
  lemma CreateTransactionAccepted(r: CreateTransactionRequest)
    ensures CreateTransactionViolations(r) == {} <==>
      IsNotBlank(r.cryptoId) && |r.cryptoId| <= 255 && MatchesBuyOrSell(r.kind)
  {
    if MatchesBuyOrSell(r.kind) {
      assert r.kind[0] > ' ';
      NotBlankMeansVisibleChar(r.kind);
    }
    var v := Violation("type", Pattern(TypeRegexp, TypeMessage));
    if !MatchesBuyOrSell(r.kind) {
      assert v in CreateTransactionViolations(r);
    }
  }

  /** A rejected type carries the message "Type must be either 'buy' or 'sell'",
      and an upper-case "BUY" is rejected although the holding update would
      accept it. */
  lemma TypeViolationMessage(r: CreateTransactionRequest)
    ensures !MatchesBuyOrSell(r.kind) ==>
      Violation("type", Pattern(TypeRegexp, TypeMessage)) in CreateTransactionViolations(r)
    ensures r.kind == "BUY" ==> CreateTransactionViolations(r) != {}
  {
  }

  /** Zero and negative quantities, prices and fees all pass validation. */
  lemma NegativeAmountsAccepted()
    ensures CreateTransactionViolations(CreateTransactionRequest("bitcoin", "sell", -5.0, -1.0, -2.0)) == {}
    ensures CreateTransactionViolations(CreateTransactionRequest("bitcoin", "buy", 0.0, 0.0, 0.0)) == {}
  {
    CreateTransactionAccepted(CreateTransactionRequest("bitcoin", "sell", -5.0, -1.0, -2.0));
    CreateTransactionAccepted(CreateTransactionRequest("bitcoin", "buy", 0.0, 0.0, 0.0));
    assert "bitcoin"[0] > ' ';
    NotBlankMeansVisibleChar("bitcoin");
  }

  // ---------------------------------------------------------------------
  // RegisterRequest

  datatype RegisterRequest = RegisterRequest(
    firstName: string, lastName: string, username: string, password: string, verifyPassword: string)

  /** `isEmail` stands for the @Email check, which this model does not define. */
  function RegisterViolations(r: RegisterRequest, isEmail: string -> bool): set<Violation>
  {
    (if IsNotBlank(r.firstName) then {} else {Violation("firstName", NotBlank)})
    + (if HasSize(r.firstName, 1, 50) then {} else {Violation("firstName", Size(1, 50))})
    + (if IsNotBlank(r.lastName) then {} else {Violation("lastName", NotBlank)})
    + (if HasSize(r.lastName, 1, 50) then {} else {Violation("lastName", Size(1, 50))})
    + (if IsNotBlank(r.username) then {} else {Violation("username", NotBlank)})
    + (if HasSize(r.username, 3, 255) then {} else {Violation("username", Size(3, 255))})
    + (if isEmail(r.username) then {} else {Violation("username", Email)})
    + (if IsNotBlank(r.password) then {} else {Violation("password", NotBlank)})
    + (if HasSize(r.password, 8, 255) then {} else {Violation("password", Size(8, 255))})
    + (if IsNotBlank(r.verifyPassword) then {} else {Violation("verifyPassword", NotBlank)})
    + (if HasSize(r.verifyPassword, 8, 255) then {} else {Violation("verifyPassword", Size(8, 255))})
  }

  /** A registration is accepted exactly when both names are non-blank and at
      most 50 characters (their minimum size of 1 is implied by not being
      blank), the username is non-blank, e-mail-shaped and 3 to 255
      characters, and both passwords are non-blank with 8 to 255 characters. */
  lemma RegisterAccepted(r: RegisterRequest, isEmail: string -> bool)
    ensures RegisterViolations(r, isEmail) == {} <==>
      IsNotBlank(r.firstName) && |r.firstName| <= 50
      && IsNotBlank(r.lastName) && |r.lastName| <= 50
      && IsNotBlank(r.username) && 3 <= |r.username| <= 255 && isEmail(r.username)
      && IsNotBlank(r.password) && 8 <= |r.password| <= 255
      && IsNotBlank(r.verifyPassword) && 8 <= |r.verifyPassword| <= 255
  {
    if IsNotBlank(r.firstName) { NotBlankMeansVisibleChar(r.firstName); }
    if IsNotBlank(r.lastName) { NotBlankMeansVisibleChar(r.lastName); }
    if !IsNotBlank(r.firstName) { assert Violation("firstName", NotBlank) in RegisterViolations(r, isEmail); }
    if !HasSize(r.firstName, 1, 50) { assert Violation("firstName", Size(1, 50)) in RegisterViolations(r, isEmail); }
    if !IsNotBlank(r.lastName) { assert Violation("lastName", NotBlank) in RegisterViolations(r, isEmail); }
    if !HasSize(r.lastName, 1, 50) { assert Violation("lastName", Size(1, 50)) in RegisterViolations(r, isEmail); }
    if !IsNotBlank(r.username) { assert Violation("username", NotBlank) in RegisterViolations(r, isEmail); }
    if !HasSize(r.username, 3, 255) { assert Violation("username", Size(3, 255)) in RegisterViolations(r, isEmail); }
    if !isEmail(r.username) { assert Violation("username", Email) in RegisterViolations(r, isEmail); }
    if !IsNotBlank(r.password) { assert Violation("password", NotBlank) in RegisterViolations(r, isEmail); }
    if !HasSize(r.password, 8, 255) { assert Violation("password", Size(8, 255)) in RegisterViolations(r, isEmail); }
    if !IsNotBlank(r.verifyPassword) { assert Violation("verifyPassword", NotBlank) in RegisterViolations(r, isEmail); }
    if !HasSize(r.verifyPassword, 8, 255) { assert Violation("verifyPassword", Size(8, 255)) in RegisterViolations(r, isEmail); }
  }

  /** Nothing in the record ties `verifyPassword` to `password`: a request whose
      two passwords differ is accepted. */
  lemma RegisterAcceptsMismatchedPasswords()
    ensures RegisterViolations(RegisterRequest("Ada", "Lovelace", "ada@example.com", "password1", "password2"),
                               s => true) == {}
  {
    RegisterAccepted(RegisterRequest("Ada", "Lovelace", "ada@example.com", "password1", "password2"), s => true);
    assert "Ada"[0] > ' ';
    NotBlankMeansVisibleChar("Ada");
    assert "Lovelace"[0] > ' ';
    NotBlankMeansVisibleChar("Lovelace");
    assert "ada@example.com"[0] > ' ';
    NotBlankMeansVisibleChar("ada@example.com");
    assert "password1"[0] > ' ';
    NotBlankMeansVisibleChar("password1");
    assert "password2"[0] > ' ';
    NotBlankMeansVisibleChar("password2");
  }

  // ---------------------------------------------------------------------
  // ChangePasswordRequest

  datatype ChangePasswordRequest = ChangePasswordRequest(
    code: string, username: string, newPassword: string, verifyNewPassword: string)

  function ChangePasswordViolations(r: ChangePasswordRequest): set<Violation>
  {
    (if IsNotBlank(r.code) then {} else {Violation("code", NotBlank)})
    + (if IsNotBlank(r.username) then {} else {Violation("username", NotBlank)})
    + (if IsNotBlank(r.newPassword) then {} else {Violation("newPassword", NotBlank)})
    + (if HasSize(r.newPassword, 8, 255) then {} else {Violation("newPassword", Size(8, 255))})
    + (if IsNotBlank(r.verifyNewPassword) then {} else {Violation("verifyNewPassword", NotBlank)})
    + (if HasSize(r.verifyNewPassword, 8, 255) then {} else {Violation("verifyNewPassword", Size(8, 255))})
  }

  /** A change-password request is accepted exactly when code and username are
      not blank (of any length) and both new passwords are non-blank with 8 to
      255 characters; their equality is not part of the check. */
  lemma ChangePasswordAccepted(r: ChangePasswordRequest)
    ensures ChangePasswordViolations(r) == {} <==>
      IsNotBlank(r.code) && IsNotBlank(r.username)
      && IsNotBlank(r.newPassword) && 8 <= |r.newPassword| <= 255
      && IsNotBlank(r.verifyNewPassword) && 8 <= |r.verifyNewPassword| <= 255
  {
    if !IsNotBlank(r.code) { assert Violation("code", NotBlank) in ChangePasswordViolations(r); }
    if !IsNotBlank(r.username) { assert Violation("username", NotBlank) in ChangePasswordViolations(r); }
    if !IsNotBlank(r.newPassword) { assert Violation("newPassword", NotBlank) in ChangePasswordViolations(r); }
    if !HasSize(r.newPassword, 8, 255) { assert Violation("newPassword", Size(8, 255)) in ChangePasswordViolations(r); }
    if !IsNotBlank(r.verifyNewPassword) { assert Violation("verifyNewPassword", NotBlank) in ChangePasswordViolations(r); }
    if !HasSize(r.verifyNewPassword, 8, 255) { assert Violation("verifyNewPassword", Size(8, 255)) in ChangePasswordViolations(r); }
  }

  // ---------------------------------------------------------------------
  // LoginRequest

  datatype LoginRequest = LoginRequest(username: string, password: string)

  function LoginViolations(r: LoginRequest): set<Violation>
  {
    (if IsNotBlank(r.username) then {} else {Violation("username", NotBlank)})
    + (if |r.username| <= 255 then {} else {Violation("username", Size(0, 255))})
    + (if IsNotBlank(r.password) then {} else {Violation("password", NotBlank)})
    + (if |r.password| <= 255 then {} else {Violation("password", Size(0, 255))})
  }

  /** A login request is accepted exactly when both fields are non-blank and
      at most 255 characters long; there is no minimum password length. */
  lemma LoginAccepted(r: LoginRequest)
    ensures LoginViolations(r) == {} <==>
      IsNotBlank(r.username) && |r.username| <= 255 && IsNotBlank(r.password) && |r.password| <= 255
  {
    if !IsNotBlank(r.username) { assert Violation("username", NotBlank) in LoginViolations(r); }
    if |r.username| > 255 { assert Violation("username", Size(0, 255)) in LoginViolations(r); }
    if !IsNotBlank(r.password) { assert Violation("password", NotBlank) in LoginViolations(r); }
    if |r.password| > 255 { assert Violation("password", Size(0, 255)) in LoginViolations(r); }
  }

  /** A one-character password passes login validation. */
  lemma LoginAcceptsOneCharPassword()
    ensures LoginViolations(LoginRequest("a@b.c", "x")) == {}
  {
    assert "a@b.c"[0] > ' ';
    NotBlankMeansVisibleChar("a@b.c");
    assert "x"[0] > ' ';
    NotBlankMeansVisibleChar("x");
  }
}
