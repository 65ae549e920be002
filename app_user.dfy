/** User of part3/hbnb/app/models/user.py and its earlier variant in
    part2/hbnb/app/models/user.py. Both check their arguments before
    `super().__init__()`, so a failed construction yields no object. The part3 user
    keeps a bcrypt hash of its password in `_password_hash`, None when no password was
    given. */
module AppUser {
  import opened Common
  import opened AppBase
  import Email

  const NamesRequired := "first_name, last_name, and email are required"
  const InvalidEmail := "Invalid email format"
  const PasswordTooShort := "Password must be at least 6 characters long"
  const ExpectedString := "expected string or bytes-like object"
  const NoLen := "object has no len()"
  const HashNeedsString := "password must be a string"
  const HashKey := "_password_hash"

  /** The checks both variants make first: the three fields are truthy and the email is
      a string on which `EMAIL_REGEX.match` succeeds. */
  function CheckIdentity(firstName: Value, lastName: Value, email: Value): (r: Outcome)
  {
    if !Truthy(firstName) || !Truthy(lastName) || !Truthy(email) then Fail(ValueError(NamesRequired))
    else if !email.Str? then Fail(TypeError(ExpectedString))
    else if !Email.LooseEmail(email.s) then Fail(ValueError(InvalidEmail))
    else Pass
  }

  /** `set_password(password)` at clock reading `now`. */
  function SetPassword(u: AppObj, password: Value, now: nat): (r: Result<AppObj>)
  {
    if !Truthy(password) then Err(ValueError(PasswordTooShort))
    else match PyLen(password)
      case None => Err(TypeError(NoLen))
      case Some(n) =>
        if n < 6 then Err(ValueError(PasswordTooShort))
        else if !password.Str? then Err(TypeError(HashNeedsString))
        else Ok(Save(u.(attrs := u.attrs[HashKey := Str(Hash(password.s))]), now))
  }

  /** `User(first_name, last_name, email, password, is_admin)`: the base attributes
      are set at reading t1, and a given password is hashed by set_password at t2. */
  function New(firstName: Value, lastName: Value, email: Value, password: Value, isAdmin: Value,
               freshId: string, t1: nat, t2: nat): (r: Result<AppObj>)
  {
    match CheckIdentity(firstName, lastName, email)
    case Fail(e) => Err(e)
    case Pass =>
      if Truthy(password) && PyLen(password).None? then Err(TypeError(NoLen))
      else if Truthy(password) && PyLen(password).value < 6 then Err(ValueError(PasswordTooShort))
      else
        var u := Build("User", freshId, t1, map["first_name" := firstName, "last_name" := lastName,
                                               "email" := email, "is_admin" := isAdmin, HashKey := Null]);
        if Truthy(password) then SetPassword(u, password, t2) else Ok(u)
  }

  /** `check_password(password)`. */
  predicate CheckPassword(u: AppObj, password: string)
  {
    var h := Lookup(u.attrs, HashKey);
    Truthy(h) && h.Str? && CheckHash(h.s, password)
  }

  /** A user is built exactly when names and email are truthy, the email matches the
      prefix pattern, and a truthy password is a string of at least 6 characters; the
      fields are the arguments. */
  lemma {:induction false} NewMeaning(firstName: Value, lastName: Value, email: Value, password: Value,
                                      isAdmin: Value, freshId: string, t1: nat, t2: nat)
    ensures var r := New(firstName, lastName, email, password, isAdmin, freshId, t1, t2);
            && (r.Ok? <==> Truthy(firstName) && Truthy(lastName) && email.Str? && Email.LooseEmailSpec(email.s)
                           && (Truthy(password) ==> password.Str? && |password.s| >= 6))
            && (r.Ok? ==> r.value.cls == "User" && r.value.id == freshId && r.value.createdAt == t1
                          && Attr(r.value, "first_name") == firstName && Attr(r.value, "last_name") == lastName
                          && Attr(r.value, "email") == email && Attr(r.value, "is_admin") == isAdmin)
  {
    CheckIdentityMeaning(firstName, lastName, email);
    if CheckIdentity(firstName, lastName, email).Pass? && (Truthy(password) ==> password.Str? && |password.s| >= 6) {
      var u := Build("User", freshId, t1, map["first_name" := firstName, "last_name" := lastName,
                                             "email" := email, "is_admin" := isAdmin, HashKey := Null]);
      assert New(firstName, lastName, email, password, isAdmin, freshId, t1, t2)
             == if Truthy(password) then SetPassword(u, password, t2) else Ok(u);
    }
  }

  /** The identity checks pass exactly on truthy names and an email string matching the
      prefix pattern. */
  lemma CheckIdentityMeaning(firstName: Value, lastName: Value, email: Value)
    ensures CheckIdentity(firstName, lastName, email).Pass? <==>
              Truthy(firstName) && Truthy(lastName) && email.Str? && Email.LooseEmailSpec(email.s)
  {
    if email.Str? {
      Email.LooseEmailCorrect(email.s);
    }
  }

  /** The first failing check decides the error: missing fields, then the email
      format, then the password length. */
  lemma NewOrder(firstName: Value, lastName: Value, email: Value, password: Value, isAdmin: Value,
                 freshId: string, t1: nat, t2: nat)
    ensures !Truthy(firstName) || !Truthy(lastName) || !Truthy(email) ==>
              New(firstName, lastName, email, password, isAdmin, freshId, t1, t2) == Err(ValueError(NamesRequired))
    ensures (Truthy(firstName) && Truthy(lastName) && email.Str? && email.s != "" && !Email.LooseEmail(email.s))
              ==> New(firstName, lastName, email, password, isAdmin, freshId, t1, t2) == Err(ValueError(InvalidEmail))
    ensures (CheckIdentity(firstName, lastName, email).Pass? && password.Str? && 0 < |password.s| < 6)
              ==> New(firstName, lastName, email, password, isAdmin, freshId, t1, t2) == Err(ValueError(PasswordTooShort))
  {
  }

  /** Leaving the password out (or giving a falsy one) leaves the hash None, and then
      no password checks. */
  lemma NoPasswordNoHash(firstName: Value, lastName: Value, email: Value, password: Value, isAdmin: Value,
                         freshId: string, t1: nat, t2: nat, attempt: string)
    requires !Truthy(password) && New(firstName, lastName, email, password, isAdmin, freshId, t1, t2).Ok?
    ensures var u := New(firstName, lastName, email, password, isAdmin, freshId, t1, t2).value;
            Attr(u, HashKey) == Null && !CheckPassword(u, attempt) && u.updatedAt == t1
  {
  }

  /** set_password rejects an empty or short password, and after a successful one
      exactly that password checks; it refreshes updated_at and changes nothing else. */
  lemma {:induction false} SetPasswordEffect(u: AppObj, password: Value, now: nat, attempt: string)
    ensures (!Truthy(password) || (password.Str? && |password.s| < 6))
              ==> SetPassword(u, password, now) == Err(ValueError(PasswordTooShort))
    ensures SetPassword(u, password, now).Ok? ==>
              && password.Str?
              && (CheckPassword(SetPassword(u, password, now).value, attempt) <==> attempt == password.s)
              && SetPassword(u, password, now).value.updatedAt == now
              && (forall k :: k in u.attrs && k != HashKey ==> SetPassword(u, password, now).value.attrs[k] == u.attrs[k])
  {
    if SetPassword(u, password, now).Ok? {
      HashChecks(password.s, attempt);
    }
  }

  /** A password given to the constructor is the one that checks. */
  lemma {:induction false} NewPasswordChecks(firstName: Value, lastName: Value, email: Value, password: string,
                                             isAdmin: Value, freshId: string, t1: nat, t2: nat, attempt: string)
    requires New(firstName, lastName, email, Str(password), isAdmin, freshId, t1, t2).Ok? && password != ""
    ensures (CheckPassword(New(firstName, lastName, email, Str(password), isAdmin, freshId, t1, t2).value, attempt)
             <==> attempt == password)
  {
    var u := Build("User", freshId, t1, map["first_name" := firstName, "last_name" := lastName,
                                           "email" := email, "is_admin" := isAdmin, HashKey := Null]);
    SetPasswordEffect(u, Str(password), t2, attempt);
  }

  /** `to_dict()`: no password and no hash. */
  function ToDict(u: AppObj): (d: Payload)
    ensures d.Keys == {"id", "first_name", "last_name", "email", "is_admin", "created_at", "updated_at"}
    ensures forall k :: k in d ==> d[k] == Attr(u, k)
  {
    map["id" := Str(u.id), "first_name" := Attr(u, "first_name"), "last_name" := Attr(u, "last_name"),
        "email" := Attr(u, "email"), "is_admin" := Attr(u, "is_admin"),
        "created_at" := Int(u.createdAt), "updated_at" := Int(u.updatedAt)]
  }

  /** `to_dict_safe()`: exactly the public identity of the user. */
  function ToDictSafe(u: AppObj): (d: Payload)
    ensures d.Keys == {"id", "first_name", "last_name", "email", "is_admin"}
    ensures forall k :: k in d ==> d[k] == ToDict(u)[k]
  {
    map["id" := Str(u.id), "first_name" := Attr(u, "first_name"), "last_name" := Attr(u, "last_name"),
        "email" := Attr(u, "email"), "is_admin" := Attr(u, "is_admin")]
  }

  // ----- part2/hbnb/app/models/user.py -----

  /** `User(first_name, last_name, email)` of the earlier variant. */
  function NewPart2(firstName: Value, lastName: Value, email: Value, freshId: string, t: nat): (r: Result<AppObj>)
  {
    match CheckIdentity(firstName, lastName, email)
    case Fail(e) => Err(e)
    case Pass => Ok(Build("User", freshId, t, map["first_name" := firstName, "last_name" := lastName, "email" := email]))
  }

  /** The earlier variant accepts exactly the identities the part3 user accepts without
      a password, and its fields are the arguments. */
  lemma {:induction false} Part2Agrees(firstName: Value, lastName: Value, email: Value, freshId: string, t: nat)
    ensures NewPart2(firstName, lastName, email, freshId, t).Ok? <==>
              New(firstName, lastName, email, Null, Bool(false), freshId, t, t).Ok?
    ensures NewPart2(firstName, lastName, email, freshId, t).Ok? ==>
              && NewPart2(firstName, lastName, email, freshId, t).value.attrs.Keys == {"first_name", "last_name", "email"}
              && Attr(NewPart2(firstName, lastName, email, freshId, t).value, "email") == email
  {
  }

  /** The earlier variant's to_dict. */
  function ToDictPart2(u: AppObj): (d: Payload)
    ensures d.Keys == {"id", "first_name", "last_name", "email", "created_at", "updated_at"}
    ensures forall k :: k in d ==> d[k] == Attr(u, k)
  {
    map["id" := Str(u.id), "first_name" := Attr(u, "first_name"), "last_name" := Attr(u, "last_name"),
        "email" := Attr(u, "email"), "created_at" := Int(u.createdAt), "updated_at" := Int(u.updatedAt)]
  }
}
