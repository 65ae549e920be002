/** User of part3/app_old/models/user.py. The attributes that validate() type-checks
    hold any payload value, as the Python attributes do. */
module OldUser {
  import opened Common
  import opened Email
  import opened OldBase

  datatype User = User(base: Base, email: Value, firstName: Value, lastName: Value, isAdmin: Value)

  /** `v and isinstance(v, str)`: a non-empty string. */
  predicate Given(v: Value)
  {
    v.Str? && v.s != ""
  }

  lemma GivenMeansTruthyString(v: Value)
    ensures Given(v) <==> Truthy(v) && v.Str?
  {
  }

  const FirstNameRequired := "first_name is required and must be a string"
  const LastNameRequired := "last_name is required and must be a string"
  const EmailRequired := "email is required and must be a string"
  const FirstNameTooLong := "first_name must not exceed 50 characters"
  const LastNameTooLong := "last_name must not exceed 50 characters"
  const InvalidEmail := "Invalid email format"
  const IsAdminNotBool := "is_admin must be a boolean"

  /** What a valid user is, with the email format stated as the regular expression's meaning. */
  ghost predicate ValidUser(u: User)
  {
    Given(u.firstName) && Given(u.lastName) && Given(u.email)
    && |u.firstName.s| <= 50 && |u.lastName.s| <= 50
    && StrictEmailSpec(u.email.s)
    && u.isAdmin.Bool?
  }

  /** User.validate: the checks in source order; the first failing one raises. */
  function Validate(u: User): (r: Outcome)
    ensures r.Fail? ==> r.error.ValueError?
  {
    if !Given(u.firstName) then Fail(ValueError(FirstNameRequired))
    else if !Given(u.lastName) then Fail(ValueError(LastNameRequired))
    else if !Given(u.email) then Fail(ValueError(EmailRequired))
    else if |u.firstName.s| > 50 then Fail(ValueError(FirstNameTooLong))
    else if |u.lastName.s| > 50 then Fail(ValueError(LastNameTooLong))
    else if !StrictEmail(u.email.s) then Fail(ValueError(InvalidEmail))
    else if !u.isAdmin.Bool? then Fail(ValueError(IsAdminNotBool))
    else Pass
  }

  /** validate() passes exactly on valid users. */
  lemma {:induction false} ValidateCorrect(u: User)
    ensures Validate(u).Pass? <==> ValidUser(u)
  {
    if Given(u.email) {
      StrictEmailCorrect(u.email.s);
    }
  }

  /** The required-field checks come first, in the order first_name, last_name, email,
      and a name of exactly 50 characters is accepted by the length checks. */
  lemma ValidateOrder(u: User)
    ensures !Given(u.firstName) ==> Validate(u) == Fail(ValueError(FirstNameRequired))
    ensures Given(u.firstName) && !Given(u.lastName) ==> Validate(u) == Fail(ValueError(LastNameRequired))
    ensures Given(u.firstName) && Given(u.lastName) && !Given(u.email) ==> Validate(u) == Fail(ValueError(EmailRequired))
    ensures Validate(u).Pass? ==> |u.firstName.s| <= 50 && |u.lastName.s| <= 50
  {
  }

  /** User.__init__ on a freshly initialised base: assigns the arguments and then
      validates, so an invalid user is never returned. is_admin defaults to False
      at the call sites. */
  function Construct(b: Base, email: Value, firstName: Value, lastName: Value, isAdmin: Value): (r: Result<User>)
    ensures r.Ok? ==> ValidUser(r.value)
    ensures r.Ok? ==> r.value == User(b, email, firstName, lastName, isAdmin)
    ensures r.Err? ==> Validate(User(b, email, firstName, lastName, isAdmin)) == Fail(r.error)
  {
    var u := User(b, email, firstName, lastName, isAdmin);
    ValidateCorrect(u);
    match Validate(u)
    case Pass => Ok(u)
    case Fail(e) => Err(e)
  }

  /** The default of the is_admin parameter. */
  const DefaultIsAdmin: Value := Bool(false)

  const UserKeys: set<string> := {"email", "first_name", "last_name", "is_admin"}

  /** User.to_dict: the base keys extended with email, first_name, last_name and is_admin. */
  function ToDict(u: User): (d: Payload)
    ensures d.Keys == Protected + UserKeys
    ensures d["email"] == u.email && d["first_name"] == u.firstName
    ensures d["last_name"] == u.lastName && d["is_admin"] == u.isAdmin
  {
    BaseDict(u.base) + map["email" := u.email, "first_name" := u.firstName,
                           "last_name" := u.lastName, "is_admin" := u.isAdmin]
  }

  function FromDict(d: Payload): Option<User>
  {
    match BaseFromDict(d)
    case None => None
    case Some(b) =>
      if UserKeys <= d.Keys then Some(User(b, d["email"], d["first_name"], d["last_name"], d["is_admin"]))
      else None
  }

  /** to_dict is lossless. */
  lemma {:induction false} ToDictRoundTrip(u: User)
    ensures FromDict(ToDict(u)) == Some(u)
  {
    var extra := map["email" := u.email, "first_name" := u.firstName,
                     "last_name" := u.lastName, "is_admin" := u.isAdmin];
    BaseDictRoundTrip(u.base, extra);
  }
}
