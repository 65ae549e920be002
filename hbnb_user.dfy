/** User of part3/hbnb/bl/user.py: a dataclass extending BaseModel with email, password,
    first_name and last_name, all "" by default. */
module HbnbUser {
  import opened Common
  import opened HbnbBase

  datatype User = User(base: HBase, email: Value, password: Value, firstName: Value, lastName: Value)

  const UserFields: set<string> := {"email", "password", "first_name", "last_name"}

  /** `User(**kw)`: the generated dataclass __init__. */
  function New(kw: Payload, freshId: string, t1: nat, t2: nat): (r: Result<User>)
    ensures Unexpected(kw, UserFields) ==> r == Err(TypeError(UnexpectedKeyword))
    ensures r.Ok? ==> r.value.email == LookupOr(kw, "email", Str(""))
                      && r.value.password == LookupOr(kw, "password", Str(""))
                      && r.value.firstName == LookupOr(kw, "first_name", Str(""))
                      && r.value.lastName == LookupOr(kw, "last_name", Str(""))
                      && Ok(r.value.base) == BaseFrom(kw, freshId, t1, t2)
  {
    if Unexpected(kw, UserFields) then Err(TypeError(UnexpectedKeyword))
    else
      match BaseFrom(kw, freshId, t1, t2)
      case Err(e) => Err(e)
      case Ok(b) =>
        Ok(User(b, LookupOr(kw, "email", Str("")), LookupOr(kw, "password", Str("")),
                LookupOr(kw, "first_name", Str("")), LookupOr(kw, "last_name", Str(""))))
  }

  const InvalidEmail := "email must be a valid address"
  const PasswordRequired := "password is required"
  const NotIterable := "argument is not iterable"

  /** `"@" in v`: a substring test on a string, a membership test on a list or a dict's
      keys, and a TypeError on anything else. */
  function HasAt(v: Value): (r: Result<bool>)
    ensures v.Str? ==> r == Ok('@' in v.s)
  {
    match v
    case Str(s) => Ok('@' in s)
    case List(items) => Ok(Str("@") in items)
    case Dict(fields) => Ok("@" in fields)
    case _ => Err(TypeError(NotIterable))
  }

  /** User.validate. */
  function Validate(u: User): (r: Outcome)
  {
    if !Truthy(u.email) then Fail(ValueError(InvalidEmail))
    else match HasAt(u.email)
      case Err(e) => Fail(e)
      case Ok(found) =>
        if !found then Fail(ValueError(InvalidEmail))
        else if !Truthy(u.password) then Fail(ValueError(PasswordRequired))
        else Pass
  }

  /** For string fields, validate passes exactly when the email contains '@' and the
      password is non-empty; the email is checked first. */
  lemma ValidateStrings(u: User)
    requires u.email.Str? && u.password.Str?
    ensures Validate(u).Pass? <==> '@' in u.email.s && u.password.s != ""
    ensures '@' !in u.email.s ==> Validate(u) == Fail(ValueError(InvalidEmail))
  {
  }

  /** validate reads neither first_name nor last_name. */
  lemma ValidateIgnoresNames(u: User, first: Value, last: Value)
    ensures Validate(u.(firstName := first, lastName := last)) == Validate(u)
  {
  }

  /** A user built from no arguments fails on its empty email. */
  lemma DefaultUserInvalid(freshId: string, t1: nat, t2: nat)
    ensures New(map[], freshId, t1, t2).Ok?
    ensures Validate(New(map[], freshId, t1, t2).value) == Fail(ValueError(InvalidEmail))
  {
  }

  /** asdict(user): every dataclass field, the password included. */
  function ToDict(u: User): (d: Payload)
    ensures d.Keys == BaseFields + UserFields
    ensures d["id"] == Str(u.base.id) && d["password"] == u.password && d["email"] == u.email
    ensures d["first_name"] == u.firstName && d["last_name"] == u.lastName
    ensures d["created_at"] == u.base.createdAt && d["updated_at"] == u.base.updatedAt
  {
    BaseDict(u.base) + map["email" := u.email, "password" := u.password,
                           "first_name" := u.firstName, "last_name" := u.lastName]
  }

  /** `User(**asdict(u))` gives u back. */
  lemma {:induction false} ToDictRoundTrip(u: User, freshId: string, t1: nat, t2: nat)
    ensures New(ToDict(u), freshId, t1, t2) == Ok(u)
  {
    var extra := map["email" := u.email, "password" := u.password,
                     "first_name" := u.firstName, "last_name" := u.lastName];
    BaseDictRoundTrip(u.base, extra, freshId, t1, t2);
    assert ToDict(u) == BaseDict(u.base) + extra;
  }
}
