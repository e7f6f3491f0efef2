/** backend/users/serializers.py: LoginSerializer and RegisterSerializer. The framework's
    own per-field checks (required, blank, e-mail syntax, the model's unique validator) run
    first and are an input here; `authenticate` and `create_user` are oracles: the first is a
    function parameter, the second acts on an abstract user table. */
module UserSerializers {
  import opened Common
  import opened Strings
  import opened Http

  /** Values of a serializer's data dictionary: submitted text, or the user object that
      login validation adds. */
  datatype Value = Text(s: string) | UserValue(id: UserId)

  /** A serializer's `errors`: field name to messages; `validate` reports under
      `non_field_errors`. */
  type ErrorDetail = map<string, seq<string>>

  const NonFieldErrors: string := "non_field_errors"
  const LoginFailedMessage: string := "Unable to log in with provided credentials."
  const EmailTakenMessage: string := "Email already exits"
  const PasswordMismatchMessage: string := "Confirm password does not match with password"

  /** `dict.get(key)`. */
  function Get<V>(data: map<string, V>, key: string): (r: Option<V>)
    ensures r.Some? <==> key in data
    ensures r.Some? ==> r.value == data[key]
  {
    if key in data then Some(data[key]) else None
  }

  /** A `serializers.ValidationError` with its message and code. */
  datatype LoginError = LoginError(message: string, code: string)

  /** `LoginSerializer.validate(data)`. `authenticate` receives `data.get('email')` and
      `data.get('password')` and returns the matching user, if any. */
  function LoginValidate(data: map<string, Value>, authenticate: (Option<Value>, Option<Value>) -> Option<UserId>)
    : (r: Result<map<string, Value>, LoginError>)
    ensures authenticate(Get(data, "email"), Get(data, "password")).None? ==>
      r == Failure(LoginError(LoginFailedMessage, "authorization"))
    ensures authenticate(Get(data, "email"), Get(data, "password")).Some? ==>
      && r.Success?
      && r.value.Keys == data.Keys + {"user"}
      && r.value["user"] == UserValue(authenticate(Get(data, "email"), Get(data, "password")).value)
      && (forall k :: k in data && k != "user" ==> r.value[k] == data[k])
  {
    var user := authenticate(Get(data, "email"), Get(data, "password"));
    if user.None? then Failure(LoginError(LoginFailedMessage, "authorization"))
    else Success(data["user" := UserValue(user.value)])
  }

  /** The declared fields of the two serializers. */
  const LoginFields: set<string> := {"email", "password"}
  const RegisterFields: set<string> := {"email", "first_name", "last_name", "password", "confirm_password"}

  /** What the field named `key` hands on: every field of both serializers is a CharField
      (EmailField is one too) with the default `trim_whitespace=True`, so the submitted text
      loses its surrounding whitespace; an absent key stays absent. */
  function Submitted(payload: map<string, string>, key: string): (r: Option<string>)
    ensures r.Some? <==> key in payload
    ensures r.Some? ==> r.value == Strip(payload[key])
  {
    if key in payload then Some(Strip(payload[key])) else None
  }

  /** The data the declared fields produce: one entry per declared field present in the
      payload, holding its stripped text. */
  function Declared(payload: map<string, string>, fields: set<string>): (data: map<string, Value>)
    ensures data.Keys == payload.Keys * fields
    ensures forall k :: k in data ==> data[k] == Text(Strip(payload[k]))
    ensures forall k :: k in fields ==> Get(data, k) == (if k in payload then Some(Text(Submitted(payload, k).value)) else None)
  {
    map k | k in payload && k in fields :: Text(Strip(payload[k]))
  }

  /** A declared field present in the payload is in the data, with its stripped text. */
  lemma DeclaredField(payload: map<string, string>, fields: set<string>, key: string)
    requires key in payload && key in fields
    ensures key in Declared(payload, fields) && Declared(payload, fields)[key] == Text(Strip(payload[key]))
  {
  }

  /** `LoginSerializer.is_valid()`: framework field errors, or else `validate`, whose
      failure is reported under `non_field_errors`. */
  function LoginIsValid(fieldErrors: ErrorDetail, payload: map<string, string>,
                        authenticate: (Option<Value>, Option<Value>) -> Option<UserId>): (r: Result<map<string, Value>, ErrorDetail>)
    ensures fieldErrors != map[] ==> r == Failure(fieldErrors)
    ensures r.Success? ==> "user" in r.value && r.value["user"].UserValue?
    ensures fieldErrors == map[] && authenticate(Get(Declared(payload, LoginFields), "email"), Get(Declared(payload, LoginFields), "password")).None? ==>
      r == Failure(map[NonFieldErrors := [LoginFailedMessage]])
    ensures fieldErrors == map[] && authenticate(Get(Declared(payload, LoginFields), "email"), Get(Declared(payload, LoginFields), "password")).Some? ==>
      r == Success(Declared(payload, LoginFields)["user" := UserValue(
             authenticate(Get(Declared(payload, LoginFields), "email"), Get(Declared(payload, LoginFields), "password")).value)])
  {
    if fieldErrors != map[] then Failure(fieldErrors)
    else match LoginValidate(Declared(payload, LoginFields), authenticate)
      case Success(data) => Success(data)
      case Failure(e) => Failure(map[NonFieldErrors := [e.message]])
  }

  /** `RegisterSerializer.validate_email(value)`: an address already stored is refused; the
      lookup compares the text exactly as given. */
  function ValidateEmail(emails: set<string>, value: string): (r: Result<string, string>)
    ensures r.Failure? <==> value in emails
    ensures r.Failure? ==> r.error == EmailTakenMessage
    ensures r.Success? ==> r.value == value
  {
    if value in emails then Failure(EmailTakenMessage) else Success(value)
  }

  /** `RegisterSerializer.validate(data)`: the two `get`s are compared as they are, so two
      missing values also match. */
  function ValidatePasswords(data: map<string, Value>): (r: Result<map<string, Value>, string>)
    ensures r.Failure? <==> Get(data, "confirm_password") != Get(data, "password")
    ensures r.Failure? ==> r.error == PasswordMismatchMessage
    ensures r.Success? ==> r.value == data
  {
    if Get(data, "confirm_password") != Get(data, "password") then Failure(PasswordMismatchMessage)
    else Success(data)
  }

  /** `RegisterSerializer.is_valid()`: the field hook `validate_email` runs, on the stripped
      address, when the framework found nothing wrong with the e-mail field; `validate` runs
      only when no field failed. */
  function RegisterIsValid(fieldErrors: ErrorDetail, emails: set<string>, payload: map<string, string>)
    : (r: Result<map<string, Value>, ErrorDetail>)
    requires "email" !in fieldErrors ==> "email" in payload
    ensures "email" !in fieldErrors && Strip(payload["email"]) in emails ==>
      r.Failure? && "email" in r.error && r.error["email"] == [EmailTakenMessage]
    ensures fieldErrors != map[] ==>
      && r.Failure? && fieldErrors.Keys <= r.error.Keys <= fieldErrors.Keys + {"email"}
      && (forall k :: k in fieldErrors ==> r.error[k] == fieldErrors[k])
    ensures r.Success? ==> && r.value == Declared(payload, RegisterFields)
                           && Strip(payload["email"]) !in emails
                           && Submitted(payload, "confirm_password") == Submitted(payload, "password")
    ensures fieldErrors == map[] && Strip(payload["email"]) !in emails ==>
      if Submitted(payload, "confirm_password") == Submitted(payload, "password") then r.Success?
      else r == Failure(map[NonFieldErrors := [PasswordMismatchMessage]])
  {
    var emailErrors: ErrorDetail :=
      if "email" !in fieldErrors && ValidateEmail(emails, Strip(payload["email"])).Failure? then map["email" := [EmailTakenMessage]]
      else map[];
    var errors := fieldErrors + emailErrors;
    if errors != map[] then Failure(errors)
    else
      var data := Declared(payload, RegisterFields);
      assert Get(data, "password") == (if "password" in payload then Some(Text(Submitted(payload, "password").value)) else None);
      assert Get(data, "confirm_password") == (if "confirm_password" in payload then Some(Text(Submitted(payload, "confirm_password").value)) else None);
      match ValidatePasswords(data)
      case Success(d) => Success(d)
      case Failure(msg) => Failure(map[NonFieldErrors := [msg]])
  }

  /** A password typed with trailing whitespace still matches its confirmation typed without
      it (say "pw " and "pw"): both fields strip before `validate` compares them. */
  lemma PaddedPasswordMatches(emails: set<string>, payload: map<string, string>, pad: string)
    requires "email" in payload && Strip(payload["email"]) !in emails
    requires "password" in payload && "confirm_password" in payload
    requires payload["password"] == payload["confirm_password"] + pad
    requires forall k :: 0 <= k < |pad| ==> IsSpace(pad[k])
    requires var c := payload["confirm_password"]; c == [] || (!IsSpace(c[0]) && !IsSpace(c[|c| - 1]))
    ensures RegisterIsValid(map[], emails, payload).Success?
  {
    StripPadded(payload["confirm_password"], pad);
    assert Submitted(payload, "password") == Submitted(payload, "confirm_password");
  }

  /** A stored user as `create_user` leaves it: the password it was given and the remaining
      keyword arguments. Hashing and e-mail normalisation by the manager are not part of
      this model. */
  datatype UserRecord = UserRecord(password: Value, extra: map<string, Value>)

  /** The user table, keyed by e-mail (the model's unique login field). */
  class UserTable {
    var users: map<string, UserRecord>

    constructor (users: map<string, UserRecord>)
      ensures this.users == users
    {
      this.users := users;
    }

    /** `User.objects.create_user(email, password, **extra)`: the unique e-mail column refuses
        a second row for the same address. */
    method CreateUser(email: string, password: Value, extra: map<string, Value>) returns (r: Result<string, Exception>)
      modifies this
      ensures email in old(users) ==> r == Failure(IntegrityError) && users == old(users)
      ensures email !in old(users) ==> r == Success(email) && users == old(users)[email := UserRecord(password, extra)]
    {
      if email in users {
        return Failure(IntegrityError);
      }
      users := users[email := UserRecord(password, extra)];
      return Success(email);
    }
  }

  /** `RegisterSerializer.create(validated_data)`: pops `email`, `password` and
      `confirm_password` (a missing key raises KeyError) and passes the rest to `create_user`.
      The e-mail field always validates to text. */
  method Create(table: UserTable, validatedData: map<string, Value>) returns (r: Result<string, Exception>)
    requires "email" in validatedData ==> validatedData["email"].Text?
    modifies table
    ensures !({"email", "password", "confirm_password"} <= validatedData.Keys) ==>
      r == Failure(KeyError) && table.users == old(table.users)
    ensures {"email", "password", "confirm_password"} <= validatedData.Keys ==>
      (r.Success? <==> validatedData["email"].s !in old(table.users))
    ensures {"email", "password", "confirm_password"} <= validatedData.Keys && validatedData["email"].s in old(table.users) ==>
      r == Failure(IntegrityError) && table.users == old(table.users)
    ensures r.Success? ==>
      && {"email", "password", "confirm_password"} <= validatedData.Keys
      && validatedData["email"] == Text(r.value)
      && r.value !in old(table.users)
      && table.users == old(table.users)[r.value := UserRecord(validatedData["password"], validatedData - {"email", "password", "confirm_password"})]
      && "confirm_password" !in table.users[r.value].extra
  {
    var remaining := validatedData;
    if "email" !in remaining {
      return Failure(KeyError);
    }
    var email := remaining["email"];
    remaining := remaining - {"email"};
    if "password" !in remaining {
      return Failure(KeyError);
    }
    var password := remaining["password"];
    remaining := remaining - {"password"};
    if "confirm_password" !in remaining {
      return Failure(KeyError);
    }
    remaining := remaining - {"confirm_password"};
    assert remaining == validatedData - {"email", "password", "confirm_password"};
    r := table.CreateUser(email.s, password, remaining);
  }
}
