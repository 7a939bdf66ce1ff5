/** The REST adapter (src/services/api.ts): the requests it sends, the
    normalisation of the records the store returns, and the way every
    endpoint turns an HTTP status into a value, an absent value or an error.

    The network is not modelled: a response is an input, either a received
    status with its decoded body or a rejection of the `fetch`/`json()`
    promise. The clock is an input too (`now`, `sentAt`). */
module Api {
  import opened UserTypes

  // ---------------------------------------------------------------------
  // Decimal numbers, as `parseInt(text, 10)` reads them and as a template
  // literal `${n}` writes them.
  // ---------------------------------------------------------------------

  predicate IsDigit(c: char) {
    '0' <= c <= '9'
  }

  /** A non-empty string of decimal digits: the ids this model parses. */
  predicate IsDigits(s: string) {
    |s| > 0 && forall i :: 0 <= i < |s| ==> IsDigit(s[i])
  }

  function DigitValue(c: char): (d: nat)
    requires IsDigit(c)
    ensures d < 10
  {
    (c as int) - ('0' as int)
  }

  function DigitChar(d: nat): (c: char)
    requires d < 10
    ensures IsDigit(c) && DigitValue(c) == d
  {
    (('0' as int) + d) as char
  }

  /** The value of a digit string, most significant digit first. */
  function ParseDecimal(s: string): (n: nat)
    requires IsDigits(s)
    ensures n % 10 == DigitValue(s[|s| - 1])
    ensures |s| > 1 && s[0] == '0' ==> n == ParseDecimal(s[1..])
    decreases |s|
  {
    if |s| == 1 then DigitValue(s[0])
    else
      var init := s[..|s| - 1];
      assert |s| > 2 ==> s[1..][..|s| - 2] == init[1..];
      10 * ParseDecimal(init) + DigitValue(s[|s| - 1])
  }

  /** The shortest decimal spelling of `n`: digits only, no leading zero. */
  function ShowDecimal(n: nat): (s: string)
    ensures IsDigits(s)
    ensures s[0] == '0' ==> n == 0
    decreases n
  {
    if n < 10 then [DigitChar(n)] else ShowDecimal(n / 10) + [DigitChar(n % 10)]
  }

  /** `${n}` for any integer. */
  function ShowInt(n: int): (s: string)
    ensures |s| > 0
    ensures n >= 0 ==> s == ShowDecimal(n)
    ensures n < 0 ==> s == "-" + ShowDecimal(-n)
  {
    if n < 0 then "-" + ShowDecimal(-n) else ShowDecimal(n)
  }

  /** Reading back what `ShowDecimal` writes gives the number again. */
  lemma {:induction false} ParseShowDecimal(n: nat)
    ensures ParseDecimal(ShowDecimal(n)) == n
    decreases n
  {
    var s := ShowDecimal(n);
    if n >= 10 {
      ParseShowDecimal(n / 10);
      assert s[..|s| - 1] == ShowDecimal(n / 10);
    }
  }

  // ---------------------------------------------------------------------
  // Records as the store returns them, and their normalisation.
  // ---------------------------------------------------------------------

  /** The store's `id`: a string or a number. */
  datatype RawId = StringId(text: string) | NumberId(number: int)

  /** The store's `skills`: an array (`Array.isArray` holds) or anything else. */
  datatype RawSkills = SkillsArray(items: seq<string>) | NotAnArray

  /** A record as decoded from the store's JSON. An absent (or null)
      optional timestamp is `None`. */
  datatype RawUser = RawUser(
    id: RawId,
    firstName: string,
    lastName: string,
    email: string,
    skills: RawSkills,
    registrationDate: Option<string>,
    createdAt: Option<string>)

  /** The records whose id `parseInt` reads as a whole: numeric ids, or
      string ids made of decimal digits. */
  predicate WellFormedRaw(raw: RawUser) {
    raw.id.StringId? ==> IsDigits(raw.id.text)
  }

  /** JavaScript truthiness of an optional string: present and not `""`. */
  predicate Truthy(v: Option<string>): (t: bool)
    ensures v.None? || v == Some("") ==> !t
    ensures t <== v.Some? && |v.value| > 0
  {
    v.Some? && v.value != ""
  }

  /** `transformUser`: the canonical record for a raw one, `now` being the
      ISO text of the clock at the moment of the call. */
  function TransformUser(raw: RawUser, now: string): (u: User)
    requires WellFormedRaw(raw)
    ensures raw.id.NumberId? ==> u.id == raw.id.number
    ensures raw.id.StringId? ==> u.id == ParseDecimal(raw.id.text)
    ensures u.firstName == raw.firstName && u.lastName == raw.lastName && u.email == raw.email
    ensures raw.skills.SkillsArray? ==> u.skills == raw.skills.items
    ensures raw.skills.NotAnArray? ==> u.skills == []
    ensures Truthy(raw.registrationDate) ==> u.registrationDate == raw.registrationDate.value
    ensures !Truthy(raw.registrationDate) && Truthy(raw.createdAt) ==> u.registrationDate == raw.createdAt.value
    ensures !Truthy(raw.registrationDate) && !Truthy(raw.createdAt) ==> u.registrationDate == now
  {
    User(
      match raw.id
      case StringId(text) => ParseDecimal(text)
      case NumberId(number) => number,
      raw.firstName,
      raw.lastName,
      raw.email,
      match raw.skills
      case SkillsArray(items) => items
      case NotAnArray => [],
      if Truthy(raw.registrationDate) then raw.registrationDate.value
      else if Truthy(raw.createdAt) then raw.createdAt.value
      else now)
  }

  /** A string id that is the decimal spelling of `n` normalises to `n`. */
  lemma TransformParsesStringId(raw: RawUser, now: string, n: nat)
    requires raw.id == StringId(ShowDecimal(n))
    ensures TransformUser(raw, now).id == n
  {
    ParseShowDecimal(n);
  }

  /** The canonical registration date is never empty while the clock's
      text is not, and it is always one of the three candidates. */
  lemma RegistrationDateAlwaysSet(raw: RawUser, now: string)
    requires WellFormedRaw(raw)
    ensures var d := TransformUser(raw, now).registrationDate;
      (now != "" ==> d != "") &&
      (d == now || Some(d) == raw.registrationDate || Some(d) == raw.createdAt)
  {
  }

  // ---------------------------------------------------------------------
  // Requests.
  // ---------------------------------------------------------------------

  datatype HttpMethod = Get | Post | Put | Delete

  /** A JSON request body. `registrationDate` is `None` when the body has
      no such key. */
  datatype RequestBody = RequestBody(
    firstName: string,
    lastName: string,
    email: string,
    skills: seq<string>,
    registrationDate: Option<string>)

  /** A request to the store; `path` is relative to the store's base URL
      (`""` is the collection, `"/12"` one record). */
  datatype Request = Request(verb: HttpMethod, path: string, body: Option<RequestBody>)

  /** `/${id}`: a slash, then the id's decimal spelling. */
  function RecordPath(id: int): (p: string)
    ensures |p| >= 2 && p[0] == '/'
    ensures id >= 0 ==> IsDigits(p[1..]) && ParseDecimal(p[1..]) == id
    ensures id < 0 ==> p[1] == '-' && IsDigits(p[2..]) && ParseDecimal(p[2..]) == -id
  {
    ParseShowDecimal(if id < 0 then -id else id);
    var p := "/" + ShowInt(id);
    assert id >= 0 ==> p[1..] == ShowDecimal(id);
    assert id < 0 ==> p[2..] == ShowDecimal(-id);
    p
  }

  /** Two ids share a record path only when they are the same id. */
  lemma RecordPathInjective(a: int, b: int)
    requires RecordPath(a) == RecordPath(b)
    ensures a == b
  {
  }

  /** `getAllUsers` GETs the collection. */
  function GetAllUsersRequest(): (r: Request)
    ensures r.verb == Get && r.path == "" && r.body.None?
  {
    Request(Get, "", None)
  }

  /** `getUserById` GETs the record's path, with no body. */
  function GetUserByIdRequest(id: int): (r: Request)
    ensures r.verb == Get && r.path == RecordPath(id) && r.body.None?
  {
    Request(Get, RecordPath(id), None)
  }

  /** `createUser` POSTs the form fields plus the client's clock as the
      registration date. */
  function CreateUserRequest(data: UserFormData, sentAt: string): (r: Request)
    ensures r.verb == Post && r.path == "" && r.body.Some?
    ensures r.body.value.firstName == data.firstName && r.body.value.lastName == data.lastName
    ensures r.body.value.email == data.email && r.body.value.skills == data.skills
    ensures r.body.value.registrationDate == Some(sentAt)
  {
    Request(Post, "", Some(RequestBody(data.firstName, data.lastName, data.email, data.skills, Some(sentAt))))
  }

  /** `updateUser` PUTs the form fields only; the stored registration date
      is not sent. */
  function UpdateUserRequest(id: int, data: UserFormData): (r: Request)
    ensures r.verb == Put && r.path == RecordPath(id) && r.body.Some?
    ensures r.body.value.firstName == data.firstName && r.body.value.lastName == data.lastName
    ensures r.body.value.email == data.email && r.body.value.skills == data.skills
    ensures r.body.value.registrationDate.None?
  {
    Request(Put, RecordPath(id), Some(RequestBody(data.firstName, data.lastName, data.email, data.skills, None)))
  }

  /** `deleteUser` DELETEs the record's path, with no body. */
  function DeleteUserRequest(id: int): (r: Request)
    ensures r.verb == Delete && r.path == RecordPath(id) && r.body.None?
  {
    Request(Delete, RecordPath(id), None)
  }

  /** The collection requests and the single-record requests never share a
      path; the record requests for one id all address that record and no
      other id's. */
  lemma RequestsAddressTheirRecord(id: int, other: int, data: UserFormData, sentAt: string)
    ensures GetAllUsersRequest().path == CreateUserRequest(data, sentAt).path
    ensures GetAllUsersRequest().path != GetUserByIdRequest(id).path
    ensures GetUserByIdRequest(id).path == UpdateUserRequest(id, data).path == DeleteUserRequest(id).path
    ensures other != id ==> GetUserByIdRequest(other).path != GetUserByIdRequest(id).path
  {
    if other != id && RecordPath(other) == RecordPath(id) {
      RecordPathInjective(other, id);
    }
  }

  /** The two request bodies differ exactly in the registration date. */
  lemma CreateAndUpdateBodiesDiffer(id: int, data: UserFormData, sentAt: string)
    ensures CreateUserRequest(data, sentAt).body.value.(registrationDate := None)
         == UpdateUserRequest(id, data).body.value
  {
  }

  // ---------------------------------------------------------------------
  // Responses and the outcome of each endpoint.
  // ---------------------------------------------------------------------

  /** What a `throw` inside the adapter's `try` can carry. */
  datatype Thrown = ErrorObject(message: string) | NonErrorValue

  /** What the awaited `fetch` (and, on success, `response.json()`) gave:
      a status with the decoded body, or a rejection. */
  datatype Response<T> = Received(status: nat, body: T) | Rejected(reason: Thrown)

  /** `response.ok`: the status is in the 2xx class. */
  predicate IsOk(status: nat): (ok: bool)
    ensures ok <==> status / 100 == 2
  {
    200 <= status <= 299
  }

  const ApiPrefix := "Ошибка API: "
  const NotFoundMessage := "Пользователь не найден"
  const UnknownErrorMessage := "Произошла неизвестная ошибка при обращении к API"

  const HttpErrorPrefix := "HTTP error! status: "

  /** `HTTP error! status: ${response.status}`: the status can be read back
      from the message. */
  function HttpErrorMessage(status: nat): (m: string)
    ensures |m| > |HttpErrorPrefix| && m[..|HttpErrorPrefix|] == HttpErrorPrefix
    ensures IsDigits(m[|HttpErrorPrefix|..]) && ParseDecimal(m[|HttpErrorPrefix|..]) == status
  {
    ParseShowDecimal(status);
    var m := HttpErrorPrefix + ShowDecimal(status);
    assert m[|HttpErrorPrefix|..] == ShowDecimal(status);
    m
  }

  /** The adapter's `catch`: an `Error` is rethrown with the API prefix,
      anything else becomes the fixed unknown-error message. */
  function Rethrow(t: Thrown): (e: ApiError)
    ensures t.ErrorObject? ==> e.message == ApiPrefix + t.message
    ensures t.NonErrorValue? ==> e.message == UnknownErrorMessage
  {
    match t
    case ErrorObject(m) => ApiError(ApiPrefix + m)
    case NonErrorValue => ApiError(UnknownErrorMessage)
  }

  /** The shape of every error the adapter lets out. */
  ghost predicate AdapterError(e: ApiError) {
    e.message == UnknownErrorMessage ||
    (|e.message| >= |ApiPrefix| && e.message[..|ApiPrefix|] == ApiPrefix)
  }

  predicate BodyWellFormed(records: seq<RawUser>) {
    forall i :: 0 <= i < |records| ==> WellFormedRaw(records[i])
  }

  /** `getAllUsers`: every record normalised, in order, on a 2xx status. */
  function GetAllUsers(response: Response<seq<RawUser>>, now: string): (r: Result<seq<User>>)
    requires response.Received? && IsOk(response.status) ==> BodyWellFormed(response.body)
    ensures r.Ok? <==> response.Received? && IsOk(response.status)
    ensures r.Ok? ==> |r.value| == |response.body|
    ensures r.Ok? ==> forall i :: 0 <= i < |r.value| ==> r.value[i] == TransformUser(response.body[i], now)
    ensures response.Received? && !IsOk(response.status) ==>
      r.error.message == ApiPrefix + HttpErrorMessage(response.status)
    ensures response.Rejected? ==> r.error == Rethrow(response.reason)
  {
    match response
    case Rejected(reason) => Err(Rethrow(reason))
    case Received(status, records) =>
      if !IsOk(status) then Err(Rethrow(ErrorObject(HttpErrorMessage(status))))
      else Ok(seq(|records|, i requires 0 <= i < |records| => TransformUser(records[i], now)))
  }

  /** `getUserById`: a 404 is an absent user, not an error. */
  function GetUserById(response: Response<RawUser>, now: string): (r: Result<Option<User>>)
    requires response.Received? && IsOk(response.status) ==> WellFormedRaw(response.body)
    ensures r == Ok(None) <==> response.Received? && response.status == 404
    ensures r.Ok? && r.value.Some? <==> response.Received? && IsOk(response.status)
    ensures r.Ok? && r.value.Some? ==> r.value.value == TransformUser(response.body, now)
    ensures response.Received? && response.status != 404 && !IsOk(response.status) ==>
      r.error.message == ApiPrefix + HttpErrorMessage(response.status)
    ensures response.Rejected? ==> r.error == Rethrow(response.reason)
  {
    match response
    case Rejected(reason) => Err(Rethrow(reason))
    case Received(status, record) =>
      if status == 404 then Ok(None)
      else if !IsOk(status) then Err(Rethrow(ErrorObject(HttpErrorMessage(status))))
      else Ok(Some(TransformUser(record, now)))
  }

  /** `createUser`: the stored record normalised, on a 2xx status. */
  function CreateUser(response: Response<RawUser>, now: string): (r: Result<User>)
    requires response.Received? && IsOk(response.status) ==> WellFormedRaw(response.body)
    ensures r.Ok? <==> response.Received? && IsOk(response.status)
    ensures r.Ok? ==> r.value == TransformUser(response.body, now)
    ensures response.Received? && !IsOk(response.status) ==>
      r.error.message == ApiPrefix + HttpErrorMessage(response.status)
    ensures response.Rejected? ==> r.error == Rethrow(response.reason)
  {
    match response
    case Rejected(reason) => Err(Rethrow(reason))
    case Received(status, record) =>
      if !IsOk(status) then Err(Rethrow(ErrorObject(HttpErrorMessage(status))))
      else Ok(TransformUser(record, now))
  }

  /** `updateUser`: a 404 fails with the not-found message, any other
      non-2xx status with the HTTP status message, both prefixed. */
  function UpdateUser(response: Response<RawUser>, now: string): (r: Result<User>)
    requires response.Received? && IsOk(response.status) ==> WellFormedRaw(response.body)
    ensures r.Ok? <==> response.Received? && IsOk(response.status)
    ensures r.Ok? ==> r.value == TransformUser(response.body, now)
    ensures response.Received? && response.status == 404 ==>
      r.error.message == ApiPrefix + NotFoundMessage
    ensures response.Received? && response.status != 404 && !IsOk(response.status) ==>
      r.error.message == ApiPrefix + HttpErrorMessage(response.status)
    ensures response.Rejected? ==> r.error == Rethrow(response.reason)
  {
    match response
    case Rejected(reason) => Err(Rethrow(reason))
    case Received(status, record) =>
      if status == 404 then Err(Rethrow(ErrorObject(NotFoundMessage)))
      else if !IsOk(status) then Err(Rethrow(ErrorObject(HttpErrorMessage(status))))
      else Ok(TransformUser(record, now))
  }

  /** `deleteUser`: no body is read; same error mapping as `updateUser`. */
  function DeleteUser(response: Response<()>): (r: Result<()>)
    ensures r.Ok? <==> response.Received? && IsOk(response.status)
    ensures response.Received? && response.status == 404 ==>
      r.error.message == ApiPrefix + NotFoundMessage
    ensures response.Received? && response.status != 404 && !IsOk(response.status) ==>
      r.error.message == ApiPrefix + HttpErrorMessage(response.status)
    ensures response.Rejected? ==> r.error == Rethrow(response.reason)
  {
    match response
    case Rejected(_) => Err(Rethrow(response.reason))
    case Received(status, _) =>
      if status == 404 then Err(Rethrow(ErrorObject(NotFoundMessage)))
      else if !IsOk(status) then Err(Rethrow(ErrorObject(HttpErrorMessage(status))))
      else Ok(())
  }

  lemma PrefixedIsAdapterError(m: string)
    ensures AdapterError(ApiError(ApiPrefix + m))
  {
    assert (ApiPrefix + m)[..|ApiPrefix|] == ApiPrefix;
  }

  /** Every failure of every endpoint has the adapter's one error shape:
      no raw transport error escapes. */
  lemma {:induction false} EndpointErrorsAreWrapped(
    all: Response<seq<RawUser>>, one: Response<RawUser>, gone: Response<()>, now: string)
    requires all.Received? && IsOk(all.status) ==> BodyWellFormed(all.body)
    requires one.Received? && IsOk(one.status) ==> WellFormedRaw(one.body)
    ensures GetAllUsers(all, now).Err? ==> AdapterError(GetAllUsers(all, now).error)
    ensures GetUserById(one, now).Err? ==> AdapterError(GetUserById(one, now).error)
    ensures CreateUser(one, now).Err? ==> AdapterError(CreateUser(one, now).error)
    ensures UpdateUser(one, now).Err? ==> AdapterError(UpdateUser(one, now).error)
    ensures DeleteUser(gone).Err? ==> AdapterError(DeleteUser(gone).error)
  {
    if all.Rejected? { RethrowIsAdapterError(all.reason); }
    else { RethrowIsAdapterError(ErrorObject(HttpErrorMessage(all.status))); }
    if one.Rejected? { RethrowIsAdapterError(one.reason); }
    else {
      RethrowIsAdapterError(ErrorObject(HttpErrorMessage(one.status)));
      RethrowIsAdapterError(ErrorObject(NotFoundMessage));
    }
    if gone.Rejected? { RethrowIsAdapterError(gone.reason); }
    else {
      RethrowIsAdapterError(ErrorObject(HttpErrorMessage(gone.status)));
      RethrowIsAdapterError(ErrorObject(NotFoundMessage));
    }
  }

  /** Whatever was thrown, the `catch` lets out an error of the adapter's
      shape. */
  lemma RethrowIsAdapterError(t: Thrown)
    ensures AdapterError(Rethrow(t))
  {
    if t.ErrorObject? {
      PrefixedIsAdapterError(t.message);
    }
  }
}
