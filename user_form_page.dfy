/** The create/edit page (src/pages/UserFormPage.tsx): which mode the route
    selects, what the page renders, how a submitted form is cleaned and
    dispatched, and what each mutation does to the query cache and the
    location when it settles. */
module UserFormPage {
  import opened UserTypes
  import Api
  import UserForm

  /** `isEditMode = !!id`: an empty route parameter counts as absent. */
  predicate IsEditMode(routeId: Option<string>): (edit: bool)
    ensures routeId.None? || routeId == Some("") ==> !edit
    ensures routeId.Some? && |routeId.value| > 0 ==> edit
  {
    routeId.Some? && routeId.value != ""
  }

  // ---------------------------------------------------------------------
  // `String.prototype.trim` and the blank-skill filter.
  // ---------------------------------------------------------------------

  /** The characters `trim` removes: ECMAScript's WhiteSpace (tab, vertical
      tab, form feed, space, no-break space, byte-order mark and the Zs
      category) and LineTerminator code points. */
  predicate IsJsWhitespace(c: char) {
    || c == '\t' || c == '\n' || c == '\U{000B}' || c == '\U{000C}' || c == '\r' || c == ' '
    || c == '\U{00A0}' || c == '\U{1680}' || ('\U{2000}' <= c <= '\U{200A}')
    || c == '\U{2028}' || c == '\U{2029}' || c == '\U{202F}' || c == '\U{205F}'
    || c == '\U{3000}' || c == '\U{FEFF}'
  }

  predicate IsBlank(s: string) {
    forall i :: 0 <= i < |s| ==> IsJsWhitespace(s[i])
  }

  function TrimStart(s: string): (r: string)
    ensures |r| <= |s| && r == s[|s| - |r|..]
    ensures IsBlank(s[..|s| - |r|])
    ensures r == [] || !IsJsWhitespace(r[0])
  {
    if s != [] && IsJsWhitespace(s[0]) then
      var r := TrimStart(s[1..]);
      assert s[..|s| - |r|] == [s[0]] + s[1..][..|s| - 1 - |r|];
      r
    else s
  }

  function TrimEnd(s: string): (r: string)
    ensures |r| <= |s| && r == s[..|r|]
    ensures IsBlank(s[|r|..])
    ensures r == [] || !IsJsWhitespace(r[|r| - 1])
  {
    if s != [] && IsJsWhitespace(s[|s| - 1]) then
      var r := TrimEnd(s[..|s| - 1]);
      assert s[|r|..] == s[..|s| - 1][|r|..] + [s[|s| - 1]];
      r
    else s
  }

  /** `String.prototype.trim`: what is left is a piece of the input that
      neither starts nor ends with whitespace, and only whitespace was cut
      from either side. */
  function Trim(s: string): (r: string)
    ensures |r| <= |s|
    ensures r == [] || (!IsJsWhitespace(r[0]) && !IsJsWhitespace(r[|r| - 1]))
    ensures IsBlank(s[..|s| - |TrimStart(s)|])
    ensures |r| <= |TrimStart(s)| && r == TrimStart(s)[..|r|] && IsBlank(TrimStart(s)[|r|..])
  {
    TrimEnd(TrimStart(s))
  }

  lemma NotBlankAt(s: string, i: nat)
    requires i < |s| && !IsJsWhitespace(s[i])
    ensures !IsBlank(s)
  {
  }

  /** `s.trim() === ''` exactly when every character of `s` is white space. */
  lemma TrimEmptyIffBlank(s: string)
    ensures Trim(s) == "" <==> IsBlank(s)
  {
    var t := TrimStart(s);
    var k := |s| - |t|;
    if t == [] {
      assert s == s[..k];
    } else {
      assert s[k] == t[0];
      NotBlankAt(s, k);
      NotBlankAt(t, 0);
      assert IsBlank(t[|TrimEnd(t)|..]);
    }
  }

  /** The filter's verdict on one entry, as a sequence of zero or one. */
  function Keep(skill: string): seq<string> {
    if Trim(skill) != "" then [skill] else []
  }

  /** `skills.filter(skill => skill.trim() !== '')`. */
  function FilterSkills(skills: seq<string>): (kept: seq<string>)
    ensures |kept| <= |skills|
    ensures forall k :: 0 <= k < |kept| ==> Trim(kept[k]) != ""
    ensures forall s :: s in kept <==> s in skills && Trim(s) != ""
  {
    if skills == [] then []
    else
      var rest := FilterSkills(skills[1..]);
      assert forall s :: s in skills <==> s == skills[0] || s in skills[1..];
      Keep(skills[0]) + rest
  }

  /** The filter keeps order: filtering a concatenation filters each part. */
  lemma {:induction false} FilterSkillsAppend(a: seq<string>, b: seq<string>)
    ensures FilterSkills(a + b) == FilterSkills(a) + FilterSkills(b)
  {
    if a == [] {
      assert a + b == b;
    } else {
      var x := a[0];
      calc {
        FilterSkills(a + b);
        { assert (a + b)[0] == x && (a + b)[1..] == a[1..] + b; }
        Keep(x) + FilterSkills(a[1..] + b);
        { FilterSkillsAppend(a[1..], b); }
        Keep(x) + (FilterSkills(a[1..]) + FilterSkills(b));
        (Keep(x) + FilterSkills(a[1..])) + FilterSkills(b);
        FilterSkills(a) + FilterSkills(b);
      }
    }
  }

  /** Skills that are all non-blank pass through unchanged (not trimmed). */
  lemma {:induction false} FilterSkillsKeepsNonBlank(skills: seq<string>)
    requires forall k :: 0 <= k < |skills| ==> Trim(skills[k]) != ""
    ensures FilterSkills(skills) == skills
  {
    if skills != [] {
      FilterSkillsKeepsNonBlank(skills[1..]);
    }
  }

  lemma FilterSkillsIdempotent(skills: seq<string>)
    ensures FilterSkills(FilterSkills(skills)) == FilterSkills(skills)
  {
    FilterSkillsKeepsNonBlank(FilterSkills(skills));
  }

  lemma FilterSkillsExample()
    ensures FilterSkills(["", "Go", ""]) == ["Go"]
  {
    assert Trim("") == "";
    assert TrimStart("Go") == "Go";
    assert Trim("Go") == "Go";
    assert ["", "Go", ""][1..] == ["Go", ""];
    assert ["Go", ""][1..] == [""];
    assert [""][1..] == [];
  }

  /** `filteredData`: the submitted form with its blank skills dropped. */
  function FilteredData(data: UserFormData): (d: UserFormData)
    ensures d.firstName == data.firstName && d.lastName == data.lastName && d.email == data.email
    ensures d.skills == FilterSkills(data.skills)
  {
    data.(skills := FilterSkills(data.skills))
  }

  lemma FilteredDataIdempotent(data: UserFormData)
    ensures FilteredData(FilteredData(data)) == FilteredData(data)
  {
    FilterSkillsIdempotent(data.skills);
  }

  // ---------------------------------------------------------------------
  // What the page renders.
  // ---------------------------------------------------------------------

  /** `initialData`, derived from the fetched user. */
  function InitialData(user: Option<User>): (d: Option<UserFormData>)
    ensures d.Some? <==> user.Some?
    ensures d.Some? ==>
      && d.value.firstName == user.value.firstName
      && d.value.lastName == user.value.lastName
      && d.value.email == user.value.email
      && |d.value.skills| >= 1
      && (user.value.skills != [] ==> d.value.skills == user.value.skills)
      && (user.value.skills == [] ==> d.value.skills == [""])
  {
    match user
    case None => None
    case Some(u) =>
      Some(UserFormData(u.firstName, u.lastName, u.email, if |u.skills| > 0 then u.skills else [""]))
  }

  datatype PageView =
    | LoadingUser
    | UserNotFound
    | ShowForm(initialData: Option<UserFormData>)

  /** `isLoadingUser` and `user` are the state of the `['user', id]` query;
      a failed fetch leaves `user` absent. */
  function ChooseView(routeId: Option<string>, isLoadingUser: bool, user: Option<User>): (v: PageView)
    ensures v == LoadingUser <==> IsEditMode(routeId) && isLoadingUser
    ensures v == UserNotFound <==> IsEditMode(routeId) && !isLoadingUser && user.None?
    ensures v.ShowForm? ==> v.initialData == InitialData(user)
    ensures v.ShowForm? && IsEditMode(routeId) ==> v.initialData.Some?
  {
    if IsEditMode(routeId) && isLoadingUser then LoadingUser
    else if IsEditMode(routeId) && user.None? then UserNotFound
    else ShowForm(InitialData(user))
  }

  /** However the page is reached, the form it shows opens with at least
      one skill row. */
  lemma FormOpensWithARow(routeId: Option<string>, isLoadingUser: bool, user: Option<User>)
    requires ChooseView(routeId, isLoadingUser, user).ShowForm?
    ensures |UserForm.DefaultValues(ChooseView(routeId, isLoadingUser, user).initialData).skills| >= 1
  {
  }

  // ---------------------------------------------------------------------
  // Submission and the two mutations.
  // ---------------------------------------------------------------------

  datatype Mutation = CreateMutation(data: UserFormData) | UpdateMutation(data: UserFormData)

  /** `handleSubmit`: the cleaned form goes to update in edit mode and to
      create otherwise. */
  function HandleSubmit(routeId: Option<string>, data: UserFormData): (m: Mutation)
    ensures m.UpdateMutation? <==> IsEditMode(routeId)
    ensures m.data == FilteredData(data)
  {
    if IsEditMode(routeId) then UpdateMutation(FilteredData(data)) else CreateMutation(FilteredData(data))
  }

  const MissingIdMessage := "ID не указан"

  /** A settled mutation: the request it sent (if any), its result, the
      query keys `onSuccess` invalidated and where it navigated. */
  datatype Settled = Settled(
    request: Option<Api.Request>,
    outcome: Result<User>,
    invalidated: seq<QueryKey>,
    navigateTo: Option<string>)

  /** `createMutation`: POST, then on success refresh the list and go home. */
  function RunCreate(data: UserFormData, sentAt: string, response: Api.Response<Api.RawUser>, now: string): (r: Settled)
    requires response.Received? && Api.IsOk(response.status) ==> Api.WellFormedRaw(response.body)
    ensures r.request == Some(Api.CreateUserRequest(data, sentAt))
    ensures r.outcome == Api.CreateUser(response, now)
    ensures r.outcome.Ok? ==> r.invalidated == [UsersKey] && r.navigateTo == Some("/")
    ensures r.outcome.Err? ==> r.invalidated == [] && r.navigateTo == None
  {
    var outcome := Api.CreateUser(response, now);
    Settled(
      Some(Api.CreateUserRequest(data, sentAt)),
      outcome,
      if outcome.Ok? then [UsersKey] else [],
      if outcome.Ok? then Some("/") else None)
  }

  /** `updateMutation`: fails before any request without a route id;
      otherwise PUT to `Number(id)`, and on success refresh the list and the
      record's own entry and go home. */
  function RunUpdate(routeId: Option<string>, data: UserFormData, response: Api.Response<Api.RawUser>, now: string): (r: Settled)
    requires IsEditMode(routeId) ==> Api.IsDigits(routeId.value)
    requires response.Received? && Api.IsOk(response.status) ==> Api.WellFormedRaw(response.body)
    ensures !IsEditMode(routeId) ==> r.request == None && r.outcome == Err(ApiError(MissingIdMessage))
    ensures IsEditMode(routeId) ==>
      r.request == Some(Api.UpdateUserRequest(Api.ParseDecimal(routeId.value), data)) &&
      r.outcome == Api.UpdateUser(response, now)
    ensures r.outcome.Ok? ==> r.invalidated == [UsersKey, UserKey(routeId)] && r.navigateTo == Some("/")
    ensures r.outcome.Err? ==> r.invalidated == [] && r.navigateTo == None
  {
    if !IsEditMode(routeId) then
      Settled(None, Err(ApiError(MissingIdMessage)), [], None)
    else
      var outcome := Api.UpdateUser(response, now);
      Settled(
        Some(Api.UpdateUserRequest(Api.ParseDecimal(routeId.value), data)),
        outcome,
        if outcome.Ok? then [UsersKey, UserKey(routeId)] else [],
        if outcome.Ok? then Some("/") else None)
  }

  /** A submit from start to settlement. */
  function Submit(routeId: Option<string>, data: UserFormData, sentAt: string,
                  response: Api.Response<Api.RawUser>, now: string): (r: Settled)
    requires IsEditMode(routeId) ==> Api.IsDigits(routeId.value)
    requires response.Received? && Api.IsOk(response.status) ==> Api.WellFormedRaw(response.body)
    ensures IsEditMode(routeId) ==> r == RunUpdate(routeId, FilteredData(data), response, now)
    ensures !IsEditMode(routeId) ==> r == RunCreate(FilteredData(data), sentAt, response, now)
  {
    match HandleSubmit(routeId, data)
    case CreateMutation(d) => RunCreate(d, sentAt, response, now)
    case UpdateMutation(d) => RunUpdate(routeId, d, response, now)
  }

  /** A submit sends the filtered skills; it leaves the page (to `/`) exactly
      when the store accepted it; the list is refreshed after every success
      and the record's own entry only after an edit. A create is never
      refused for a missing id. */
  lemma SubmitEffects(routeId: Option<string>, data: UserFormData, sentAt: string,
                      response: Api.Response<Api.RawUser>, now: string)
    requires IsEditMode(routeId) ==> Api.IsDigits(routeId.value)
    requires response.Received? && Api.IsOk(response.status) ==> Api.WellFormedRaw(response.body)
    ensures var r := Submit(routeId, data, sentAt, response, now);
      && r.request.Some?
      && r.request.value.body.value.skills == FilterSkills(data.skills)
      && (r.navigateTo.Some? <==> response.Received? && Api.IsOk(response.status))
      && (r.navigateTo.Some? ==> r.navigateTo == Some("/") && UsersKey in r.invalidated)
      && (UserKey(routeId) in r.invalidated <==> IsEditMode(routeId) && r.outcome.Ok?)
  {
  }
}
