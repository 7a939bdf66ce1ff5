/** The create/edit form (src/components/UserForm.tsx): its default values,
    the field validation rules, and the form state with its dynamic list of
    skill rows. */
module UserForm {
  import opened UserTypes

  /** `initialData || { firstName: '', lastName: '', email: '', skills: [''] }`. */
  function DefaultValues(initialData: Option<UserFormData>): (v: UserFormData)
    ensures initialData.Some? ==> v == initialData.value
    ensures initialData.None? ==> v.firstName == "" && v.lastName == "" && v.email == "" && v.skills == [""]
  {
    match initialData
    case Some(data) => data
    case None => UserFormData("", "", "", [""])
  }

  // ---------------------------------------------------------------------
  // Validation rules, checked in the order the form library checks them:
  // `required` first, then `minLength` or `pattern`.
  // ---------------------------------------------------------------------

  const FirstNameRequired := "Имя обязательно для заполнения"
  const FirstNameTooShort := "Имя должно содержать минимум 2 символа"
  const LastNameRequired := "Фамилия обязательна для заполнения"
  const LastNameTooShort := "Фамилия должна содержать минимум 2 символа"
  const EmailRequired := "Email обязателен для заполнения"
  const EmailMalformed := "Некорректный формат email"

  /** `required` plus `minLength: 2`. */
  function CheckName(value: string, requiredMessage: string, tooShortMessage: string): (e: Option<string>)
    ensures e.None? <==> |value| >= 2
    ensures e == Some(requiredMessage) <== value == ""
    ensures value != "" && |value| < 2 ==> e == Some(tooShortMessage)
  {
    if value == "" then Some(requiredMessage)
    else if |value| < 2 then Some(tooShortMessage)
    else None
  }

  function ValidateFirstName(value: string): (e: Option<string>)
    ensures e.None? <==> |value| >= 2
  {
    CheckName(value, FirstNameRequired, FirstNameTooShort)
  }

  function ValidateLastName(value: string): (e: Option<string>)
    ensures e.None? <==> |value| >= 2
  {
    CheckName(value, LastNameRequired, LastNameTooShort)
  }

  predicate IsAsciiLetter(c: char) {
    'A' <= c <= 'Z' || 'a' <= c <= 'z'
  }

  predicate IsAsciiDigit(c: char) {
    '0' <= c <= '9'
  }

  /** `[A-Z0-9._%+-]` under the `i` flag. */
  predicate IsLocalChar(c: char) {
    IsAsciiLetter(c) || IsAsciiDigit(c) || c == '.' || c == '_' || c == '%' || c == '+' || c == '-'
  }

  /** `[A-Z0-9.-]` under the `i` flag. */
  predicate IsDomainChar(c: char) {
    IsAsciiLetter(c) || IsAsciiDigit(c) || c == '.' || c == '-'
  }

  predicate AllLocal(s: string) {
    forall i :: 0 <= i < |s| ==> IsLocalChar(s[i])
  }

  predicate AllDomain(s: string) {
    forall i :: 0 <= i < |s| ==> IsDomainChar(s[i])
  }

  predicate AllLetters(s: string) {
    forall i :: 0 <= i < |s| ==> IsAsciiLetter(s[i])
  }

  /** `s` reads as local part, `'@'` at `at`, domain, `'.'` at `dot`, and at
      least two letters up to the end. */
  ghost predicate SplitsAsEmail(s: string, at: int, dot: int) {
    && 0 < at && at + 1 < dot && dot + 2 < |s|
    && s[at] == '@' && s[dot] == '.'
    && AllLocal(s[..at]) && AllDomain(s[at + 1..dot]) && AllLetters(s[dot + 1..])
  }

  /** The whole string matches `/^[A-Z0-9._%+-]+@[A-Z0-9.-]+\.[A-Z]{2,}$/i`. */
  ghost predicate EmailPattern(s: string): (b: bool)
    ensures b ==> |s| >= 6 && '@' in s && '.' in s
  {
    exists at, dot :: SplitsAsEmail(s, at, dot)
  }

  function IndexOf(s: string, c: char): (i: int)
    ensures -1 <= i < |s|
    ensures i == -1 ==> c !in s
    ensures i >= 0 ==> s[i] == c && c !in s[..i]
  {
    if s == [] then -1
    else if s[0] == c then 0
    else
      var j := IndexOf(s[1..], c);
      assert j >= 0 ==> s[..j + 1] == [s[0]] + s[1..][..j];
      if j == -1 then -1 else j + 1
  }

  function LastIndexOf(s: string, c: char): (i: int)
    ensures -1 <= i < |s|
    ensures i == -1 ==> c !in s
    ensures i >= 0 ==> s[i] == c && c !in s[i + 1..]
  {
    if s == [] then -1
    else if s[|s| - 1] == c then |s| - 1
    else
      var j := LastIndexOf(s[..|s| - 1], c);
      assert j >= 0 ==> s[j + 1..] == s[..|s| - 1][j + 1..] + [s[|s| - 1]];
      j
  }

  /** A matcher for the e-mail pattern: the local part ends at the first
      `'@'` and the top-level domain starts after the last `'.'`. */
  function MatchesEmail(s: string): (r: bool)
    ensures r ==> SplitsAsEmail(s, IndexOf(s, '@'), LastIndexOf(s, '.'))
  {
    var at := IndexOf(s, '@');
    var dot := LastIndexOf(s, '.');
    && 0 < at && at + 1 < dot && dot + 2 < |s|
    && AllLocal(s[..at]) && AllDomain(s[at + 1..dot]) && AllLetters(s[dot + 1..])
  }

  /** The matcher accepts exactly the strings the pattern matches. */
  lemma MatchesEmailIffPattern(s: string)
    ensures MatchesEmail(s) <==> EmailPattern(s)
  {
    var at := IndexOf(s, '@');
    var dot := LastIndexOf(s, '.');
    if MatchesEmail(s) {
      assert SplitsAsEmail(s, at, dot);
    }
    if EmailPattern(s) {
      var a, d :| SplitsAsEmail(s, a, d);
      // no '@' before `a` and none before `at`: both are the first '@'
      forall i | 0 <= i < a ensures s[i] != '@' {
        assert s[i] == s[..a][i];
      }
      assert s[a] in s;
      forall i | 0 <= i < at ensures s[i] != '@' {
        assert s[i] == s[..at][i];
      }
      // no '.' after `d` and none after `dot`: both are the last '.'
      forall i | d < i < |s| ensures s[i] != '.' {
        assert s[i] == s[d + 1..][i - d - 1];
      }
      assert s[d] in s;
      forall i | dot < i < |s| ensures s[i] != '.' {
        assert s[i] == s[dot + 1..][i - dot - 1];
      }
      assert at == a && dot == d;
    }
  }

  /** Any string the pattern accepts holds exactly one `'@'` and ends in
      (at least) two letters. */
  lemma EmailShape(s: string)
    requires EmailPattern(s)
    ensures multiset(s)['@'] == 1
    ensures |s| >= 2 && IsAsciiLetter(s[|s| - 1]) && IsAsciiLetter(s[|s| - 2])
  {
    var at, dot :| SplitsAsEmail(s, at, dot);
    var local, domain, top := s[..at], s[at + 1..dot], s[dot + 1..];
    assert s == local + [s[at]] + domain + [s[dot]] + top;
    assert forall i :: 0 <= i < |local| ==> local[i] != '@';
    assert forall i :: 0 <= i < |domain| ==> domain[i] != '@';
    assert forall i :: 0 <= i < |top| ==> top[i] != '@';
    assert multiset(s) == multiset(local) + multiset{'@'} + multiset(domain) + multiset{'.'} + multiset(top);
    assert s[|s| - 1] == top[|top| - 1] && s[|s| - 2] == top[|top| - 2];
  }

  /** `required` plus `pattern`. */
  function ValidateEmail(value: string): (e: Option<string>)
    ensures e.None? <==> EmailPattern(value)
    ensures value == "" ==> e == Some(EmailRequired)
    ensures value != "" && !EmailPattern(value) ==> e == Some(EmailMalformed)
  {
    MatchesEmailIffPattern(value);
    assert value == "" ==> !EmailPattern(value);
    if value == "" then Some(EmailRequired)
    else if !MatchesEmail(value) then Some(EmailMalformed)
    else None
  }

  /** The message shown under each field, if any. */
  datatype FieldErrors = FieldErrors(firstName: Option<string>, lastName: Option<string>, email: Option<string>)

  function Validate(data: UserFormData): (errors: FieldErrors)
    ensures errors == FieldErrors(None, None, None) <==>
      |data.firstName| >= 2 && |data.lastName| >= 2 && EmailPattern(data.email)
  {
    FieldErrors(ValidateFirstName(data.firstName), ValidateLastName(data.lastName), ValidateEmail(data.email))
  }

  // ---------------------------------------------------------------------
  // Form state.
  // ---------------------------------------------------------------------

  datatype TextField = FirstNameField | LastNameField | EmailField

  /** What a press of the submit button does. */
  datatype SubmitOutcome =
    | SubmitDisabled
    | ShowErrors(errors: FieldErrors)
    | Submitted(data: UserFormData)

  /** The form library's state: three text fields and the skill rows. */
  class FormState {
    var firstName: string
    var lastName: string
    var email: string
    var skills: seq<string>

    function Values(): UserFormData
      reads this
    {
      UserFormData(firstName, lastName, email, skills)
    }

    constructor (initialData: Option<UserFormData>)
      ensures Values() == DefaultValues(initialData)
    {
      var v := DefaultValues(initialData);
      firstName, lastName, email, skills := v.firstName, v.lastName, v.email, v.skills;
    }

    /** `reset(data)`: the whole state is overwritten. */
    method Reset(data: UserFormData)
      modifies this
      ensures Values() == data
    {
      firstName, lastName, email, skills := data.firstName, data.lastName, data.email, data.skills;
    }

    /** The effect on `initialData`: reset to it when supplied. */
    method SyncInitialData(initialData: Option<UserFormData>)
      modifies this
      ensures initialData.Some? ==> Values() == initialData.value
      ensures initialData.None? ==> Values() == old(Values())
    {
      if initialData.Some? {
        Reset(initialData.value);
      }
    }

    /** Typing into one of the text inputs. */
    method EditText(field: TextField, value: string)
      modifies this
      ensures field == FirstNameField ==> Values() == old(Values()).(firstName := value)
      ensures field == LastNameField ==> Values() == old(Values()).(lastName := value)
      ensures field == EmailField ==> Values() == old(Values()).(email := value)
    {
      match field
      case FirstNameField => firstName := value;
      case LastNameField => lastName := value;
      case EmailField => email := value;
    }

    /** Typing into skill row `index`. */
    method EditSkill(index: nat, value: string)
      requires index < |skills|
      modifies this
      ensures Values() == old(Values()).(skills := old(skills)[index := value])
    {
      skills := skills[index := value];
    }

    /** `append('')`: one blank row at the end, the others untouched. */
    method AppendSkill()
      modifies this
      ensures Values() == old(Values()).(skills := old(skills) + [""])
      ensures |skills| == old(|skills|) + 1
    {
      skills := skills + [""];
    }

    /** `remove(index)`: the remove button is rendered only while there is
        more than one row, so a row count of at least one survives it. */
    method RemoveSkill(index: nat)
      requires |skills| > 1 && index < |skills|
      modifies this
      ensures Values() == old(Values()).(skills := old(skills)[..index] + old(skills)[index + 1..])
      ensures |skills| == old(|skills|) - 1 >= 1
    {
      skills := skills[..index] + skills[index + 1..];
    }

    /** Pressing submit: disabled while saving; otherwise the values are
        validated and handed on only when every rule passes. */
    method Submit(isLoading: bool) returns (outcome: SubmitOutcome)
      ensures isLoading <==> outcome == SubmitDisabled
      ensures outcome.Submitted? ==> outcome.data == Values()
      ensures outcome.Submitted? <==>
        !isLoading && |firstName| >= 2 && |lastName| >= 2 && EmailPattern(email)
      ensures outcome.ShowErrors? ==> outcome.errors == Validate(Values())
    {
      if isLoading {
        return SubmitDisabled;
      }
      var errors := Validate(Values());
      if errors == FieldErrors(None, None, None) {
        outcome := Submitted(Values());
      } else {
        outcome := ShowErrors(errors);
      }
    }
  }
}
