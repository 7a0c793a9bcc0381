/** The contact form of the portfolio: four text fields, a per-field error
    map filled by validation, and the submission flags `isSubmitting` and
    `submitSuccess`. Validation is a pure function of the fields; the form
    object changes step by step under field edits, submission, completion of
    the simulated send and dismissal of the success banner. */
module Contact {
  import opened JsString

  datatype Field = Name | Email | Subject | Message

  /** The `formData` record. */
  datatype FormData = FormData(name: string, email: string, subject: string, message: string)
  {
    /** The value of input `k`, as `formData[k]`. */
    function Get(k: Field): string {
      match k
      case Name => name
      case Email => email
      case Subject => subject
      case Message => message
    }

    /** `{...formData, [k]: v}`: field `k` becomes `v`, the others stay. */
    function Set(k: Field, v: string): (r: FormData)
      ensures r.Get(k) == v
      ensures forall j :: j != k ==> r.Get(j) == Get(j)
    {
      match k
      case Name => this.(name := v)
      case Email => this.(email := v)
      case Subject => this.(subject := v)
      case Message => this.(message := v)
    }
  }

  const EmptyForm := FormData("", "", "", "")

  const NameRequired := "Name is required"
  const EmailRequired := "Email is required"
  const EmailInvalid := "Email is invalid"
  const MessageRequired := "Message is required"
  const MessageTooShort := "Message must be at least 10 characters"
  const MinMessageLength := 10

  /** `!s.trim()`: the trimmed value is the empty, falsy string. */
  predicate Blank(s: string) {
    Trim(s) == []
  }

  /** `/\S+@\S+\.\S+/.test(s)`, unanchored. Because `\S` also matches `@` and
      `.`, a match exists iff there is an `@` at `p` and a `.` at `q` with one
      non-space character before `p`, a non-empty run of non-space characters
      strictly between them, and one non-space character after `q`. */
  predicate EmailPatternMatches(s: string)
    ensures EmailPatternMatches(s) ==> 5 <= |s|
  {
    exists p, q | 0 <= p < |s| && 0 <= q < |s| :: EmailMatchAt(s, p, q)
  }

  /** The `@` at `p` and the `.` at `q` are the anchors of a match. */
  predicate EmailMatchAt(s: string, p: int, q: int) {
    && 1 <= p && p + 2 <= q && q + 1 < |s|
    && s[p] == '@' && s[q] == '.'
    && !IsWhitespace(s[p - 1])
    && (forall k | p < k < q :: !IsWhitespace(s[k]))
    && !IsWhitespace(s[q + 1])
  }

  /** Positions [lo, hi) hold a non-empty run of non-space characters: `\S+`. */
  ghost predicate NonSpaceRun(s: string, lo: int, hi: int) {
    0 <= lo < hi <= |s| && forall k | lo <= k < hi :: !IsWhitespace(s[k])
  }

  /** The regular expression matches `s[a..e]` with its `@` at `p` and its `.` at `q`. */
  ghost predicate RegexMatchAt(s: string, a: int, p: int, q: int, e: int) {
    && NonSpaceRun(s, a, p) && 0 <= p < |s| && s[p] == '@'
    && NonSpaceRun(s, p + 1, q) && 0 <= q < |s| && s[q] == '.'
    && NonSpaceRun(s, q + 1, e)
  }

  /** The direct reading of `test`: some substring matches the whole pattern. */
  ghost predicate RegexTest(s: string) {
    exists a, p, q, e :: RegexMatchAt(s, a, p, q, e)
  }

  /** The position predicate is exactly the regular expression's search. */
  lemma EmailPatternIsRegexSearch(s: string)
    ensures EmailPatternMatches(s) <==> RegexTest(s)
  {
    if EmailPatternMatches(s) {
      var p, q :| 0 <= p < |s| && 0 <= q < |s| && EmailMatchAt(s, p, q);
      assert RegexMatchAt(s, p - 1, p, q, q + 2);
    }
    if RegexTest(s) {
      var a, p, q, e :| RegexMatchAt(s, a, p, q, e);
      assert !IsWhitespace(s[p - 1]) && !IsWhitespace(s[q + 1]);
      assert EmailMatchAt(s, p, q);
    }
  }

  /** `validateForm`'s `newErrors`: each field is checked on its own and
      every applicable message is collected; `subject` is never checked. */
  function Validate(f: FormData): (errors: map<Field, string>)
    ensures Name in errors <==> Blank(f.name)
    ensures Email in errors <==> Blank(f.email) || !EmailPatternMatches(f.email)
    ensures Message in errors <==> Blank(f.message) || Utf16Length(Trim(f.message)) < MinMessageLength
    ensures Subject !in errors
    ensures Name in errors ==> errors[Name] == NameRequired
    ensures Email in errors ==> errors[Email] == (if Blank(f.email) then EmailRequired else EmailInvalid)
    ensures Message in errors ==>
      errors[Message] == (if Blank(f.message) then MessageRequired else MessageTooShort)
  {
    var nameErrors: map<Field, string> :=
      if Blank(f.name) then map[Name := NameRequired] else map[];
    var emailErrors: map<Field, string> :=
      if Blank(f.email) then nameErrors[Email := EmailRequired]
      else if !EmailPatternMatches(f.email) then nameErrors[Email := EmailInvalid]
      else nameErrors;
    if Blank(f.message) then emailErrors[Message := MessageRequired]
    else if Utf16Length(Trim(f.message)) < MinMessageLength then emailErrors[Message := MessageTooShort]
    else emailErrors
  }

  /** The messages validation can produce. */
  const ErrorMessages: set<string> :=
    {NameRequired, EmailRequired, EmailInvalid, MessageRequired, MessageTooShort}

  /** `validateForm` returns true iff no error was collected, that is iff the
      name is not blank, the email matches the pattern and the trimmed
      message is at least 10 code units long. */
  lemma ValidIff(f: FormData)
    ensures Validate(f) == map[] <==>
      !Blank(f.name) && EmailPatternMatches(f.email) && Utf16Length(Trim(f.message)) >= MinMessageLength
  {
    var v := Validate(f);
    if !Blank(f.name) && EmailPatternMatches(f.email) && Utf16Length(Trim(f.message)) >= MinMessageLength {
      forall k: Field ensures k !in v {
        match k
        case Name =>
        case Email => MatchIsNotBlank(f.email);
        case Subject =>
        case Message =>
      }
      assert v.Keys == {};
    }
  }

  /** A string the pattern matches holds a non-space `@`, so it is not blank. */
  lemma MatchIsNotBlank(s: string)
    requires EmailPatternMatches(s)
    ensures !Blank(s)
  {
    var p, q :| 0 <= p < |s| && 0 <= q < |s| && EmailMatchAt(s, p, q);
    BlankIffAllWhitespace(s);
    assert !IsWhitespace(s[p]);
  }

  /** Because a matching email is never blank, the email has an error iff it
      does not match, and the "invalid" message goes exactly to non-blank
      emails without a match. */
  lemma EmailErrorIff(f: FormData)
    ensures Email in Validate(f) <==> !EmailPatternMatches(f.email)
    ensures (Email in Validate(f) && Validate(f)[Email] == EmailInvalid) <==>
      !Blank(f.email) && !EmailPatternMatches(f.email)
  {
    if EmailPatternMatches(f.email) {
      MatchIsNotBlank(f.email);
    }
  }

  /** The too-short message is given iff the trimmed length is 1 to 9; a
      blank message is told it is required, never that it is too short. */
  lemma MessageTooShortIff(f: FormData)
    ensures (Message in Validate(f) && Validate(f)[Message] == MessageTooShort) <==>
      1 <= Utf16Length(Trim(f.message)) < MinMessageLength
    ensures Blank(f.message) ==> Validate(f)[Message] == MessageRequired
  {
  }

  /** Every collected error is one of the five fixed, non-empty messages. */
  lemma ErrorsAreKnownMessages(f: FormData)
    ensures forall k | k in Validate(f) :: Validate(f)[k] in ErrorMessages && Validate(f)[k] != ""
  {
  }

  /** Text that neither starts nor ends with white space is its own trim. */
  lemma TrimOfUnpadded(s: string)
    requires s != [] && !IsWhitespace(s[0]) && !IsWhitespace(s[|s| - 1])
    ensures Trim(s) == s
  {
    assert TrimStart(s) == s;
  }

  /** When only the name fails its check, the name error is the only one. */
  lemma OnlyNameMissing(f: FormData)
    requires Blank(f.name) && EmailPatternMatches(f.email)
    requires Utf16Length(Trim(f.message)) >= MinMessageLength
    ensures Validate(f) == map[Name := NameRequired]
  {
    MatchIsNotBlank(f.email);
    var v := Validate(f);
    assert v.Keys == {Name} by {
      forall k: Field ensures k in v <==> k == Name {
        match k
        case Name =>
        case Email =>
        case Subject =>
        case Message =>
      }
    }
  }

  /** A missing name with otherwise good input yields exactly the name error. */
  lemma MissingNameScenario()
    ensures Validate(FormData("", "a@b.com", "", "hello there")) == map[Name := NameRequired]
  {
    var f := FormData("", "a@b.com", "", "hello there");
    assert EmailMatchAt(f.email, 1, 3);
    TrimOfUnpadded(f.message);
    Utf16LengthOfBmp(f.message);
    OnlyNameMissing(f);
  }

  /** A malformed email and a short message are both reported; the name is fine. */
  lemma BadEmailShortMessageScenario()
    ensures Validate(FormData("Jo", "bad-email", "", "short")) ==
      map[Email := EmailInvalid, Message := MessageTooShort]
  {
    var f := FormData("Jo", "bad-email", "", "short");
    TrimOfUnpadded(f.name);
    TrimOfUnpadded(f.email);
    TrimOfUnpadded(f.message);
    assert forall k | 0 <= k < |f.email| :: f.email[k] != '@';
    Utf16LengthOfBmp(f.message);
    var v := Validate(f);
    assert v.Keys == {Email, Message} by {
      forall k: Field ensures k in v <==> k == Email || k == Message {
        match k
        case Name =>
        case Email =>
        case Subject =>
        case Message =>
      }
    }
  }

  /** The pattern does not demand a single `@`: a second one is accepted. */
  lemma SecondAtSignAccepted()
    ensures EmailPatternMatches("a@b@c.d")
  {
    var s := "a@b@c.d";
    assert EmailMatchAt(s, 3, 5);
  }

  /** A field's error is on screen (`errors[k] && <span>`) iff its entry is a non-empty string. */
  predicate Shows(errors: map<Field, string>, k: Field) {
    k in errors && errors[k] != ""
  }

  /** The `Contact` component's state and its event handlers. */
  class ContactForm {
    var formData: FormData
    var errors: map<Field, string>
    var isSubmitting: bool
    var submitSuccess: bool
    /** Success-dismissal timers armed and not yet fired. */
    ghost var pendingDismissals: nat

    /** The subject never carries an error, every error entry is one of the
        five messages or a blanked `""`, and a visible success banner always
        has a dismissal timer armed that will hide it. */
    ghost predicate Valid()
      reads this
    {
      && Subject !in errors
      && (forall k | k in errors :: errors[k] in ErrorMessages || errors[k] == "")
      && (submitSuccess ==> pendingDismissals > 0)
    }

    constructor ()
      ensures Valid()
      ensures formData == EmptyForm && errors == map[]
      ensures !isSubmitting && !submitSuccess && pendingDismissals == 0
    {
      formData := EmptyForm;
      errors := map[];
      isSubmitting := false;
      submitSuccess := false;
      pendingDismissals := 0;
    }

    /** `validateForm`: replaces the error map wholesale and reports whether it is empty. */
    method ValidateForm() returns (ok: bool)
      requires Valid()
      modifies this`errors
      ensures Valid()
      ensures errors == Validate(formData)
      ensures ok <==> errors == map[]
    {
      errors := Validate(formData);
      ErrorsAreKnownMessages(formData);
      ok := |errors| == 0;
    }

    /** `handleChange`: field `k` becomes `v`; a shown error on `k` is blanked. */
    method HandleChange(k: Field, v: string)
      requires Valid()
      modifies this`formData, this`errors
      ensures Valid()
      ensures formData == old(formData).Set(k, v)
      ensures Shows(old(errors), k) ==> errors == old(errors)[k := ""]
      ensures !Shows(old(errors), k) ==> errors == old(errors)
      ensures !Shows(errors, k)
    {
      formData := formData.Set(k, v);
      if Shows(errors, k) {
        errors := errors[k := ""];
      }
    }

    /** `handleSubmit`. The button is disabled while a send is running, so it
        is only called when `isSubmitting` is false. Invalid input only
        records the errors; valid input starts the send. */
    method HandleSubmit()
      requires Valid() && !isSubmitting
      modifies this`errors, this`isSubmitting
      ensures Valid()
      ensures errors == Validate(formData)
      ensures isSubmitting <==> Validate(formData) == map[]
      ensures formData == old(formData) && submitSuccess == old(submitSuccess)
    {
      var ok := ValidateForm();
      if ok {
        isSubmitting := true;
      }
    }

    /** The 1800 ms send timer fires: success is shown, the fields are
        cleared, the send ends and the 5000 ms dismissal timer is armed. */
    method CompleteSend()
      requires Valid() && isSubmitting
      modifies this`formData, this`isSubmitting, this`submitSuccess, this`pendingDismissals
      ensures Valid()
      ensures submitSuccess && !isSubmitting && formData == EmptyForm
      ensures pendingDismissals == old(pendingDismissals) + 1
    {
      submitSuccess := true;
      formData := EmptyForm;
      isSubmitting := false;
      pendingDismissals := pendingDismissals + 1;
    }

    /** A dismissal timer fires and hides the success banner. */
    method DismissSuccess()
      requires Valid() && pendingDismissals > 0
      modifies this`submitSuccess, this`pendingDismissals
      ensures Valid()
      ensures !submitSuccess
      ensures pendingDismissals == old(pendingDismissals) - 1
    {
      submitSuccess := false;
      pendingDismissals := pendingDismissals - 1;
    }
  }

  /** Any valid input, typed into a fresh form and submitted, goes idle,
      submitting, succeeded with the fields reset, and back to idle after
      dismissal, with no error left. */
  method ValidSubmissionLifecycle(name: string, email: string, subject: string, message: string)
    returns (sent: bool, succeeded: bool, fields: FormData, success: bool, sending: bool, errorsLeft: map<Field, string>)
    requires !Blank(name) && EmailPatternMatches(email) && Utf16Length(Trim(message)) >= MinMessageLength
    ensures sent && succeeded
    ensures fields == EmptyForm && !success && !sending && errorsLeft == map[]
  {
    var form := new ContactForm();
    form.HandleChange(Name, name);
    form.HandleChange(Email, email);
    form.HandleChange(Subject, subject);
    form.HandleChange(Message, message);
    assert form.formData == FormData(name, email, subject, message);
    ValidIff(form.formData);
    form.HandleSubmit();
    sent := form.isSubmitting && !form.submitSuccess;
    form.CompleteSend();
    succeeded := form.submitSuccess && !form.isSubmitting;
    form.DismissSuccess();
    fields, success, sending, errorsLeft := form.formData, form.submitSuccess, form.isSubmitting, form.errors;
  }
}
