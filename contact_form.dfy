/** The contact form of the page (frontend/src/components/Contact.js): its
    validator, the state it keeps (formData, isSubmitting, submitStatus), the
    transitions of an edit and of a submission, the notices it raises and the
    label and colour of its submit button. The HTTP call is not modelled: its
    outcome is an input of the transition that follows it. */
module ContactForm {
  import opened Results
  import opened Text
  import opened EmailPattern

  datatype FieldName = Name | Email | Message

  /** The three inputs of the form, as typed (untrimmed). */
  datatype FormData = FormData(name: string, email: string, message: string) {
    function Get(field: FieldName): string {
      match field
      case Name => name
      case Email => email
      case Message => message
    }

    /** The form with one key replaced, as {...formData, [field]: value}. */
    function With(field: FieldName, value: string): (r: FormData)
      ensures r.Get(field) == value
      ensures forall other :: other != field ==> r.Get(other) == Get(other)
    {
      match field
      case Name => this.(name := value)
      case Email => this.(email := value)
      case Message => this.(message := value)
    }
  }

  const EmptyForm := FormData("", "", "")

  /** submitStatus: null, 'success' or 'error'. */
  datatype SubmitStatus = NoStatus | Succeeded | Failed

  datatype Variant = Default | Destructive

  /** A notice shown through toast(). */
  datatype Toast = Toast(title: string, description: string, variant: Variant)

  /** The JSON body posted to the contact endpoint. */
  datatype Payload = Payload(name: string, email: string, message: string)

  /** error.response of a request that threw: its status and data.detail. */
  datatype ErrorResponse = ErrorResponse(status: int, detail: Option<string>)

  /** How the awaited request ended: it resolved with response.data
      {success, message}, or it threw, with or without error.response. */
  datatype Outcome = Responded(success: bool, message: string) | Threw(response: Option<ErrorResponse>)

  /** What the first half of a submission did: refused the form with a notice,
      or posted a payload. */
  datatype SubmitStep = Rejected(toast: Toast) | Posted(payload: Payload)

  /** The three messages validateForm can produce, one per field. */
  datatype Problem = NameTooShort | InvalidEmail | MessageTooShort {
    function Text(): string {
      match this
      case NameTooShort => "Name must be at least 2 characters long"
      case InvalidEmail => "Please enter a valid email address"
      case MessageTooShort => "Message must be at least 10 characters long"
    }

    /** Position in the field order name, email, message. */
    function Rank(): nat {
      match this
      case NameTooShort => 0
      case InvalidEmail => 1
      case MessageTooShort => 2
    }
  }

  const RateLimitTitle := "Rate Limit Exceeded"
  const RateLimitText := "Please wait a moment before sending another message."
  const GenericErrorText := "Failed to send message. Please try again later."

  /** The client's rule for the name: something other than whitespace, and at
      least two characters counted before trimming. */
  predicate NameAccepted(name: string) {
    !AllIn(name, IsJsSpace) && |name| >= 2
  }

  /** The client's rule for the e-mail: the pattern matches it. */
  ghost predicate EmailAccepted(email: string) {
    MatchesEmailRegex(email)
  }

  /** The client's rule for the message: something other than whitespace, and
      at least ten characters counted before trimming. */
  predicate MessageAccepted(message: string) {
    !AllIn(message, IsJsSpace) && |message| >= 10
  }

  ghost predicate FormAccepted(form: FormData) {
    NameAccepted(form.name) && EmailAccepted(form.email) && MessageAccepted(form.message)
  }

  /** The message of the first field, in the order name, email, message, that
      the client refuses. */
  ghost function FirstProblem(form: FormData): Problem
    requires !FormAccepted(form)
  {
    if !NameAccepted(form.name) then NameTooShort
    else if !EmailAccepted(form.email) then InvalidEmail
    else MessageTooShort
  }

  /** Each field's problem at most once, in the order name, email, message. */
  predicate InFieldOrder(errors: seq<Problem>) {
    forall a, b :: 0 <= a < b < |errors| ==> errors[a].Rank() < errors[b].Rank()
  }

  /** validateForm: one message per field the client refuses, in field order. */
  method ValidateForm(form: FormData) returns (errors: seq<Problem>)
    ensures InFieldOrder(errors) && |errors| <= 3
    ensures NameTooShort in errors <==> !NameAccepted(form.name)
    ensures InvalidEmail in errors <==> !EmailAccepted(form.email)
    ensures MessageTooShort in errors <==> !MessageAccepted(form.message)
    ensures errors == [] <==> FormAccepted(form)
    ensures errors != [] ==> errors[0] == FirstProblem(form)
  {
    var nameBad := JsBlank(form.name) || |form.name| < 2;
    var emailBad := JsBlank(form.email) || !TestEmailPattern(form.email);
    var messageBad := JsBlank(form.message) || |form.message| < 10;
    ClientChecksMeanRules(form);
    errors := [];
    if nameBad {
      errors := errors + [NameTooShort];
    }
    if emailBad {
      errors := errors + [InvalidEmail];
    }
    if messageBad {
      errors := errors + [MessageTooShort];
    }
  }

  /** The three conditions validateForm tests are the three client rules. */
  lemma ClientChecksMeanRules(form: FormData)
    ensures JsBlank(form.name) || |form.name| < 2 <==> !NameAccepted(form.name)
    ensures JsBlank(form.email) || !TestEmailPattern(form.email) <==> !EmailAccepted(form.email)
    ensures JsBlank(form.message) || |form.message| < 10 <==> !MessageAccepted(form.message)
  {
    if EmailAccepted(form.email) {
      MatchingEmailIsTrimmed(form.email);
    }
  }

  /** A string the e-mail pattern matches has no whitespace at all, so the
      client's trim() leaves it as it is and it is not empty. */
  lemma MatchingEmailIsTrimmed(email: string)
    requires MatchesEmailRegex(email)
    ensures email != [] && JsTrim(email) == email
  {
    EmailShapeIsRegex(email);
    assert !IsJsSpace(email[0]) && !IsJsSpace(email[|email| - 1]);
    StripNoEdge(email, IsJsSpace);
  }

  /** The body posted for a form: each field trimmed. */
  function TrimmedPayload(form: FormData): Payload {
    Payload(JsTrim(form.name), JsTrim(form.email), JsTrim(form.message))
  }

  /** What is posted for an accepted form: a non-empty name and message without
      whitespace at either end, and the e-mail exactly as typed. */
  lemma AcceptedPayload(form: FormData)
    requires FormAccepted(form)
    ensures TrimmedPayload(form).name != [] && NoEdge(TrimmedPayload(form).name, IsJsSpace)
    ensures TrimmedPayload(form).email == form.email
    ensures TrimmedPayload(form).message != [] && NoEdge(TrimmedPayload(form).message, IsJsSpace)
  {
    MatchingEmailIsTrimmed(form.email);
  }

  /** The length rules count the untrimmed input: " a" passes the name rule
      although the name posted for it, "a", has one character. */
  lemma UntrimmedLengthCounts()
    ensures NameAccepted(" a") && JsTrim(" a") == "a"
  {
    assert IsJsSpace(" a"[0]) && !IsJsSpace(" a"[1]);
    assert " a"[1..] == "a";
    assert TrimStart("a", IsJsSpace) == "a";
    assert TrimStart(" a", IsJsSpace) == "a";
    assert TrimEnd("a", IsJsSpace) == "a";
  }

  function ValidationToast(problem: string): Toast {
    Toast("Validation Error", problem, Destructive)
  }

  function SuccessToast(serverMessage: string): Toast {
    Toast("Message Sent Successfully!", serverMessage, Default)
  }

  /** The notice for a request that threw: the rate-limit notice for status
      429, else the server's detail when it is present and non-empty, else the
      generic text. */
  function ErrorToast(response: Option<ErrorResponse>): (t: Toast)
    ensures t.variant == Destructive
    ensures t.title == RateLimitTitle <==> response.Some? && response.value.status == 429
    ensures response.Some? && response.value.status == 429 ==> t == Toast(RateLimitTitle, RateLimitText, Destructive)
    ensures !(response.Some? && response.value.status == 429) ==> t.title == "Error"
    ensures t.title != RateLimitTitle ==>
      t.description == (if response.Some? && response.value.detail.Some? && response.value.detail.value != ""
                        then response.value.detail.value else GenericErrorText)
  {
    if response.Some? && response.value.status == 429 then
      Toast(RateLimitTitle, RateLimitText, Destructive)
    else if response.Some? && response.value.detail.Some? && response.value.detail.value != "" then
      Toast("Error", response.value.detail.value, Destructive)
    else
      Toast("Error", GenericErrorText, Destructive)
  }

  /** The submit button's colour classes. */
  datatype Tone = Green | Red | Sky

  /** The submit button's text: "Sending..." exactly while a request is in
      flight, otherwise the status decides. */
  function ButtonLabel(isSubmitting: bool, status: SubmitStatus): (caption: string)
    ensures caption == "Sending..." <==> isSubmitting
    ensures !isSubmitting ==> (caption == "Message Sent!" <==> status == Succeeded)
    ensures !isSubmitting ==> (caption == "Try Again" <==> status == Failed)
    ensures !isSubmitting ==> (caption == "Send Message" <==> status == NoStatus)
  {
    if isSubmitting then "Sending..."
    else
      match status
      case Succeeded => "Message Sent!"
      case Failed => "Try Again"
      case NoStatus => "Send Message"
  }

  /** The colour follows the status alone: green for success, red for error,
      sky otherwise. */
  function ButtonTone(status: SubmitStatus): (tone: Tone)
    ensures tone == Green <==> status == Succeeded
    ensures tone == Red <==> status == Failed
    ensures tone == Sky <==> status == NoStatus
  {
    match status
    case Succeeded => Green
    case Failed => Red
    case NoStatus => Sky
  }

  /** The label decides by isSubmitting first and the colour never looks at it;
      in every state the form can reach (no status while submitting) the two
      agree: green exactly with "Message Sent!", red exactly with "Try Again". */
  lemma LabelAgreesWithTone(isSubmitting: bool, status: SubmitStatus)
    requires isSubmitting ==> status == NoStatus
    ensures ButtonLabel(isSubmitting, status) == "Message Sent!" <==> ButtonTone(status) == Green
    ensures ButtonLabel(isSubmitting, status) == "Try Again" <==> ButtonTone(status) == Red
    ensures ButtonLabel(isSubmitting, status) == "Sending..." <==> isSubmitting
  {
  }

  /** The component's state. */
  class Form {
    var formData: FormData
    var isSubmitting: bool
    var submitStatus: SubmitStatus

    /** What every reachable state satisfies: no status is shown while a request
        is in flight, and a success status only stands over a cleared form. */
    ghost predicate Valid()
      reads this
    {
      (isSubmitting ==> submitStatus == NoStatus)
      && (submitStatus == Succeeded ==> formData == EmptyForm)
    }

    /** In every reachable state the button's label and colour agree, and
        "Message Sent!" only ever shows over a cleared form. */
    lemma ButtonShowsState()
      requires Valid()
      ensures ButtonLabel(isSubmitting, submitStatus) == "Message Sent!" <==> ButtonTone(submitStatus) == Green
      ensures ButtonLabel(isSubmitting, submitStatus) == "Try Again" <==> ButtonTone(submitStatus) == Red
      ensures ButtonLabel(isSubmitting, submitStatus) == "Message Sent!" ==> formData == EmptyForm
    {
      LabelAgreesWithTone(isSubmitting, submitStatus);
    }

    constructor ()
      ensures Valid()
      ensures formData == EmptyForm && !isSubmitting && submitStatus == NoStatus
    {
      formData := EmptyForm;
      isSubmitting := false;
      submitStatus := NoStatus;
    }

    /** handleInputChange: one key of the form takes the typed value and any
        status is cleared. */
    method HandleInputChange(field: FieldName, value: string)
      requires Valid()
      modifies this
      ensures Valid()
      ensures formData == old(formData).With(field, value)
      ensures isSubmitting == old(isSubmitting)
      ensures submitStatus == NoStatus
    {
      formData := formData.With(field, value);
      if submitStatus != NoStatus {
        submitStatus := NoStatus;
      }
    }

    /** handleSubmit up to the request: a refused form yields the notice for its
        first problem and changes nothing; an accepted one marks the form as
        submitting, clears the status and posts the trimmed fields. */
    method BeginSubmit() returns (step: SubmitStep)
      requires Valid()
      modifies this
      ensures Valid()
      ensures !FormAccepted(old(formData)) ==>
        step == Rejected(ValidationToast(FirstProblem(old(formData)).Text()))
        && formData == old(formData) && isSubmitting == old(isSubmitting)
        && submitStatus == old(submitStatus)
      ensures FormAccepted(old(formData)) ==>
        step == Posted(TrimmedPayload(old(formData)))
        && formData == old(formData) && isSubmitting && submitStatus == NoStatus
    {
      var errors := ValidateForm(formData);
      if |errors| > 0 {
        step := Rejected(ValidationToast(errors[0].Text()));
        return;
      }
      isSubmitting := true;
      submitStatus := NoStatus;
      step := Posted(Payload(JsTrim(formData.name), JsTrim(formData.email), JsTrim(formData.message)));
    }

    /** handleSubmit after the request: success clears the form and shows the
        server's message; a response without success changes nothing but the
        submitting flag; a thrown request sets the error status and leaves the
        form as typed. The submitting flag always ends false. */
    method FinishSubmit(outcome: Outcome) returns (toast: Option<Toast>)
      requires Valid()
      modifies this
      ensures Valid()
      ensures !isSubmitting
      ensures outcome.Responded? && outcome.success ==>
        formData == EmptyForm && submitStatus == Succeeded && toast == Some(SuccessToast(outcome.message))
      ensures outcome.Responded? && !outcome.success ==>
        formData == old(formData) && submitStatus == old(submitStatus) && toast == None
      ensures outcome.Threw? ==>
        formData == old(formData) && submitStatus == Failed && toast == Some(ErrorToast(outcome.response))
    {
      match outcome {
        case Responded(success, message) =>
          if success {
            submitStatus := Succeeded;
            toast := Some(SuccessToast(message));
            formData := EmptyForm;
          } else {
            toast := None;
          }
        case Threw(response) =>
          submitStatus := Failed;
          toast := Some(ErrorToast(response));
      }
      isSubmitting := false;
    }

    /** handleSubmit from start to end, with the request's outcome given. */
    method HandleSubmit(outcome: Outcome) returns (posted: Option<Payload>, toast: Option<Toast>)
      requires Valid()
      modifies this
      ensures Valid()
      ensures !FormAccepted(old(formData)) ==>
        posted == None && toast == Some(ValidationToast(FirstProblem(old(formData)).Text()))
        && formData == old(formData) && isSubmitting == old(isSubmitting)
        && submitStatus == old(submitStatus)
      ensures FormAccepted(old(formData)) ==> posted == Some(TrimmedPayload(old(formData))) && !isSubmitting
      ensures FormAccepted(old(formData)) && outcome.Responded? && outcome.success ==>
        formData == EmptyForm && submitStatus == Succeeded
      ensures FormAccepted(old(formData)) && outcome.Responded? && !outcome.success ==>
        formData == old(formData) && submitStatus == NoStatus
      ensures FormAccepted(old(formData)) && outcome.Responded? ==>
        toast == (if outcome.success then Some(SuccessToast(outcome.message)) else None)
      ensures FormAccepted(old(formData)) && outcome.Threw? ==>
        formData == old(formData) && submitStatus == Failed && toast == Some(ErrorToast(outcome.response))
    {
      var step := BeginSubmit();
      match step {
        case Rejected(notice) =>
          posted := None;
          toast := Some(notice);
        case Posted(payload) =>
          posted := Some(payload);
          toast := FinishSubmit(outcome);
      }
    }
  }
}
