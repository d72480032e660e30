/** The models of the contact endpoint (backend/server.py): the constraints
    and validators of ContactSubmission, the stored Contact record and the
    ContactResponse. E-mail validation (pydantic's EmailStr) is a parameter. */
module ContactRecords {
  import opened Results
  import opened Text

  datatype Field = NameField | EmailField | MessageField {
    function Rank(): nat {
      match this
      case NameField => 0
      case EmailField => 1
      case MessageField => 2
    }
  }

  /** Why a field was refused: absent, shorter or longer than its bound,
      not letters and spaces, not an e-mail address. */
  datatype Problem = Missing | TooShort(limit: nat) | TooLong(limit: nat) | NotLettersAndSpaces | NotAnEmail

  datatype FieldError = FieldError(field: Field, problem: Problem)

  /** The JSON body as it arrives: each field present or absent. */
  datatype RawSubmission = RawSubmission(name: Option<string>, email: Option<string>, message: Option<string>)

  /** A ContactSubmission that passed validation. */
  datatype ContactSubmission = ContactSubmission(name: string, email: string, message: string)

  /** pydantic's EmailStr: None when it refuses the value, else the address
      it yields for it. */
  type EmailCheck = string -> Option<string>

  const NameMinLength: nat := 2
  const NameMaxLength: nat := 50
  const MessageMinLength: nat := 10
  const MessageMaxLength: nat := 1000

  predicate IsAsciiLetter(c: char) {
    'a' <= c <= 'z' || 'A' <= c <= 'Z'
  }

  /** A character of the class [a-zA-Z\s]. */
  predicate NameChar(c: char) {
    IsAsciiLetter(c) || IsPySpace(c)
  }

  /** re.match(r'^[a-zA-Z\s]+$', v). The '$' could also match before a final
      newline, but a newline is in the class, so the pattern accepts exactly
      the non-empty strings of class characters. */
  function MatchesNamePattern(v: string): (r: bool)
    ensures r <==> v != [] && AllIn(v, NameChar)
  {
    v != [] && NameChar(v[0]) && (|v| == 1 || MatchesNamePattern(v[1..]))
  }

  /** The name field: Field(..., min_length=2, max_length=50), then
      validate_name. The bounds apply to the value as sent; what is kept is the
      stripped value. */
  function ValidateName(v: Option<string>): (r: Result<string, Problem>)
    ensures r.Success? <==>
      v.Some? && NameMinLength <= |v.value| <= NameMaxLength && AllIn(v.value, NameChar)
    ensures r.Success? ==> r.value == PyStrip(v.value)
  {
    match v
    case None => Failure(Missing)
    case Some(s) =>
      if |s| < NameMinLength then Failure(TooShort(NameMinLength))
      else if |s| > NameMaxLength then Failure(TooLong(NameMaxLength))
      else if !MatchesNamePattern(s) then Failure(NotLettersAndSpaces)
      else Success(PyStrip(s))
  }

  /** The email field: EmailStr. */
  function ValidateEmail(v: Option<string>, check: EmailCheck): (r: Result<string, Problem>)
    ensures r.Success? <==> v.Some? && check(v.value).Some?
    ensures r.Success? ==> r.value == check(v.value).value
  {
    match v
    case None => Failure(Missing)
    case Some(s) =>
      match check(s)
      case None => Failure(NotAnEmail)
      case Some(address) => Success(address)
  }

  /** The message field: Field(..., min_length=10, max_length=1000), then
      validate_message, which strips. */
  function ValidateMessage(v: Option<string>): (r: Result<string, Problem>)
    ensures r.Success? <==> v.Some? && MessageMinLength <= |v.value| <= MessageMaxLength
    ensures r.Success? ==> r.value == PyStrip(v.value)
  {
    match v
    case None => Failure(Missing)
    case Some(s) =>
      if |s| < MessageMinLength then Failure(TooShort(MessageMinLength))
      else if |s| > MessageMaxLength then Failure(TooLong(MessageMaxLength))
      else Success(PyStrip(s))
  }

  /** The error a field contributes to the 422 body: none, or one. */
  function ErrorsOf(field: Field, r: Result<string, Problem>): (e: seq<FieldError>)
    ensures e == [] <==> r.Success?
    ensures forall p :: FieldError(field, p) in e <==> r == Failure(p)
    ensures forall k :: 0 <= k < |e| ==> e[k].field == field
  {
    if r.Failure? then [FieldError(field, r.error)] else []
  }

  /** Each field at most once, in the declaration order name, email, message. */
  predicate InFieldOrder(errors: seq<FieldError>) {
    forall a :: 0 < a < |errors| ==> errors[a - 1].field.Rank() < errors[a].field.Rank()
  }

  /** The errors of three field results, concatenated in field order: one
      per failing field, carrying that field's problem. */
  lemma ErrorsInOrder(name: Result<string, Problem>, email: Result<string, Problem>, message: Result<string, Problem>)
    ensures var errors := ErrorsOf(NameField, name) + ErrorsOf(EmailField, email) + ErrorsOf(MessageField, message);
      && InFieldOrder(errors) && |errors| <= 3
      && (errors == [] <==> name.Success? && email.Success? && message.Success?)
      && forall p ::
        && (FieldError(NameField, p) in errors <==> name == Failure(p))
        && (FieldError(EmailField, p) in errors <==> email == Failure(p))
        && (FieldError(MessageField, p) in errors <==> message == Failure(p))
  {
    var a, b, c := ErrorsOf(NameField, name), ErrorsOf(EmailField, email), ErrorsOf(MessageField, message);
    var errors := a + b + c;
    forall k | 0 < k < |errors| ensures errors[k - 1].field.Rank() < errors[k].field.Rank() {
      if k - 1 < |a| {
        assert errors[k - 1] == a[k - 1];
      } else if k - 1 < |a| + |b| {
        assert errors[k - 1] == b[k - 1 - |a|];
      }
      if k < |a| + |b| {
        assert errors[k] == b[k - |a|];
      } else {
        assert errors[k] == c[k - |a| - |b|];
      }
    }
  }

  /** Building a ContactSubmission: every field is validated, and the model
      is built only when all three pass; otherwise every field's error is
      reported, in field order. */
  function ValidateSubmission(raw: RawSubmission, check: EmailCheck): (r: Result<ContactSubmission, seq<FieldError>>)
    ensures r.Success? <==>
      ValidateName(raw.name).Success? && ValidateEmail(raw.email, check).Success?
      && ValidateMessage(raw.message).Success?
    ensures r.Success? ==> r.value == ContactSubmission(ValidateName(raw.name).value,
      ValidateEmail(raw.email, check).value, ValidateMessage(raw.message).value)
    ensures r.Failure? ==> r.error != [] && InFieldOrder(r.error) && |r.error| <= 3
    ensures r.Failure? ==> forall p ::
      (FieldError(NameField, p) in r.error <==> ValidateName(raw.name) == Failure(p))
      && (FieldError(EmailField, p) in r.error <==> ValidateEmail(raw.email, check) == Failure(p))
      && (FieldError(MessageField, p) in r.error <==> ValidateMessage(raw.message) == Failure(p))
  {
    var name := ValidateName(raw.name);
    var email := ValidateEmail(raw.email, check);
    var message := ValidateMessage(raw.message);
    if name.Success? && email.Success? && message.Success? then
      Success(ContactSubmission(name.value, email.value, message.value))
    else
      ErrorsInOrder(name, email, message);
      Failure(ErrorsOf(NameField, name) + ErrorsOf(EmailField, email) + ErrorsOf(MessageField, message))
  }

  /** What every validated submission satisfies: a name of at most 50 ASCII
      letters and whitespace and a message of at most 1000 characters, both
      without whitespace at either end. Nothing bounds them from below. */
  predicate Admitted(sub: ContactSubmission) {
    |sub.name| <= NameMaxLength && AllIn(sub.name, NameChar) && NoEdge(sub.name, IsPySpace)
    && |sub.message| <= MessageMaxLength && NoEdge(sub.message, IsPySpace)
  }

  /** Every submission validation lets through is Admitted. */
  lemma ValidatedIsAdmitted(raw: RawSubmission, check: EmailCheck)
    requires ValidateSubmission(raw, check).Success?
    ensures Admitted(ValidateSubmission(raw, check).value)
  {
    var sub := ValidateSubmission(raw, check).value;
    var i := StripIsInfix(raw.name.value, IsPySpace);
    forall k | 0 <= k < |sub.name| ensures NameChar(sub.name[k]) {
      assert sub.name[k] == raw.name.value[i + k];
    }
  }

  /** The bounds apply before stripping: "  a" passes and is kept as "a",
      one character, below the minimum of two. */
  lemma StrippedNameMayBeShort()
    ensures ValidateName(Some("  a")) == Success("a")
  {
    SpacedLetterMatches();
    SpacedLetterStrips();
  }

  lemma SpacedLetterMatches()
    ensures MatchesNamePattern("  a")
  {
    assert MatchesNamePattern("a");
    assert MatchesNamePattern(" a") by { assert " a"[1..] == "a"; }
    assert "  a"[1..] == " a";
  }

  lemma SpacedLetterStrips()
    ensures PyStrip("  a") == "a"
  {
    assert TrimStart(" a", IsPySpace) == "a" by { assert " a"[1..] == "a"; }
    assert TrimStart("  a", IsPySpace) == "a" by { assert "  a"[1..] == " a"; }
    assert TrimEnd("a", IsPySpace) == "a";
  }

  /** A name of spaces only passes and is kept as the empty string. */
  lemma BlankNameIsKeptEmpty()
    ensures ValidateName(Some("   ")) == Success("")
  {
    assert MatchesNamePattern(" ");
    assert MatchesNamePattern("  ") by { assert "  "[1..] == " "; }
    assert MatchesNamePattern("   ") by { assert "   "[1..] == "  "; }
    assert AllIn("   ", IsPySpace);
  }

  /** Names with punctuation or digits are refused by the pattern, as are
      messages outside 10 to 1000 characters. */
  lemma SampleInputsRefused()
    ensures ValidateName(Some("John123")) == Failure(NotLettersAndSpaces)
    ensures ValidateName(Some("'; DROP TABLE contacts; --")) == Failure(NotLettersAndSpaces)
    ensures ValidateName(Some("<script>alert('xss')</script>")) == Failure(NotLettersAndSpaces)
    ensures ValidateMessage(Some("Short")) == Failure(TooShort(MessageMinLength))
    ensures ValidateMessage(Some(seq(1001, _ => 'A'))) == Failure(TooLong(MessageMaxLength))
  {
    assert !NameChar("John123"[4]);
    assert !NameChar("'; DROP TABLE contacts; --"[0]);
    assert !NameChar("<script>alert('xss')</script>"[0]);
  }

  /** A submission whose address EmailStr refuses is refused, with that
      field's error reported. */
  lemma RefusedEmailRefusesSubmission(raw: RawSubmission, check: EmailCheck)
    requires raw.email.Some? && check(raw.email.value).None?
    ensures ValidateSubmission(raw, check).Failure?
    ensures FieldError(EmailField, NotAnEmail) in ValidateSubmission(raw, check).error
  {
  }

  /** The stored record: Contact(...) with a generated id and creation time,
      status "new", the client address and the user-agent header or "". */
  datatype Contact = Contact(id: string, name: string, email: string, message: string,
                             createdAt: int, status: string,
                             ipAddress: Option<string>, userAgent: Option<string>)

  /** What submit_contact reads from the request: the client address
      (get_remote_address) and the user-agent header, if sent. */
  datatype RequestInfo = RequestInfo(remoteAddress: string, userAgent: Option<string>)

  function NewContact(sub: ContactSubmission, id: string, createdAt: int, request: RequestInfo): (c: Contact)
    ensures ContactSubmission(c.name, c.email, c.message) == sub && c.id == id && c.createdAt == createdAt
    ensures c.status == "new" && c.ipAddress == Some(request.remoteAddress)
    ensures c.userAgent == Some(if request.userAgent.Some? then request.userAgent.value else "")
  {
    Contact(id, sub.name, sub.email, sub.message, createdAt, "new",
            Some(request.remoteAddress), Some(request.userAgent.GetOr("")))
  }

  datatype ContactResponse = ContactResponse(success: bool, message: string, id: Option<string>)

  const ThankYou := "Thank you for your message! I'll get back to you soon."
}
