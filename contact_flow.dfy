/** How the form and the endpoint meet: what a server reply becomes on the
    client, and where the client's checks and the server's disagree. */
module ContactFlow {
  import opened Results
  import opened Text
  import ContactForm
  import ContactRecords
  import ContactStore

  /** The request as the server receives it from a posted payload. */
  function Received(p: ContactForm.Payload): ContactRecords.RawSubmission {
    ContactRecords.RawSubmission(Some(p.name), Some(p.email), Some(p.message))
  }

  /** What axios hands back for a reply: the body of a 200, or the thrown
      error carrying the status and the detail. A 422 detail is a list of
      field errors, rendered here by the given function. */
  function Delivered(reply: ContactStore.Reply, render: seq<ContactRecords.FieldError> -> string): (o: ContactForm.Outcome)
    ensures o.Responded? <==> reply.Ok?
    ensures reply.Ok? ==> o == ContactForm.Responded(reply.body.success, reply.body.message)
    ensures reply.HttpError? ==> o.Threw? && o.response.Some? && o.response.value.detail == Some(reply.detail)
    ensures o.Threw? ==> o.response.Some? && o.response.value.status == (if reply.Unprocessable? then 422 else reply.status)
  {
    match reply
    case Ok(body) => ContactForm.Responded(body.success, body.message)
    case Unprocessable(errors) => ContactForm.Threw(Some(ContactForm.ErrorResponse(422, Some(render(errors)))))
    case HttpError(status, detail) => ContactForm.Threw(Some(ContactForm.ErrorResponse(status, Some(detail))))
  }

  /** A saved contact is announced with the server's thank-you message. */
  lemma SavedIsThanked(id: string, render: seq<ContactRecords.FieldError> -> string)
    ensures var o := Delivered(ContactStore.Ok(ContactRecords.ContactResponse(true, ContactRecords.ThankYou, Some(id))), render);
      o.Responded? && o.success && ContactForm.SuccessToast(o.message).description == ContactRecords.ThankYou
  {
  }

  /** Every failed save reaches the user as the server's detail, "Failed to
      submit contact form"; the inner "Failed to save contact" never does. */
  lemma FailedSaveShowsOuterDetail(render: seq<ContactRecords.FieldError> -> string)
    ensures var t := ContactForm.ErrorToast(Delivered(ContactStore.HttpError(500, ContactStore.SubmitFailed), render).response);
      t.description == ContactStore.SubmitFailed && t.description != ContactStore.SaveFailed
      && t.variant == ContactForm.Destructive
  {
  }

  /** The rate limiter's 429 is shown as the rate-limit notice whatever its
      detail. */
  lemma RateLimitedShowsNotice(detail: string, render: seq<ContactRecords.FieldError> -> string)
    ensures ContactForm.ErrorToast(Delivered(ContactStore.HttpError(429, detail), render).response).title
      == ContactForm.RateLimitTitle
  {
  }

  /** The client measures the name before trimming and the server after the
      client's trim: a form whose name is " a" passes the client's name rule,
      and the submission built from its payload is refused by the server with
      the name too short. */
  lemma PaddedNamePassesClientOnly(form: ContactForm.FormData, check: ContactRecords.EmailCheck)
    requires form.name == " a"
    ensures ContactForm.NameAccepted(form.name)
    ensures ContactRecords.ValidateSubmission(Received(ContactForm.TrimmedPayload(form)), check).Failure?
    ensures ContactRecords.FieldError(ContactRecords.NameField, ContactRecords.TooShort(2))
      in ContactRecords.ValidateSubmission(Received(ContactForm.TrimmedPayload(form)), check).error
  {
    ContactForm.UntrimmedLengthCounts();
  }

  /** The client accepts any name of two characters or more; the server only
      letters and whitespace: a form whose name is "John123" passes the
      client's name rule, and the submission built from its payload is
      refused by the server's pattern. */
  lemma DigitsPassClientOnly(form: ContactForm.FormData, check: ContactRecords.EmailCheck)
    requires form.name == "John123"
    ensures ContactForm.NameAccepted(form.name)
    ensures ContactRecords.ValidateSubmission(Received(ContactForm.TrimmedPayload(form)), check).Failure?
    ensures ContactRecords.FieldError(ContactRecords.NameField, ContactRecords.NotLettersAndSpaces)
      in ContactRecords.ValidateSubmission(Received(ContactForm.TrimmedPayload(form)), check).error
  {
    assert !IsJsSpace(form.name[0]) && !IsJsSpace(form.name[|form.name| - 1]);
    StripNoEdge(form.name, IsJsSpace);
    assert !ContactRecords.NameChar(form.name[4]);
  }
}
