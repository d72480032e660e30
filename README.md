# Contact form pipeline of a portfolio site

This project models the contact-form path of the portfolio site. It covers
the React component `Contact.js`, which checks the form, trims it and posts
it, and the FastAPI endpoints in `server.py`, which validate the submission,
store it in the `contacts` collection and list the stored contacts newest
first.

Modules:

- `Results` (results.dfy): `Option` and `Result`.
- `Text` (text.dfy): JavaScript `trim()` and Python `str.strip()` as one
  `Strip` over a whitespace predicate. Each language's whitespace set is
  written out character by character.
- `EmailPattern` (email_pattern.dfy): what the client's e-mail regular
  expression accepts. The lemma proves the regex is equivalent to a simple
  shape: exactly one `@`, no whitespace, a non-empty local part, and a `.`
  strictly inside the domain.
- `ContactForm` (contact_form.dfy): the component. `ValidateForm` is a
  method. `Form` is a class whose fields are the component's state
  (`formData`, `isSubmitting`, `submitStatus`). `handleSubmit` is split at
  its `await` into `BeginSubmit` and `FinishSubmit`, and the request's
  outcome is a parameter. The module also models the toasts and the submit
  button's label and colour.
- `ContactRecords` (contact_records.dfy): the `ContactSubmission`
  constraints and validators, the `Contact` record and the
  `ContactResponse`.
- `ContactStore` (contact_store.dfy): class `Collection`, holding the stored
  contacts, with `POST /api/contact` and `GET /api/contacts`.
- `ContactFlow` (contact_flow.dfy): what a server reply becomes on the client,
  and the inputs where the client's checks and the server's disagree.

Inputs the code gets from outside are parameters:
- the result of the HTTP request, as seen by the client;
- pydantic's `EmailStr` check (`string -> Option<string>`);
- the generated id and the creation time;
- the client address and the user-agent header;
- what `insert_one` did.

## Model

| member | source | states |
|---|---|---|
| Text.Strip | frontend/src/components/Contact.js:71-73 | trimming removes exactly the whitespace at both ends: the result has none at either end, and it is empty exactly when the input is all whitespace |
| Text.StripIsInfix | backend/server.py:56 | the stripped value is a contiguous middle part of the input, and only whitespace lies before and after it |
| Text.StripIdempotent | backend/server.py:56-60 | stripping twice gives the same value as stripping once |
| Text.StripNoEdge | frontend/src/components/Contact.js:72 | a value with no whitespace at either end is left unchanged by trimming |
| Text.JsBlank | frontend/src/components/Contact.js:38 | `!x.trim()` holds exactly when every character of x is JavaScript whitespace |
| Text.JsBlankIsEmptyTrim | frontend/src/components/Contact.js:38 | a value is blank exactly when trimming it gives the empty string |
| EmailPattern.TestEmailPattern | frontend/src/components/Contact.js:42 | the computed test agrees with the regular expression on every string |
| EmailPattern.EmailShapeIsRegex | frontend/src/components/Contact.js:42 | the regex accepts exactly the strings with one `@`, no whitespace, a non-empty local part and a `.` strictly inside the domain |
| ContactForm.FormData.With | frontend/src/components/Contact.js:25-28 | the named field takes the new value and every other field is kept |
| ContactForm.ValidateForm | frontend/src/components/Contact.js:35-51 | each message is listed exactly when its rule fails, in name, email, message order, each at most once; the list is empty exactly when the form is acceptable; the first entry is the first failing field |
| ContactForm.ClientChecksMeanRules | frontend/src/components/Contact.js:38-48 | each of the three client checks, as written with trim and length, fails exactly when the field's rule is broken |
| ContactForm.MatchingEmailIsTrimmed | frontend/src/components/Contact.js:42 | an address the regex accepts is non-empty and unchanged by trim |
| ContactForm.AcceptedPayload | frontend/src/components/Contact.js:70-74 | the payload posted for an accepted form has a non-empty name and message with no whitespace at either end, and the e-mail exactly as typed |
| ContactForm.UntrimmedLengthCounts | frontend/src/components/Contact.js:38-71 | the name length is checked before trimming: " a" passes, yet "a" is what is posted |
| ContactForm.ErrorToast | frontend/src/components/Contact.js:87-108 | the error toast is always destructive; for status 429 it is exactly the rate-limit notice ("Rate Limit Exceeded", "Please wait a moment before sending another message."), and that title appears for no other status; otherwise it is titled "Error" and shows the server's non-empty detail, or the generic text when there is none |
| ContactForm.ButtonLabel | frontend/src/components/Contact.js:241-261 | the button reads "Sending..." exactly while submitting; otherwise "Message Sent!" exactly on success, "Try Again" exactly on error, and "Send Message" exactly with no status |
| ContactForm.ButtonTone | frontend/src/components/Contact.js:233-239 | the button is green exactly on success, red exactly on error, and sky exactly with no status |
| ContactForm.LabelAgreesWithTone | frontend/src/components/Contact.js:233-261 | in every reachable state, green goes with "Message Sent!", red with "Try Again", and "Sending..." shows exactly while submitting |
| ContactForm.Form.ButtonShowsState | frontend/src/components/Contact.js:233-261 | in every state the form reaches, the label and colour agree, and "Message Sent!" only shows over a cleared form |
| ContactForm.Form.constructor | frontend/src/components/Contact.js:16-22 | the form starts empty, not submitting and with no status |
| ContactForm.Form.HandleInputChange | frontend/src/components/Contact.js:24-33 | the edited field takes the typed value, the others are kept, and the status is cleared |
| ContactForm.Form.BeginSubmit | frontend/src/components/Contact.js:53-74 | a refused form shows the first problem in a validation toast and changes nothing; an accepted form starts submitting with the status cleared and posts the trimmed fields |
| ContactForm.Form.FinishSubmit | frontend/src/components/Contact.js:76-111 | success clears the form, sets the success status and shows the server's message; a reply without success changes nothing else; a thrown request sets the error status and shows the error toast; submitting always ends |
| ContactForm.Form.HandleSubmit | frontend/src/components/Contact.js:53-112 | the whole handler: refused forms post nothing and show the first problem; accepted forms post their trimmed fields and end as FinishSubmit describes: success shows the server's message, a reply without success shows nothing, a thrown request shows the error toast |
| ContactRecords.MatchesNamePattern | backend/server.py:54 | the name pattern matches exactly the non-empty strings of ASCII letters and Python whitespace |
| ContactRecords.ValidateName | backend/server.py:48-56 | a name passes exactly when it is present, 2 to 50 characters long as sent, and made only of letters and whitespace; the stored value is the stripped name |
| ContactRecords.ValidateEmail | backend/server.py:49 | an e-mail passes exactly when it is present and EmailStr accepts it, and the address EmailStr yields is kept |
| ContactRecords.ValidateMessage | backend/server.py:50-60 | a message passes exactly when it is present and 10 to 1000 characters long as sent; the stored value is the stripped message |
| ContactRecords.ValidateSubmission | backend/server.py:47-60 | a submission is built exactly when all three fields pass; otherwise every failing field is reported with its own problem, in field order, each at most once |
| ContactRecords.ValidatedIsAdmitted | backend/server.py:47-60 | every validated submission has a name of at most 50 letters and spaces and a message of at most 1000 characters, neither with whitespace at either end |
| ContactRecords.NewContact | backend/server.py:99-105 | the stored record carries the submission's fields, the given id and time, status "new", the client address, and the user-agent header or "" when none was sent |
| ContactRecords.StrippedNameMayBeShort | backend/server.py:48-56 | the bounds apply before stripping: "  a" passes and is stored as "a" |
| ContactRecords.BlankNameIsKeptEmpty | backend/server.py:52-56 | a name of spaces only passes and is stored as the empty string |
| ContactRecords.SampleInputsRefused | backend/server.py:47-60 | names with digits or punctuation are refused by the pattern, a 5-character message is too short and a 1001-character one too long |
| ContactRecords.RefusedEmailRefusesSubmission | backend/server.py:49 | an address EmailStr refuses makes the submission fail, with the e-mail error reported |
| ContactStore.NewestFirst | backend/server.py:127 | sorting by created_at descending returns the same contacts (a permutation), newest first |
| ContactStore.SplitNewest | backend/server.py:127 | cutting a newest-first list leaves in the second part only contacts no newer than any in the first |
| ContactStore.Newest | backend/server.py:127 | the first k of the sorted cursor: k contacts, newest first, all drawn from the collection, and no left-out contact is newer than any listed one |
| ContactStore.Collection.SubmitContact | backend/server.py:96-122 | the contact is appended whenever the insert writes it; success exactly when the insert reports an id, with the thank-you message and the new id; every failure becomes one 500 "Failed to submit contact form"; stored contacts stay well formed |
| ContactStore.Collection.PostContact | backend/server.py:94-122 | a body that fails validation gets 422 with the field errors and nothing is stored; a valid one goes on as in SubmitContact |
| ContactStore.Collection.ListContacts | backend/server.py:124-128 | the limit defaults to 50; a negative limit fails; otherwise the result holds min(limit, stored) contacts, newest first, drawn from the collection, with no left-out contact newer than a listed one |
| ContactFlow.Delivered | frontend/src/components/Contact.js:69-99 | a 200 reaches the handler as its body's success flag and message; any other reply is thrown with its status, and an HTTPException's detail arrives unchanged |
| ContactFlow.SavedIsThanked | backend/server.py:110-116 | a saved contact is shown to the user with the server's thank-you message |
| ContactFlow.FailedSaveShowsOuterDetail | backend/server.py:117-122 | a failed save reaches the user as "Failed to submit contact form", never as the inner "Failed to save contact" |
| ContactFlow.RateLimitedShowsNotice | frontend/src/components/Contact.js:90-95 | a 429 from the rate limiter is shown as the rate-limit notice, whatever its detail |
| ContactFlow.PaddedNamePassesClientOnly | frontend/src/components/Contact.js:38-71 | for any form named " a", the client's name rule passes, and the submission built from its trimmed payload is refused with the name too short |
| ContactFlow.DigitsPassClientOnly | backend/server.py:54-55 | for any form named "John123", the client's name rule passes, and the submission built from its trimmed payload is refused by the name pattern |

## Left out

- The page's fade-in of this section (the IntersectionObserver in Portfolio.js over `.section-animate`), the contact-information cards and the markup: they are rendering, not logic.
- The rate limiter (`@limiter.limit("5/minute")`): its per-address counters and clock are not modelled. A 429 enters the model only as a reply the client receives.
- `EmailStr` is a parameter. Its own grammar and its normalisation of the address belong to the email-validator library, which is not part of this model.
- `uuid.uuid4()` and `datetime.utcnow()` are parameters, and creation times are integers. Uniqueness of ids is not modelled.
- The MongoDB collection is a sequence. What `insert_one` did is a parameter. Documents are read back unchanged, so `Contact(**contact)` is the identity.
- ContactStore.NewestFirst fixes one order for contacts with equal creation times. The database leaves that order unspecified.
- ContactStore.Collection.ListContacts takes `to_list(0)` to return no contacts. A negative limit is modelled as a failed request, not as a particular status.
- Logging, CORS, the root and status-check endpoints, and database shutdown are outside the contact path.
- Lengths count Unicode code points. JavaScript `.length` counts UTF-16 units, so the client's length rules differ for characters outside the Basic Multilingual Plane.
- pydantic's coercion of non-string JSON values and its handling of `null` are not modelled. A field is either a string or absent.
- ContactFlow.Delivered renders a 422 error list to a string with a given function. In JavaScript a non-empty list is truthy and is shown as it is.
- The server never answers 200 with `success: false`. The client's branch for that case is modelled (it changes nothing) but never reached.
- React's batching of state updates and re-renders is not modelled. Each handler runs on the current state.
