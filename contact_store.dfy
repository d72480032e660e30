/** The contacts collection and the two endpoints over it
    (backend/server.py): POST /api/contact and GET /api/contacts. The
    database driver's insert result, the generated id and the clock are
    parameters. */
module ContactStore {
  import opened Results
  import opened ContactRecords

  /** What insert_one did: wrote the document, reporting an inserted id that
      is truthy or not, or raised. */
  datatype InsertOutcome = Written(idTruthy: bool) | Raised

  /** The HTTP answer: 200 with a ContactResponse, 422 with pydantic's field
      errors, or an HTTPException's status and detail. */
  datatype Reply = Ok(body: ContactResponse) | Unprocessable(errors: seq<FieldError>) | HttpError(status: nat, detail: string)

  const SaveFailed := "Failed to save contact"
  const SubmitFailed := "Failed to submit contact form"
  const DefaultListLimit: int := 50

  /** What every contact written by the endpoint satisfies. */
  predicate Stored(c: Contact) {
    c.status == "new" && c.ipAddress.Some? && c.userAgent.Some?
    && Admitted(ContactSubmission(c.name, c.email, c.message))
  }

  /** Newest first: created_at never increases along the list. */
  predicate Descending(s: seq<Contact>) {
    forall a, b :: 0 <= a < b < |s| ==> s[a].createdAt >= s[b].createdAt
  }

  /** A contact no older than the head of a newest-first list can go in front
      of it. */
  lemma ConsDescending(x: Contact, t: seq<Contact>)
    requires Descending(t) && (t != [] ==> t[0].createdAt <= x.createdAt)
    ensures Descending([x] + t)
  {
    var u := [x] + t;
    forall a, b | 0 <= a < b < |u| ensures u[a].createdAt >= u[b].createdAt {
      if a == 0 {
        assert u[b] == t[b - 1];
      } else {
        assert u[a] == t[a - 1] && u[b] == t[b - 1];
      }
    }
  }

  lemma DescendingTail(s: seq<Contact>)
    requires Descending(s) && s != []
    ensures Descending(s[1..])
  {
    var t := s[1..];
    forall a, b | 0 <= a < b < |t| ensures t[a].createdAt >= t[b].createdAt {
      assert t[a] == s[a + 1] && t[b] == s[b + 1];
    }
  }

  /** Putting back the head of s in front of its tail with c added gives s
      with c added. */
  lemma ConsAdded<T>(s: seq<T>, rest: seq<T>, c: T)
    requires s != [] && multiset(rest) == multiset(s[1..]) + multiset{c}
    ensures multiset([s[0]] + rest) == multiset(s) + multiset{c}
  {
    assert s == [s[0]] + s[1..];
  }

  function InsertByTime(c: Contact, s: seq<Contact>): (r: seq<Contact>)
    requires Descending(s)
    ensures Descending(r)
    ensures multiset(r) == multiset(s) + multiset{c}
    ensures |r| == |s| + 1
    ensures r[0] == c || (s != [] && r[0] == s[0])
  {
    if s == [] || s[0].createdAt <= c.createdAt then
      ConsDescending(c, s);
      [c] + s
    else
      DescendingTail(s);
      var rest := InsertByTime(c, s[1..]);
      ConsAdded(s, rest, c);
      ConsDescending(s[0], rest);
      [s[0]] + rest
  }

  /** find().sort("created_at", -1): the same contacts, newest first. The
      order among equal times is not fixed by the database; this is one of
      the orders it may return. */
  function NewestFirst(s: seq<Contact>): (r: seq<Contact>)
    ensures Descending(r)
    ensures multiset(r) == multiset(s)
    ensures |r| == |s|
  {
    if s == [] then []
    else
      assert s == [s[0]] + s[1..];
      InsertByTime(s[0], NewestFirst(s[1..]))
  }

  /** Cutting a newest-first list in two leaves in the second part only
      contacts no newer than any in the first. */
  lemma {:induction false} SplitNewest(s: seq<Contact>, p: seq<Contact>, q: seq<Contact>)
    requires Descending(s) && s == p + q
    ensures Descending(p)
    ensures multiset(s) - multiset(p) == multiset(q)
    ensures forall c, j :: c in multiset(q) && 0 <= j < |p| ==> c.createdAt <= p[j].createdAt
  {
    forall a, b | 0 <= a < b < |p| ensures p[a].createdAt >= p[b].createdAt {
      assert p[a] == s[a] && p[b] == s[b];
    }
    forall c, j | c in multiset(q) && 0 <= j < |p| ensures c.createdAt <= p[j].createdAt {
      var m :| 0 <= m < |q| && q[m] == c;
      assert s[|p| + m] == c && s[j] == p[j];
    }
  }

  /** A part of a rearrangement holds only members of the original, and
      keeps whatever every member of the original satisfies. */
  lemma PartOfSame(s: seq<Contact>, p: seq<Contact>, q: seq<Contact>)
    requires multiset(p + q) == multiset(s)
    ensures multiset(p) <= multiset(s)
    ensures (forall j :: 0 <= j < |s| ==> Stored(s[j])) ==> forall j :: 0 <= j < |p| ==> Stored(p[j])
  {
    assert multiset(p + q) == multiset(p) + multiset(q);
    if forall j :: 0 <= j < |s| ==> Stored(s[j]) {
      forall j | 0 <= j < |p| ensures Stored(p[j]) {
        assert p[j] in multiset(p);
        assert multiset(p)[p[j]] <= multiset(s)[p[j]];
        assert p[j] in multiset(s);
      }
    }
  }

  /** The k newest contacts, newest first: the sorted cursor cut at k. */
  function Newest(s: seq<Contact>, k: nat): (r: seq<Contact>)
    requires k <= |s|
    ensures |r| == k && Descending(r) && multiset(r) <= multiset(s)
    ensures forall c, j :: c in multiset(s) - multiset(r) && 0 <= j < k ==> c.createdAt <= r[j].createdAt
    ensures (forall j :: 0 <= j < |s| ==> Stored(s[j])) ==> forall j :: 0 <= j < k ==> Stored(r[j])
  {
    var sorted := NewestFirst(s);
    var p := sorted[..k];
    var q := sorted[k..];
    assert sorted == p + q;
    SplitNewest(sorted, p, q);
    PartOfSame(s, p, q);
    p
  }

  class Collection {
    /** The documents of db.contacts, in insertion order. */
    var contacts: seq<Contact>

    ghost predicate Valid()
      reads this
    {
      forall k :: 0 <= k < |contacts| ==> Stored(contacts[k])
    }

    constructor()
      ensures Valid() && contacts == []
    {
      contacts := [];
    }

    /** submit_contact, given a ContactSubmission that passed validation:
        builds the Contact and inserts it. Success answers with the thank-you
        message and the new id. Any failure inside the try block, including
        the HTTPException raised for a falsy inserted id, is caught by the
        except clause and answered with one 500. */
    method SubmitContact(sub: ContactSubmission, request: RequestInfo, id: string, createdAt: int,
                         insert: InsertOutcome) returns (reply: Reply)
      requires Valid() && Admitted(sub)
      modifies this
      ensures Valid()
      ensures insert.Written? ==> contacts == old(contacts) + [NewContact(sub, id, createdAt, request)]
      ensures insert.Raised? ==> contacts == old(contacts)
      ensures reply.Ok? <==> insert == Written(true)
      ensures reply.Ok? ==> reply.body == ContactResponse(true, ThankYou, Some(id))
                            && contacts[|contacts| - 1].id == id
      ensures !reply.Ok? ==> reply == HttpError(500, SubmitFailed)
    {
      var contact := NewContact(sub, id, createdAt, request);
      match insert {
        case Raised =>
        case Written(idTruthy) =>
          contacts := contacts + [contact];
          if idTruthy {
            return Ok(ContactResponse(true, ThankYou, Some(id)));
          }
          // submit_contact raises HTTPException(500, SaveFailed) here, inside the try.
      }
      // The except clause logs what was raised and answers with its own 500.
      reply := HttpError(500, SubmitFailed);
    }

    /** POST /api/contact: the body is validated into a ContactSubmission
        first; a refused body is answered with 422 and nothing is written. */
    method PostContact(raw: RawSubmission, check: EmailCheck, request: RequestInfo, id: string,
                       createdAt: int, insert: InsertOutcome) returns (reply: Reply)
      requires Valid()
      modifies this
      ensures Valid()
      ensures ValidateSubmission(raw, check).Failure? ==>
        reply == Unprocessable(ValidateSubmission(raw, check).error) && contacts == old(contacts)
      ensures ValidateSubmission(raw, check).Success? ==>
        && (reply.Ok? <==> insert == Written(true))
        && (insert.Written? ==> contacts == old(contacts) + [NewContact(ValidateSubmission(raw, check).value, id, createdAt, request)])
        && (insert.Raised? ==> contacts == old(contacts))
        && (!reply.Ok? ==> reply == HttpError(500, SubmitFailed))
    {
      var validated := ValidateSubmission(raw, check);
      if validated.Failure? {
        return Unprocessable(validated.error);
      }
      ValidatedIsAdmitted(raw, check);
      reply := SubmitContact(validated.value, request, id, createdAt, insert);
    }

    /** get_contacts: the contacts sorted newest first, at most limit of them
        (GET /api/contacts without a limit uses DefaultListLimit). A negative
        limit makes to_list raise, and the request fails: None. A limit of 0
        returns nothing. */
    method ListContacts(limit: int := DefaultListLimit) returns (r: Option<seq<Contact>>)
      ensures r.None? <==> limit < 0
      ensures r.Some? ==> |r.value| == if limit < |contacts| then limit else |contacts|
      ensures r.Some? ==> Descending(r.value) && multiset(r.value) <= multiset(contacts)
      ensures r.Some? ==> forall c, j :: c in multiset(contacts) - multiset(r.value) && 0 <= j < |r.value|
                            ==> c.createdAt <= r.value[j].createdAt
      ensures r.Some? && Valid() ==> forall k :: 0 <= k < |r.value| ==> Stored(r.value[k])
    {
      if limit < 0 {
        return None;
      }
      var k := if limit < |contacts| then limit else |contacts|;
      r := Some(Newest(contacts, k));
    }
  }
}
