/** `MicrosoftTeamsIncomingWebhookRuby::Message`: a field bag that must hold a url and a text,
    validated on construction and again before each POST to the webhook. */
module Messages {
  import opened Wrappers
  import opened FieldBags
  import opened Errors
  import opened HttpStatus

  /** The fields a message cannot be sent without, in the order they are checked. */
  const RequiredFields: seq<string> := ["url", "text"]

  const JsonContentType: string := "application/json"

  /** `value.nil? || value.empty?` on `builder[field]`: absent, nil or the empty string. */
  predicate Blank(value: Option<Option<string>>) {
    value.None? || value.value.None? || value.value.value == ""
  }

  /** A field holding a non-empty string. */
  ghost predicate Filled(entries: seq<Field>, name: string) {
    exists s :: Lookup(entries, name) == Some(Some(s)) && s != ""
  }

  /** The position of the first of `fields` that is blank in the bag, if any. */
  function FirstBlank(fields: seq<string>, entries: seq<Field>): (r: Option<nat>)
    ensures r.None? <==> forall k :: 0 <= k < |fields| ==> !Blank(Lookup(entries, fields[k]))
    ensures r.Some? ==> r.value < |fields| && Blank(Lookup(entries, fields[r.value]))
    ensures r.Some? ==> forall k :: 0 <= k < r.value ==> !Blank(Lookup(entries, fields[k]))
  {
    if fields == [] then None
    else if Blank(Lookup(entries, fields[0])) then Some(0)
    else match FirstBlank(fields[1..], entries)
      case Some(i) => Some(i + 1)
      case None => None
  }

  /** What `validate_builder` raises for a bag, or None when it returns normally. */
  function Validate(entries: seq<Field>): (r: Option<Failure>)
    ensures r.Some? ==>
      (r.value.InvalidMessage? && r.value.field in RequiredFields && Blank(Lookup(entries, r.value.field)))
    ensures r.None? ==> forall k :: 0 <= k < |RequiredFields| ==> !Blank(Lookup(entries, RequiredFields[k]))
  {
    match FirstBlank(RequiredFields, entries)
    case Some(i) => Some(InvalidMessage(RequiredFields[i]))
    case None => None
  }

  /** A field passes exactly when it holds a non-empty string; missing, nil and "" all fail. */
  lemma BlankIffNotFilled(entries: seq<Field>, name: string)
    ensures Blank(Lookup(entries, name)) <==> !Filled(entries, name)
  {
  }

  /** Validation passes exactly when url and text are both filled. */
  lemma ValidateAccepts(entries: seq<Field>)
    ensures Validate(entries).None? <==> Filled(entries, "url") && Filled(entries, "text")
  {
    BlankIffNotFilled(entries, "url");
    BlankIffNotFilled(entries, "text");
    if Validate(entries).None? {
      assert !Blank(Lookup(entries, RequiredFields[0]));
      assert !Blank(Lookup(entries, RequiredFields[1]));
    }
  }

  /** url is checked first: when it is blank the error names url, whatever text holds. */
  lemma ValidateUrlFirst(entries: seq<Field>)
    ensures !Filled(entries, "url") ==> Validate(entries) == Some(InvalidMessage("url"))
    ensures Filled(entries, "url") && !Filled(entries, "text") ==> Validate(entries) == Some(InvalidMessage("text"))
  {
    BlankIffNotFilled(entries, "url");
    BlankIffNotFilled(entries, "text");
    assert RequiredFields[0] == "url" && RequiredFields[1] == "text";
  }

  /** The error a failed validation raises names a required field that is blank, and says so in its text. */
  lemma ValidateNamesBlankField(entries: seq<Field>)
    requires Validate(entries).Some?
    ensures Validate(entries).value.InvalidMessage?
    ensures var f := Validate(entries).value.field;
      f in RequiredFields && !Filled(entries, f) && Text(Validate(entries).value) == "'" + f + "' must be defined in Message"
    ensures IsA(Validate(entries).value.Class(), GenericErrorClass)
  {
  }

  /** After assigning a required field it is filled exactly when the value is a non-empty string, so nil or "" makes the bag invalid. */
  lemma AssignRequiredField(entries: seq<Field>, name: string, value: Option<string>)
    requires name in RequiredFields
    ensures Filled(Assign(entries, name, value), name) <==> value.Some? && value.value != ""
    ensures value.None? || value == Some("") ==> Validate(Assign(entries, name, value)).Some?
  {
  }

  /** The request `send_by_http` makes: a JSON POST to the url field whose body is the whole bag. */
  datatype Request = Request(url: string, contentType: string, body: seq<Field>)

  /** What the endpoint answers: only `code` is looked at. */
  datatype Response = Response(code: int, body: string)

  /** The request for a bag that has passed validation. */
  function RequestFor(entries: seq<Field>): (req: Request)
    requires Validate(entries).None?
    ensures Lookup(entries, "url") == Some(Some(req.url)) && req.url != ""
    ensures req.body == entries && req.contentType == JsonContentType
  {
    assert !Blank(Lookup(entries, RequiredFields[0]));
    Request(Lookup(entries, "url").value.value, JsonContentType, entries)
  }

  /** `check_failure_for`: None for a 2xx or 3xx answer, otherwise the FailedRequest carrying its code. */
  function CheckFailureFor(response: Response): (r: Option<Failure>)
    ensures r.None? <==> 200 <= response.code <= 399
    ensures r.Some? ==> r.value.FailedRequest? && ParseText(Text(r.value)) == Some(FailedRequest(response.code))
  {
    if IsSuccess(response.code) then None
    else
      TextRoundTrip(FailedRequest(response.code));
      Some(FailedRequest(response.code))
  }

  /** The incoming webhook at the other end of the HTTP POST. Its answer is any function of the request
      and of how many requests reached it before; `sent` records every request in order. */
  class Webhook {
    var sent: seq<Request>
    const answer: (Request, nat) -> Response

    constructor (answer: (Request, nat) -> Response)
      ensures sent == [] && this.answer == answer
    {
      sent := [];
      this.answer := answer;
    }

    method Post(request: Request) returns (response: Response)
      modifies this
      ensures sent == old(sent) + [request]
      ensures response == answer(request, |old(sent)|)
    {
      response := answer(request, |sent|);
      sent := sent + [request];
    }
  }

  class Message {
    /** The bag itself; the reference never changes, its contents do. */
    const builder: FieldBag

    /** Creates the bag and lets the caller fill it: `assignments` are the field assignments the
        caller's block makes, in order. This is `initialize` up to, not including, validation. */
    constructor (assignments: seq<Field>)
      ensures fresh(builder) && builder.Valid()
      ensures builder.entries == AssignAll([], assignments)
    {
      builder := new FieldBag();
      new;
      var i := 0;
      while i < |assignments|
        invariant 0 <= i <= |assignments|
        invariant builder.Valid()
        invariant AssignAll(builder.entries, assignments[i..]) == AssignAll([], assignments)
      {
        assert assignments[i..][1..] == assignments[i + 1..];
        builder.Set(assignments[i].0, assignments[i].1);
        i := i + 1;
      }
    }

    /** `Message.new { ... }`: populate the bag, then validate; a failed validation raises, so no
        message is returned. */
    static method Create(assignments: seq<Field>) returns (r: Result<Message, Failure>)
      ensures r.Failure? <==> Validate(AssignAll([], assignments)).Some?
      ensures r.Failure? ==> r.error == Validate(AssignAll([], assignments)).value
      ensures r.Success? ==> fresh(r.value) && fresh(r.value.builder) && r.value.builder.Valid()
      ensures r.Success? ==> r.value.builder.entries == AssignAll([], assignments)
      ensures r.Success? ==> Filled(r.value.builder.entries, "url") && Filled(r.value.builder.entries, "text")
    {
      var m := new Message(assignments);
      var err, _ := m.ValidateBuilder();
      if err.Some? {
        return Failure(err.value);
      }
      ValidateAccepts(m.builder.entries);
      return Success(m);
    }

    /** `validate_builder`: walks RequiredFields in order and stops at the first blank one.
        `examined` lists the fields looked at, so a blank url leaves text unexamined. */
    method ValidateBuilder() returns (err: Option<Failure>, ghost examined: seq<string>)
      ensures err == Validate(builder.entries)
      ensures err.None? ==> examined == RequiredFields
      ensures err.Some? ==>
        (0 < |examined| <= |RequiredFields| && examined == RequiredFields[..|examined|] && err.value == InvalidMessage(examined[|examined| - 1]))
      ensures err == Some(InvalidMessage("url")) ==> examined == ["url"]
    {
      examined := [];
      var i := 0;
      while i < |RequiredFields|
        invariant 0 <= i <= |RequiredFields|
        invariant examined == RequiredFields[..i]
        invariant forall k :: 0 <= k < i ==> !Blank(Lookup(builder.entries, RequiredFields[k]))
      {
        var field := RequiredFields[i];
        examined := examined + [field];
        if builder.Get(field).None? || builder.Get(field).value == "" {
          return Some(InvalidMessage(field)), examined;
        }
        i := i + 1;
      }
      return None, examined;
    }

    /** `send`: validate again, POST the bag once, and return the answer if its code is 2xx or 3xx.
        A bag that has become invalid raises InvalidMessage before anything is posted. */
    method Send(webhook: Webhook) returns (r: Result<Response, Failure>)
      modifies webhook
      ensures unchanged(builder)
      ensures Validate(builder.entries).Some? ==>
        r == Failure(Validate(builder.entries).value) && webhook.sent == old(webhook.sent)
      ensures Validate(builder.entries).None? ==>
        var request := RequestFor(builder.entries);
        var response := webhook.answer(request, |old(webhook.sent)|);
        && webhook.sent == old(webhook.sent) + [request]
        && r == if IsSuccess(response.code) then Success(response) else Failure(FailedRequest(response.code))
    {
      var err, _ := ValidateBuilder();
      if err.Some? {
        return Failure(err.value);
      }
      var response := webhook.Post(RequestFor(builder.entries));
      var failure := CheckFailureFor(response);
      if failure.Some? {
        return Failure(failure.value);
      }
      return Success(response);
    }
  }

  /** A message built valid and later given an empty text is refused by `send` without any POST. */
  method BlankedTextIsNotSent(webhook: Webhook)
    modifies webhook
  {
    var created := Message.Create([("url", Some("https://example.invalid/hook")), ("text", Some("hi"))]);
    assert UniqueKeys([("url", Some("https://example.invalid/hook")), ("text", Some("hi"))]);
    AssignAllDistinct([("url", Some("https://example.invalid/hook")), ("text", Some("hi"))]);
    var m := created.value;
    AssignRequiredField(m.builder.entries, "text", Some(""));
    m.builder.Set("text", Some(""));
    var before := webhook.sent;
    var r := m.Send(webhook);
    assert r == Failure(InvalidMessage("text"));
    assert webhook.sent == before;
  }
}
