/** The POST /feedback handler: read and strip the three fields, reject a
    blank resume or job role with 400, sanitise the free text, render the
    prompt, make one call to the completion provider and map its reply (or the
    exception raised on the way) to the handler's response. */
module Relay {
  import opened Python
  import Text
  import Decimal
  import Prompt

  /** Characters of the sanitised resume and job description. */
  const ResumeLimit: nat := 4000
  const DescriptionLimit: nat := 1000

  const Endpoint: string := "https://api.groq.com/openai/v1/chat/completions"
  const ModelName: string := "groq/compound"
  const MaxTokens: nat := 800

  const BlankMessage: string := "Resume text and job role are required"
  const NoChoicesMessage: string := "No choices returned from Groq"

  /** GROQ_API_KEY as read from the environment at start-up. */
  datatype ApiKey = Unset | Key(value: string)

  /** What Flask hands the handler: the decoded JSON body, or the failure to
      read one. */
  datatype Inbound = Body(json: Json) | Unreadable(message: string)

  /** The three fields after `.strip()`. */
  datatype Fields = Fields(jobRole: string, resumeText: string, jobDesc: string)

  /** One entry of the payload's "messages" list. */
  datatype ChatMessage = ChatMessage(role: string, content: string)

  /** The provider request: URL, headers and JSON payload (the sampling
      temperature is not part of the model). */
  datatype Outbound = Outbound(
    url: string,
    authorization: string,
    contentType: string,
    model: string,
    messages: seq<ChatMessage>,
    maxTokens: nat)

  /** What came back from the provider call. */
  datatype ProviderOutcome =
    | Failed(error: Exception)                           // requests.post raised
    | Replied(status: int, text: string, body: Reply)

  /** `response.json()`: the decoded body, or why it could not be decoded. */
  datatype Reply = Parsed(json: Json) | Unparsable(message: string)

  /** The handler's outcome, before it is rendered as an HTTP response. */
  datatype Outcome =
    | Feedback(content: Json)                  // 200 {"feedback": content}
    | Blank                                    // 400 {"error": BlankMessage}
    | ProviderError(status: int, text: string)  // 500 {"error": "Groq error <status>", "details": text}
    | NoChoices(body: Json)                 // 500 {"error": NoChoicesMessage, "details": body}
    | Crashed(error: Exception)                // 500 {"error": str(e)}

  /** Where the handler stands once the request has been read: finished
      without calling out, or ready to send one request. */
  datatype Stage = Finished(outcome: Outcome) | Send(request: Outbound)

  /** One run of the handler: its outcome and the requests it sent, in order. */
  datatype Exchange = Exchange(outcome: Outcome, sent: seq<Outbound>)

  /** An HTTP response: status code and JSON body. */
  datatype Response = Response(status: int, body: Json)

  /** A body whose three fields are each absent or a string, so that reading
      them cannot raise. */
  ghost predicate TextFields(m: map<string, Json>) {
    TextField(m, "job_role") && TextField(m, "resume_text") && TextField(m, "job_desc")
  }

  /** The field `name` is absent or a string. */
  ghost predicate TextField(m: map<string, Json>, name: string) {
    name in m ==> m[name].Str?
  }

  /** The text of a field of such a body, "" when absent. */
  function Raw(m: map<string, Json>, name: string): string {
    if name in m && m[name].Str? then m[name].s else ""
  }

  /** The three fields of a body, stripped, with "" for a field that is absent or
      not a string. */
  function StrippedFields(m: map<string, Json>): Fields {
    Fields(Text.Strip(Raw(m, "job_role")), Text.Strip(Raw(m, "resume_text")), Text.Strip(Raw(m, "job_desc")))
  }

  /** `data.get(name, "").strip()`: only a dict has `get`, and only a string
      (the default "" included) has `strip`. */
  function Field(data: Json, name: string): (r: Result<string>)
    ensures r.Return? <==> data.Object? && TextField(data.fields, name)
    ensures r.Return? ==> r.value == Text.Strip(Raw(data.fields, name))
    ensures !data.Object? ==> r.error == AttributeError(TypeName(data), "get")
    ensures data.Object? && !TextField(data.fields, name) ==>
      r.error == AttributeError(TypeName(data.fields[name]), "strip")
  {
    var v :- Get(data, name, Str(""));
    StripValue(v)
  }

  /** Lines 21-24: the body, then job_role, resume_text and job_desc, each read
      and stripped in that order; the first failure is the one raised. */
  function ReadFields(inbound: Inbound): (r: Result<Fields>)
    ensures inbound.Unreadable? ==> r == Raise(RequestBodyError(inbound.message))
    ensures inbound.Body? && !inbound.json.Object? ==>
      r == Raise(AttributeError(TypeName(inbound.json), "get"))
    ensures r.Return? ==> inbound.Body? && inbound.json.Object?
    ensures inbound.Body? && inbound.json.Object? ==> (r.Return? <==> TextFields(inbound.json.fields))
    ensures r.Return? ==> r.value == StrippedFields(inbound.json.fields)
    ensures inbound.Body? && inbound.json.Object? && !TextField(inbound.json.fields, "job_role") ==>
      r == Raise(AttributeError(TypeName(inbound.json.fields["job_role"]), "strip"))
    ensures inbound.Body? && inbound.json.Object? && TextField(inbound.json.fields, "job_role")
            && !TextField(inbound.json.fields, "resume_text") ==>
      r == Raise(AttributeError(TypeName(inbound.json.fields["resume_text"]), "strip"))
    ensures inbound.Body? && inbound.json.Object? && TextField(inbound.json.fields, "job_role")
            && TextField(inbound.json.fields, "resume_text") && !TextField(inbound.json.fields, "job_desc") ==>
      r == Raise(AttributeError(TypeName(inbound.json.fields["job_desc"]), "strip"))
  {
    match inbound
    case Unreadable(m) => Raise(RequestBodyError(m))
    case Body(data) =>
      var role :- Field(data, "job_role");
      var resume :- Field(data, "resume_text");
      var desc :- Field(data, "job_desc");
      Return(Fields(role, resume, desc))
  }

  /** The bearer header: the f-string renders an unset key as "None". */
  function Authorization(key: ApiKey): (h: string)
    ensures "Bearer " <= h
    ensures key.Key? ==> h[|"Bearer "|..] == key.value
    ensures key.Unset? ==> h[|"Bearer "|..] == "None"
  {
    match key
    case Unset => "Bearer None"
    case Key(k) => "Bearer " + k
  }

  /** Lines 30-59: sanitise the resume and job description, render the prompt
      around the stripped job role, and build the provider request. The role
      goes in as it is; the resume and description only in sanitised form. */
  function BuildRequest(key: ApiKey, f: Fields): (o: Outbound)
    ensures o.url == Endpoint && o.model == ModelName && o.maxTokens == MaxTokens
    ensures o.contentType == "application/json"
    ensures o.authorization == Authorization(key)
    ensures |o.messages| == 1 && o.messages[0].role == "user"
    ensures var resume := Text.Sanitize(f.resumeText, ResumeLimit);
      var desc := Text.Sanitize(f.jobDesc, DescriptionLimit);
      o.messages[0].content == Prompt.Fill(Prompt.Feedback(), f.jobRole, resume, desc)
  {
    var resume := Text.Sanitize(f.resumeText, ResumeLimit);
    var desc := Text.Sanitize(f.jobDesc, DescriptionLimit);
    Outbound(Endpoint, Authorization(key), "application/json", ModelName,
             [ChatMessage("user", Prompt.Fill(Prompt.Feedback(), f.jobRole, resume, desc))], MaxTokens)
  }

  /** Lines 20-63: everything the handler does before the provider call. A
      failure to read the fields ends the run with 500, a blank resume or role
      with 400; otherwise one request is ready to send. */
  function Prepare(key: ApiKey, inbound: Inbound): (s: Stage)
    ensures s == Finished(Blank) <==>
      ReadFields(inbound).Return? && (ReadFields(inbound).value.resumeText == []
                                      || ReadFields(inbound).value.jobRole == [])
    ensures ReadFields(inbound).Raise? ==> s == Finished(Crashed(ReadFields(inbound).error))
    ensures s.Send? ==> ReadFields(inbound).Return? && s.request == BuildRequest(key, ReadFields(inbound).value)
    ensures ReadFields(inbound).Return? && ReadFields(inbound).value.resumeText != []
            && ReadFields(inbound).value.jobRole != [] ==>
      s == Send(BuildRequest(key, ReadFields(inbound).value))
  {
    match ReadFields(inbound)
    case Raise(e) => Finished(Crashed(e))
    case Return(f) =>
      if f.resumeText == [] || f.jobRole == [] then Finished(Blank)
      else Send(BuildRequest(key, f))
  }

  /** `choices` is a non-empty list whose first entry is a dict holding a dict
      under "message" that has a "content" key. */
  ghost predicate HasFirstContent(choices: Json) {
    && choices.Array? && choices.items != []
    && var first := choices.items[0];
    && first.Object? && "message" in first.fields
    && first.fields["message"].Object? && "content" in first.fields["message"].fields
  }

  /** `choices[0]["message"]["content"]`: it succeeds exactly when that path
      exists, and then yields the content unchanged. A dict of choices always
      fails on the integer key, an empty list on the index. */
  function FirstContent(choices: Json): (r: Result<Json>)
    ensures r.Return? <==> HasFirstContent(choices)
    ensures r.Return? ==> r.value == choices.items[0].fields["message"].fields["content"]
    ensures choices.Object? ==> r == Raise(KeyError(Position(0)))
    ensures choices.Array? && choices.items == [] ==> r == Raise(IndexError("list"))
    ensures choices.Array? && choices.items != [] && !choices.items[0].Object? ==>
      r.Raise? && r.error.TypeError?
    ensures choices.Array? && choices.items != [] && choices.items[0].Object?
            && "message" !in choices.items[0].fields ==>
      r == Raise(KeyError(Name("message")))
    ensures choices.Array? && choices.items != [] && choices.items[0].Object?
            && "message" in choices.items[0].fields && !choices.items[0].fields["message"].Object? ==>
      r.Raise? && r.error.TypeError?
    ensures choices.Array? && choices.items != [] && choices.items[0].Object?
            && "message" in choices.items[0].fields && choices.items[0].fields["message"].Object?
            && "content" !in choices.items[0].fields["message"].fields ==>
      r == Raise(KeyError(Name("content")))
    ensures choices.Str? && choices.s == [] ==> r == Raise(IndexError("str"))
    ensures choices.Null? || choices.Bool? || choices.Number? || (choices.Str? && choices.s != []) ==>
      r.Raise? && r.error.TypeError?
  {
    var first :- Subscript(choices, Position(0));
    var message :- Subscript(first, Name("message"));
    Subscript(message, Name("content"))
  }

  /** Lines 73-78 after decoding: a present, truthy `choices` gives its first
      message's content; otherwise the whole body comes back as details. */
  function ChoicesOutcome(result: Json): (o: Outcome)
    ensures o.Feedback? || o.Crashed? || o == NoChoices(result)
    ensures result.Object? ==>
      (o == NoChoices(result) <==> "choices" !in result.fields || !Truthy(result.fields["choices"]))
    ensures o.Feedback? <==>
      && result.Object? && "choices" in result.fields && Truthy(result.fields["choices"])
      && HasFirstContent(result.fields["choices"])
    ensures o.Feedback? ==> o.content == FirstContent(result.fields["choices"]).value
    ensures result.Object? && "choices" in result.fields && Truthy(result.fields["choices"])
            && !HasFirstContent(result.fields["choices"]) ==>
      o == Crashed(FirstContent(result.fields["choices"]).error)
    ensures result.Array? || result.Str? ==> (o == NoChoices(result) <==> !Contains(result, "choices").value)
    ensures (result.Array? || result.Str?) && o != NoChoices(result) ==> o.Crashed? && o.error.TypeError?
    ensures !(result.Object? || result.Array? || result.Str?) ==> o.Crashed? && o.error.TypeError?
  {
    match Contains(result, "choices")
    case Raise(e) => Crashed(e)
    case Return(present) =>
      if !present then NoChoices(result)
      else
        match Subscript(result, Name("choices"))
        case Raise(e) => Crashed(e)
        case Return(choices) =>
          if !Truthy(choices) then NoChoices(result)
          else
            match FirstContent(choices)
            case Raise(e) => Crashed(e)
            case Return(content) => Feedback(content)
  }

  /** Lines 63-83 after the call: map the provider's outcome to the handler's. */
  function Complete(reply: ProviderOutcome): (o: Outcome)
    ensures reply.Failed? ==> o == Crashed(reply.error)
    ensures reply.Replied? && reply.status != 200 ==> o == ProviderError(reply.status, reply.text)
    ensures o.ProviderError? ==> reply.Replied? && reply.status == o.status != 200 && o.text == reply.text
    ensures o.Feedback? || o.NoChoices? ==> reply.Replied? && reply.status == 200 && reply.body.Parsed?
    ensures reply.Replied? && reply.status == 200 && reply.body.Unparsable? ==>
      o == Crashed(DecodeError(reply.body.message))
    ensures reply.Replied? && reply.status == 200 && reply.body.Parsed? ==> o == ChoicesOutcome(reply.body.json)
    ensures o != Blank
  {
    match reply
    case Failed(e) => Crashed(e)
    case Replied(status, text, body) =>
      if status != 200 then ProviderError(status, text)
      else
        match body
        case Unparsable(m) => Crashed(DecodeError(m))
        case Parsed(result) => ChoicesOutcome(result)
  }

  /** The whole handler, with the provider call as a parameter: at most one
      request goes out, and only when Prepare built it. */
  function Handle(key: ApiKey, inbound: Inbound, provider: Outbound -> ProviderOutcome): (x: Exchange)
    ensures |x.sent| <= 1
    ensures x.sent == [] <==> Prepare(key, inbound).Finished?
    ensures x.sent == [] ==> x.outcome == Prepare(key, inbound).outcome
    ensures x.sent != [] ==> x.sent[0] == Prepare(key, inbound).request
                             && x.outcome == Complete(provider(x.sent[0]))
  {
    match Prepare(key, inbound)
    case Finished(o) => Exchange(o, [])
    case Send(req) => Exchange(Complete(provider(req)), [req])
  }

  /** `jsonify(...)` and the status code of each return statement. */
  function Render(o: Outcome): (r: Response)
    ensures r.status == 200 <==> o.Feedback?
    ensures r.status == 400 <==> o.Blank?
    ensures r.status == 500 <==> o.ProviderError? || o.NoChoices? || o.Crashed?
    ensures r.body.Object?
    ensures o.Feedback? ==> r.body == Object(map["feedback" := o.content])
    ensures o.Blank? ==> r.body == Object(map["error" := Str(BlankMessage)])
    ensures o.ProviderError? ==>
      r.body == Object(map["error" := Str("Groq error " + Decimal.IntText(o.status)), "details" := Str(o.text)])
    ensures o.NoChoices? ==> r.body == Object(map["error" := Str(NoChoicesMessage), "details" := o.body])
    ensures o.Crashed? ==> r.body == Object(map["error" := Str(Message(o.error))])
  {
    match o
    case Feedback(content) => Response(200, Object(map["feedback" := content]))
    case Blank => Response(400, Object(map["error" := Str(BlankMessage)]))
    case ProviderError(status, text) =>
      Response(500, Object(map["error" := Str("Groq error " + Decimal.IntText(status)),
                               "details" := Str(text)]))
    case NoChoices(result) =>
      Response(500, Object(map["error" := Str(NoChoicesMessage), "details" := result]))
    case Crashed(e) => Response(500, Object(map["error" := Str(Message(e))]))
  }

  // Properties of the handler

  /** Lines 22-27: with readable fields, the handler answers 400 exactly when the
      job role or the resume is missing or all whitespace, and then sends
      nothing; otherwise it sends exactly one request. */
  lemma BlankIff(key: ApiKey, m: map<string, Json>, provider: Outbound -> ProviderOutcome)
    requires TextFields(m)
    ensures var x := Handle(key, Body(Object(m)), provider);
      && (x.outcome == Blank <==> Text.AllSpace(Raw(m, "job_role")) || Text.AllSpace(Raw(m, "resume_text")))
      && (x.outcome == Blank <==> x.sent == [])
      && (x.outcome != Blank <==> |x.sent| == 1)
  {
    assert ReadFields(Body(Object(m))) == Return(StrippedFields(m));
  }

  /** A 400 is decided before any request exists: the provider is never
      consulted, so every provider gives the same run. */
  lemma BlankNeedsNoProvider(key: ApiKey, inbound: Inbound, p: Outbound -> ProviderOutcome,
                             q: Outbound -> ProviderOutcome)
    requires Handle(key, inbound, p).outcome == Blank
    ensures Handle(key, inbound, p) == Handle(key, inbound, q)
    ensures Handle(key, inbound, p).sent == []
    ensures Render(Handle(key, inbound, p).outcome) == Response(400, Object(map["error" := Str(BlankMessage)]))
  {
    assert Prepare(key, inbound) == Finished(Blank);
  }

  /** With string fields and a non-blank role and resume, exactly one request
      goes out: the one built from the stripped fields, and the outcome is the
      mapping of the provider's reply to it. */
  lemma SentRequest(key: ApiKey, m: map<string, Json>, provider: Outbound -> ProviderOutcome)
    requires TextFields(m)
    requires !Text.AllSpace(Raw(m, "job_role")) && !Text.AllSpace(Raw(m, "resume_text"))
    ensures var o := BuildRequest(key, StrippedFields(m));
      Handle(key, Body(Object(m)), provider) == Exchange(Complete(provider(o)), [o])
  {
    assert ReadFields(Body(Object(m))) == Return(StrippedFields(m));
  }

  /** The resume and job description the handler sends are collapsed and cut
      to their limits, and neither starts with a space. */
  lemma SentText(m: map<string, Json>)
    ensures var f := StrippedFields(m);
      var resume := Text.Sanitize(f.resumeText, ResumeLimit);
      var desc := Text.Sanitize(f.jobDesc, DescriptionLimit);
      && |resume| <= ResumeLimit && |desc| <= DescriptionLimit
      && Text.Collapsed(resume) && Text.Collapsed(desc)
      && !(" " <= resume) && !(" " <= desc)
  {
    Text.SanitizeStrippedHasNoLeadingSpace(Raw(m, "resume_text"), ResumeLimit);
    Text.SanitizeStrippedHasNoLeadingSpace(Raw(m, "job_desc"), DescriptionLimit);
  }

  /** The request built from the stripped fields carries the job role
      unchanged, then the sanitised resume and job description, in that order
      between the fixed parts of the template, under the bearer header. */
  lemma SentPrompt(key: ApiKey, f: Fields)
    ensures var o := BuildRequest(key, f);
      var resume := Text.Sanitize(f.resumeText, ResumeLimit);
      var desc := Text.Sanitize(f.jobDesc, DescriptionLimit);
      var t := Prompt.Feedback();
      && o.authorization == Authorization(key)
      && var p := Prompt.Fill(t, f.jobRole, resume, desc);
      && o.messages == [ChatMessage("user", p)]
      && Text.OccursAt(f.jobRole, p, |t.opening|)
      && Text.OccursAt(resume, p, Prompt.ResumeAt(t, |f.jobRole|))
      && Text.OccursAt(desc, p, Prompt.DescriptionAt(t, |f.jobRole|, |resume|))
  {
  }

  /** Lines 67-71: any status but 200 gives a ProviderError carrying the raw
      text, whatever the body decodes to, and the status can be read back from
      the error message. */
  lemma NonOkStatus(status: int, text: string, body: Reply, other: Reply)
    requires status != 200
    ensures Complete(Replied(status, text, body)) == Complete(Replied(status, text, other))
    ensures var r := Render(Complete(Replied(status, text, body)));
      var prefix := "Groq error ";
      && r.status == 500
      && r.body.fields["details"] == Str(text)
      && r.body.fields["error"].Str?
      && prefix <= r.body.fields["error"].s
      && Decimal.ParseInt(r.body.fields["error"].s[|prefix|..]) == status
  {
    var prefix := "Groq error ";
    var e := prefix + Decimal.IntText(status);
    assert e[|prefix|..] == Decimal.IntText(status);
    Decimal.IntTextRoundTrip(status);
  }

  /** Lines 74-76: status 200 with a non-empty list of choices gives the first
      choice's message content, unmodified, as the feedback. */
  lemma FirstChoiceIsFeedback(text: string, result: Json, c: Json)
    requires result.Object? && "choices" in result.fields && HasFirstContent(result.fields["choices"])
    requires result.fields["choices"].items[0].fields["message"].fields["content"] == c
    ensures Complete(Replied(200, text, Parsed(result))) == Feedback(c)
    ensures Render(Complete(Replied(200, text, Parsed(result)))) == Response(200, Object(map["feedback" := c]))
  {
  }

  /** Lines 74-78: for a JSON object at status 200, the answer is NoChoices with
      the whole body exactly when `choices` is missing or falsy (an empty list
      among others). */
  lemma NoChoicesIff(text: string, m: map<string, Json>)
    ensures Complete(Replied(200, text, Parsed(Object(m)))) == NoChoices(Object(m))
      <==> "choices" !in m || !Truthy(m["choices"])
  {
  }

  /** Lines 73-78 for a JSON object at status 200: feedback exactly when
      `choices` is truthy and the first choice's message content can be read. */
  lemma FeedbackIff(text: string, m: map<string, Json>)
    ensures Complete(Replied(200, text, Parsed(Object(m)))).Feedback?
      <==> "choices" in m && Truthy(m["choices"]) && FirstContent(m["choices"]).Return?
    ensures Complete(Replied(200, text, Parsed(Object(m)))).Feedback? ==>
      Complete(Replied(200, text, Parsed(Object(m)))).content == FirstContent(m["choices"]).value
  {
  }

  /** Line 21-22: a request whose body is JSON `null` is not a 400: `data.get`
      raises and the catch-all answers 500. */
  lemma NullBodyIsServerError(key: ApiKey, provider: Outbound -> ProviderOutcome)
    ensures Handle(key, Body(Null), provider) ==
      Exchange(Crashed(AttributeError("NoneType", "get")), [])
    ensures Render(Handle(key, Body(Null), provider).outcome) ==
      Response(500, Object(map["error" := Str(Message(AttributeError("NoneType", "get")))]))
  {
  }

  /** Line 24 runs before line 26: a job description that is present but not a
      string raises on `strip` whatever the other fields hold, even when the job
      role is blank, so the answer is 500 rather than 400 and nothing is sent. */
  lemma DescriptionReadBeforeCheck(key: ApiKey, m: map<string, Json>, provider: Outbound -> ProviderOutcome)
    requires TextField(m, "job_role") && TextField(m, "resume_text")
    requires "job_desc" in m && !m["job_desc"].Str?
    ensures var e := AttributeError(TypeName(m["job_desc"]), "strip");
      Handle(key, Body(Object(m)), provider) == Exchange(Crashed(e), [])
  {
    var e := AttributeError(TypeName(m["job_desc"]), "strip");
    assert Field(Object(m), "job_desc") == Raise(e);
    assert ReadFields(Body(Object(m))) == Raise(e);
  }

  /** `{"job_role": "", "resume_text": "CV", "job_desc": 5}`: 500 with
      "'int' object has no attribute 'strip'", not 400. */
  lemma NumericDescriptionExample(key: ApiKey, provider: Outbound -> ProviderOutcome)
    ensures var m := map["job_role" := Str(""), "resume_text" := Str("CV"), "job_desc" := Number(5)];
      Handle(key, Body(Object(m)), provider).outcome == Crashed(AttributeError("int", "strip"))
  {
    var m := map["job_role" := Str(""), "resume_text" := Str("CV"), "job_desc" := Number(5)];
    DescriptionReadBeforeCheck(key, m, provider);
  }

  /** Status 429: 500, the code in the error, the raw body in details. */
  lemma TooManyRequestsExample(text: string, body: Reply)
    ensures Render(Complete(Replied(429, text, body))) ==
      Response(500, Object(map["error" := Str("Groq error 429"), "details" := Str(text)]))
  {
    assert Decimal.DigitChar(4) == '4' && Decimal.DigitChar(2) == '2' && Decimal.DigitChar(9) == '9';
    assert Decimal.NatText(4) == "4";
    assert Decimal.NatText(42) == "42";
    assert Decimal.IntText(429) == "429";
    assert "Groq error " + "429" == "Groq error 429";
  }

  /** `{"choices": []}` at status 200: 500 with the whole body as details. */
  lemma EmptyChoicesExample(text: string)
    ensures var body := Object(map["choices" := Array([])]);
      Render(Complete(Replied(200, text, Parsed(body)))) ==
      Response(500, Object(map["error" := Str(NoChoicesMessage), "details" := body]))
  {
  }

  /** `{"choices":[{"message":{"content":"Great resume!"}}]}`: 200 with that text. */
  lemma GreatResumeExample(text: string)
    ensures var body := Object(map["choices" := Array([
        Object(map["message" := Object(map["content" := Str("Great resume!")])])])]);
      Render(Complete(Replied(200, text, Parsed(body)))) ==
      Response(200, Object(map["feedback" := Str("Great resume!")]))
  {
  }
}
