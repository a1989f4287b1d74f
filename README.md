# Resume Reviewer: the /feedback handler in Dafny

Resume Reviewer is a small Flask service. Its one endpoint, POST /feedback, takes a
resume, a target job role and an optional job description. It strips the three fields,
rejects a blank resume or role with 400, collapses whitespace in the free text and
cuts it to 4000 (resume) and 1000 (job description) characters, renders a fixed prompt,
sends it to the Groq chat-completions endpoint and relays the first choice's message
content, or maps the provider's failure to a 500.

This project models that handler as pure functions over values:

- `text.dfy` (module `Text`): Python's whitespace class (`IsSpace`, the `str.isspace`
  set, which `str.strip()` and `\s` share), `Strip`, the collapse `re.sub(r"\s+", " ", s)`
  (`Collapse`), the slice `s[:n]` (`Prefix`) and their composition `Sanitize`, with lemmas
  for the bound, the collapsed form, order preservation and idempotence.
- `python.dfy` (module `Python`): decoded JSON values, the exceptions that reach the
  handler's catch-all, and the Python operations the handler applies to JSON values:
  truthiness, `in`, subscripts, `dict.get`, `str.strip`, and `str(e)`.
- `decimal.dfy` (module `Decimal`): `str(n)` for the status code in "Groq error <status>",
  with a parser and a round-trip lemma.
- `prompt.dfy` (module `Prompt`): the f-string template as a `Template` value, `Fill`, and
  lemmas placing the three fields and the five analysis categories in the prompt.
- `relay.dfy` (module `Relay`): the handler. `ReadFields` and `Prepare` cover everything
  before the provider call. `Complete` maps the provider's outcome. `Handle` composes them,
  with the provider call as a function parameter, and returns the outcome and the list of
  requests sent. `Render` gives the HTTP status and JSON body of each outcome.

Behaviour worth noting:

- A request whose body is missing or is not JSON makes `request.get_json()` raise. From
  Flask 2.1 on it raises a 400 BadRequest (a 415 for a wrong content type from Flask 2.3).
  That is the model's `Unreadable` case. The catch-all turns it into a 500 with the
  exception's text.
- A body that is JSON but not an object, such as `null` or a list, makes `data.get` raise
  AttributeError. The answer is again a 500 from the catch-all, not a 400.
- A `job_desc` that is present but not a string makes `.strip()` raise before the blank
  check. The answer is then 500 even when the role is blank.
- A reply body that decodes to a string passes the `"choices" in result` test when the text
  contains "choices". The subscript `result["choices"]` then raises TypeError, so the answer
  is a 500.
- An unset API key is sent as the header "Bearer None". That is what the f-string gives for `None`.

## Model

| member | source | states |
|---|---|---|
| Text.Strip | app.py:22-24 | `str.strip()` returns the slice after the leading whitespace that leaves only whitespace behind it. The slice neither starts nor ends with whitespace. It is empty exactly when the input is all whitespace. |
| Text.StripKeepsNonSpace | app.py:22-24 | Stripping removes no non-whitespace character. |
| Text.StripIdempotent | app.py:22-24 | Stripping a stripped string changes nothing. |
| Text.Collapse | app.py:30-31 | After the collapse, the only whitespace character is `' '` and no two spaces are adjacent. The output is no longer than the input and empty only for empty input. It starts with a space exactly when the input starts with whitespace. |
| Text.CollapseKeepsNonSpace | app.py:30-31 | The collapse keeps every non-whitespace character, in order. |
| Text.CollapseSplit | app.py:30-31 | Collapsing two pieces that do not meet in whitespace on both sides gives the two collapses side by side. |
| Text.CollapseRun | app.py:30-31 | A non-empty run of whitespace becomes exactly one space. |
| Text.CollapseKeepsChar | app.py:30-31 | A single non-whitespace character is left as it is. With the two lemmas above, this fixes the collapse on every string: each maximal whitespace run becomes one space and nothing else changes. |
| Text.CollapseFixedPoints | app.py:30-31 | The collapse leaves a string unchanged if and only if the string is already in collapsed form. |
| Text.CollapseIdempotent | app.py:30-31 | Collapsing twice gives the same result as collapsing once. |
| Text.Prefix | app.py:30-31 | `s[:n]` is a prefix of `s` of length `min(n, len(s))`. |
| Text.Sanitize | app.py:30-31 | Collapse-then-cut has length at most `n` and is a prefix of the collapsed text. It equals the collapsed text when that fits, and has length exactly `n` otherwise. It is in collapsed form and starts with a space only if the input starts with whitespace. |
| Text.SanitizeKeepsNonSpace | app.py:30-31 | The sanitised text's non-whitespace characters are a prefix of the input's, and all of them when nothing was cut. |
| Text.SanitizeStrippedHasNoLeadingSpace | app.py:22-31 | A stripped field sanitises to text that does not start with a space. |
| Text.SanitizeIdempotent | app.py:30-31 | Sanitising sanitised text with the same bound changes nothing. |
| Text.SanitizeRepeatedPairs | app.py:30 | 10,000 copies of "a " sanitise to exactly 4000 characters: 2000 copies of "a ". |
| Decimal.NatText | app.py:69 | `str(n)` of a natural is a non-empty digit string with no leading zero. |
| Decimal.IntText | app.py:69 | `str(n)` is the digits of `n` for `n >= 0`, and '-' followed by the digits of `-n` otherwise, so it has no leading zero. It starts with '-' exactly for negative `n`. |
| Decimal.NatTextRoundTrip | app.py:69 | Reading the digits of `str(n)` gives back `n`. |
| Decimal.IntTextRoundTrip | app.py:69 | Reading `str(n)` gives back `n`, sign included. |
| Decimal.IntTextInjective | app.py:69 | Different status codes give different error texts. |
| Prompt.Fill | app.py:33-46 | The template holds the opening, the role, the resume label, the resume, the description label, the description and the closing. They appear verbatim, in that order, and do not overlap. |
| Prompt.FillInjective | app.py:33-46 | The three fields can be read back from a prompt once the role and resume lengths are known. |
| Prompt.ClosingListsCategories | app.py:40-45 | Each of the five analysis categories has its own bullet line in the closing text. |
| Prompt.FeedbackListsCategories | app.py:33-46 | Every filled prompt ends with the five category bullets, each at its own offset in the closing text. |
| Prompt.FillListsBullets | app.py:40-46 | A template whose closing is a header and a bullet list puts each bullet at its offset at the end of the filled text. |
| Python.Message | app.py:83 | `str(e)`: an exception with a message shows it unchanged. An AttributeError ends with the quoted attribute name. A KeyError shows a string key between single quotes and an integer key as a number that reads back. An IndexError ends in " index out of range". |
| Python.Truthy | app.py:74 | `bool(x)` is false exactly for None, False, 0, "", [] and {}. |
| Python.IsInfixIff | app.py:74 | The substring test used by `in` on a str holds exactly when the needle sits at some offset. |
| Python.Contains | app.py:74 | `in` is key membership on a dict, element membership on a list and the substring test on a str. On any other value it raises TypeError. |
| Python.Subscript | app.py:74-75 | `x[k]` on a dict succeeds exactly for a present string key and gives its value, else KeyError. On a list or str it succeeds exactly for an integer in `-len <= k < len` and gives the element at that index, counted from the end for a negative index (a one-character str for a str). It raises TypeError for a string key and IndexError for an integer out of range. On None, a bool or a number it raises TypeError. |
| Python.Get | app.py:22-24 | `x.get(key, default)` succeeds exactly on a dict and gives the value under the key, or the default when the key is absent. Any other value raises AttributeError on `get`. |
| Python.StripValue | app.py:22-24 | `x.strip()` succeeds exactly on a str, gives `Strip` of it, and is empty exactly when the text is all whitespace. Any other value raises AttributeError on `strip`. |
| Relay.Authorization | app.py:51 | The header is "Bearer " followed by the key, or by "None" when the key is unset. |
| Relay.Field | app.py:22-24 | `data.get(name, "").strip()` succeeds exactly when the body is a dict and the field is absent or a string. It then gives the stripped text, "" for an absent field. Otherwise it raises AttributeError on `get` for a non-dict body, or on `strip` for a non-string field. |
| Relay.ReadFields | app.py:21-24 | An unreadable body raises RequestBodyError with Flask's message; it stands for Werkzeug's BadRequest (400) and, from Flask 2.3, UnsupportedMediaType (415). A body that is not a JSON object raises AttributeError on `get`. For an object, reading succeeds exactly when each of the three fields is absent or a string, and gives the three stripped texts. Otherwise the first field in the order job_role, resume_text, job_desc that is not a string raises AttributeError on `strip`, naming its type. |
| Relay.BuildRequest | app.py:30-59 | The request goes to the Groq URL with the configured model, 800 max tokens, JSON content type and the bearer header. It carries one user message whose content is the template filled with the stripped role, the sanitised resume and the sanitised description. |
| Relay.Prepare | app.py:20-63 | The handler stops with 400 if and only if the fields were read and the stripped resume or role is empty. A read failure stops it with that exception. Readable, non-blank fields lead to sending exactly the request built from them, and that is the only request it ever builds. |
| Relay.Complete | app.py:63-83 | A raised call gives Crashed with that exception. Any status other than 200 gives ProviderError with that status and the raw text. A 200 reply that cannot be decoded gives Crashed with the decoder's error. A decoded 200 reply gives exactly the outcome `ChoicesOutcome` assigns to its body. Feedback and NoChoices occur only for a decoded reply with status 200. The provider never causes a 400. |
| Relay.FirstContent | app.py:75 | `choices[0]["message"]["content"]` succeeds exactly when that path exists and gives the content unchanged. A dict of choices raises KeyError(0), an empty list or str IndexError. A first choice without "message" raises KeyError('message'), a message without "content" KeyError('content'). A step that meets a value that cannot be subscripted by a string raises TypeError. |
| Relay.ChoicesOutcome | app.py:73-78 | For a dict body, NoChoices with the whole body exactly when `choices` is missing or falsy. Feedback exactly when `choices` is truthy and its first message content can be read, carrying that content. Otherwise it crashes with the exception of `choices[0]["message"]["content"]`. A list or str body gives NoChoices exactly when "choices" is not in it, and a TypeError crash otherwise. Any other body crashes with TypeError. |
| Relay.Handle | app.py:18-83 | At most one request is sent. No request is sent exactly when the handler finished before the call. Otherwise the outcome is the mapping of the provider's reply to that request. |
| Relay.Render | app.py:26-83 | The status is 200 exactly for feedback and 400 exactly for a blank field. Every other outcome is 500. The body is {"feedback": content}, {"error": the required-fields message}, {"error": "Groq error " + str(status), "details": text}, {"error": "No choices returned from Groq", "details": body} or {"error": str(e)}, one per outcome. |
| Relay.BlankIff | app.py:22-27 | With string fields, the answer is 400 exactly when the role or the resume is missing or all whitespace. In that case no request is sent. Otherwise exactly one request is sent. |
| Relay.BlankNeedsNoProvider | app.py:26-27 | A 400 does not depend on the provider and sends nothing. Its body is {"error": "Resume text and job role are required"}. |
| Relay.SentRequest | app.py:22-63 | With string fields and a non-blank role and resume, exactly one request goes out: the one built from the stripped fields. The outcome is the mapping of the provider's reply to it. |
| Relay.SentText | app.py:22-31 | The resume and description that are sent are at most 4000 and 1000 characters, in collapsed form, and neither starts with a space. |
| Relay.SentPrompt | app.py:30-56 | The request carries the bearer header and one user message: the prompt holding the role verbatim, then the sanitised resume and description, in order. |
| Relay.NonOkStatus | app.py:67-71 | For any status other than 200, the outcome does not depend on the body. The answer is 500 with the raw text as details. The status can be read back from the error message. |
| Relay.FirstChoiceIsFeedback | app.py:74-76 | With status 200 and a non-empty `choices` list, the answer is 200 with `choices[0].message.content`, unmodified. |
| Relay.NoChoicesIff | app.py:74-78 | For a JSON object with status 200, the answer is NoChoices with the whole body exactly when `choices` is missing or falsy. |
| Relay.FeedbackIff | app.py:73-78 | For a JSON object with status 200, the answer is feedback exactly when `choices` is truthy and its first message content can be read. The feedback is that content. |
| Relay.NullBodyIsServerError | app.py:21-22 | A JSON `null` body gives 500 with AttributeError on `get`, not 400, and sends nothing. |
| Relay.DescriptionReadBeforeCheck | app.py:22-27 | When the role and resume read, a job_desc that is present but not a string gives a 500 with AttributeError on `strip`, whatever the role holds, and nothing is sent. |
| Relay.NumericDescriptionExample | app.py:22-27 | `{"job_role": "", "resume_text": "CV", "job_desc": 5}` gives AttributeError on `strip`, not the 400 for a blank role. |
| Relay.TooManyRequestsExample | app.py:67-71 | Status 429 gives 500 with {"error": "Groq error 429", "details": raw text}. |
| Relay.EmptyChoicesExample | app.py:74-78 | `{"choices": []}` with status 200 gives 500 with "No choices returned from Groq" and the whole body as details. |
| Relay.GreatResumeExample | app.py:74-76 | A single choice whose content is "Great resume!" gives 200 with {"feedback": "Great resume!"}. |

## Left out

- Flask setup, CORS, routing and `app.run` (app.py:1-9, app.py:89-90) are left out, and so is the `/ping` route (app.py:85-87). They are framework plumbing with no logic.
- Reading `GROQ_API_KEY` from the environment and the start-up prints (app.py:12-16) are left out. The key is the `ApiKey` parameter.
- The `requests.post` call (app.py:63) is not modelled. It is the `provider` function parameter of `Handle`, and its result is a `ProviderOutcome` value. A transport failure is a `Failed` outcome.
- JSON decoding is not modelled. `request.get_json()` gives an `Inbound` value: a decoded `Json` value, or `Unreadable` with Flask's message. `response.json()` gives a `Reply` value: decoded, or `Unparsable` with the decoder's message.
- The debug prints of the payload, status and response preview, and `traceback.print_exc()`, are left out (app.py:62, app.py:64-65, app.py:81-82). The model assumes printing does not raise. A print inside the `try` that fails to encode its text (a `UnicodeEncodeError` on a console that cannot show a character) would end in the catch-all's 500; at app.py:62 that happens before any request is sent.
- The payload's `"temperature": 0.7` (app.py:58) is left out. It is a floating-point constant with no effect on the handler's logic.
- JSON numbers are integers in the model. Floating-point values are not represented.
- Python.Message: the texts of `str(e)` follow CPython 3.11's wording for the AttributeError, TypeError, IndexError and KeyError cases. Quoting of a KeyError key is always with single quotes; CPython's `repr` switches to double quotes for keys containing a single quote.
- test_groq.py is not part of this model. It is a standalone script that sends one fixed request and prints the reply.
