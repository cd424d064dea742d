# UPSC question generator: per-session credit ledger

The application is a one-page Streamlit script. A user types a news topic or
uploads a screenshot, presses Generate, and the script asks a language-model
service for ten practice questions. Around that call sits a small per-session
ledger kept in `st.session_state`. It has three keys:

- `credits`, which starts at 2 free credits;
- `total_queries`;
- `query_history`, a list of records of topic, timestamp and output preview.

This project models that ledger and the logic around it in Dafny:

- **Ledger** (`ledger.dfy`, module `Ledger`). The class `Session` holds the
  three keys as optional fields, because a key may not be set yet.
  - `Initialize` is the lazy initialisation. It sets each key only when the key
    is absent.
  - `GenerateEnabled` is the button gating.
  - `HandleGenerate` is the click handler. It takes one credit, counts one query
    and appends one record only when the output is non-empty. In every other
    case it changes nothing.
  - `Rerun` is one run of the script as written. A click reaches it only if
    the page from the previous run showed the button enabled. It initialises
    the keys, renders the button from this run's credits and runs the handler
    on the click. `RerunChecked` is the same run with the credit check that
    the gating is meant to give.
  - `buttonEnabled` is the button as the page in the browser shows it.
  - `Ledger` is the bookkeeping every run keeps: `credits + total_queries == 2`
    and `|query_history| == total_queries`.
  - `Valid` is what the script as written keeps on top of `Ledger`: credits
    never fall below -1. `Solvent` is what the checked run keeps: credits
    never go negative.
  - `Preview` is the stored preview `output[:500] + "..."`.
  - `AttemptGeneration` gives the handler's branches as a value.
- **Topic validation** (`validation.dfy`, module `Validation`).
  - `IsSpace` is Python's `str.isspace()`, written out code point by code point.
  - `LeadingSpaces` and `TrailingSpaces` count what `lstrip` and `rstrip`
    remove, and `Strip` is `strip`: the slice between those two runs.
  - `ValidTopic` is the check "present and at least 5 characters once
    stripped".
- **Generation** (`generation.dfy`, module `Generation`).
  - `DetectMediaType` is the PNG-signature sniffer, following section 3.1 of
    RFC 2083.
  - `ResolveApiKey` is the key lookup: the secrets store first, then the
    environment.
  - `GenerateQuestions` is `generate_questions` as a value. It either stops
    before any client is built, with no key, or it sends a text or image
    request and returns the service's reply.
- **Helpers** (`wrappers.dfy`, module `Wrappers`). `Option`, and `Head`, which
  is Python's prefix slice `s[:n]`.

Inputs outside the program are parameters:

- `secret` and `env` are the two credential sources. `None` means the lookup
  raised or found nothing.
- `reply` is the combined outcome of building the client and calling the
  service. It is `None` when either raised, and `Some(text)` for the first text
  block of the response.
- `timestamp` is the ISO-8601 string from the clock.
- `clicked` is the user's press of the button.

Three details of the code shape the model:

- The preview always ends in `"..."`, even when the output is shorter than 500
  characters. It is never the bare output.
- The handler never checks credits itself. It relies on the button being
  disabled when `credits < 1`. That state is computed before the handler
  spends, so the page shown after the run that spends the last credit still
  has an enabled button. A click on it is handled and takes credits to -1
  (see "## Findings").
- An uploaded but empty file passes the `if not uploaded_image` test. Its bytes
  are then falsy, so `generate_questions` sends a text request whose topic is
  Python's `None`. A non-empty reply is still paid for and recorded as
  "Image Upload". See `EmptyUploadSendsTextRequest`.

## Model

| member | source | states |
|---|---|---|
| Wrappers.Head | streamlit_app.py:453 | Python's `s[:n]` returns the first `min(len(s), n)` elements of `s` and is a prefix of `s` |
| Validation.LeadingRun | streamlit_app.py:443 | the characters `lstrip` removes are all whitespace, and the first character it keeps, if any, is not whitespace |
| Validation.TrailingRun | streamlit_app.py:443 | the characters `rstrip` removes are all whitespace, and the last character it keeps, if any, is not whitespace |
| Validation.StripShape | streamlit_app.py:443 | `strip()` returns a contiguous slice of the topic with only whitespace on either side of it, and the slice is empty or starts and ends with a non-whitespace character |
| Validation.StripKeepsNonSpace | streamlit_app.py:443 | stripping keeps every non-whitespace character, so the trimmed length lies between the number of non-whitespace characters and the raw length |
| Validation.ShortTopicRejected | streamlit_app.py:443-444 | a topic shorter than 5 characters, such as "Hi", is rejected |
| Validation.FiveNonSpaceAccepted | streamlit_app.py:443 | a topic with at least 5 non-whitespace characters is accepted |
| Validation.StripPadStart | streamlit_app.py:443 | whitespace put before a topic does not change its stripped form |
| Validation.StripPadEnd | streamlit_app.py:443 | whitespace put after a topic does not change its stripped form |
| Validation.StripIgnoresPadding | streamlit_app.py:443 | whitespace added before or after a topic changes neither its stripped form nor whether it is accepted |
| Generation.DetectMediaType | streamlit_app.py:360-363 | the media type is `image/png` exactly when the data has at least 8 bytes and they equal 89 50 4E 47 0D 0A 1A 0A; otherwise it is `image/jpeg` |
| Generation.PngPrefixIsPng | streamlit_app.py:360-361 | any data that begins with the PNG signature is labelled `image/png`, whatever follows |
| Generation.ShortImageIsJpeg | streamlit_app.py:360-363 | data shorter than 8 bytes is labelled `image/jpeg` |
| Generation.ResolveApiKey | streamlit_app.py:261-275 | a truthy secret wins; otherwise a truthy environment value is used; the result is absent exactly when neither source is truthy, and a present key is never empty |
| Generation.GenerateQuestions | streamlit_app.py:254-410 | with no key nothing is sent. Otherwise the resolved key is used and the reply is passed through. Non-empty image data is sent as an image with its sniffed media type; anything else is sent as a text request carrying the topic argument |
| Generation.MissingKeySendsNothing | streamlit_app.py:273-275 | without a truthy key in either source, no request is built and the output is `None`, in text mode and in image mode |
| Generation.OutputIsReply | streamlit_app.py:394-410 | with a key, the function returns exactly the service's outcome, `None` on any error |
| Generation.EmptyImageSendsText | streamlit_app.py:355-391 | empty image bytes are falsy, so a text request with the given topic is sent instead of an image |
| Ledger.Preview | streamlit_app.py:453 | the stored preview has length `min(len(output), 500) + 3`, ends in "..." and begins with a prefix of the output |
| Ledger.PreviewOfShortOutput | streamlit_app.py:453 | an output of at most 500 characters is stored whole, followed by "..." |
| Ledger.PreviewOfLongOutput | streamlit_app.py:469 | a longer output is stored as its first 500 characters followed by "..." |
| Ledger.PreviewSeesOnlyHead | streamlit_app.py:453 | two outputs of at least 500 characters that agree on their first 500 characters store the same preview |
| Ledger.AttemptGeneration | streamlit_app.py:441-472 | the handler warns without calling the service exactly when a typed topic is invalid or no image was uploaded, and shows the matching warning text. Otherwise it calls `generate_questions` with the raw topic text, or with no topic and the upload in image mode, and records the raw topic text or "Image Upload" |
| Ledger.SpentOutput | streamlit_app.py:447 | a credit is paid for exactly when the service was called and returned non-empty text, and the spent output is that text |
| Ledger.RejectionSpendsNothing | streamlit_app.py:441-459 | an invalid topic or a missing upload never spends a credit |
| Ledger.FailureSpendsNothing | streamlit_app.py:446-463 | a missing key, a failed call or an empty reply never spends a credit |
| Ledger.SuccessSpendsReply | streamlit_app.py:445-454 | a valid input with a key and a non-empty reply spends exactly that reply |
| Ledger.EmptyUploadSendsTextRequest | streamlit_app.py:457-470 | an empty uploaded file is sent as a text request with no topic, and a success is recorded as "Image Upload" |
| Ledger.Session.constructor | streamlit_app.py:141-148 | a new session has none of the three keys set, and no page with a button has been shown yet |
| Ledger.Session.Initialize | streamlit_app.py:141-148 | each key is set to its default (2 credits, empty history, 0 queries) only if it is absent, so initialising a live session changes nothing; a fresh session or one that keeps the ledger ends up keeping it |
| Ledger.Session.GenerateEnabled | streamlit_app.py:244 | the button is enabled exactly when at least one credit is left, which in a session that keeps the ledger means fewer than 2 queries have been answered |
| Ledger.Session.HandleGenerate | streamlit_app.py:441-472 | with no credit check of its own, a success takes exactly one credit, adds exactly one query and appends exactly one record (topic, timestamp, preview) at the end. Every other outcome leaves the session unchanged. `credits + total_queries == 2` and `len(history) == total_queries` are kept |
| Ledger.Session.Rerun | streamlit_app.py:141-472 | the script as written: the handler runs exactly when the user clicked a button that the previous page showed enabled; the new page's button is enabled exactly when the credits before this run's spend are at least 1; the keys change by one step on success and not at all otherwise; credits stay at -1 or above, and are non-negative whenever the shown button is enabled |
| Ledger.Session.RerunChecked | streamlit_app.py:240-245 | the run with the intended gate: the handler runs only when the click was delivered and credits are at least 1, the keys change as in `Rerun`, and credits never go negative |
| Ledger.SessionBounds | streamlit_app.py:141-142 | in a session kept by the checked run, both credits and total queries lie between 0 and the 2 free credits |
| Ledger.OverdrawBound | streamlit_app.py:240-472 | in the script as written, credits never fall below -1 and at most 3 queries are answered; while the button is shown enabled, at most 2 have been |
| Ledger.OverdrawAsWritten | streamlit_app.py:240-472 | a fresh session with a key and a service that answers: one page view and three clicks leave -1 credits |
| Ledger.OverdrawPrevented | streamlit_app.py:240-245 | the same runs with the credit check leave 0 credits, because the third click is refused |
| Validation.IsSpaceLatin1 | streamlit_app.py:443 | `str.isspace()` on ASCII is space, tab, line feed, carriage return, vertical tab, form feed and the four separators 1C-1F; elsewhere in Latin-1 it is only U+0085 and U+00A0 |
| Validation.Strip | streamlit_app.py:443 | `topic_text.strip()` is never longer than the topic |
| Validation.StripBlank | streamlit_app.py:443-444 | `strip()` returns "" exactly when the topic is whitespace only, so such a topic is rejected whatever its length |
| Validation.ValidTopic | streamlit_app.py:443 | an accepted topic is present and at least 5 characters long before stripping |
| Generation.Output | streamlit_app.py:273-410 | the function returns `None` when no key was found, and otherwise exactly the outcome of the call |

## Left out

- Page rendering is not modelled: CSS, markdown and HTML blocks, columns, the sidebar, the spinner, the balloons, the low-credit warning and the "no credits left" error. They display state and do not change it.
- The Anthropic client and `messages.create` are a network client and a foreign library. Their outcome is the `reply` parameter, and the text of the errors they raise is not modelled.
- The system prompt and the message templates are constant strings, so the `Request` value carries only the topic or the image and its media type. Base64 encoding of the image is a library call and is not modelled.
- `datetime.now()` is a clock. Its ISO string is the `timestamp` parameter, and the download file name is not modelled.
- The secrets store and `os.environ` are environment I/O. They are the `secret` and `env` parameters, and a secrets lookup that raises is `None`.
- `display_output` is not modelled. It shows the output and offers it for download unchanged.
- The payment placeholder, the pricing tables, the sample output and the footer are static content.
- `Rerun`'s click is a parameter. Streamlit's delivery of a click as a rerun, and the click's value being true only in that rerun, are modelled only through `buttonEnabled`.
- Python strings are sequences of code points and are modelled as `seq<char>` over Unicode scalar values. Lone surrogates are not modelled.

## Findings

| source | as written | input that shows it | evidently intended | confidence | as-written member | corrected member |
|---|---|---|---|---|---|---|
| streamlit_app.py:240-472 | the button's `disabled` state is computed from the credits before the handler spends, and the handler does not check credits again, so the page shown after the run that spends the last credit still offers an enabled button | a fresh session with a key and a service that answers: view the page, then click Generate three times with a valid topic; the third click spends a credit that is not there and leaves `credits == -1` with 3 queries recorded | a credit is spent only while at least one is left, so credits never go negative | medium, not executed | Ledger.OverdrawAsWritten | Ledger.Session.RerunChecked |
