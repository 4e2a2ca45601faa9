# Nurtured Heart compliments: prompt builder, email service and records

This project models the core of the Nurtured Heart compliment service in Dafny
and proves properties of the model:

- `Prompts` models the prompt builder (`backend/prompts.py`). It turns a
  compliment request (recipient name, relationship, qualities, optional
  context, optional tone) into the instruction text for the text-generation
  backend. The prompt is its twelve parts back to back: fixed text, the name,
  the relationship, the qualities joined by ", ", the optional "Recent
  context" section, the tone phrase from a four-entry table (falling back to
  "warm and caring"), the name again, and the closing line "Write the
  compliment directly:". `CreatePrompt` has no precondition, so every input
  yields a prompt, an empty list of qualities included.
- `Email` models the email service (`backend/email_service.py`):
  - `EmailService` is a class configured once from the environment. It is
    enabled exactly when the SMTP host, user and password are all non-empty.
  - `SendCompliment` either reports "Email service not configured" and sends
    nothing, or does three things:
    - composes a `multipart/alternative` message in a `MimeMultipart` object
      that it changes in place. The container starts with its Content-Type
      and MIME-Version headers; the service adds Subject, From and To, then a
      plain-text part and an HTML part;
    - submits the message once with the configured host, port and
      credentials over STARTTLS;
    - reports the transport's outcome.
- `Models` models the request and response records (`backend/models.py`):
  - their field defaults (tone "warm", sender "A Nurtured Heart Friend");
  - the address check that guards `recipient_email`.
- `Strings` holds the text facts the other modules share: where one string
  occurs in another, and Python's `sep.join(items)`.

The SMTP transport is outside the model. Each call to `SendCompliment` takes a
`TransportOutcome` (`Delivered`, or `Raised(text)` for an exception). It
returns the `SmtpSubmission` values it handed to the transport next to its
result.

Two facts about the email service shape the model:

- The email gate (`backend/email_service.py:14`) checks the host, the user and
  the password; the from-address plays no part.
- The recipient's name appears only in the Subject header; neither body
  contains it.

## Model

| member | source | states |
|---|---|---|
| Strings.Join | backend/prompts.py:19 | `", ".join`: an empty list gives the empty string; otherwise the length is the items' total length plus one separator between each pair of neighbours |
| Strings.JoinPlacesItem | backend/prompts.py:19 | each item occurs at its offset in the join, the separator follows every item but the last, the next item starts right after that separator, and the last item ends the join |
| Strings.JoinKeepsOrder | backend/prompts.py:19 | a later item starts after an earlier item and its separator: the join keeps the list's order |
| Strings.JoinAbsent | backend/prompts.py:19 | for a non-empty word and separator, a join holds the word nowhere when no item holds it, the separator's first character does not occur in the word, and the word's first character does not occur in the separator |
| Models.NewComplimentRequest | backend/models.py:5-10 | a request built without context and tone keeps the given fields, has no context and has tone "warm" |
| Models.ParseEmailRequest | backend/models.py:16-20 | the request is accepted exactly when the address is well formed, and is otherwise rejected with an error naming that address; accepted fields are copied; an omitted sender becomes "A Nurtured Heart Friend", and an explicit sender (None included) is kept |
| Models.AddressWithoutAtRejected | backend/models.py:17 | an address without "@" is rejected whatever the other fields are |
| Models.PlainAddressAccepted | backend/models.py:17 | every address of the form local@host.tld, with non-empty parts, a single "@" and no dot in host, is accepted |
| Prompts.ToneGuidance | backend/prompts.py:22-27 | the tone phrase is always one of the table's four phrases; it is "warm and caring" exactly when the tone is missing, unknown or "warm"; "encouraging" gives "encouraging and uplifting", "celebratory" gives "celebratory and joyful" and "gentle" gives "gentle and supportive" |
| Prompts.PromptCarriesTone | backend/prompts.py:22-33 | the tone phrase sits at the tone position of the prompt; for "encouraging" that text is "encouraging and uplifting", and for a missing, unknown or "warm" tone it is "warm and caring" |
| Prompts.PromptToneFallback | backend/prompts.py:22-27 | the prompt for a tone equals the prompt for "warm" exactly when the tone is missing, unknown or "warm" |
| Prompts.DefaultToneMatchesNoTone | backend/models.py:10 | a request with the default tone "warm" gets the same prompt as one whose tone is None |
| Prompts.PromptLayout | backend/prompts.py:29-37 | every part of the prompt sits at its offset, each part starts where the previous one ends, and the closing text ends the prompt |
| Prompts.PromptInputsInOrder | backend/prompts.py:29-31 | the name comes before the relationship, which comes before the qualities, each time with fixed text between them |
| Prompts.PromptLaterInputsInOrder | backend/prompts.py:31-33 | the context section follows the qualities text directly; fixed text then separates it from the tone phrase, and the tone phrase from the second mention of the name |
| Prompts.PromptOpensWithName | backend/prompts.py:29 | the prompt starts with "Write a warm, genuine compliment for " followed by the name |
| Prompts.PromptAddressesName | backend/prompts.py:33-35 | the name appears a second time, followed by " directly." and the closing line |
| Prompts.PromptEndsWithFinalLine | backend/prompts.py:35 | every prompt ends with "Write the compliment directly:" |
| Prompts.PromptHoldsQualitiesText | backend/prompts.py:31 | the qualities, joined by ", ", occur at the qualities position of the prompt |
| Prompts.PromptHoldsQuality | backend/prompts.py:19 | each quality occurs in the prompt at its place within the qualities text |
| Prompts.PromptSeparatesQualities | backend/prompts.py:19 | ", " follows every quality but the last in the prompt |
| Prompts.PromptListsQualitiesInOrder | backend/prompts.py:19 | qualities appear in the prompt in the order given, a later one after an earlier one and its separator |
| Prompts.PromptShowsContext | backend/prompts.py:20 | a non-empty context appears verbatim right after "\n\nRecent context: ", so the prompt contains "Recent context" |
| Prompts.EmptyContextIsNoContext | backend/prompts.py:20 | an empty context and a missing one give the same prompt |
| Prompts.NoContextNoMarker | backend/prompts.py:20 | without a non-empty context the prompt does not contain "Recent context", as long as the name, relationship and qualities do not |
| Prompts.MarkerIffContext | backend/prompts.py:20 | with caller text free of "Recent context", the prompt contains those words exactly when a non-empty context was given |
| Email.AllTruthyIff | backend/email_service.py:14 | `all([...])` over strings holds exactly when every string is non-empty |
| Email.ConfiguredIff | backend/email_service.py:14 | the gate holds exactly when the host, user and password are non-empty; the sender address plays no part |
| Email.EmailService.constructor | backend/email_service.py:8-14 | unset variables read as "", the port defaults to 587, and `enabled` holds exactly when the host, user and password are non-empty |
| Email.MimeMultipart.SetHeader | backend/email_service.py:28-30 | setting a header appends one header line after those already set and leaves the parts alone |
| Email.MimeMultipart.Attach | backend/email_service.py:65-66 | attaching appends the part after those already attached and leaves the headers alone |
| Email.HeaderValue | backend/email_service.py:28-30 | a header lookup finds a value exactly when some header has that name |
| Email.MimeMultipart.constructor | backend/email_service.py:27 | a new container has no parts and the two headers `MIMEMultipart` sets itself: Content-Type "multipart/" followed by the subtype, then MIME-Version "1.0" |
| Email.ComposedHeaders | backend/email_service.py:27-30 | the message has five headers: Content-Type "multipart/alternative" and MIME-Version "1.0" from the container, then Subject, From and To in that order; Subject names the recipient, From is the configured sender address, and To is the recipient's address |
| Email.ComposedHeaderNames | backend/email_service.py:27-30 | no header name other than those five has a value in the message |
| Email.ComposedParts | backend/email_service.py:63-66 | the message is multipart/alternative with two parts, plain text first and HTML second; each body carries "From: " and the sender, then the compliment |
| Email.SpliceLayout | backend/email_service.py:33-61 | a body is its intro, "From: " and the sender, its middle text, the compliment and its tail, in that order and nothing else |
| Email.SpliceRecoversCompliment | backend/email_service.py:33-61 | the compliment can be read back from a body as the text between the middle text and the tail |
| Email.PlainBodyCarries | backend/email_service.py:52-61 | the plain-text body has "From: " and the sender (None rendered as "None") after its intro, then the compliment, which can be read back from it |
| Email.HtmlBodyCarries | backend/email_service.py:33-50 | the HTML body has "From: " and the sender after its heading, then the compliment, which can be read back from it |
| Email.PlainBodyDeterminesCompliment | backend/email_service.py:52-61 | for one sender, different compliments give different plain-text bodies |
| Email.HtmlBodyDeterminesCompliment | backend/email_service.py:33-50 | for one sender, different compliments give different HTML bodies |
| Email.SendOutcomeReports | backend/email_service.py:78-87 | a send succeeds exactly when the transport delivers; success is "Compliment sent to " followed by the recipient's address and nothing else, and failure is "Failed to send email: " followed by the exception's text |
| Email.NotConfiguredIsDistinct | backend/email_service.py:19-23 | no outcome of an attempted send looks like the not-configured result |
| Email.EmailService.SendCompliment | backend/email_service.py:16-87 | a disabled service returns exactly (false, "Email service not configured") and submits nothing; an enabled one submits the composed message exactly once with the configured host, port, user and password and STARTTLS, and reports the transport's outcome; success holds exactly when the service is enabled and the transport delivers |

## Left out

- `backend/llm_service.py` is not part of this model: the call to the generation backend, its timestamps and its error handling. `Prompts.PromptForRequest` covers only the prompt it builds from a request.
- `backend/main.py` and `backend/api/index.py` are not part of this model. Nor is the frontend. The health endpoint in `main.py` calls `email_service.get_config()`, which `EmailService` does not define.
- The SMTP transport and MIME encoding are not modelled: the connection, STARTTLS negotiation, content-transfer encodings and the multipart boundary. A message is kept as its headers and parts, and the transport's behaviour is an input.
- The headers each `MIMEText` part carries itself (its Content-Type with a charset, MIME-Version and Content-Transfer-Encoding) are not modelled; a part is its body and subtype. The boundary parameter `MIMEMultipart` adds to its Content-Type when the message is serialised is not modelled either.
- `SendCompliment` assumes only the transport can raise. Exceptions raised while the message is composed are not modelled.
- `async`/`await` is not modelled. Each send is one sequential call.
- Reading the environment is not modelled. The constructor takes each variable's value, or `None` when it is unset. Parsing `SMTP_PORT` text as a number is left out, so the `ValueError` that non-numeric text would raise is left out too.
- Models.ParseEmailRequest: the address rule is a simplified stand-in for pydantic's `EmailStr`, which follows a full email-syntax validator. Only the recipient address is validated; type coercion and the other fields' checks are left out.
- Models.ParseEmailRequest: `EmailStr` also rewrites an accepted address. It strips surrounding whitespace, removes a `Name <addr>` wrapper and lower-cases the domain, and that rewritten value is what reaches the To header and "Compliment sent to ". The model keeps the raw text the caller gave.
- Models.WellFormedAddress: accepts one "@", a non-empty local part, and a domain with an inner dot. It does not check the character set or the length limits.
- Prompts.NoContextNoMarker: holds only when the caller's name, relationship and qualities do not themselves contain "Recent context". Without that, the words can reach the prompt from the caller's text.
- Prompts.MarkerIffContext: carries the same hypothesis on the caller's text.
- Email.HeaderValue: matches header names exactly. Python's message objects match them without regard to case.
- `ComplimentResponse` is a record only. Its `generated_at` timestamp comes from the generation service, which is outside this model.
