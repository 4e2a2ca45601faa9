/** The request and response records the service exchanges with its callers.
    Python's `str | None` is an `Option<string>`; a field default is the value
    a constructor function fills in when the caller leaves the field out. */
module Models {

  datatype Option<+T> = None | Some(value: T)

  datatype Result<+T, +E> = Ok(value: T) | Err(error: E)

  /** What a caller asks the prompt builder to praise. */
  datatype ComplimentRequest = ComplimentRequest(
    recipientName: string,
    relationship: string,
    qualities: seq<string>,
    context: Option<string>,
    tone: Option<string>)

  /** The generated text and the time it was produced (ISO-8601, UTC). */
  datatype ComplimentResponse = ComplimentResponse(compliment: string, generatedAt: string)

  const DefaultTone: Option<string> := Some("warm")

  const DefaultSenderName := "A Nurtured Heart Friend"

  /** A compliment request with `context` and `tone` left out. */
  function NewComplimentRequest(recipientName: string, relationship: string, qualities: seq<string>)
    : (r: ComplimentRequest)
    ensures r.recipientName == recipientName && r.relationship == relationship
    ensures r.qualities == qualities
    ensures r.context.None? && r.tone == Some("warm")
  {
    ComplimentRequest(recipientName, relationship, qualities, None, DefaultTone)
  }

  /** Index of the first `c` in `s`, or `|s|` when there is none. */
  function IndexOf(s: string, c: char): (i: nat)
    ensures i <= |s|
    ensures i < |s| ==> s[i] == c
    ensures c !in s[..i]
  {
    if |s| == 0 then 0
    else if s[0] == c then 0
    else 1 + IndexOf(s[1..], c)
  }

  /** The shape of an address the boundary accepts: one `@`, a non-empty
      local part before it, and a domain after it that holds a dot that is
      neither its first nor its last character. */
  predicate WellFormedAddress(s: string)
  {
    var at := IndexOf(s, '@');
    var domain := if at < |s| then s[at + 1..] else "";
    0 < at < |s| && '@' !in domain
    && 0 < IndexOf(domain, '.') < |domain| - 1
  }

  /** A recipient address that passed validation at the boundary. */
  type EmailAddress = s: string | WellFormedAddress(s) witness "a@b.c"

  /** What a caller asks the email service to deliver. */
  datatype EmailRequest = EmailRequest(
    recipientEmail: EmailAddress,
    recipientName: string,
    compliment: string,
    senderName: Option<string>)

  datatype ValidationError = InvalidEmail(input: string)

  /** Builds an email request from raw fields, as the boundary does: the
      address is checked, and an omitted sender name takes its default. A
      sender given explicitly as `None` stays `None`. */
  function ParseEmailRequest(
    recipientEmail: string, recipientName: string, compliment: string,
    senderName: Option<Option<string>>): (r: Result<EmailRequest, ValidationError>)
    ensures r.Ok? <==> WellFormedAddress(recipientEmail)
    ensures r.Err? ==> r.error == InvalidEmail(recipientEmail)
    ensures r.Ok? ==>
      && r.value.recipientEmail == recipientEmail
      && r.value.recipientName == recipientName
      && r.value.compliment == compliment
    ensures r.Ok? && senderName.None? ==> r.value.senderName == Some(DefaultSenderName)
    ensures r.Ok? && senderName.Some? ==> r.value.senderName == senderName.value
  {
    if !WellFormedAddress(recipientEmail) then Err(InvalidEmail(recipientEmail))
    else
      var sender := if senderName.Some? then senderName.value else Some(DefaultSenderName);
      Ok(EmailRequest(recipientEmail, recipientName, compliment, sender))
  }

  /** `IndexOf` finds the first occurrence and nothing else. */
  lemma IndexOfFirst(s: string, c: char, i: nat)
    requires i <= |s| && c !in s[..i]
    requires i < |s| ==> s[i] == c
    ensures IndexOf(s, c) == i
  {
    var j := IndexOf(s, c);
    assert forall k :: 0 <= k < i ==> s[..i][k] == s[k];
    assert forall k :: 0 <= k < j ==> s[..j][k] == s[k];
  }

  /** An address without `@` (such as "not-an-email") is stopped at the
      boundary and never reaches the email service. */
  lemma AddressWithoutAtRejected(
    recipientEmail: string, recipientName: string, compliment: string,
    senderName: Option<Option<string>>)
    requires '@' !in recipientEmail
    ensures ParseEmailRequest(recipientEmail, recipientName, compliment, senderName)
      == Err(InvalidEmail(recipientEmail))
  {
    assert recipientEmail[..|recipientEmail|] == recipientEmail;
    IndexOfFirst(recipientEmail, '@', |recipientEmail|);
  }

  /** Every address of the form `local@host.tld` passes, whatever its parts,
      as long as `@` occurs only once and `host` holds no dot. */
  lemma PlainAddressAccepted(local: string, host: string, tld: string)
    requires local != [] && host != [] && tld != []
    requires '@' !in local && '@' !in host && '@' !in tld && '.' !in host
    ensures WellFormedAddress(local + "@" + host + "." + tld)
  {
    var s := local + "@" + host + "." + tld;
    assert s[..|local|] == local;
    IndexOfFirst(s, '@', |local|);
    var domain := s[|local| + 1..];
    assert domain == host + "." + tld;
    assert domain[..|host|] == host;
    IndexOfFirst(domain, '.', |host|);
    assert '@' !in domain;
  }
}
