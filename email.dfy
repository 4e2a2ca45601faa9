/** The email service: sends a generated compliment as a two-part email over
    SMTP. The service is configured once, from the process environment; it is
    enabled only when the host, the user and the password are all set. The
    SMTP exchange itself is outside the model: each send names the outcome
    the transport would have (`Delivered`, or an exception with its text), and
    the method hands back the submission it made alongside its result. */
module Email {
  import opened Strings
  import opened Models

  const DefaultPort := 587
  const NotConfiguredMessage := "Email service not configured"
  const SentPrefix := "Compliment sent to "
  const FailedPrefix := "Failed to send email: "
  const SubjectPrefix := "A Nurtured Heart Compliment for "
  const FromLabel := "From: "

  // The fixed text of the plain-text body, around the sender and the compliment.
  const PlainIntro :=
    "\n"
    + "            You've received a Nurtured Heart compliment!\n"
    + "            \n"
    + "            "
  const PlainMiddle := "\n            \n            "
  const PlainTail :=
    "\n"
    + "            \n"
    + "            ---\n"
    + "            This compliment was generated with care using the Nurtured Heart Approach.\n"
    + "            "

  // The fixed text of the HTML body, around the sender and the compliment.
  const HtmlIntro :=
    "\n"
    + "            <html>\n"
    + "                <body style=\"font-family: Arial, sans-serif; padding: 20px; max-width: 600px; margin: 0 auto;\">\n"
    + "                    <h2 style=\"color: #4a5568;\">You've received a Nurtured Heart compliment! \U{1F499}</h2>\n"
    + "                    <p style=\"font-size: 14px; color: #718096;\">"
  const HtmlMiddle :=
    "</p>\n"
    + "                    \n"
    + "                    <div style=\"background-color: #f7fafc; border-left: 4px solid #4299e1; padding: 20px; margin: 20px 0;\">\n"
    + "                        <p style=\"font-size: 16px; line-height: 1.6; color: #2d3748; font-style: italic;\">\n"
    + "                            "
  const HtmlTail :=
    "\n"
    + "                        </p>\n"
    + "                    </div>\n"
    + "                    \n"
    + "                    <p style=\"font-size: 14px; color: #718096; margin-top: 30px;\">\n"
    + "                        This compliment was generated with care using the Nurtured Heart Approach.\n"
    + "                    </p>\n"
    + "                </body>\n"
    + "            </html>\n"
    + "            "

  /** One MIME leaf part: its text and its subtype ("plain" or "html"). */
  datatype MimeText = MimeText(body: string, subtype: string)

  /** A composed multipart message: its subtype, its headers in the order they
      were set, and its parts in the order they were attached. */
  datatype MimeMessage = MimeMessage(subtype: string, headers: seq<(string, string)>, parts: seq<MimeText>)

  /** What `send_compliment` reports back to its caller. */
  datatype SendResult = SendResult(success: bool, message: string)

  /** What the SMTP transport does with a submission: delivers it, or raises
      an exception whose text is `description`. */
  datatype TransportOutcome = Delivered | Raised(description: string)

  /** One call to the SMTP client: the message and the connection settings. */
  datatype SmtpSubmission = SmtpSubmission(
    message: MimeMessage, hostname: string, port: int, username: string, password: string,
    startTls: bool)

  /** The Content-Type value of a multipart container of the given subtype. */
  function MultipartType(subtype: string): string
  {
    "multipart/" + subtype
  }

  /** The container the service builds is typed "multipart/alternative". */
  lemma AlternativeType()
    ensures MultipartType("alternative") == "multipart/alternative"
  {
  }

  /** A multipart message under construction. Setting a header adds one more
      header line, after those already set; attaching a part appends it. */
  class MimeMultipart {
    const subtype: string
    var headers: seq<(string, string)>
    var parts: seq<MimeText>

    /** A new message already carries the two headers every MIME container
        starts with: its content type and the MIME version. */
    constructor(subtype: string)
      ensures this.subtype == subtype && parts == []
      ensures headers == [("Content-Type", MultipartType(subtype)), ("MIME-Version", "1.0")]
    {
      this.subtype := subtype;
      headers := [("Content-Type", MultipartType(subtype)), ("MIME-Version", "1.0")];
      parts := [];
    }

    method SetHeader(name: string, value: string)
      modifies this
      ensures headers == old(headers) + [(name, value)]
      ensures parts == old(parts)
    {
      headers := headers + [(name, value)];
    }

    method Attach(part: MimeText)
      modifies this
      ensures parts == old(parts) + [part]
      ensures headers == old(headers)
    {
      parts := parts + [part];
    }

    /** The message as it stands. */
    function Message(): MimeMessage
      reads this
    {
      MimeMessage(subtype, headers, parts)
    }
  }

  /** Python's truth value of each string, and-ed together: every string is
      non-empty. */
  function AllTruthy(items: seq<string>): bool
  {
    |items| == 0 || (items[0] != "" && AllTruthy(items[1..]))
  }

  lemma {:induction false} AllTruthyIff(items: seq<string>)
    ensures AllTruthy(items) <==> forall i :: 0 <= i < |items| ==> items[i] != ""
  {
    if |items| > 0 {
      AllTruthyIff(items[1..]);
      assert forall i :: 0 < i < |items| ==> items[i] == items[1..][i - 1];
    }
  }

  /** The gate: host, user and password must all be set. The sender address
      plays no part in it. */
  lemma ConfiguredIff(smtpHost: string, smtpUser: string, smtpPassword: string)
    ensures AllTruthy([smtpHost, smtpUser, smtpPassword])
        <==> smtpHost != "" && smtpUser != "" && smtpPassword != ""
  {
    var items := [smtpHost, smtpUser, smtpPassword];
    AllTruthyIff(items);
    assert items[0] == smtpHost && items[1] == smtpUser && items[2] == smtpPassword;
  }

  /** A setting read from the environment, with its default when unset. */
  function Setting(value: Option<string>, default: string): string
  {
    if value.Some? then value.value else default
  }

  /** How a format string renders an optional value: `None` renders as the
      text "None". */
  function Render(value: Option<string>): string
  {
    if value.Some? then value.value else "None"
  }

  /** A body: the sender and the compliment spliced between fixed text. */
  function Splice(intro: string, sender: string, middle: string, compliment: string, tail: string)
    : string
  {
    intro + FromLabel + sender + middle + compliment + tail
  }

  /** The plain-text body of the email. */
  function PlainBody(senderName: Option<string>, compliment: string): string
  {
    Splice(PlainIntro, Render(senderName), PlainMiddle, compliment, PlainTail)
  }

  /** The HTML body of the email. */
  function HtmlBody(senderName: Option<string>, compliment: string): string
  {
    Splice(HtmlIntro, Render(senderName), HtmlMiddle, compliment, HtmlTail)
  }

  /** Where the compliment starts in a spliced body. */
  function ComplimentAt(intro: string, sender: string, middle: string): nat
  {
    |intro| + |FromLabel| + |sender| + |middle|
  }

  /** A spliced body reads: the intro, "From: " and the sender, the middle
      text, the compliment, and the tail at the very end. */
  lemma SpliceLayout(
    intro: string, sender: string, middle: string, compliment: string, tail: string,
    body: string)
    requires body == Splice(intro, sender, middle, compliment, tail)
    ensures OccursAt(body, intro, 0)
    ensures OccursAt(body, FromLabel + sender, |intro|)
    ensures OccursAt(body, middle, |intro| + |FromLabel| + |sender|)
    ensures OccursAt(body, compliment, ComplimentAt(intro, sender, middle))
    ensures |intro| + |FromLabel| + |sender| <= ComplimentAt(intro, sender, middle)
    ensures EndsWith(body, tail)
    ensures |body| == ComplimentAt(intro, sender, middle) + |compliment| + |tail|
  {
    var head := intro + FromLabel + sender + middle;
    assert body == head + compliment + tail;
    assert body[..|intro|] == intro;
    assert body[|intro|..|intro| + |FromLabel + sender|] == FromLabel + sender;
    assert body[|intro| + |FromLabel + sender|..|head|] == middle;
    assert body[|head|..|head| + |compliment|] == compliment;
    assert body[|body| - |tail|..] == tail;
  }

  /** With the fixed text and the sender known, the body gives the compliment
      back: it is the text between the middle and the tail. */
  lemma SpliceRecoversCompliment(
    intro: string, sender: string, middle: string, compliment: string, tail: string,
    body: string)
    requires body == Splice(intro, sender, middle, compliment, tail)
    ensures body[ComplimentAt(intro, sender, middle)..|body| - |tail|] == compliment
  {
    SpliceLayout(intro, sender, middle, compliment, tail, body);
  }

  /** The plain-text body names the sender after "From: " and then carries
      the compliment, and the compliment can be read back from it. */
  lemma PlainBodyCarries(senderName: Option<string>, compliment: string, body: string)
    requires body == PlainBody(senderName, compliment)
    ensures OccursAt(body, FromLabel + Render(senderName), |PlainIntro|)
    ensures OccursAt(body, compliment, ComplimentAt(PlainIntro, Render(senderName), PlainMiddle))
    ensures body[ComplimentAt(PlainIntro, Render(senderName), PlainMiddle)..|body| - |PlainTail|]
            == compliment
  {
    SpliceLayout(PlainIntro, Render(senderName), PlainMiddle, compliment, PlainTail, body);
    SpliceRecoversCompliment(PlainIntro, Render(senderName), PlainMiddle, compliment, PlainTail,
                             body);
  }

  /** The HTML body does the same. */
  lemma HtmlBodyCarries(senderName: Option<string>, compliment: string, body: string)
    requires body == HtmlBody(senderName, compliment)
    ensures OccursAt(body, FromLabel + Render(senderName), |HtmlIntro|)
    ensures OccursAt(body, compliment, ComplimentAt(HtmlIntro, Render(senderName), HtmlMiddle))
    ensures body[ComplimentAt(HtmlIntro, Render(senderName), HtmlMiddle)..|body| - |HtmlTail|]
            == compliment
  {
    SpliceLayout(HtmlIntro, Render(senderName), HtmlMiddle, compliment, HtmlTail, body);
    SpliceRecoversCompliment(HtmlIntro, Render(senderName), HtmlMiddle, compliment, HtmlTail,
                             body);
  }

  /** Two compliments from the same sender give the same plain-text body only
      when they are the same compliment. */
  lemma PlainBodyDeterminesCompliment(senderName: Option<string>, c1: string, c2: string)
    requires PlainBody(senderName, c1) == PlainBody(senderName, c2)
    ensures c1 == c2
  {
    var body := PlainBody(senderName, c1);
    PlainBodyCarries(senderName, c1, body);
    PlainBodyCarries(senderName, c2, body);
  }

  /** The same holds for the HTML body. */
  lemma HtmlBodyDeterminesCompliment(senderName: Option<string>, c1: string, c2: string)
    requires HtmlBody(senderName, c1) == HtmlBody(senderName, c2)
    ensures c1 == c2
  {
    var body := HtmlBody(senderName, c1);
    HtmlBodyCarries(senderName, c1, body);
    HtmlBodyCarries(senderName, c2, body);
  }

  /** The value of the first header called `name`, if any. */
  function HeaderValue(headers: seq<(string, string)>, name: string): (r: Option<string>)
    ensures r.Some? <==> exists i :: 0 <= i < |headers| && headers[i].0 == name
  {
    if |headers| == 0 then None
    else if headers[0].0 == name then Some(headers[0].1)
    else
      var r := HeaderValue(headers[1..], name);
      assert forall i :: 0 < i < |headers| ==> headers[i] == headers[1..][i - 1];
      r
  }

  /** Looking a name up skips the headers in front that carry other
      names. */
  lemma {:induction false} HeaderValueSkips(headers: seq<(string, string)>, k: nat, name: string)
    requires k <= |headers|
    requires forall i :: 0 <= i < k ==> headers[i].0 != name
    ensures HeaderValue(headers, name) == HeaderValue(headers[k..], name)
  {
    if k > 0 {
      assert headers[1..][k - 1..] == headers[k..];
      HeaderValueSkips(headers[1..], k - 1, name);
    }
  }

  /** The headers of the composed message, in order: the two the multipart
      container starts with, then the subject naming the recipient, the
      sender address and the recipient's address, which the service sets. */
  function MessageHeaders(fromEmail: string, request: EmailRequest): seq<(string, string)>
  {
    [("Content-Type", MultipartType("alternative")), ("MIME-Version", "1.0"),
     ("Subject", SubjectPrefix + request.recipientName), ("From", fromEmail),
     ("To", request.recipientEmail)]
  }

  /** The parts the service attaches, in order: plain text, then HTML. */
  function MessageParts(request: EmailRequest): seq<MimeText>
  {
    [MimeText(PlainBody(request.senderName, request.compliment), "plain"),
     MimeText(HtmlBody(request.senderName, request.compliment), "html")]
  }

  /** The message the service composes for a request. */
  function ComposedMessage(fromEmail: string, request: EmailRequest): MimeMessage
  {
    MimeMessage("alternative", MessageHeaders(fromEmail, request), MessageParts(request))
  }

  /** The message has five headers: Content-Type "multipart/alternative"
      and MIME-Version "1.0" from the container, then Subject, From and To in
      the order the service sets them. Each is found under its name with its
      value; ComposedHeaderNames shows that no other name has one. */
  lemma ComposedHeaders(fromEmail: string, request: EmailRequest)
    ensures
      var h := MessageHeaders(fromEmail, request);
      && |h| == 5
      && h[2].0 == "Subject" && h[3].0 == "From" && h[4].0 == "To"
      && HeaderValue(h, "Content-Type") == Some("multipart/alternative")
      && HeaderValue(h, "MIME-Version") == Some("1.0")
      && HeaderValue(h, "Subject") == Some(SubjectPrefix + request.recipientName)
      && HeaderValue(h, "From") == Some(fromEmail)
      && HeaderValue(h, "To") == Some(request.recipientEmail)
  {
    var h := MessageHeaders(fromEmail, request);
    AlternativeType();
    HeaderValueSkips(h, 2, "Subject");
    HeaderValueSkips(h, 3, "From");
    HeaderValueSkips(h, 4, "To");
  }

  /** No header name other than those five has a value in the composed message. */
  lemma ComposedHeaderNames(fromEmail: string, request: EmailRequest, name: string)
    requires HeaderValue(MessageHeaders(fromEmail, request), name).Some?
    ensures name in {"Content-Type", "MIME-Version", "Subject", "From", "To"}
  {
  }

  /** The composed message is "multipart/alternative" with two parts, the
      plain-text one first, and each part's body carries the sender after
      "From: " and the compliment after it. */
  lemma ComposedParts(fromEmail: string, request: EmailRequest)
    ensures ComposedMessage(fromEmail, request).subtype == "alternative"
    ensures
      var m := ComposedMessage(fromEmail, request);
      var sender := FromLabel + Render(request.senderName);
      && |m.parts| == 2 && m.parts[0].subtype == "plain" && m.parts[1].subtype == "html"
      && OccursAt(m.parts[0].body, sender, |PlainIntro|)
      && OccursAt(m.parts[0].body, request.compliment,
                  ComplimentAt(PlainIntro, Render(request.senderName), PlainMiddle))
      && OccursAt(m.parts[1].body, sender, |HtmlIntro|)
      && OccursAt(m.parts[1].body, request.compliment,
                  ComplimentAt(HtmlIntro, Render(request.senderName), HtmlMiddle))
  {
    var m := ComposedMessage(fromEmail, request);
    PlainBodyCarries(request.senderName, request.compliment, m.parts[0].body);
    HtmlBodyCarries(request.senderName, request.compliment, m.parts[1].body);
  }

  /** The result of a send that reached the transport. */
  function SendOutcome(request: EmailRequest, outcome: TransportOutcome): SendResult
  {
    match outcome
    case Delivered => SendResult(true, SentPrefix + request.recipientEmail)
    case Raised(description) => SendResult(false, FailedPrefix + description)
  }

  /** A send succeeds exactly when the transport delivers; the message is then
      "Compliment sent to " followed by the recipient's address and nothing
      else, and otherwise "Failed to send email: " followed by the exception's
      text. */
  lemma SendOutcomeReports(request: EmailRequest, outcome: TransportOutcome)
    ensures SendOutcome(request, outcome).success <==> outcome.Delivered?
    ensures outcome.Delivered? ==>
      && OccursAt(SendOutcome(request, outcome).message, SentPrefix, 0)
      && SendOutcome(request, outcome).message[|SentPrefix|..] == request.recipientEmail
    ensures outcome.Raised? ==>
      && OccursAt(SendOutcome(request, outcome).message, FailedPrefix, 0)
      && SendOutcome(request, outcome).message[|FailedPrefix|..] == outcome.description
  {
    var m := SendOutcome(request, outcome).message;
    if outcome.Delivered? {
      assert m[..|SentPrefix|] == SentPrefix;
    } else {
      assert m[..|FailedPrefix|] == FailedPrefix;
    }
  }

  /** A caller can tell the three endings apart: a delivery, a failed
      attempt, and a service that is not configured. */
  lemma NotConfiguredIsDistinct(request: EmailRequest, outcome: TransportOutcome)
    ensures SendOutcome(request, outcome) != SendResult(false, NotConfiguredMessage)
  {
    if outcome.Raised? {
      var m := SendOutcome(request, outcome).message;
      assert m[0] == 'F';
      assert NotConfiguredMessage[0] == 'E';
    }
  }

  /** The email service, configured from the environment when created. */
  class EmailService {
    const smtpHost: string
    const smtpPort: int
    const smtpUser: string
    const smtpPassword: string
    const fromEmail: string
    const enabled: bool

    /** Each argument is the environment variable's value, `None` when it is
        unset; the port is the variable's value as a number. */
    constructor(
      host: Option<string>, port: Option<int>, user: Option<string>, password: Option<string>,
      sender: Option<string>)
      ensures smtpHost == Setting(host, "") && smtpUser == Setting(user, "")
      ensures smtpPassword == Setting(password, "") && fromEmail == Setting(sender, "")
      ensures port.None? ==> smtpPort == DefaultPort
      ensures port.Some? ==> smtpPort == port.value
      ensures enabled <==> smtpHost != "" && smtpUser != "" && smtpPassword != ""
    {
      smtpHost := Setting(host, "");
      smtpPort := if port.Some? then port.value else DefaultPort;
      smtpUser := Setting(user, "");
      smtpPassword := Setting(password, "");
      fromEmail := Setting(sender, "");
      enabled := AllTruthy([Setting(host, ""), Setting(user, ""), Setting(password, "")]);
      ConfiguredIff(Setting(host, ""), Setting(user, ""), Setting(password, ""));
    }


    /** Sends `request` as an email. A service that is not configured sends
        nothing and says so. Otherwise it composes the message, submits it
        once with the configured host, port and credentials over STARTTLS, and
        reports the transport's outcome. `sent` lists the submissions made. */
    method SendCompliment(request: EmailRequest, outcome: TransportOutcome)
      returns (result: SendResult, sent: seq<SmtpSubmission>)
      ensures !enabled ==> result == SendResult(false, NotConfiguredMessage) && sent == []
      ensures enabled ==> sent == [SmtpSubmission(ComposedMessage(fromEmail, request),
                                                  smtpHost, smtpPort, smtpUser, smtpPassword,
                                                  true)]
      ensures enabled ==> result == SendOutcome(request, outcome)
      ensures result.success <==> enabled && outcome.Delivered?
    {
      if !enabled {
        return SendResult(false, NotConfiguredMessage), [];
      }
      var message := new MimeMultipart("alternative");
      message.SetHeader("Subject", SubjectPrefix + request.recipientName);
      message.SetHeader("From", fromEmail);
      message.SetHeader("To", request.recipientEmail);
      var html := HtmlBody(request.senderName, request.compliment);
      var text := PlainBody(request.senderName, request.compliment);
      message.Attach(MimeText(text, "plain"));
      message.Attach(MimeText(html, "html"));
      assert message.headers == MessageHeaders(fromEmail, request);
      assert message.parts == MessageParts(request);
      sent := [SmtpSubmission(message.Message(), smtpHost, smtpPort, smtpUser, smtpPassword, true)];
      match outcome {
        case Delivered =>
          result := SendResult(true, SentPrefix + request.recipientEmail);
        case Raised(description) =>
          result := SendResult(false, FailedPrefix + description);
      }
    }
  }
}
