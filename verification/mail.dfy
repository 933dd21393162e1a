/** The mail helpers of src/utils/mail.js: the two Mailgen content builders and the
    envelope `sendMail` hands to the transport. Rendering the content to text and
    HTML and the SMTP transport are parameters. */
module Mail {
  import opened Wrappers

  datatype Button = Button(color: string, text: string, link: string)
  datatype Action = Action(instructions: string, button: Button)
  datatype Body = Body(name: string, intro: string, action: Action, outro: string)
  datatype MailgenContent = MailgenContent(body: Body)

  datatype MailOptions = MailOptions(email: string, subject: string, content: MailgenContent)

  datatype Envelope = Envelope(from: string, to: string, subject: string, text: string, html: string)

  /** What `sendMail` logs. */
  datatype SendLog = MailSent(messageId: string) | EmailFailed(error: string)

  /** One call of `sendMail`: the envelope handed to the transport, what was
      logged, and what the caller's `await` yields (`Failure` would be a rejected
      promise). */
  datatype SendReport = SendReport(envelope: Envelope, log: SendLog, result: Result<(), string>)

  const Sender: string := "mail.taskmanager@example.com"
  const ButtonColor: string := "#22BC66"
  const Outro: string := "Need help, or have questions? Just reply to this email, we'd love to help."

  const VerificationIntro: string := "Welcome to App! We're very excited to have you on board."
  const VerificationInstructions: string := "To get started with App, please click here:"
  const VerificationButton: string := "Verify your email"

  const ResetIntro: string := "We got a request reset your password"
  const ResetInstructions: string := "To change your password click the button:"
  const ResetButton: string := "Reset password"

  /** The content shared by both builders, with its three texts as parameters. */
  function ContentWith(username: string, link: string, intro: string, instructions: string, buttonText: string): MailgenContent {
    MailgenContent(Body(username, intro, Action(instructions, Button(ButtonColor, buttonText, link)), Outro))
  }

  /** The addressee's name and the action link of a content. */
  function Addressee(c: MailgenContent): string { c.body.name }
  function ActionLink(c: MailgenContent): string { c.body.action.button.link }

  /** The verification mail greets `username` and links to `verificationUrl`. */
  function EmailVerificationContent(username: string, verificationUrl: string): (c: MailgenContent)
    ensures Addressee(c) == username && ActionLink(c) == verificationUrl
    ensures c.body.action.button.color == "#22BC66"
    ensures c.body.action.button.text == "Verify your email"
  {
    ContentWith(username, verificationUrl, VerificationIntro, VerificationInstructions, VerificationButton)
  }

  /** The password-reset mail greets `username` and links to `passwordResetUrl`. */
  function ForgotPasswordContent(username: string, passwordResetUrl: string): (c: MailgenContent)
    ensures Addressee(c) == username && ActionLink(c) == passwordResetUrl
    ensures c.body.action.button.color == "#22BC66"
    ensures c.body.action.button.text == "Reset password"
  {
    ContentWith(username, passwordResetUrl, ResetIntro, ResetInstructions, ResetButton)
  }

  /** The two builders differ only in intro, instructions and button text: the
      reset mail is the verification mail with those three replaced, and the two
      are never equal. */
  lemma BuildersDifferOnlyInTexts(username: string, link: string)
    ensures var v := EmailVerificationContent(username, link);
      ForgotPasswordContent(username, link)
        == MailgenContent(v.body.(intro := ResetIntro,
                                  action := v.body.action.(instructions := ResetInstructions,
                                                           button := v.body.action.button.(text := ResetButton))))
    ensures EmailVerificationContent(username, link).body.outro == ForgotPasswordContent(username, link).body.outro
    ensures EmailVerificationContent(username, link) != ForgotPasswordContent(username, link)
  {
  }

  /** The addressee and link can be read back from either content. */
  lemma ContentRoundTrip(username: string, link: string)
    ensures Addressee(EmailVerificationContent(username, link)) == username
    ensures ActionLink(ForgotPasswordContent(username, link)) == link
    ensures EmailVerificationContent(username, link) == ContentWith(Addressee(EmailVerificationContent(username, link)),
      ActionLink(EmailVerificationContent(username, link)), VerificationIntro, VerificationInstructions, VerificationButton)
  {
  }

  /** The envelope: a fixed sender, the options' recipient and subject unchanged,
      and the rendered text and HTML of the content. */
  function BuildEnvelope(options: MailOptions, renderText: MailgenContent -> string, renderHtml: MailgenContent -> string): (e: Envelope)
    ensures e.from == "mail.taskmanager@example.com"
    ensures e.to == options.email && e.subject == options.subject
    ensures e.text == renderText(options.content) && e.html == renderHtml(options.content)
  {
    Envelope(Sender, options.email, options.subject, renderText(options.content), renderHtml(options.content))
  }

  /** sendMail: the envelope goes to the transport once. A delivery is logged
      with its message id; a transport failure is caught and logged with its
      error. Either way the promise the caller awaits resolves. */
  function SendMail(options: MailOptions, renderText: MailgenContent -> string, renderHtml: MailgenContent -> string,
                    transport: Envelope -> Result<string, string>): (r: SendReport)
    ensures r.envelope == BuildEnvelope(options, renderText, renderHtml)
    ensures transport(r.envelope).Success? <==> r.log.MailSent?
    ensures r.log.MailSent? ==> r.log.messageId == transport(r.envelope).value
    ensures r.log.EmailFailed? ==> r.log.error == transport(r.envelope).error
    ensures r.result.Success?
  {
    var envelope := BuildEnvelope(options, renderText, renderHtml);
    match transport(envelope)
    case Success(id) => SendReport(envelope, MailSent(id), Success(()))
    case Failure(e) => SendReport(envelope, EmailFailed(e), Success(()))
  }

  /** The caller cannot tell transports apart: whatever two transports do with
      the same envelope, `sendMail` yields the same result and hands them the
      same envelope; only the log differs. */
  lemma SendMailIgnoresTransport(options: MailOptions, renderText: MailgenContent -> string, renderHtml: MailgenContent -> string,
                                 t1: Envelope -> Result<string, string>, t2: Envelope -> Result<string, string>)
    ensures SendMail(options, renderText, renderHtml, t1).result == SendMail(options, renderText, renderHtml, t2).result
    ensures SendMail(options, renderText, renderHtml, t1).envelope == SendMail(options, renderText, renderHtml, t2).envelope
    ensures t1(BuildEnvelope(options, renderText, renderHtml)) == t2(BuildEnvelope(options, renderText, renderHtml)) ==>
              SendMail(options, renderText, renderHtml, t1).log == SendMail(options, renderText, renderHtml, t2).log
  {
  }
}
