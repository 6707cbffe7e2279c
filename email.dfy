/**
 * The notification side of src/lib/email.ts: where links point, what the two messages say,
 * and when sending fails. The environment variables are an explicit `Env`; the Resend HTTP
 * call is an abstract action that either returns or throws (`providerThrows`).
 */
module Email {
  import opened Common

  const DefaultSender := "Product Team <noreply@flavidairysolution.com>"
  const DefaultBaseUrl := "http://localhost:3000"
  const VerifyPath := "/verify-email?token="
  const ResetPath := "/reset-password?token="

  /** The process environment as read by the module: each variable set (possibly to "") or unset. */
  datatype Env = Env(
    resendApiKey: Option<string>,
    emailFrom: Option<string>,
    appBaseUrl: Option<string>,
    nextPublicAppUrl: Option<string>)

  datatype Payload = Payload(to: string, subject: string, html: string)

  /** What `sendEmail` does: log and return (no client), hand the message to the provider, or rethrow. */
  datatype SendResult =
    | Logged(payload: Payload)
    | Delivered(from: string, payload: Payload)
    | Rethrown(payload: Payload)

  /** `s` holds `sub` starting at index `i`. */
  predicate OccursAt(s: string, sub: string, i: int) {
    0 <= i && i + |sub| <= |s| && s[i..i + |sub|] == sub
  }

  predicate Contains(s: string, sub: string) {
    exists i :: 0 <= i <= |s| && OccursAt(s, sub, i)
  }

  lemma OccursAfterPrefix(a: string, sub: string, b: string)
    ensures OccursAt(a + sub + b, sub, |a|)
  {
    assert (a + sub + b)[|a|..|a| + |sub|] == sub;
  }

  /** `APP_BASE_URL ?? NEXT_PUBLIC_APP_URL ?? "http://localhost:3000"`: an empty but set variable wins. */
  function AppBaseUrl(env: Env): (url: string)
    ensures env.appBaseUrl.Some? ==> url == env.appBaseUrl.value
    ensures env.appBaseUrl.None? && env.nextPublicAppUrl.Some? ==> url == env.nextPublicAppUrl.value
    ensures env.appBaseUrl.None? && env.nextPublicAppUrl.None? ==> url == DefaultBaseUrl
  {
    env.appBaseUrl.GetOr(env.nextPublicAppUrl.GetOr(DefaultBaseUrl))
  }

  /** `EMAIL_FROM ?? "Product Team <noreply@flavidairysolution.com>"`. */
  function Sender(env: Env): (from: string)
    ensures env.emailFrom.None? ==> from == DefaultSender
    ensures env.emailFrom.Some? ==> from == env.emailFrom.value
  {
    env.emailFrom.GetOr(DefaultSender)
  }

  /** A Resend client exists only for a non-empty `RESEND_API_KEY` (the empty string is falsy). */
  predicate ProviderConfigured(env: Env) {
    env.resendApiKey.Some? && env.resendApiKey.value != ""
  }

  function VerificationUrl(env: Env, token: string): string {
    AppBaseUrl(env) + VerifyPath + token
  }

  function ResetUrl(env: Env, token: string): string {
    AppBaseUrl(env) + ResetPath + token
  }

  /** Under one base URL, different tokens give different verification links. */
  lemma VerificationUrlInjective(env: Env, t1: string, t2: string)
    requires VerificationUrl(env, t1) == VerificationUrl(env, t2)
    ensures t1 == t2
  {
    var p := AppBaseUrl(env) + VerifyPath;
    assert VerificationUrl(env, t1) == p + t1 && VerificationUrl(env, t2) == p + t2;
    assert t1 == (p + t1)[|p|..];
    assert t2 == (p + t2)[|p|..];
  }

  lemma ResetUrlInjective(env: Env, t1: string, t2: string)
    requires ResetUrl(env, t1) == ResetUrl(env, t2)
    ensures t1 == t2
  {
    var p := AppBaseUrl(env) + ResetPath;
    assert ResetUrl(env, t1) == p + t1 && ResetUrl(env, t2) == p + t2;
    assert t1 == (p + t1)[|p|..];
    assert t2 == (p + t2)[|p|..];
  }

  /** A reset link is never a verification link, whatever the tokens. */
  lemma LinksDistinct(env: Env, t1: string, t2: string)
    ensures VerificationUrl(env, t1) != ResetUrl(env, t2)
  {
    var b := AppBaseUrl(env);
    assert VerificationUrl(env, t1)[|b| + 1] == 'v';
    assert ResetUrl(env, t2)[|b| + 1] == 'r';
  }

  const VerifyHead := "\n      <h2>Verify your account</h2>\n      <p>Click the button below to verify your email.</p>\n      <p><a href=\""
  const VerifyMiddle := "\">Verify email</a></p>\n      <p>If the button above does not work, copy and paste this URL into your browser:</p>\n      <p>"
  const ResetHead := "\n      <h2>Reset your password</h2>\n      <p>We received a request to reset the password on your account.</p>\n      <p><a href=\""
  const ResetMiddle := "\">Reset password</a></p>\n      <p>If you didn't request this, you can safely ignore this email.</p>\n      <p>"
  const HtmlTail := "</p>\n    "

  /** The e-mail body: the link once as a button target and once as plain text. */
  function Html(head: string, middle: string, url: string): (html: string)
    ensures OccursAt(html, url, |head|)
  {
    OccursAfterPrefix(head, url, middle + url + HtmlTail);
    assert head + url + middle + url + HtmlTail == head + url + (middle + url + HtmlTail);
    head + url + middle + url + HtmlTail
  }

  /** `sendVerificationEmail(email, token)`: the message it hands to `sendEmail`. */
  function VerificationEmail(env: Env, to: string, token: string): (p: Payload)
    ensures p.to == to && p.subject == "Verify your email address"
    ensures Contains(p.html, VerificationUrl(env, token))
  {
    var html := Html(VerifyHead, VerifyMiddle, VerificationUrl(env, token));
    assert OccursAt(html, VerificationUrl(env, token), |VerifyHead|);
    Payload(to, "Verify your email address", html)
  }

  /** `sendPasswordResetEmail(email, token)`: the message it hands to `sendEmail`. */
  function ResetEmail(env: Env, to: string, token: string): (p: Payload)
    ensures p.to == to && p.subject == "Reset your password"
    ensures Contains(p.html, ResetUrl(env, token))
  {
    var html := Html(ResetHead, ResetMiddle, ResetUrl(env, token));
    assert OccursAt(html, ResetUrl(env, token), |ResetHead|);
    Payload(to, "Reset your password", html)
  }

  /**
   * `sendEmail(payload)`: without a client it only logs and returns; otherwise the provider
   * call is made from `Sender(env)`, and a provider failure is rethrown to the caller.
   */
  function SendEmail(env: Env, payload: Payload, providerThrows: bool): (r: SendResult)
    ensures r.payload == payload
    ensures r.Rethrown? <==> ProviderConfigured(env) && providerThrows
    ensures r.Logged? <==> !ProviderConfigured(env)
    ensures r.Delivered? ==> r.from == Sender(env)
  {
    if !ProviderConfigured(env) then Logged(payload)
    else if providerThrows then Rethrown(payload)
    else Delivered(Sender(env), payload)
  }
}
