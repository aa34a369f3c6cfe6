/**
 * The unified email service: the recipient check, the template table that
 * gives each email its subject, the branding stamped on every email's data,
 * and the retry loop around a send. Rendering the React template and the call
 * to Resend are outside the model: the Resend answer is a parameter, and the
 * model records the request that would be handed to it.
 */
module EmailService {
  import opened Common

  // ---------------------------------------------------------------------------
  // Recipient addresses

  /** A character the class `[^\s@]` matches. */
  predicate PlainChar(c: char)
  {
    !IsJsWhitespace(c) && c != '@'
  }

  predicate AllPlain(s: string)
  {
    forall i :: 0 <= i < |s| ==> PlainChar(s[i])
  }

  /** Position of the first `c` in `s`, or `|s|` when there is none. */
  function IndexOf(s: string, c: char): (i: nat)
    ensures i <= |s|
    ensures i < |s| ==> s[i] == c
    ensures forall j :: 0 <= j < i ==> s[j] != c
  {
    if |s| == 0 then 0 else if s[0] == c then 0 else 1 + IndexOf(s[1..], c)
  }

  /** The domain has a dot that is neither its first nor its last character. */
  predicate InnerDot(domain: string)
  {
    |domain| >= 3 && HasChar(domain[1..|domain| - 1], '.')
  }

  /**
   * `isValidEmail`: the test of `/^[^\s@]+@[^\s@]+\.[^\s@]+$/`, read left to
   * right — a non-empty local part up to the first `@`, then a domain free of
   * white space and `@` with an inner dot.
   */
  predicate IsValidEmail(email: string)
  {
    var at := IndexOf(email, '@');
    0 < at < |email| && AllPlain(email[..at]) && AllPlain(email[at + 1..]) && InnerDot(email[at + 1..])
  }

  /** The regular expression as a split of the address into local part, host and last label. */
  ghost predicate MatchesEmailRegex(s: string)
  {
    exists at, dot :: 0 < at && at + 1 < dot && dot + 1 < |s| && s[at] == '@' && s[dot] == '.'
      && AllPlain(s[..at]) && AllPlain(s[at + 1..dot]) && AllPlain(s[dot + 1..])
  }

  /** An address `IsValidEmail` accepts splits as the regular expression requires. */
  lemma ValidEmailMatchesRegex(s: string)
    requires IsValidEmail(s)
    ensures MatchesEmailRegex(s)
  {
    var at := IndexOf(s, '@');
    var domain := s[at + 1..];
    var inner := domain[1..|domain| - 1];
    var k :| 0 <= k < |inner| && inner[k] == '.';
    var dot := at + 2 + k;
    assert s[dot] == '.';
    assert s[at + 1..dot] == domain[..k + 1];
    assert s[dot + 1..] == domain[k + 2..];
  }

  /** The first `c` of `s` is at `i` when `s[i]` is one and none comes before. */
  lemma IndexOfFirst(s: string, c: char, i: nat)
    requires i < |s| && s[i] == c
    requires forall j :: 0 <= j < i ==> s[j] != c
    ensures IndexOf(s, c) == i
  {
  }

  lemma AllPlainAround(a: string, c: char, b: string)
    requires AllPlain(a) && PlainChar(c) && AllPlain(b)
    ensures AllPlain(a + [c] + b)
  {
    var s := a + [c] + b;
    forall i | 0 <= i < |s|
      ensures PlainChar(s[i])
    {
      if i < |a| {
        assert s[i] == a[i];
      } else if i > |a| {
        assert s[i] == b[i - |a| - 1];
      }
    }
  }

  /** An address split at an `@` and a later dot into plain parts is accepted. */
  lemma SplitIsValidEmail(s: string, at: nat, dot: nat)
    requires 0 < at && at + 1 < dot && dot + 1 < |s| && s[at] == '@' && s[dot] == '.'
    requires AllPlain(s[..at]) && AllPlain(s[at + 1..dot]) && AllPlain(s[dot + 1..])
    ensures IsValidEmail(s)
  {
    forall j | 0 <= j < at
      ensures s[j] != '@'
    {
      assert s[j] == s[..at][j];
    }
    IndexOfFirst(s, '@', at);
    var domain := s[at + 1..];
    assert domain == s[at + 1..dot] + [s[dot]] + s[dot + 1..];
    AllPlainAround(s[at + 1..dot], s[dot], s[dot + 1..]);
    assert domain[1..|domain| - 1][dot - at - 2] == '.';
  }

  /** A string the regular expression matches is accepted by `IsValidEmail`. */
  lemma RegexMatchIsValidEmail(s: string)
    requires MatchesEmailRegex(s)
    ensures IsValidEmail(s)
  {
    var at, dot :| 0 < at && at + 1 < dot && dot + 1 < |s| && s[at] == '@' && s[dot] == '.'
      && AllPlain(s[..at]) && AllPlain(s[at + 1..dot]) && AllPlain(s[dot + 1..]);
    SplitIsValidEmail(s, at, dot);
  }

  /** `IsValidEmail` accepts exactly the strings the regular expression matches. */
  lemma IsValidEmailMatchesRegex(s: string)
    ensures IsValidEmail(s) <==> MatchesEmailRegex(s)
  {
    if IsValidEmail(s) {
      ValidEmailMatchesRegex(s);
    }
    if MatchesEmailRegex(s) {
      RegexMatchIsValidEmail(s);
    }
  }

  /**
   * The acceptance condition in words: no white space, exactly one `@`, a
   * non-empty local part, and a dot in the domain that is neither its first
   * nor its last character.
   */
  lemma IsValidEmailCharacterised(s: string)
    ensures IsValidEmail(s) <==>
              (forall i :: 0 <= i < |s| ==> !IsJsWhitespace(s[i]))
              && exists at :: 0 < at < |s| && s[at] == '@'
                              && (forall j :: 0 <= j < |s| && s[j] == '@' ==> j == at)
                              && exists k :: at + 1 < k < |s| - 1 && s[k] == '.'
  {
    var at := IndexOf(s, '@');
    if IsValidEmail(s) {
      forall i | 0 <= i < |s|
        ensures !IsJsWhitespace(s[i]) && (s[i] == '@' ==> i == at)
      {
        if i < at {
          assert s[i] == s[..at][i];
        } else if i > at {
          assert s[i] == s[at + 1..][i - at - 1];
        }
      }
      var domain := s[at + 1..];
      var k :| 0 <= k < |domain| - 2 && domain[1..|domain| - 1][k] == '.';
      assert s[at + 2 + k] == '.';
    }
    if (forall i :: 0 <= i < |s| ==> !IsJsWhitespace(s[i]))
       && exists a :: 0 < a < |s| && s[a] == '@'
                      && (forall j :: 0 <= j < |s| && s[j] == '@' ==> j == a)
                      && exists k :: a + 1 < k < |s| - 1 && s[k] == '.'
    {
      var a :| 0 < a < |s| && s[a] == '@'
               && (forall j :: 0 <= j < |s| && s[j] == '@' ==> j == a)
               && exists k :: a + 1 < k < |s| - 1 && s[k] == '.';
      assert at == a;
      var k :| a + 1 < k < |s| - 1 && s[k] == '.';
      var domain := s[a + 1..];
      assert domain[1..|domain| - 1][k - a - 2] == '.';
    }
  }

  /** A typical address is accepted. */
  lemma ValidEmailExample()
    ensures IsValidEmail("jo@cake.uk")
  {
    var s := "jo@cake.uk";
    assert IndexOf(s, '@') == 2;
    assert s[3..][1..|s[3..]| - 1][3] == '.';
  }

  /** An address without a dot in its domain or with a second `@` is refused. */
  lemma InvalidEmailExamples()
    ensures !IsValidEmail("jo@cake") && !IsValidEmail("jo@@cake.uk")
  {
    assert IndexOf("jo@cake", '@') == 2;
    assert IndexOf("jo@@cake.uk", '@') == 2;
    assert !PlainChar("jo@@cake.uk"[3..][0]);
  }

  /** An address with white space is refused. */
  lemma SpacedEmailExample()
    ensures !IsValidEmail("j o@c.uk")
  {
    assert IndexOf("j o@c.uk", '@') == 3;
    assert !PlainChar("j o@c.uk"[..3][1]);
  }

  // ---------------------------------------------------------------------------
  // Templates and branding

  const BrandName := "Dee-licious Bakes"
  const BrandEmail := "info@deeliciousbakes.co.uk"

  /** The configured templates. */
  datatype Template =
    | ResetPassword | VerifyEmail | ChangeEmail | DeleteAccount | AccountDeleted
    | CakeWelcome | CakeUnsubscribeConfirmation

  /** The key each template is configured under. */
  function TemplateName(t: Template): string
  {
    match t
    case ResetPassword => "reset-password"
    case VerifyEmail => "verify-email"
    case ChangeEmail => "change-email"
    case DeleteAccount => "delete-account"
    case AccountDeleted => "account-deleted"
    case CakeWelcome => "cake-welcome"
    case CakeUnsubscribeConfirmation => "cake-unsubscribe-confirmation"
  }

  /** The subject configured for each template. */
  function Subject(t: Template): string
  {
    match t
    case ResetPassword => "Reset Your Password - Dee-licious Bakes"
    case VerifyEmail => "Verify Your Email Address - Dee-licious Bakes"
    case ChangeEmail => "Approve Email Address Change - Dee-licious Bakes"
    case DeleteAccount => "Confirm Account Deletion - Dee-licious Bakes"
    case AccountDeleted => "Account Deletion Confirmed - Dee-licious Bakes"
    case CakeWelcome => "Welcome to Dee-licious Bakes! \U{1F370}"
    case CakeUnsubscribeConfirmation => "Unsubscribe Confirmed - Dee-licious Bakes"
  }

  /** `EMAIL_TEMPLATES[template]`: the template configured under a key, if any. */
  function LookupTemplate(name: string): (r: Option<Template>)
    ensures r.Some? ==> TemplateName(r.value) == name
  {
    if name == "reset-password" then Some(ResetPassword)
    else if name == "verify-email" then Some(VerifyEmail)
    else if name == "change-email" then Some(ChangeEmail)
    else if name == "delete-account" then Some(DeleteAccount)
    else if name == "account-deleted" then Some(AccountDeleted)
    else if name == "cake-welcome" then Some(CakeWelcome)
    else if name == "cake-unsubscribe-confirmation" then Some(CakeUnsubscribeConfirmation)
    else None
  }

  /** Every template is found under its own key. */
  lemma LookupTemplateFindsEach(t: Template)
    ensures LookupTemplate(TemplateName(t)) == Some(t)
  {
  }

  /** The lookup fails exactly for a key no template is configured under. */
  lemma LookupTemplateFails(name: string)
    ensures LookupTemplate(name).None? <==> forall t: Template :: TemplateName(t) != name
  {
    forall t: Template
      ensures TemplateName(t) == name ==> LookupTemplate(name) == Some(t)
    {
      LookupTemplateFindsEach(t);
    }
  }

  /** An email's data: each field with its value, `None` standing for a field set to `undefined`. */
  type EmailData = map<string, Option<string>>

  /** `enhanceDataWithBranding`: the data with the company name and support address of the brand. */
  function Branded(data: EmailData): (r: EmailData)
    ensures r.Keys == data.Keys + {"companyName", "supportEmail"}
    ensures r["companyName"] == Some(BrandName) && r["supportEmail"] == Some(BrandEmail)
    ensures forall k :: k in data && k != "companyName" && k != "supportEmail" ==> r[k] == data[k]
  {
    data["companyName" := Some(BrandName)]["supportEmail" := Some(BrandEmail)]
  }

  /** Branding twice is branding once, and whatever the caller put in the two fields is replaced. */
  lemma BrandingOverwrites(data: EmailData, name: Option<string>, email: Option<string>)
    ensures Branded(Branded(data)) == Branded(data)
    ensures Branded(data["companyName" := name]["supportEmail" := email]) == Branded(data)
  {
  }

  // ---------------------------------------------------------------------------
  // Sending

  /** `EmailSendResult`. */
  datatype SendResult = SendResult(success: bool, messageId: Option<string>, error: Option<string>)

  function Failure(error: string): SendResult
  {
    SendResult(false, None, Some(error))
  }

  /**
   * What the call to Resend comes back with: the id of the sent email (which
   * may be missing), an API error with its message, or an exception, with
   * its message when it is an `Error`.
   */
  datatype ResendResponse = Delivered(id: Option<string>) | ApiError(message: string) | Threw(thrown: Option<string>)

  /** The request handed to Resend; the rendered HTML and text are left out. */
  datatype EmailRequest = EmailRequest(from: string, to: string, subject: string, data: EmailData)

  /** The outcome of one send and the request it handed to Resend, if any. */
  datatype Delivery = Delivery(result: SendResult, request: Option<EmailRequest>)

  /** The result for Resend's answer; an API error's message follows `prefix`. */
  function ResponseResult(prefix: string, response: ResendResponse): (r: SendResult)
    ensures r.success <==> response.Delivered?
    ensures r.success ==> r.messageId == response.id && r.error == None
    ensures !r.success ==> r.error.Some? && r.messageId == None
    ensures response.ApiError? ==> r.error == Some(prefix + response.message)
  {
    match response
    case Delivered(id) => SendResult(true, id, None)
    case ApiError(message) => Failure(prefix + message)
    case Threw(thrown) => Failure(thrown.GetOr("Unknown error"))
  }

  /** The service and the sender address it was built with. */
  datatype Service = Service(fromEmail: string)

  datatype SendEmailParams = SendEmailParams(to: string, template: string, data: EmailData, from: Option<string>)

  /**
   * `sendEmail`: an empty or malformed recipient and an unknown template are
   * refused before anything is rendered or sent; otherwise the branded data
   * goes out under the template's subject, from the caller's address or the
   * service's.
   */
  function SendEmail(service: Service, p: SendEmailParams, response: ResendResponse): (d: Delivery)
    ensures d.request.Some? <==> IsValidEmail(p.to) && LookupTemplate(p.template).Some?
    ensures !IsValidEmail(p.to) ==> d.result == Failure("Invalid recipient email address: " + p.to)
    ensures IsValidEmail(p.to) && LookupTemplate(p.template).None? ==>
              d.result == Failure("Unknown email template: " + p.template)
    ensures d.request.Some? ==>
              d.request.value == EmailRequest(OrStr(p.from, service.fromEmail), p.to, Subject(LookupTemplate(p.template).value), Branded(p.data))
              && d.result == ResponseResult("Email sending failed: ", response)
    ensures d.result.success ==> d.request.Some? && response.Delivered?
  {
    if p.to == "" || !IsValidEmail(p.to) then
      Delivery(Failure("Invalid recipient email address: " + p.to), None)
    else if LookupTemplate(p.template).None? then
      Delivery(Failure("Unknown email template: " + p.template), None)
    else
      var config := LookupTemplate(p.template).value;
      var request := EmailRequest(OrStr(p.from, service.fromEmail), p.to, Subject(config), Branded(p.data));
      Delivery(ResponseResult("Email sending failed: ", response), Some(request))
  }

  /** An empty `from` falls back to the service's address just as a missing one does. */
  lemma SendEmailFromFallback(service: Service, p: SendEmailParams, response: ResendResponse)
    requires IsValidEmail(p.to) && LookupTemplate(p.template).Some?
    ensures SendEmail(service, p.(from := Some("")), response).request.value.from == service.fromEmail
    ensures SendEmail(service, p.(from := None), response).request.value.from == service.fromEmail
  {
  }

  // ---------------------------------------------------------------------------
  // Retrying

  const DefaultMaxRetries := 3
  const DefaultDelayMs := 1000

  /** The sends a retry loop made and what it returned. */
  datatype RetryRun = RetryRun(result: SendResult, attempts: nat)

  /** The loop from attempt `attempt` on, with `lastError` recorded so far. */
  function RetryFrom(outcome: nat -> SendResult, attempt: nat, maxRetries: int, lastError: string): (run: RetryRun)
    requires attempt >= 1
    decreases if attempt <= maxRetries then maxRetries - attempt + 1 else 0
  {
    if maxRetries < attempt then
      RetryRun(Failure("Failed after " + IntToString(maxRetries) + " attempts: " + lastError), attempt - 1)
    else if outcome(attempt).success then
      RetryRun(outcome(attempt), attempt)
    else
      RetryFrom(outcome, attempt + 1, maxRetries, OrStr(outcome(attempt).error, "Unknown error"))
  }

  /** The retry loop when attempt `k` would end with `outcome(k)`. */
  function Retry(outcome: nat -> SendResult, maxRetries: int): RetryRun
  {
    RetryFrom(outcome, 1, maxRetries, "")
  }

  /** The error recorded after the last attempt of a loop in which every attempt failed. */
  function LastError(outcome: nat -> SendResult, maxRetries: int): string
  {
    if maxRetries >= 1 then OrStr(outcome(maxRetries).error, "Unknown error") else ""
  }

  function MaxZero(n: int): nat
  {
    if n < 0 then 0 else n
  }

  lemma {:induction false} RetryFromMeaning(outcome: nat -> SendResult, attempt: nat, maxRetries: int, lastError: string)
    requires 1 <= attempt
    requires maxRetries >= 1 ==> attempt <= maxRetries + 1
    requires attempt > 1 ==> lastError == OrStr(outcome(attempt - 1).error, "Unknown error")
    requires attempt == 1 ==> lastError == ""
    requires maxRetries < 1 ==> attempt == 1
    ensures var run := RetryFrom(outcome, attempt, maxRetries, lastError);
            attempt - 1 <= run.attempts <= MaxZero(maxRetries)
            && (run.result.success ==>
                  attempt <= run.attempts && run.result == outcome(run.attempts) && forall j :: attempt <= j < run.attempts ==> !outcome(j).success)
            && (!run.result.success ==>
                  run.attempts == MaxZero(maxRetries)
                  && (forall j :: attempt <= j <= maxRetries ==> !outcome(j).success)
                  && run.result == Failure("Failed after " + IntToString(maxRetries) + " attempts: " + LastError(outcome, maxRetries)))
    decreases if attempt <= maxRetries then maxRetries - attempt + 1 else 0
  {
    if maxRetries >= attempt && !outcome(attempt).success {
      RetryFromMeaning(outcome, attempt + 1, maxRetries, OrStr(outcome(attempt).error, "Unknown error"));
    }
  }

  /**
   * The retry loop returns the first successful result and makes no further
   * attempt; it makes at most `maxRetries` attempts; and when every attempt
   * fails it reports "Failed after N attempts: " and the last error.
   */
  lemma RetryMeaning(outcome: nat -> SendResult, maxRetries: int)
    ensures Retry(outcome, maxRetries).attempts <= MaxZero(maxRetries)
    ensures var run := Retry(outcome, maxRetries);
            run.result.success ==>
              1 <= run.attempts && run.result == outcome(run.attempts)
              && forall j :: 1 <= j < run.attempts ==> !outcome(j).success
    ensures var run := Retry(outcome, maxRetries);
            !run.result.success ==>
              run.attempts == MaxZero(maxRetries)
              && (forall j :: 1 <= j <= maxRetries ==> !outcome(j).success)
              && run.result == Failure("Failed after " + IntToString(maxRetries) + " attempts: " + LastError(outcome, maxRetries))
  {
    RetryFromMeaning(outcome, 1, maxRetries, "");
  }

  /** The loop succeeds exactly when one of the first `maxRetries` attempts would. */
  lemma RetrySucceedsIff(outcome: nat -> SendResult, maxRetries: int)
    ensures Retry(outcome, maxRetries).result.success <==> exists k :: 1 <= k <= maxRetries && outcome(k).success
  {
    RetryMeaning(outcome, maxRetries);
  }

  /** With no attempts allowed nothing is sent and the recorded error is empty. */
  lemma RetryWithoutAttempts(outcome: nat -> SendResult, maxRetries: int)
    requires maxRetries <= 0
    ensures Retry(outcome, maxRetries) == RetryRun(Failure("Failed after " + IntToString(maxRetries) + " attempts: "), 0)
  {
    assert "Failed after " + IntToString(maxRetries) + " attempts: " + "" == "Failed after " + IntToString(maxRetries) + " attempts: ";
  }

  /** The waits after `attempts` attempts: `delayMs * k` after the k-th, and none after the last. */
  function Backoff(delayMs: int, attempts: nat): (waits: seq<int>)
    ensures |waits| == if attempts == 0 then 0 else attempts - 1
    ensures forall i :: 0 <= i < |waits| ==> waits[i] == delayMs * (i + 1)
  {
    if attempts <= 1 then [] else Backoff(delayMs, attempts - 1) + [delayMs * (attempts - 1)]
  }

  /** With the defaults, a loop that fails throughout waits one and then two seconds. */
  lemma DefaultBackoff(outcome: nat -> SendResult)
    requires forall k :: 1 <= k <= DefaultMaxRetries ==> !outcome(k).success
    ensures Retry(outcome, DefaultMaxRetries).attempts == 3
    ensures Backoff(DefaultDelayMs, Retry(outcome, DefaultMaxRetries).attempts) == [1000, 2000]
  {
    RetryMeaning(outcome, DefaultMaxRetries);
  }

  /** What the k-th call to `sendEmail` returns when Resend answers `responses(k)`. */
  function AttemptOutcomes(service: Service, p: SendEmailParams, responses: nat -> ResendResponse): nat -> SendResult
  {
    (k: nat) => SendEmail(service, p, responses(k)).result
  }

  /**
   * `sendEmailWithRetry`: the counted loop, returning the result, the number
   * of sends made and the waits requested between them.
   */
  method SendEmailWithRetry(service: Service, p: SendEmailParams, responses: nat -> ResendResponse, maxRetries: int, delayMs: int)
    returns (result: SendResult, attempts: nat, waits: seq<int>)
    ensures RetryRun(result, attempts) == Retry(AttemptOutcomes(service, p, responses), maxRetries)
    ensures waits == Backoff(delayMs, attempts)
  {
    ghost var outcome := AttemptOutcomes(service, p, responses);
    var lastError := "";
    var attempt := 1;
    waits := [];
    while attempt <= maxRetries
      invariant 1 <= attempt
      invariant maxRetries >= 1 ==> attempt <= maxRetries + 1
      invariant RetryFrom(outcome, attempt, maxRetries, lastError) == Retry(outcome, maxRetries)
      invariant waits == Backoff(delayMs, if attempt <= maxRetries then attempt else attempt - 1)
      decreases maxRetries - attempt + 1
    {
      var current := SendEmail(service, p, responses(attempt)).result;
      assert current == outcome(attempt);
      if current.success {
        return current, attempt, waits;
      }
      lastError := OrStr(current.error, "Unknown error");
      if attempt < maxRetries {
        waits := waits + [delayMs * attempt];
      }
      attempt := attempt + 1;
    }
    result := Failure("Failed after " + IntToString(maxRetries) + " attempts: " + lastError);
    attempts := attempt - 1;
  }

  /** A malformed recipient fails every attempt, so the loop sends nothing and reports the recipient error. */
  lemma RetryInvalidRecipient(service: Service, p: SendEmailParams, responses: nat -> ResendResponse, maxRetries: int)
    requires !IsValidEmail(p.to) && maxRetries >= 1
    ensures Retry(AttemptOutcomes(service, p, responses), maxRetries).result.error ==
              Some("Failed after " + IntToString(maxRetries) + " attempts: " + ("Invalid recipient email address: " + p.to))
  {
    var outcome := AttemptOutcomes(service, p, responses);
    var error := "Invalid recipient email address: " + p.to;
    forall k: nat
      ensures outcome(k) == Failure(error)
    {
      assert outcome(k) == SendEmail(service, p, responses(k)).result;
    }
    RetryMeaning(outcome, maxRetries);
    assert error[0] == 'I';
    assert LastError(outcome, maxRetries) == error;
  }
}
