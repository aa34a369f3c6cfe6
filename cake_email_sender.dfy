/**
 * The newsletter email sender: the welcome and unsubscribe-confirmation
 * emails. It shares the recipient check, the Resend answers and the shape of
 * the retry loop with the unified service, but has its own two-template
 * table, leaves the caller's data unbranded, and fills the company name and
 * support address only where the caller gave none.
 */
module CakeEmailSender {
  import opened Common
  import opened EmailService

  /** The templates with a component to render. */
  predicate HasCakeComponent(template: string)
  {
    template == "cake-welcome" || template == "cake-unsubscribe-confirmation"
  }

  /**
   * The subjects, with the text exactly as the source file holds it: the
   * welcome subject ends in the four characters that the UTF-8 bytes of a cake
   * emoji become when read as Mac OS Roman.
   */
  function CakeSubject(template: string): string
    requires HasCakeComponent(template)
  {
    if template == "cake-welcome" then "Welcome to Dee's Delicious Cakes! \U{F8FF}\U{00FC}\U{00E7}\U{221E}"
    else "Unsubscribe Confirmed - Dee's Delicious Cakes"
  }

  /**
   * `renderCakeEmailTemplate`, as far as it can fail: a template without a
   * component throws, and the `catch` wraps the message.
   */
  function RenderCakeEmail(template: string): (r: Result<(), string>)
    ensures r.Ok? <==> HasCakeComponent(template)
    ensures r.Err? ==> r.error == "Cake email template rendering failed: " + ("Unknown cake email template: " + template)
  {
    if !HasCakeComponent(template) then
      Err("Cake email template rendering failed: " + ("Unknown cake email template: " + template))
    else
      Ok(())
  }

  datatype SendCakeEmailParams = SendCakeEmailParams(to: string, template: string, data: EmailData, from: Option<string>)

  /**
   * `sendCakeEmail`: an empty or malformed recipient is refused before
   * rendering, an unknown template fails while rendering, and otherwise the
   * caller's data goes out under the template's subject. The sender address
   * defaults to `envFrom` only when the caller leaves it undefined.
   */
  function SendCakeEmail(p: SendCakeEmailParams, envFrom: string, response: ResendResponse): (d: Delivery)
    ensures d.request.Some? <==> IsValidEmail(p.to) && HasCakeComponent(p.template)
    ensures !IsValidEmail(p.to) ==> d.result == Failure("Invalid recipient email address: " + p.to)
    ensures IsValidEmail(p.to) && !HasCakeComponent(p.template) ==>
              d.result == Failure(RenderCakeEmail(p.template).error)
    ensures d.request.Some? ==>
              d.request.value == EmailRequest(p.from.GetOr(envFrom), p.to, CakeSubject(p.template), p.data)
              && d.result == ResponseResult("Cake email sending failed: ", response)
    ensures d.result.success ==> d.request.Some? && response.Delivered?
  {
    if p.to == "" || !IsValidEmail(p.to) then
      Delivery(Failure("Invalid recipient email address: " + p.to), None)
    else
      match RenderCakeEmail(p.template)
      case Err(message) => Delivery(Failure(message), None)
      case Ok(_) =>
        var request := EmailRequest(p.from.GetOr(envFrom), p.to, CakeSubject(p.template), p.data);
        Delivery(ResponseResult("Cake email sending failed: ", response), Some(request))
  }

  /**
   * Both senders refuse the same recipients with the same message and send
   * nothing for them.
   */
  lemma RecipientCheckAgrees(service: Service, p: SendEmailParams, cp: SendCakeEmailParams, envFrom: string, response: ResendResponse)
    requires p.to == cp.to
    ensures !IsValidEmail(p.to) ==>
              SendEmail(service, p, response) == SendCakeEmail(cp, envFrom, response)
              == Delivery(Failure("Invalid recipient email address: " + p.to), None)
    ensures IsValidEmail(p.to) ==>
              SendEmail(service, p, response).result.error != Some("Invalid recipient email address: " + p.to)
              || SendEmail(service, p, response).request.Some?
    ensures IsValidEmail(p.to) ==>
              SendCakeEmail(cp, envFrom, response).result.error != Some("Invalid recipient email address: " + p.to)
              || SendCakeEmail(cp, envFrom, response).request.Some?
  {
    if IsValidEmail(p.to) && LookupTemplate(p.template).None? {
      assert "Unknown email template: " + p.template != "Invalid recipient email address: " + p.to by {
        assert ("Unknown email template: " + p.template)[0] == 'U';
      }
    }
    if IsValidEmail(cp.to) && !HasCakeComponent(cp.template) {
      assert RenderCakeEmail(cp.template).error[0] == 'C';
    }
  }

  /**
   * The two senders treat an empty `from` differently: the cake sender's
   * default applies only to an undefined one, the unified service's `||`
   * also replaces the empty string.
   */
  lemma EmptyFromDiffers(service: Service, p: SendEmailParams, cp: SendCakeEmailParams, envFrom: string, response: ResendResponse)
    requires IsValidEmail(cp.to) && HasCakeComponent(cp.template) && cp.from == Some("")
    requires IsValidEmail(p.to) && LookupTemplate(p.template).Some? && p.from == Some("")
    ensures SendCakeEmail(cp, envFrom, response).request.value.from == ""
    ensures SendEmail(service, p, response).request.value.from == service.fromEmail
    ensures SendCakeEmail(cp.(from := None), envFrom, response).request.value.from == envFrom
  {
  }

  // ---------------------------------------------------------------------------
  // Welcome and unsubscribe confirmations

  const CakeCompanyName := "Dee's Delicious Cakes"
  const CakeSupportEmail := "hello@deeliciousbakes.co.uk"

  /**
   * `{ companyName: ..., supportEmail: ..., ...data }`: the defaults, with
   * every field the caller gave spread over them — an explicit `undefined`
   * included.
   */
  function WithCakeDefaults(data: EmailData): (r: EmailData)
    ensures r.Keys == data.Keys + {"companyName", "supportEmail"}
    ensures forall k :: k in data ==> r[k] == data[k]
    ensures "companyName" !in data ==> r["companyName"] == Some(CakeCompanyName)
    ensures "supportEmail" !in data ==> r["supportEmail"] == Some(CakeSupportEmail)
  {
    map["companyName" := Some(CakeCompanyName), "supportEmail" := Some(CakeSupportEmail)] + data
  }

  /**
   * The defaults fill only what is missing, so applying them again changes
   * nothing; the unified service's branding, in contrast, replaces what the
   * caller gave.
   */
  lemma CallerValuesWin(data: EmailData, name: string)
    ensures WithCakeDefaults(WithCakeDefaults(data)) == WithCakeDefaults(data)
    ensures WithCakeDefaults(data["companyName" := Some(name)])["companyName"] == Some(name)
    ensures WithCakeDefaults(data["companyName" := None])["companyName"] == None
    ensures Branded(data["companyName" := Some(name)])["companyName"] == Some(BrandName)
  {
  }

  /**
   * The body shared by `sendCakeWelcomeEmail` and
   * `sendCakeUnsubscribeConfirmationEmail`: `sendCakeEmail` on a fixed
   * template, with the defaults merged under the caller's data.
   */
  function SendCakeWithDefaults(template: string, to: string, data: EmailData, envFrom: string, response: ResendResponse)
    : (d: Delivery)
    ensures d.request.Some? <==> IsValidEmail(to) && HasCakeComponent(template)
    ensures d.request.Some? ==>
              d.request.value == EmailRequest(envFrom, to, CakeSubject(template), WithCakeDefaults(data))
  {
    SendCakeEmail(SendCakeEmailParams(to, template, WithCakeDefaults(data), None), envFrom, response)
  }

  /** `sendCakeWelcomeEmail`. */
  function SendCakeWelcomeEmail(to: string, data: EmailData, envFrom: string, response: ResendResponse): Delivery
  {
    SendCakeWithDefaults("cake-welcome", to, data, envFrom, response)
  }

  /** `sendCakeUnsubscribeConfirmationEmail`. */
  function SendCakeUnsubscribeConfirmationEmail(to: string, data: EmailData, envFrom: string, response: ResendResponse): Delivery
  {
    SendCakeWithDefaults("cake-unsubscribe-confirmation", to, data, envFrom, response)
  }

  /**
   * Each helper sends exactly when the recipient passes the check, under its
   * own subject, with the defaults filled into the caller's data.
   */
  lemma CakeHelpersSendTheirTemplates(to: string, data: EmailData, envFrom: string, response: ResendResponse)
    ensures SendCakeWelcomeEmail(to, data, envFrom, response).request.Some? <==> IsValidEmail(to)
    ensures SendCakeUnsubscribeConfirmationEmail(to, data, envFrom, response).request.Some? <==> IsValidEmail(to)
    ensures IsValidEmail(to) ==>
              SendCakeWelcomeEmail(to, data, envFrom, response).request.value
              == EmailRequest(envFrom, to, "Welcome to Dee's Delicious Cakes! \U{F8FF}\U{00FC}\U{00E7}\U{221E}", WithCakeDefaults(data))
    ensures IsValidEmail(to) ==>
              SendCakeUnsubscribeConfirmationEmail(to, data, envFrom, response).request.value
              == EmailRequest(envFrom, to, "Unsubscribe Confirmed - Dee's Delicious Cakes", WithCakeDefaults(data))
  {
  }

  // ---------------------------------------------------------------------------
  // Retrying

  /** What the k-th call to `sendCakeEmail` returns when Resend answers `responses(k)`. */
  function CakeAttemptOutcomes(p: SendCakeEmailParams, envFrom: string, responses: nat -> ResendResponse): nat -> SendResult
  {
    (k: nat) => SendCakeEmail(p, envFrom, responses(k)).result
  }

  /**
   * `sendCakeEmailWithRetry`: the same counted loop around `sendCakeEmail`,
   * returning the result, the number of sends made and the waits requested.
   */
  method SendCakeEmailWithRetry(p: SendCakeEmailParams, envFrom: string, responses: nat -> ResendResponse, maxRetries: int, delayMs: int)
    returns (result: SendResult, attempts: nat, waits: seq<int>)
    ensures RetryRun(result, attempts) == Retry(CakeAttemptOutcomes(p, envFrom, responses), maxRetries)
    ensures waits == Backoff(delayMs, attempts)
  {
    ghost var outcome := CakeAttemptOutcomes(p, envFrom, responses);
    var lastError := "";
    var attempt := 1;
    waits := [];
    while attempt <= maxRetries
      invariant 1 <= attempt
      invariant maxRetries >= 1 ==> attempt <= maxRetries + 1
      invariant RetryFrom(outcome, attempt, maxRetries, lastError) == Retry(outcome, maxRetries)
      invariant waits == Backoff(delayMs, if attempt <= maxRetries then attempt else attempt - 1)
      decreases maxRetries - attempt + 1
    {
      var current := SendCakeEmail(p, envFrom, responses(attempt)).result;
      assert current == outcome(attempt);
      if current.success {
        return current, attempt, waits;
      }
      lastError := OrStr(current.error, "Unknown error");
      if attempt < maxRetries {
        waits := waits + [delayMs * attempt];
      }
      attempt := attempt + 1;
    }
    result := Failure("Failed after " + IntToString(maxRetries) + " attempts: " + lastError);
    attempts := attempt - 1;
  }

  /**
   * An unknown template fails on every attempt, so with at least one attempt
   * the loop ends with the rendering error after `maxRetries` sends.
   */
  lemma RetryUnknownCakeTemplate(p: SendCakeEmailParams, envFrom: string, responses: nat -> ResendResponse, maxRetries: int)
    requires IsValidEmail(p.to) && !HasCakeComponent(p.template) && maxRetries >= 1
    ensures Retry(CakeAttemptOutcomes(p, envFrom, responses), maxRetries) ==
              RetryRun(Failure("Failed after " + IntToString(maxRetries) + " attempts: " + RenderCakeEmail(p.template).error), maxRetries)
  {
    var outcome := CakeAttemptOutcomes(p, envFrom, responses);
    var error := RenderCakeEmail(p.template).error;
    forall k: nat
      ensures outcome(k) == Failure(error)
    {
      assert outcome(k) == SendCakeEmail(p, envFrom, responses(k)).result;
    }
    RetryMeaning(outcome, maxRetries);
    assert error[0] == 'C';
    assert LastError(outcome, maxRetries) == error;
  }
}
