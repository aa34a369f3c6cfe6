/**
 * The newsletter schemas: subscribing with an email, an optional first name
 * and the form the visitor used, and unsubscribing by email or by token. The
 * email format check zod applies is not modelled; see the email service for
 * the recipient check the application itself applies.
 */
module SubscriptionValidation {
  import opened Common
  import opened Zod

  /** The forms a subscription can come from. */
  const Sources: seq<string> := ["hero", "inline", "footer", "popup"]

  datatype SubscribeInput = SubscribeInput(email: Option<string>, firstName: Option<string>, source: Option<string>)

  /** `subscribeEmailSchema`: a 1 to 255 character email, a first name of at most 100, and a known source. */
  predicate SubscribeValid(x: SubscribeInput)
  {
    ReqStr(x.email, 1, 255) && OptStr(x.firstName, 100) && OptIn(x.source, Sources)
  }

  /** `subscribeEmailSchema.parse`: the source is "hero" unless the form says otherwise. */
  function ParseSubscribe(x: SubscribeInput): (r: Option<SubscribeInput>)
    ensures r.Some? <==> SubscribeValid(x)
    ensures r.Some? ==> SubscribeValid(r.value) && r.value.source == Some(x.source.GetOr("hero"))
    ensures r.Some? ==> r.value.email == x.email && r.value.firstName == x.firstName
  {
    if SubscribeValid(x) then Some(x.(source := Some(x.source.GetOr("hero")))) else None
  }

  /** The email bounds, the first-name bound and the source list, read off single fields. */
  lemma SubscribeFields(email: string, name: string, source: string)
    ensures ParseSubscribe(SubscribeInput(Some(email), None, None)).Some? <==> 1 <= |email| <= 255
    ensures ParseSubscribe(SubscribeInput(Some("a@b.co"), Some(name), None)).Some? <==> |name| <= 100
    ensures ParseSubscribe(SubscribeInput(Some("a@b.co"), None, Some(source))).Some? <==>
              (source == "hero" || source == "inline" || source == "footer" || source == "popup")
    ensures ParseSubscribe(SubscribeInput(Some("a@b.co"), None, None)).value.source == Some("hero")
    ensures ParseSubscribe(SubscribeInput(None, None, None)).None?
  {
  }

  /** A parsed subscription parses to itself. */
  lemma ParseSubscribeIdempotent(x: SubscribeInput)
    requires ParseSubscribe(x).Some?
    ensures ParseSubscribe(ParseSubscribe(x).value) == ParseSubscribe(x)
  {
  }

  /**
   * `unsubscribeEmailSchema`: an email, when given, is 1 to 255 characters;
   * a token, when given, is not empty; and the refinement asks for a truthy
   * email or a truthy token.
   */
  predicate UnsubscribeValid(email: Option<string>, token: Option<string>)
  {
    (email.None? || LenIn(email.value, 1, 255)) && (token.None? || |token.value| >= 1)
    && (TruthyStr(email) || TruthyStr(token))
  }

  /** Unsubscribing needs one of the two; either alone suffices, and empty strings count as missing. */
  lemma UnsubscribeEitherOr(email: string, token: string)
    ensures !UnsubscribeValid(None, None)
    ensures 1 <= |email| <= 255 ==> UnsubscribeValid(Some(email), None)
    ensures |token| >= 1 ==> UnsubscribeValid(None, Some(token))
    ensures !UnsubscribeValid(Some(""), None) && !UnsubscribeValid(None, Some(""))
    ensures UnsubscribeValid(Some(email), Some(token)) ==> |email| >= 1 && |token| >= 1
  {
  }
}
