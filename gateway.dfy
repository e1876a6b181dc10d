/** The messaging-gateway client (src/lib/whatsapp-api.ts): three stateless
    calls against the provider's HTTP API. The network is not modelled: each
    call takes the outcome of its one request as an input and returns the
    request it would have sent (none when it fails before any I/O) together
    with its result or the error it throws. */
module Gateway {
  import opened Wrappers
  import opened Domain
  import Seqs
  import Text

  // ---------------------------------------------------------------- data

  /** `WhatsAppAPIError`: a message with an optional numeric code and type. */
  datatype ApiError = ApiError(message: string, code: Option<int>, kind: Option<string>)

  /** The `error` object of a provider's non-OK JSON body. */
  datatype ProviderError = ProviderError(message: string, code: Option<int>, kind: Option<string>)

  datatype TemplateStatus = Approved | PendingReview | Rejected
  datatype ComponentKind = HeaderPart | BodyPart | FooterPart | ButtonsPart

  /** A component of a provider template; only its kind and text matter here. */
  datatype TemplateComponent = TemplateComponent(kind: ComponentKind, text: Option<string>)

  datatype ProviderTemplate = ProviderTemplate(
    id: string,
    name: string,
    status: TemplateStatus,
    category: string,
    language: string,
    components: seq<TemplateComponent>)

  /** The OK body of the template listing: `data` may be absent. */
  datatype TemplatesBody = TemplatesBody(data: Option<seq<ProviderTemplate>>)

  /** The OK body of a send: the recipients the provider resolved and the new message ids. */
  datatype SentBody = SentBody(messagingProduct: string, waIds: seq<string>, messageIds: seq<string>)

  /** What came back from one request whose JSON body the client reads. */
  datatype Reply<T> =
    | Transport(failure: Option<string>)     // fetch or the JSON parse threw: `Some(message)` for an `Error`
    | Rejected(error: Option<ProviderError>) // a non-OK status; the body's `error` object, if it has one
    | Accepted(payload: T)                   // an OK status and its parsed body

  /** One `{ type: 'text', text }` template parameter. */
  datatype Parameter = Parameter(kind: string, text: string)

  /** One `{ type, parameters }` template component of a send. */
  datatype Component = Component(kind: string, parameters: seq<Parameter>)

  /** The JSON body of a send; `components: None` is a body without that key. */
  datatype Payload = Payload(
    messagingProduct: string,
    to: string,
    kind: string,
    templateName: string,
    languageCode: string,
    components: Option<seq<Component>>)

  datatype Request = Request(
    verb: string,
    url: string,
    authorization: string,
    contentType: Option<string>,
    payload: Option<Payload>)

  /** A call: the request it sent, if any, and what it returned or threw. */
  datatype Call<T> = Call(request: Option<Request>, result: Result<T, ApiError>)

  // ---------------------------------------------------------------- constants

  const GraphBase := "https://graph.facebook.com/"
  const NetworkPrefix := "Network error: "

  /** The text JavaScript's `TypeError` carries when a rejected body has no
      `error` object and the client reads `error.message` from it. */
  const NoErrorObject := "Cannot read properties of undefined (reading 'message')"

  const ConfigurationError :=
    ApiError("WhatsApp Business API credentials are not configured", Some(400), Some("CONFIGURATION_ERROR"))

  /** `!value` for an optional setting: absent or the empty string. */
  predicate Missing(value: Option<string>) {
    value.None? || value.value == ""
  }

  /** A setting spliced into a template literal: an absent one reads `undefined`. */
  function Render(value: Option<string>): string {
    if value.Some? then value.value else "undefined"
  }

  function Bearer(settings: Settings): string {
    "Bearer " + Render(settings.accessToken)
  }

  // ---------------------------------------------------------------- errors

  /** The error of the client's catch block for anything that is not already an `ApiError`. */
  function NetworkError(failure: Option<string>): (e: ApiError)
    ensures e.code == Some(500) && e.kind == Some("NETWORK_ERROR")
    ensures Text.StartsWith(e.message, NetworkPrefix)
    ensures failure.Some? ==> e.message[|NetworkPrefix|..] == failure.value
    ensures failure.None? ==> e.message[|NetworkPrefix|..] == "Unknown error"
  {
    var detail := if failure.Some? then failure.value else "Unknown error";
    var message := NetworkPrefix + detail;
    assert message[..|NetworkPrefix|] == NetworkPrefix;
    assert message[|NetworkPrefix|..] == detail;
    ApiError(message, Some(500), Some("NETWORK_ERROR"))
  }

  /** The three-tier handling of a reply once the request went out: a provider
      error comes through as it was, everything else that fails is a network error. */
  function Classify<T>(reply: Reply<T>): (r: Result<T, ApiError>)
    ensures r.Success? <==> reply.Accepted?
    ensures reply.Accepted? ==> r.value == reply.payload
    ensures reply.Rejected? && reply.error.Some? ==>
              r.error == ApiError(reply.error.value.message, reply.error.value.code, reply.error.value.kind)
    ensures reply.Rejected? && reply.error.None? ==> r.error == NetworkError(Some(NoErrorObject))
    ensures reply.Transport? ==> r.error == NetworkError(reply.failure)
  {
    match reply
    case Transport(failure) => Failure(NetworkError(failure))
    case Rejected(error) =>
      if error.Some? then Failure(ApiError(error.value.message, error.value.code, error.value.kind))
      else Failure(NetworkError(Some(NoErrorObject)))
    case Accepted(payload) => Success(payload)
  }

  /** The network tier: code 500, type `NETWORK_ERROR`, the fixed message prefix. */
  predicate IsNetworkError(e: ApiError) {
    e.code == Some(500) && e.kind == Some("NETWORK_ERROR") && Text.StartsWith(e.message, NetworkPrefix)
  }

  // ---------------------------------------------------------------- listing templates

  function TemplatesRequest(settings: Settings): Request {
    Request("GET",
            GraphBase + Render(settings.apiVersion) + "/" + Render(settings.businessAccountId)
              + "/message_templates?limit=100",
            Bearer(settings), None, None)
  }

  /** `fetchWhatsAppTemplates`: no request without a business account and a token;
      an OK body without `data` lists no templates. */
  function FetchTemplates(settings: Settings, reply: Reply<TemplatesBody>): (r: Call<seq<ProviderTemplate>>)
    ensures r.request.None? <==> Missing(settings.businessAccountId) || Missing(settings.accessToken)
    ensures r.request.None? ==> r.result == Failure(ConfigurationError)
    ensures r.request.Some? ==> r.request.value == TemplatesRequest(settings)
    ensures r.request.Some? && reply.Accepted? ==>
              r.result == Success(if reply.payload.data.Some? then reply.payload.data.value else [])
    ensures r.request.Some? && !reply.Accepted? ==> r.result == Failure(Classify(reply).error)
    ensures r.result.Failure? ==>
              (r.request.None? && r.result.error == ConfigurationError) ||
              (r.request.Some? && reply.Rejected? && reply.error.Some? &&
               r.result.error == ApiError(reply.error.value.message, reply.error.value.code, reply.error.value.kind)) ||
              (r.request.Some? && IsNetworkError(r.result.error))
  {
    if Missing(settings.businessAccountId) || Missing(settings.accessToken) then
      Call(None, Failure(ConfigurationError))
    else
      var result := match Classify(reply)
        case Success(body) => Success(if body.data.Some? then body.data.value else [])
        case Failure(e) => Failure(e);
      Call(Some(TemplatesRequest(settings)), result)
  }

  // ---------------------------------------------------------------- sending

  /** `formattedPhone`: the digits of a `+` number, or the country code's digits
      followed by the number's digits. */
  function FormattedPhone(phone: string, countryCode: string): (r: string)
    ensures forall k :: 0 <= k < |r| ==> Text.IsDigit(r[k])
    ensures Text.StartsWithChar(phone, '+') ==> r == Text.Digits(phone)
    ensures !Text.StartsWithChar(phone, '+') ==> r == Text.Digits(countryCode + phone)
  {
    if Text.StartsWithChar(phone, '+') then Text.Digits(phone)
    else
      Text.DigitsAppend(countryCode, phone);
      Text.Digits(countryCode) + Text.Digits(phone)
  }

  /** A formatted number sent again with a `+` in front comes out the same,
      whatever the country code. */
  lemma FormattedPhoneStable(phone: string, countryCode: string, otherCode: string)
    ensures var f := FormattedPhone(phone, countryCode);
      FormattedPhone("+" + f, otherCode) == f
  {
    var f := FormattedPhone(phone, countryCode);
    assert ("+" + f)[0] == '+';
    Text.DigitsAppend("+", f);
    assert !Text.IsDigit('+');
    assert Text.Digits("+") == [] by {
      Seqs.FilterSingle('+', Text.IsDigit);
    }
    Text.DigitsOnly(f);
  }

  function TextParameter(text: string): Parameter {
    Parameter("text", text)
  }

  /** The `components` of a send: one `body` component holding the variables in
      order, or none when there are no variables. */
  function Components(variables: seq<string>): (r: Option<seq<Component>>)
    ensures r.None? <==> variables == []
    ensures r.Some? ==> |r.value| == 1 && r.value[0].kind == "body"
    ensures r.Some? ==> |r.value[0].parameters| == |variables|
    ensures r.Some? ==> forall k :: 0 <= k < |variables| ==>
              r.value[0].parameters[k] == Parameter("text", variables[k])
  {
    if |variables| > 0 then Some([Component("body", Seqs.Map(variables, TextParameter))])
    else None
  }

  function SendRequest(settings: Settings, phone: string, templateName: string, languageCode: string,
                       variables: seq<string>): Request
  {
    Request("POST",
            GraphBase + Render(settings.apiVersion) + "/" + Render(settings.phoneNumberId) + "/messages",
            Bearer(settings), Some("application/json"),
            Some(Payload("whatsapp", FormattedPhone(phone, settings.defaultCountryCode), "template",
                         templateName, languageCode, Components(variables))))
  }

  /** `sendWhatsAppTemplateMessage`: no request without a phone-number id and a
      token; the provider's answer comes back as it was. */
  function SendTemplateMessage(settings: Settings, phone: string, templateName: string, languageCode: string,
                               variables: seq<string>, reply: Reply<SentBody>): (r: Call<SentBody>)
    ensures r.request.None? <==> Missing(settings.phoneNumberId) || Missing(settings.accessToken)
    ensures r.request.None? ==> r.result == Failure(ConfigurationError)
    ensures r.request.Some? ==> r.request.value == SendRequest(settings, phone, templateName, languageCode, variables)
    ensures r.request.Some? ==> r.result == Classify(reply)
    ensures r.result.Failure? ==>
              (r.request.None? && r.result.error == ConfigurationError) ||
              (r.request.Some? && reply.Rejected? && reply.error.Some? &&
               r.result.error == ApiError(reply.error.value.message, reply.error.value.code, reply.error.value.kind)) ||
              (r.request.Some? && IsNetworkError(r.result.error))
  {
    if Missing(settings.phoneNumberId) || Missing(settings.accessToken) then
      Call(None, Failure(ConfigurationError))
    else
      Call(Some(SendRequest(settings, phone, templateName, languageCode, variables)), Classify(reply))
  }

  /** The body sent addresses the formatted number, names the template and its
      language, and carries `components` exactly when there are variables. */
  lemma SendPayload(settings: Settings, phone: string, templateName: string, languageCode: string,
                    variables: seq<string>, reply: Reply<SentBody>)
    requires !Missing(settings.phoneNumberId) && !Missing(settings.accessToken)
    ensures var r := SendTemplateMessage(settings, phone, templateName, languageCode, variables, reply);
      && r.request.Some? && r.request.value.payload.Some?
      && r.request.value.verb == "POST"
      && r.request.value.authorization == "Bearer " + settings.accessToken.value
      && var p := r.request.value.payload.value;
      && p.to == FormattedPhone(phone, settings.defaultCountryCode)
      && p.templateName == templateName && p.languageCode == languageCode
      && (p.components.Some? <==> variables != [])
  {
  }

  // ---------------------------------------------------------------- validating

  function ValidateRequest(settings: Settings): Request {
    Request("GET", GraphBase + Render(settings.apiVersion) + "/" + Render(settings.phoneNumberId),
            Bearer(settings), None, None)
  }

  /** `validateWhatsAppCredentials`: `status` is `None` when the request threw and
      otherwise the response's `ok`; the answer is a boolean, never an error. */
  function ValidateCredentials(settings: Settings, status: Option<bool>): (r: (Option<Request>, bool))
    ensures r.0.None? <==> Missing(settings.phoneNumberId) || Missing(settings.accessToken)
    ensures r.0.Some? ==> r.0.value == ValidateRequest(settings)
    ensures r.1 <==> !Missing(settings.phoneNumberId) && !Missing(settings.accessToken) && status == Some(true)
  {
    if Missing(settings.phoneNumberId) || Missing(settings.accessToken) then (None, false)
    else if status.None? then (Some(ValidateRequest(settings)), false)
    else (Some(ValidateRequest(settings)), status.value)
  }

  /** Credentials that validate are credentials a send goes out with. */
  lemma ValidatedCanSend(settings: Settings, status: Option<bool>, phone: string, templateName: string,
                         languageCode: string, variables: seq<string>, reply: Reply<SentBody>)
    requires ValidateCredentials(settings, status).1
    ensures SendTemplateMessage(settings, phone, templateName, languageCode, variables, reply).request.Some?
  {
  }
}
