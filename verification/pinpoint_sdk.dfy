/**
 * The request and response shaping of the `PinpointSdk` facade. The service calls are left
 * out: a fetched template and a provider response are inputs, and each operation is the pure
 * function from its attributes (and those inputs) to the request it sends or the value it
 * returns.
 */
module PinpointSdk {
  import opened Wrappers
  import opened Js
  import opened Types
  import opened Templatize

  // ---------------------------------------------------------------------------------------
  // Construction

  /** `Partial<PinpointSdkConfig>`: the fields a caller gives, each replacing the loaded one. */
  datatype ConfigOverride = ConfigOverride(
    connectionConfig: Option<ConnectionConfig>,
    applicationId: Option<string>,
    smsOriginationNumber: Option<string>,
    smsSenderId: Option<string>,
    emailFromAddress: Option<string>,
    otpBrandName: Option<string>,
    otpOriginationIdentity: Option<string>,
    otpAllowedAttempts: Option<int>,
    otpCodeLength: Option<int>,
    otpValidityPeriod: Option<int>)

  /** The constructor's default argument `{}`. */
  const NoOverride := ConfigOverride(None, None, None, None, None, None, None, None, None, None)

  /** `{ ...CONFIG, ...config }`: a shallow merge, so a connection is replaced as a whole. */
  function Override(base: PinpointSdkConfig, o: ConfigOverride): PinpointSdkConfig
  {
    PinpointSdkConfig(
      o.connectionConfig.GetOr(base.connectionConfig),
      o.applicationId.GetOr(base.applicationId),
      o.smsOriginationNumber.GetOr(base.smsOriginationNumber),
      o.smsSenderId.GetOr(base.smsSenderId),
      o.emailFromAddress.GetOr(base.emailFromAddress),
      o.otpBrandName.GetOr(base.otpBrandName),
      o.otpOriginationIdentity.GetOr(base.otpOriginationIdentity),
      o.otpAllowedAttempts.GetOr(base.otpAllowedAttempts),
      o.otpCodeLength.GetOr(base.otpCodeLength),
      o.otpValidityPeriod.GetOr(base.otpValidityPeriod))
  }

  /** The state a `PinpointSdk` keeps: its configuration and the application id it sends with. */
  datatype Sdk = Sdk(config: PinpointSdkConfig, applicationId: string)

  /** `new PinpointSdk(config)` over the loaded configuration `base`. */
  function NewSdk(base: PinpointSdkConfig, o: ConfigOverride): (sdk: Sdk)
    ensures sdk.applicationId == sdk.config.applicationId
    ensures o.applicationId.Some? ==> sdk.applicationId == o.applicationId.value
    ensures o.applicationId.None? ==> sdk.applicationId == base.applicationId
  {
    var config := Override(base, o);
    Sdk(config, config.applicationId)
  }

  /** `{ ...first, ...second }` of two overrides. */
  function Combine(first: ConfigOverride, second: ConfigOverride): ConfigOverride
  {
    ConfigOverride(
      if second.connectionConfig.Some? then second.connectionConfig else first.connectionConfig,
      if second.applicationId.Some? then second.applicationId else first.applicationId,
      if second.smsOriginationNumber.Some? then second.smsOriginationNumber else first.smsOriginationNumber,
      if second.smsSenderId.Some? then second.smsSenderId else first.smsSenderId,
      if second.emailFromAddress.Some? then second.emailFromAddress else first.emailFromAddress,
      if second.otpBrandName.Some? then second.otpBrandName else first.otpBrandName,
      if second.otpOriginationIdentity.Some? then second.otpOriginationIdentity else first.otpOriginationIdentity,
      if second.otpAllowedAttempts.Some? then second.otpAllowedAttempts else first.otpAllowedAttempts,
      if second.otpCodeLength.Some? then second.otpCodeLength else first.otpCodeLength,
      if second.otpValidityPeriod.Some? then second.otpValidityPeriod else first.otpValidityPeriod)
  }

  /** Every field of a complete configuration, given as an override. */
  function Complete(c: PinpointSdkConfig): ConfigOverride
  {
    ConfigOverride(
      Some(c.connectionConfig), Some(c.applicationId), Some(c.smsOriginationNumber),
      Some(c.smsSenderId), Some(c.emailFromAddress), Some(c.otpBrandName),
      Some(c.otpOriginationIdentity), Some(c.otpAllowedAttempts), Some(c.otpCodeLength),
      Some(c.otpValidityPeriod))
  }

  /** Without arguments the instance uses the loaded configuration as it is. */
  lemma NewSdkDefault(base: PinpointSdkConfig)
    ensures NewSdk(base, NoOverride) == Sdk(base, base.applicationId)
  {
  }

  /** A given field wins even when it is falsy: the merge is by presence, not truthiness. */
  lemma NewSdkFalsyWins(base: PinpointSdkConfig)
    requires base.applicationId != "" && base.otpCodeLength != 0
    ensures NewSdk(base, NoOverride.(applicationId := Some(""), otpCodeLength := Some(0))).applicationId == ""
    ensures NewSdk(base, NoOverride.(applicationId := Some(""), otpCodeLength := Some(0))).config.otpCodeLength == 0
  {
  }

  /** A complete configuration given as the argument replaces the loaded one entirely. */
  lemma OverrideComplete(base: PinpointSdkConfig, c: PinpointSdkConfig)
    ensures Override(base, Complete(c)) == c
  {
  }

  /** Overriding twice is overriding once with the merged overrides, the later winning. */
  lemma OverrideCompose(base: PinpointSdkConfig, first: ConfigOverride, second: ConfigOverride)
    ensures Override(Override(base, first), second) == Override(base, Combine(first, second))
  {
  }

  /** Giving the same fields again changes nothing. */
  lemma OverrideIdempotent(base: PinpointSdkConfig, o: ConfigOverride)
    ensures Override(Override(base, o), o) == Override(base, o)
  {
    OverrideCompose(base, o, o);
    assert Combine(o, o) == o;
  }

  // ---------------------------------------------------------------------------------------
  // Normalised results

  /** A provider `MessageResult`; every field may be absent. */
  datatype MessageResult = MessageResult(
    deliveryStatus: Option<string>,
    messageId: Option<string>,
    statusCode: Option<int>,
    statusMessage: Option<string>,
    updatedToken: Option<string>)

  const UnknownFailure := "UNKNOWN_FAILURE"

  /** One entry of `_buildResults`: the result for `address`, its absent fields defaulted. */
  function ResultFor(requestId: string, channelType: string, address: string, m: MessageResult): SendResult
  {
    SendResult(
      requestId,
      m.messageId.GetOr(""),
      channelType,
      address,
      m.deliveryStatus.GetOr(UnknownFailure),
      m.statusCode.GetOr(0),
      m.statusMessage.GetOr(""),
      m.updatedToken.GetOr(""))
  }

  /** `_buildResults(requestId, Result, channelType)`: one entry per key of `Result`, in order. */
  function BuildResults(requestId: Option<string>, result: Obj<MessageResult>, channelType: Option<string>): seq<SendResult>
    decreases |result|
  {
    if result == [] then []
    else [ResultFor(requestId.GetOr(""), channelType.GetOr(""), result[0].key, result[0].value)]
         + BuildResults(requestId, result[1..], channelType)
  }

  /**
   * Entry `i` is the result for the `i`-th key: that key as its address, the shared request id
   * and channel type (`""` when absent), and the per-address fields with their defaults.
   */
  lemma {:induction false} BuildResultsAt(requestId: Option<string>, result: Obj<MessageResult>, channelType: Option<string>, i: nat)
    requires i < |result|
    ensures |BuildResults(requestId, result, channelType)| == |result|
    ensures BuildResults(requestId, result, channelType)[i]
         == SendResult(
              requestId.GetOr(""),
              result[i].value.messageId.GetOr(""),
              channelType.GetOr(""),
              result[i].key,
              result[i].value.deliveryStatus.GetOr(UnknownFailure),
              result[i].value.statusCode.GetOr(0),
              result[i].value.statusMessage.GetOr(""),
              result[i].value.updatedToken.GetOr(""))
    decreases |result|
  {
    BuildResultsLength(requestId, result[1..], channelType);
    if i > 0 {
      BuildResultsAt(requestId, result[1..], channelType, i - 1);
    }
  }

  lemma {:induction false} BuildResultsLength(requestId: Option<string>, result: Obj<MessageResult>, channelType: Option<string>)
    ensures |BuildResults(requestId, result, channelType)| == |result|
    decreases |result|
  {
    if result != [] {
      BuildResultsLength(requestId, result[1..], channelType);
    }
  }

  /** The addresses of a list of results, in order. */
  function AddressesOf(rs: seq<SendResult>): seq<string>
  {
    if rs == [] then [] else [rs[0].address] + AddressesOf(rs[1..])
  }

  /** The results list the keys of `Result` exactly, in key order. */
  lemma {:induction false} BuildResultsAddresses(requestId: Option<string>, result: Obj<MessageResult>, channelType: Option<string>)
    ensures AddressesOf(BuildResults(requestId, result, channelType)) == Keys(result)
    decreases |result|
  {
    if result != [] {
      BuildResultsAddresses(requestId, result[1..], channelType);
      var rs := BuildResults(requestId, result, channelType);
      assert rs[1..] == BuildResults(requestId, result[1..], channelType);
    }
  }

  /** The provider's view of a list of normalised results: every field reported. */
  function Reported(rs: seq<SendResult>): Obj<MessageResult>
  {
    if rs == [] then []
    else [Property(rs[0].address, MessageResult(
            Some(rs[0].deliveryStatus), Some(rs[0].messageId), Some(rs[0].statusCode),
            Some(rs[0].statusMessage), Some(rs[0].updatedToken)))]
         + Reported(rs[1..])
  }

  /** Normalising a fully reported result gives back the results it was reported from. */
  lemma {:induction false} BuildReported(requestId: string, rs: seq<SendResult>, channelType: string)
    requires forall i :: 0 <= i < |rs| ==> rs[i].requestId == requestId && rs[i].channelType == channelType
    ensures BuildResults(Some(requestId), Reported(rs), Some(channelType)) == rs
    decreases |rs|
  {
    if rs != [] {
      var reported := Reported(rs);
      assert reported[1..] == Reported(rs[1..]);
      assert forall i :: 0 <= i < |rs[1..]| ==> rs[1..][i] == rs[i + 1];
      BuildReported(requestId, rs[1..], channelType);
      assert rs == [rs[0]] + rs[1..];
    }
  }

  /** A provider `MessageResponse`. */
  datatype MessageResponse = MessageResponse(requestId: Option<string>, result: Option<Obj<MessageResult>>)

  /** `SendSmsEmailData`. */
  datatype SendData = SendData(results: seq<SendResult>)

  /**
   * `const { RequestId = '', Result = {} } = MessageResponse || {}` followed by
   * `_buildResults`, as `sendEmail` and `sendSms` return it.
   */
  function SendDataOf(response: Option<MessageResponse>, channelType: string): SendData
  {
    var m := response.GetOr(MessageResponse(None, None));
    SendData(BuildResults(Some(m.requestId.GetOr("")), m.result.GetOr([]), Some(channelType)))
  }

  /** No response, or one without results, gives no results; otherwise one per address. */
  lemma SendDataResults(response: Option<MessageResponse>, channelType: string)
    ensures response.None? ==> SendDataOf(response, channelType).results == []
    ensures response.Some? && response.value.result.Some? ==>
      AddressesOf(SendDataOf(response, channelType).results) == Keys(response.value.result.value)
    ensures response.Some? && response.value.result.None? ==> SendDataOf(response, channelType).results == []
  {
    if response.Some? && response.value.result.Some? {
      BuildResultsAddresses(Some(response.value.requestId.GetOr("")), response.value.result.value, Some(channelType));
    }
  }

  // ---------------------------------------------------------------------------------------
  // Addresses, substitutions and the template branch

  /** `{ ChannelType }`, the configuration of one address. */
  datatype AddressConfiguration = AddressConfiguration(channelType: string)

  const SmsChannel := "SMS"
  const EmailChannel := "EMAIL"

  /** The `reduce` that assigns `addresses[a] = { ChannelType }` for each address in turn. */
  function AddressMap(addresses: seq<string>, channelType: string): Obj<AddressConfiguration>
  {
    SetEach([], addresses, AddressConfiguration(channelType))
  }

  /** Every listed address maps to the channel, and no other key is present. */
  lemma AddressMapGet(addresses: seq<string>, channelType: string, k: string)
    ensures Get(AddressMap(addresses, channelType), k)
         == if k in addresses then Some(AddressConfiguration(channelType)) else None
  {
    SetEachGet([], addresses, AddressConfiguration(channelType), k);
  }

  /** The keys are the input addresses with duplicates collapsed, each listed once. */
  lemma AddressMapKeys(addresses: seq<string>, channelType: string, k: string)
    ensures DistinctKeys(AddressMap(addresses, channelType))
    ensures k in Keys(AddressMap(addresses, channelType)) <==> k in addresses
  {
    SetEachDistinct([], addresses, AddressConfiguration(channelType));
    AddressMapGet(addresses, channelType, k);
    GetDefined(AddressMap(addresses, channelType), k);
  }

  /** Distinct addresses are listed in their input order. */
  lemma AddressMapOrder(addresses: seq<string>, channelType: string)
    requires Distinct(addresses)
    ensures Keys(AddressMap(addresses, channelType)) == addresses
  {
    SetEachNew([], addresses, AddressConfiguration(channelType));
  }

  /**
   * `{ ...Default, ...substitutions }`: the template's decoded default substitutions (`None`
   * when it has none, when they are `""`, or when they decode to a falsy value), overridden
   * by the caller's.
   */
  function MergeSubstitutions(defaults: Option<Obj<SubstValue>>, subs: Obj<SubstValue>): Obj<SubstValue>
  {
    Spread(Spread([], defaults.GetOr([])), subs)
  }

  /** Spreading a distinct-keyed object into `{}` copies it. */
  lemma SpreadIntoEmpty<V>(o: Obj<V>)
    requires DistinctKeys(o)
    ensures Spread([], o) == o
  {
    SpreadDisjoint([], o);
  }

  /** A key the caller gives takes the caller's value; any other key keeps the template's. */
  lemma MergeGet(defaults: Option<Obj<SubstValue>>, subs: Obj<SubstValue>, k: string)
    requires defaults.Some? ==> DistinctKeys(defaults.value)
    requires DistinctKeys(subs)
    ensures Get(MergeSubstitutions(defaults, subs), k)
         == if k in Keys(subs) then Get(subs, k)
            else if defaults.Some? then Get(defaults.value, k) else None
  {
    var d := defaults.GetOr([]);
    SpreadIntoEmpty(d);
    SpreadGet(d, subs, k);
  }

  /** The template's keys come first, then the keys only the caller gives, in the caller's order. */
  lemma MergeKeys(defaults: Obj<SubstValue>, subs: Obj<SubstValue>)
    requires DistinctKeys(defaults) && DistinctKeys(subs)
    ensures Keys(MergeSubstitutions(Some(defaults), subs)) == Keys(defaults) + Fresh(Keys(subs), Keys(defaults))
    ensures DistinctKeys(MergeSubstitutions(Some(defaults), subs))
  {
    SpreadIntoEmpty(defaults);
    SpreadKeys(defaults, subs);
    SpreadDistinct(defaults, subs);
  }

  /** Without template defaults only the caller's substitutions are used. */
  lemma MergeNoDefaults(subs: Obj<SubstValue>)
    requires DistinctKeys(subs)
    ensures MergeSubstitutions(None, subs) == subs
    ensures MergeSubstitutions(Some([]), subs) == subs
  {
    SpreadIntoEmpty(subs);
  }

  /** `templateName && templateVersion`: the template path runs only when both are truthy. */
  predicate UsesTemplate(name: Option<string>, version: Option<string>)
  {
    Given(name) && Given(version)
  }

  // ---------------------------------------------------------------------------------------
  // sendSms

  /** `SendSmsAttrs`, every attribute optional. */
  datatype SendSmsAttrs = SendSmsAttrs(
    body: Option<string>,
    keyword: Option<string>,
    messageType: Option<string>,
    originationNumber: Option<string>,
    senderId: Option<string>,
    destinationNumbers: Option<seq<string>>,
    smsTemplateName: Option<string>,
    smsTemplateVersion: Option<string>,
    substitutions: Option<Obj<SubstValue>>)

  /** The parts of an SMS template the method reads, with its default substitutions decoded. */
  datatype SmsTemplate = SmsTemplate(defaultSubstitutions: Option<Obj<SubstValue>>, body: Option<string>)

  datatype SmsMessage = SmsMessage(
    body: string,
    keyword: Option<string>,
    messageType: Option<string>,
    originationNumber: string,
    senderId: string)

  /** The `MessageRequest` `sendSms` sends. */
  datatype SmsRequest = SmsRequest(message: SmsMessage, addresses: Obj<AddressConfiguration>)

  /**
   * The SMS body: the caller's (`""` when absent), or with a template name and version, the
   * template body (`template`, what the template lookup returned) rendered with the merged
   * substitutions.
   */
  function SmsBody(attrs: SendSmsAttrs, template: Option<SmsTemplate>): string
  {
    if UsesTemplate(attrs.smsTemplateName, attrs.smsTemplateVersion) then
      var t := template.GetOr(SmsTemplate(None, None));
      Render(t.body.GetOr(""), MergeSubstitutions(t.defaultSubstitutions, attrs.substitutions.GetOr([])))
    else
      attrs.body.GetOr("")
  }

  /** The request `sendSms` sends for `attrs` on an instance configured with `config`. */
  function SmsRequestOf(config: PinpointSdkConfig, attrs: SendSmsAttrs, template: Option<SmsTemplate>): SmsRequest
  {
    SmsRequest(
      SmsMessage(
        SmsBody(attrs, template),
        attrs.keyword,
        attrs.messageType,
        attrs.originationNumber.GetOr(config.smsOriginationNumber),
        attrs.senderId.GetOr(config.smsSenderId)),
      AddressMap(attrs.destinationNumbers.GetOr([]), SmsChannel))
  }

  /** Without both template name and version the template plays no part and the body is the caller's. */
  lemma SmsWithoutTemplate(config: PinpointSdkConfig, attrs: SendSmsAttrs, template: Option<SmsTemplate>)
    requires !UsesTemplate(attrs.smsTemplateName, attrs.smsTemplateVersion)
    ensures SmsRequestOf(config, attrs, template) == SmsRequestOf(config, attrs, None)
    ensures SmsRequestOf(config, attrs, template).message.body == attrs.body.GetOr("")
  {
  }

  /**
   * With a template name and version the body is the template's body, `""` when it has none,
   * rendered with the template defaults overridden by the caller's substitutions; the
   * caller's body plays no part.
   */
  lemma SmsTemplateBody(config: PinpointSdkConfig, attrs: SendSmsAttrs, t: SmsTemplate, body: Option<string>)
    requires UsesTemplate(attrs.smsTemplateName, attrs.smsTemplateVersion)
    ensures SmsRequestOf(config, attrs, Some(t)).message.body
         == Render(t.body.GetOr(""), MergeSubstitutions(t.defaultSubstitutions, attrs.substitutions.GetOr([])))
    ensures SmsRequestOf(config, attrs.(body := body), Some(t)) == SmsRequestOf(config, attrs, Some(t))
  {
  }

  /** A template body without placeholders of any merged key is sent as the template has it. */
  lemma SmsTemplateUntouched(config: PinpointSdkConfig, attrs: SendSmsAttrs, t: SmsTemplate)
    requires UsesTemplate(attrs.smsTemplateName, attrs.smsTemplateVersion)
    requires var subs := MergeSubstitutions(t.defaultSubstitutions, attrs.substitutions.GetOr([]));
      forall i :: 0 <= i < |subs| ==> !JsString.Occurs(t.body.GetOr(""), Placeholder(subs[i].key))
    ensures SmsRequestOf(config, attrs, Some(t)).message.body == t.body.GetOr("")
  {
    RenderUntouched(t.body.GetOr(""), MergeSubstitutions(t.defaultSubstitutions, attrs.substitutions.GetOr([])));
  }

  /**
   * A caller substitution overrides the template default of the same key: a template body
   * that is exactly `{{k}}` renders as the caller's value for `k`, whatever other keys either
   * side has, as long as no other key's placeholder occurs in `{{k}}` or in that value.
   */
  lemma SmsCallerWins(config: PinpointSdkConfig, attrs: SendSmsAttrs, t: SmsTemplate, k: string, fromCaller: SubstValue)
    requires UsesTemplate(attrs.smsTemplateName, attrs.smsTemplateVersion)
    requires t.defaultSubstitutions.Some? ==> DistinctKeys(t.defaultSubstitutions.value)
    requires DistinctKeys(attrs.substitutions.GetOr([]))
    requires Get(attrs.substitutions.GetOr([]), k) == Some(fromCaller)
    requires t.body == Some(Placeholder(k))
    requires '$' !in ValueText(fromCaller)
    requires forall j :: j != k && (j in Keys(attrs.substitutions.GetOr([]))
                                    || (t.defaultSubstitutions.Some? && j in Keys(t.defaultSubstitutions.value))) ==>
      !JsString.Occurs(Placeholder(k), Placeholder(j)) && !JsString.Occurs(ValueText(fromCaller), Placeholder(j))
    ensures SmsRequestOf(config, attrs, Some(t)).message.body == ValueText(fromCaller)
  {
    var subs := attrs.substitutions.GetOr([]);
    var merged := MergeSubstitutions(t.defaultSubstitutions, subs);
    MergeGet(t.defaultSubstitutions, subs, k);
    GetDefined(subs, k);
    assert DistinctKeys(merged) by {
      var d := t.defaultSubstitutions.GetOr([]);
      SpreadIntoEmpty(d);
      SpreadDistinct(d, subs);
    }
    forall j | j in Keys(merged) && j != k
      ensures !JsString.Occurs(Placeholder(k), Placeholder(j)) && !JsString.Occurs(ValueText(fromCaller), Placeholder(j))
    {
      GetDefined(merged, j);
      MergeGet(t.defaultSubstitutions, subs, j);
      GetDefined(subs, j);
      if t.defaultSubstitutions.Some? {
        GetDefined(t.defaultSubstitutions.value, j);
      }
    }
    RenderPlaceholderOf(k, merged, fromCaller);
  }

  /**
   * The sender identities default to the configuration only when absent: a given `""` is
   * sent as `""`.
   */
  lemma SmsSenders(config: PinpointSdkConfig, attrs: SendSmsAttrs, template: Option<SmsTemplate>)
    ensures attrs.originationNumber.None? ==> SmsRequestOf(config, attrs, template).message.originationNumber == config.smsOriginationNumber
    ensures attrs.originationNumber == Some("") ==> SmsRequestOf(config, attrs, template).message.originationNumber == ""
    ensures attrs.senderId.None? ==> SmsRequestOf(config, attrs, template).message.senderId == config.smsSenderId
    ensures attrs.senderId == Some("") ==> SmsRequestOf(config, attrs, template).message.senderId == ""
  {
  }

  /** Each destination number is addressed once, on the SMS channel. */
  lemma SmsAddresses(config: PinpointSdkConfig, attrs: SendSmsAttrs, template: Option<SmsTemplate>, k: string)
    ensures Get(SmsRequestOf(config, attrs, template).addresses, k)
         == if k in attrs.destinationNumbers.GetOr([]) then Some(AddressConfiguration(SmsChannel)) else None
    ensures DistinctKeys(SmsRequestOf(config, attrs, template).addresses)
  {
    AddressMapGet(attrs.destinationNumbers.GetOr([]), SmsChannel, k);
    AddressMapKeys(attrs.destinationNumbers.GetOr([]), SmsChannel, k);
  }

  // ---------------------------------------------------------------------------------------
  // sendEmail

  /** `simpleEmail` as the caller gives it: `subject?.data`, `textPart?.data`, `htmlPart?.data`. */
  datatype SimpleEmailInput = SimpleEmailInput(subject: Option<string>, textPart: Option<string>, htmlPart: Option<string>)

  /** `SendEmailAttrs`, every attribute optional. */
  datatype SendEmailAttrs = SendEmailAttrs(
    body: Option<string>,
    feedbackForwardingAddress: Option<string>,
    fromAddress: Option<string>,
    simpleEmail: Option<SimpleEmailInput>,
    replyToAddresses: Option<seq<string>>,
    toAddresses: Option<seq<string>>,
    emailTemplateName: Option<string>,
    emailTemplateVersion: Option<string>,
    substitutions: Option<Obj<SubstValue>>)

  /** The parts of an email template the method reads, with its default substitutions decoded. */
  datatype EmailTemplate = EmailTemplate(
    defaultSubstitutions: Option<Obj<SubstValue>>,
    textPart: Option<string>,
    htmlPart: Option<string>,
    subject: Option<string>)

  /** `SimpleEmail`: the data of its subject, text and HTML parts. */
  datatype EmailParts = EmailParts(subject: string, textPart: string, htmlPart: string)

  datatype EmailMessage = EmailMessage(
    body: Option<string>,
    feedbackForwardingAddress: Option<string>,
    fromAddress: string,
    replyToAddresses: Option<seq<string>>,
    simpleEmail: EmailParts)

  /** The `MessageRequest` `sendEmail` sends. */
  datatype EmailRequest = EmailRequest(message: EmailMessage, addresses: Obj<AddressConfiguration>)

  /**
   * The email parts: the caller's data (`""` when absent), or with a template name and
   * version, the template's three parts rendered with the same merged substitutions.
   */
  function EmailPartsOf(attrs: SendEmailAttrs, template: Option<EmailTemplate>): EmailParts
  {
    if UsesTemplate(attrs.emailTemplateName, attrs.emailTemplateVersion) then
      var t := template.GetOr(EmailTemplate(None, None, None, None));
      var subs := MergeSubstitutions(t.defaultSubstitutions, attrs.substitutions.GetOr([]));
      EmailParts(Render(t.subject.GetOr(""), subs), Render(t.textPart.GetOr(""), subs), Render(t.htmlPart.GetOr(""), subs))
    else
      var s := attrs.simpleEmail.GetOr(SimpleEmailInput(None, None, None));
      EmailParts(OrElse(s.subject.GetOr(""), ""), OrElse(s.textPart.GetOr(""), ""), OrElse(s.htmlPart.GetOr(""), ""))
  }

  /** The request `sendEmail` sends for `attrs` on an instance configured with `config`. */
  function EmailRequestOf(config: PinpointSdkConfig, attrs: SendEmailAttrs, template: Option<EmailTemplate>): EmailRequest
  {
    EmailRequest(
      EmailMessage(
        attrs.body,
        if Given(attrs.feedbackForwardingAddress) then attrs.feedbackForwardingAddress else None,
        attrs.fromAddress.GetOr(config.emailFromAddress),
        attrs.replyToAddresses,
        EmailPartsOf(attrs, template)),
      AddressMap(attrs.toAddresses.GetOr([]), EmailChannel))
  }

  /** Without both template name and version each part is the caller's data, `""` when absent. */
  lemma EmailWithoutTemplate(config: PinpointSdkConfig, attrs: SendEmailAttrs, template: Option<EmailTemplate>)
    requires !UsesTemplate(attrs.emailTemplateName, attrs.emailTemplateVersion)
    ensures EmailRequestOf(config, attrs, template) == EmailRequestOf(config, attrs, None)
    ensures var s := attrs.simpleEmail.GetOr(SimpleEmailInput(None, None, None));
      EmailRequestOf(config, attrs, template).message.simpleEmail
        == EmailParts(s.subject.GetOr(""), s.textPart.GetOr(""), s.htmlPart.GetOr(""))
  {
  }

  /**
   * With a template name and version the three parts are the template's subject, text and
   * HTML parts, `""` when absent, each rendered with the same merged substitutions; the
   * caller's parts play no part.
   */
  lemma EmailTemplateParts(config: PinpointSdkConfig, attrs: SendEmailAttrs, t: EmailTemplate, parts: Option<SimpleEmailInput>)
    requires UsesTemplate(attrs.emailTemplateName, attrs.emailTemplateVersion)
    ensures var subs := MergeSubstitutions(t.defaultSubstitutions, attrs.substitutions.GetOr([]));
      EmailRequestOf(config, attrs, Some(t)).message.simpleEmail
        == EmailParts(Render(t.subject.GetOr(""), subs), Render(t.textPart.GetOr(""), subs), Render(t.htmlPart.GetOr(""), subs))
    ensures EmailRequestOf(config, attrs.(simpleEmail := parts), Some(t)) == EmailRequestOf(config, attrs, Some(t))
  {
  }

  /** Template parts without placeholders of any merged key are sent as the template has them, absent ones as `""`. */
  lemma EmailTemplateUntouched(config: PinpointSdkConfig, attrs: SendEmailAttrs, t: EmailTemplate)
    requires UsesTemplate(attrs.emailTemplateName, attrs.emailTemplateVersion)
    requires var subs := MergeSubstitutions(t.defaultSubstitutions, attrs.substitutions.GetOr([]));
      forall i :: 0 <= i < |subs| ==>
        && !JsString.Occurs(t.subject.GetOr(""), Placeholder(subs[i].key))
        && !JsString.Occurs(t.textPart.GetOr(""), Placeholder(subs[i].key))
        && !JsString.Occurs(t.htmlPart.GetOr(""), Placeholder(subs[i].key))
    ensures EmailRequestOf(config, attrs, Some(t)).message.simpleEmail
         == EmailParts(t.subject.GetOr(""), t.textPart.GetOr(""), t.htmlPart.GetOr(""))
  {
    var subs := MergeSubstitutions(t.defaultSubstitutions, attrs.substitutions.GetOr([]));
    RenderUntouched(t.subject.GetOr(""), subs);
    RenderUntouched(t.textPart.GetOr(""), subs);
    RenderUntouched(t.htmlPart.GetOr(""), subs);
  }

  /**
   * An empty feedback address is not sent; the sender defaults to the configuration only
   * when absent; the other fields pass through.
   */
  lemma EmailMessageFields(config: PinpointSdkConfig, attrs: SendEmailAttrs, template: Option<EmailTemplate>)
    ensures attrs.feedbackForwardingAddress == Some("") ==> EmailRequestOf(config, attrs, template).message.feedbackForwardingAddress.None?
    ensures Given(attrs.feedbackForwardingAddress) ==>
      EmailRequestOf(config, attrs, template).message.feedbackForwardingAddress == attrs.feedbackForwardingAddress
    ensures attrs.fromAddress.None? ==> EmailRequestOf(config, attrs, template).message.fromAddress == config.emailFromAddress
    ensures attrs.fromAddress == Some("") ==> EmailRequestOf(config, attrs, template).message.fromAddress == ""
    ensures EmailRequestOf(config, attrs, template).message.body == attrs.body
    ensures EmailRequestOf(config, attrs, template).message.replyToAddresses == attrs.replyToAddresses
  {
  }

  /** Each recipient is addressed once, on the email channel. */
  lemma EmailAddresses(config: PinpointSdkConfig, attrs: SendEmailAttrs, template: Option<EmailTemplate>, k: string)
    ensures Get(EmailRequestOf(config, attrs, template).addresses, k)
         == if k in attrs.toAddresses.GetOr([]) then Some(AddressConfiguration(EmailChannel)) else None
    ensures DistinctKeys(EmailRequestOf(config, attrs, template).addresses)
  {
    AddressMapGet(attrs.toAddresses.GetOr([]), EmailChannel, k);
    AddressMapKeys(attrs.toAddresses.GetOr([]), EmailChannel, k);
  }

  // ---------------------------------------------------------------------------------------
  // sendOTP

  /** `SendOTPAttrs`, every attribute optional. */
  datatype SendOtpAttrs = SendOtpAttrs(
    brandName: Option<string>,
    channel: Option<string>,
    originationIdentity: Option<string>,
    allowedAttempts: Option<int>,
    codeLength: Option<int>,
    validityPeriod: Option<int>,
    destinationIdentity: Option<string>,
    referenceId: Option<string>,
    entityId: Option<string>,
    language: Option<string>,
    templateId: Option<string>)

  const NoOtpAttrs := SendOtpAttrs(None, None, None, None, None, None, None, None, None, None, None)

  /** `SendOTPMessageRequestParameters`. */
  datatype OtpParameters = OtpParameters(
    brandName: string,
    channel: string,
    destinationIdentity: Option<string>,
    originationIdentity: string,
    referenceId: Option<string>,
    allowedAttempts: int,
    codeLength: int,
    entityId: Option<string>,
    language: Option<string>,
    templateId: Option<string>,
    validityPeriod: int)

  /** The command input `sendOTP` sends. */
  datatype OtpRequest = OtpRequest(applicationId: string, parameters: OtpParameters)

  /** The parameters `sendOTP` builds: absent tunables from the configuration, the channel `"SMS"`. */
  function OtpRequestOf(sdk: Sdk, attrs: SendOtpAttrs): OtpRequest
  {
    OtpRequest(
      sdk.applicationId,
      OtpParameters(
        attrs.brandName.GetOr(sdk.config.otpBrandName),
        attrs.channel.GetOr(SmsChannel),
        attrs.destinationIdentity,
        attrs.originationIdentity.GetOr(sdk.config.otpOriginationIdentity),
        attrs.referenceId,
        attrs.allowedAttempts.GetOr(sdk.config.otpAllowedAttempts),
        attrs.codeLength.GetOr(sdk.config.otpCodeLength),
        attrs.entityId,
        attrs.language,
        attrs.templateId,
        attrs.validityPeriod.GetOr(sdk.config.otpValidityPeriod)))
  }

  /** Without attributes every tunable comes from the configuration and the channel is SMS. */
  lemma OtpDefaults(sdk: Sdk)
    ensures OtpRequestOf(sdk, NoOtpAttrs)
         == OtpRequest(sdk.applicationId, OtpParameters(
              sdk.config.otpBrandName, "SMS", None, sdk.config.otpOriginationIdentity, None,
              sdk.config.otpAllowedAttempts, sdk.config.otpCodeLength, None, None, None,
              sdk.config.otpValidityPeriod))
  {
  }

  /** The attributes that ask for exactly the parameters `p`. */
  function OtpAttrsFor(p: OtpParameters): SendOtpAttrs
  {
    SendOtpAttrs(
      Some(p.brandName), Some(p.channel), Some(p.originationIdentity),
      Some(p.allowedAttempts), Some(p.codeLength), Some(p.validityPeriod),
      p.destinationIdentity, p.referenceId, p.entityId, p.language, p.templateId)
  }

  /** Given values are sent as given, whatever the configuration, even `0` and `""`. */
  lemma OtpGivenWins(sdk: Sdk, p: OtpParameters)
    ensures OtpRequestOf(sdk, OtpAttrsFor(p)) == OtpRequest(sdk.applicationId, p)
  {
  }

  /** A provider `SendOTPMessageCommandOutput`. */
  datatype SendOtpOutput = SendOtpOutput(messageResponse: Option<MessageResponse>)

  /**
   * `results[0]` of `_buildResults(RequestId, Result)` over `response || {}`: the first
   * address's result, with no channel type.
   */
  function OtpResult(response: Option<SendOtpOutput>): Option<SendResult>
  {
    var m := if response.Some? then response.value.messageResponse.GetOr(MessageResponse(None, None))
             else MessageResponse(None, None);
    var results := BuildResults(Some(m.requestId.GetOr("")), m.result.GetOr([]), None);
    if results == [] then None else Some(results[0])
  }

  /**
   * There is a result exactly when the response lists an address; it is then the first
   * address's, with channel type `""`.
   */
  lemma OtpResultFirst(response: Option<SendOtpOutput>, m: MessageResponse)
    requires response == Some(SendOtpOutput(Some(m)))
    ensures OtpResult(response).Some? <==> m.result.Some? && m.result.value != []
    ensures OtpResult(response).Some? ==>
      OtpResult(response).value == ResultFor(m.requestId.GetOr(""), "", m.result.value[0].key, m.result.value[0].value)
  {
    if m.result.Some? && m.result.value != [] {
      BuildResultsAt(Some(m.requestId.GetOr("")), m.result.value, None, 0);
    }
  }

  /** No response, or no message response, means no result. */
  lemma OtpResultNone(response: Option<SendOtpOutput>)
    requires response.None? || response.value.messageResponse.None?
    ensures OtpResult(response).None?
  {
  }

  // ---------------------------------------------------------------------------------------
  // verifyOTP

  datatype VerificationResponse = VerificationResponse(valid: Nullable<bool>)

  /** A provider `VerifyOTPMessageCommandOutput`. */
  datatype VerifyOtpOutput = VerifyOtpOutput(verificationResponse: Nullable<VerificationResponse>)

  /** `VerifyOTPData`. */
  datatype VerifyOtpData = VerifyOtpData(valid: Nullable<bool>)

  /**
   * `const { VerificationResponse: { Valid = false } = {} } = response`: destructuring throws
   * on a missing response or a `null` verification response; an absent `Valid` is `false`.
   */
  function VerifyResult(response: Nullable<VerifyOtpOutput>): Result<VerifyOtpData, TypeError>
  {
    match response
    case Defined(out) =>
      (match out.verificationResponse
       case Undefined => Success(VerifyOtpData(Defined(false)))
       case Null => Failure(TypeError)
       case Defined(v) => Success(VerifyOtpData(if v.valid.Undefined? then Defined(false) else v.valid)))
    case _ => Failure(TypeError)
  }

  /** Verification throws exactly when the response is missing or its verification response is `null`. */
  lemma VerifyThrows(response: Nullable<VerifyOtpOutput>)
    ensures VerifyResult(response).Failure?
        <==> !response.Defined? || response.value.verificationResponse.Null?
  {
  }

  /** A code is valid exactly when the provider says `Valid: true`; absent answers read as invalid. */
  lemma VerifyValid(response: Nullable<VerifyOtpOutput>)
    ensures VerifyResult(response) == Success(VerifyOtpData(Defined(true)))
        <==> response.Defined? && response.value.verificationResponse == Defined(VerificationResponse(Defined(true)))
    ensures response.Defined? && response.value.verificationResponse.Undefined? ==>
      VerifyResult(response) == Success(VerifyOtpData(Defined(false)))
    ensures response.Defined? && response.value.verificationResponse == Defined(VerificationResponse(Undefined)) ==>
      VerifyResult(response) == Success(VerifyOtpData(Defined(false)))
  {
  }
}
