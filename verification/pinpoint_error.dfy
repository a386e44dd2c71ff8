/**
 * `PinpointError`: the error the facade throws. It keeps the thrown value and fills message,
 * status code and error code from the error map, then from the thrown value, then from
 * defaults, each step taken only when the earlier value is falsy.
 */
module PinpointError {
  import opened Wrappers
  import opened Js
  import opened Errors

  const DefaultErrorMessage := "Pinpoint Error"
  const DefaultErrorStatusCode := 500
  const DefaultErrorCode := "Pinpoint::GENERIC"

  /** `$metadata` of a thrown service error. */
  datatype Metadata = Metadata(httpStatusCode: Nullable<int>)

  /** A thrown value as the constructor reads it: its `message` and `$metadata`. */
  datatype Thrown = Thrown(message: Nullable<string>, metadata: Nullable<Metadata>)

  /** A constructed `PinpointError`. */
  datatype Error = Error(
    isCustomError: bool,
    isPinpointError: bool,
    service: string,
    message: string,
    statusCode: int,
    errorCode: string,
    error: Thrown)

  /** A nullable string that is defined and truthy. */
  predicate TruthyText(s: Nullable<string>)
  {
    s.Defined? && Truthy(s.value)
  }

  /** An optional number that is present and truthy (`NaN` is not modelled). */
  predicate GivenNumber(n: Option<int>)
  {
    n.Some? && n.value != 0
  }

  /** `httpStatusCode` with its destructuring default: `500` only when it is absent. */
  function ThrownStatus(t: Thrown): Nullable<int>
    requires !t.metadata.Null?
  {
    if t.metadata.Undefined? || t.metadata.value.httpStatusCode.Undefined? then Defined(DefaultErrorStatusCode)
    else t.metadata.value.httpStatusCode
  }

  /** `eMap?.message`, `eMap?.statusCode` and `eMap?.errorCode`. */
  function MapMessage(eMap: Option<ErrorMap>): Option<string>
  {
    if eMap.Some? then eMap.value.message else None
  }

  function MapStatus(eMap: Option<ErrorMap>): Option<int>
  {
    if eMap.Some? then eMap.value.statusCode else None
  }

  function MapCode(eMap: Option<ErrorMap>): Option<string>
  {
    if eMap.Some? then eMap.value.errorCode else None
  }

  /**
   * `new PinpointError(e, eMap)` in a service named `service`. Destructuring `e` throws when
   * `e` is `undefined` or `null` or its `$metadata` is `null`.
   */
  function New(e: Nullable<Thrown>, eMap: Option<ErrorMap>, service: string): Result<Error, TypeError>
  {
    if !e.Defined? || e.value.metadata.Null? then Failure(TypeError)
    else
      var t := e.value;
      var status := ThrownStatus(t);
      Success(Error(
        true,
        true,
        service,
        if Given(MapMessage(eMap)) then MapMessage(eMap).value
        else if TruthyText(t.message) then t.message.value
        else DefaultErrorMessage,
        if GivenNumber(MapStatus(eMap)) then MapStatus(eMap).value
        else if status.Defined? && status.value != 0 then status.value
        else DefaultErrorStatusCode,
        if Given(MapCode(eMap)) then MapCode(eMap).value else DefaultErrorCode,
        t))
  }

  /** The constructor throws exactly on a nullish `e` or a `null` `$metadata`. */
  lemma NewThrows(e: Nullable<Thrown>, eMap: Option<ErrorMap>, service: string)
    ensures New(e, eMap, service).Failure? <==> !e.Defined? || e.value.metadata.Null?
  {
  }

  /** Both flags are set, the service is recorded and the thrown value is kept as it was. */
  lemma NewKeeps(t: Thrown, eMap: Option<ErrorMap>, service: string)
    requires !t.metadata.Null?
    ensures New(Defined(t), eMap, service).Success?
    ensures New(Defined(t), eMap, service).value.isCustomError
    ensures New(Defined(t), eMap, service).value.isPinpointError
    ensures New(Defined(t), eMap, service).value.service == service
    ensures New(Defined(t), eMap, service).value.error == t
  {
  }

  /** The message: the map's when truthy, else the thrown one when truthy, else the default. */
  lemma NewMessage(t: Thrown, eMap: Option<ErrorMap>, service: string)
    requires !t.metadata.Null?
    ensures Given(MapMessage(eMap)) ==> New(Defined(t), eMap, service).value.message == MapMessage(eMap).value
    ensures !Given(MapMessage(eMap)) && TruthyText(t.message) ==> New(Defined(t), eMap, service).value.message == t.message.value
    ensures !Given(MapMessage(eMap)) && !TruthyText(t.message) ==> New(Defined(t), eMap, service).value.message == DefaultErrorMessage
  {
  }

  /**
   * The status code: the map's when truthy, else the thrown `httpStatusCode` when truthy,
   * else 500; an absent, `null` or `0` status gives 500.
   */
  lemma NewStatusCode(t: Thrown, eMap: Option<ErrorMap>, service: string)
    requires !t.metadata.Null?
    ensures GivenNumber(MapStatus(eMap)) ==> New(Defined(t), eMap, service).value.statusCode == MapStatus(eMap).value
    ensures !GivenNumber(MapStatus(eMap)) && t.metadata.Defined? && t.metadata.value.httpStatusCode.Defined? ==>
      New(Defined(t), eMap, service).value.statusCode
        == if t.metadata.value.httpStatusCode.value != 0 then t.metadata.value.httpStatusCode.value else DefaultErrorStatusCode
    ensures !GivenNumber(MapStatus(eMap)) && (t.metadata.Undefined? || !t.metadata.value.httpStatusCode.Defined?) ==>
      New(Defined(t), eMap, service).value.statusCode == DefaultErrorStatusCode
  {
  }

  /** The error code comes from the map alone: the thrown value never supplies one. */
  lemma NewErrorCode(t: Thrown, t': Thrown, eMap: Option<ErrorMap>, service: string)
    requires !t.metadata.Null? && !t'.metadata.Null?
    ensures New(Defined(t), eMap, service).value.errorCode == New(Defined(t'), eMap, service).value.errorCode
    ensures New(Defined(t), eMap, service).value.errorCode
         == if Given(MapCode(eMap)) then MapCode(eMap).value else DefaultErrorCode
  {
  }

  /** Whatever is thrown, the error's message, status code and error code are all truthy. */
  lemma NewAlwaysTruthy(e: Nullable<Thrown>, eMap: Option<ErrorMap>, service: string)
    requires New(e, eMap, service).Success?
    ensures New(e, eMap, service).value.message != ""
    ensures New(e, eMap, service).value.statusCode != 0
    ensures New(e, eMap, service).value.errorCode != ""
  {
  }

  /**
   * The shipped maps only name the operation: with any of them, message and status code are
   * those the thrown value alone would give.
   */
  lemma ShippedMapsOnlyCode(t: Thrown, i: nat, service: string)
    requires !t.metadata.Null? && i < |Shipped|
    ensures New(Defined(t), Some(Shipped[i]), service).value.message == New(Defined(t), None, service).value.message
    ensures New(Defined(t), Some(Shipped[i]), service).value.statusCode == New(Defined(t), None, service).value.statusCode
    ensures New(Defined(t), Some(Shipped[i]), service).value.errorCode == Shipped[i].errorCode.value
  {
  }

  /** A failed email send from a service error with status 503 and message "Throttled". */
  lemma ExampleSendEmailFailure()
    ensures New(Defined(Thrown(Defined("Throttled"), Defined(Metadata(Defined(503))))), Some(SendEmailError), "app@1.0.0")
         == Success(Error(true, true, "app@1.0.0", "Throttled", 503, "AwsPinpoint::SEND_EMAIL",
                          Thrown(Defined("Throttled"), Defined(Metadata(Defined(503))))))
  {
  }
}
