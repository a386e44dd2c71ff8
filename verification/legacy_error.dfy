/**
 * The earlier JavaScript `PinpointError`: it wraps a thrown value once, returning a value it
 * already wrapped as it is, and serialises to its message, status code and request ids.
 */
module LegacyPinpointError {
  import opened Wrappers
  import opened Js

  /** `$metadata` of a thrown service error. */
  datatype LegacyMetadata = LegacyMetadata(
    httpStatusCode: Nullable<int>,
    cfId: Nullable<string>,
    extendedRequestId: Nullable<string>,
    requestId: Nullable<string>)

  /** `{ cfId, extendedRequestId, requestId }`. */
  datatype RequestIds = RequestIds(cfId: Nullable<string>, extendedRequestId: Nullable<string>, requestId: Nullable<string>)

  /**
   * A value as the constructor reads it: a thrown error (with `$metadata`) or an instance the
   * constructor built (flag, message, status code and ids set, no `$metadata`).
   */
  datatype Value = Value(
    isPinpointError: Nullable<bool>,
    message: Nullable<string>,
    metadata: Nullable<LegacyMetadata>,
    statusCode: Nullable<int>,
    error: Nullable<RequestIds>)

  /** `$metadata` with its destructuring default `{}`. */
  function MetadataOf(v: Value): LegacyMetadata
    requires !v.metadata.Null?
  {
    if v.metadata.Undefined? then LegacyMetadata(Undefined, Undefined, Undefined, Undefined) else v.metadata.value
  }

  /**
   * `new PinpointError(error)`. Destructuring throws on `undefined`, `null` or a `null`
   * `$metadata`; a value whose `_isPinpointError` is `true` is returned unchanged.
   */
  function Wrap(e: Nullable<Value>): Result<Value, TypeError>
  {
    if !e.Defined? || e.value.metadata.Null? then Failure(TypeError)
    else if e.value.isPinpointError == Defined(true) then Success(e.value)
    else
      var m := MetadataOf(e.value);
      Success(Value(
        Defined(true),
        if e.value.message.Undefined? then Defined("") else e.value.message,
        Undefined,
        if m.httpStatusCode.Undefined? then Defined(500) else m.httpStatusCode,
        Defined(RequestIds(m.cfId, m.extendedRequestId, m.requestId))))
  }

  /** What `toJSON` returns. */
  datatype Json = Json(message: Nullable<string>, statusCode: Nullable<int>, error: Nullable<RequestIds>)

  /** `toJSON()`: exactly the message, status code and ids. */
  function ToJson(v: Value): Json
  {
    Json(v.message, v.statusCode, v.error)
  }

  /** The constructor throws exactly on a nullish value or a `null` `$metadata`. */
  lemma WrapThrows(e: Nullable<Value>)
    ensures Wrap(e).Failure? <==> !e.Defined? || e.value.metadata.Null?
  {
  }

  /** Every wrapped value is flagged, and wrapping it again returns it unchanged. */
  lemma WrapIdempotent(e: Nullable<Value>)
    requires Wrap(e).Success?
    ensures Wrap(e).value.isPinpointError == Defined(true)
    ensures Wrap(Defined(Wrap(e).value)) == Wrap(e)
  {
  }

  /** A value already flagged is returned as it is. */
  lemma WrapFlagged(v: Value)
    requires v.isPinpointError == Defined(true) && !v.metadata.Null?
    ensures Wrap(Defined(v)) == Success(v)
  {
  }

  /**
   * For a value not yet wrapped: the message is kept, `""` only when absent; the status code
   * is `$metadata.httpStatusCode`, 500 when `$metadata` or the field is absent.
   */
  lemma WrapFields(v: Value)
    requires v.isPinpointError != Defined(true) && !v.metadata.Null?
    ensures v.message.Undefined? ==> Wrap(Defined(v)).value.message == Defined("")
    ensures !v.message.Undefined? ==> Wrap(Defined(v)).value.message == v.message
    ensures v.metadata.Undefined? ==> Wrap(Defined(v)).value.statusCode == Defined(500)
    ensures v.metadata.Defined? && v.metadata.value.httpStatusCode.Undefined? ==> Wrap(Defined(v)).value.statusCode == Defined(500)
    ensures v.metadata.Defined? && !v.metadata.value.httpStatusCode.Undefined? ==>
      Wrap(Defined(v)).value.statusCode == v.metadata.value.httpStatusCode
  {
  }

  /**
   * The ids are always attached: the object literal always has three keys, so even without
   * `$metadata` the error is `{ cfId, extendedRequestId, requestId }`, all three undefined.
   */
  lemma WrapIdsAlwaysPresent(v: Value)
    requires v.isPinpointError != Defined(true) && !v.metadata.Null?
    ensures Wrap(Defined(v)).value.error == Defined(RequestIds(MetadataOf(v).cfId, MetadataOf(v).extendedRequestId, MetadataOf(v).requestId))
    ensures v.metadata.Undefined? ==> Wrap(Defined(v)).value.error == Defined(RequestIds(Undefined, Undefined, Undefined))
  {
  }

  /**
   * What a wrapped thrown error serialises to: its message (`""` when absent), its
   * `$metadata.httpStatusCode` (500 when that or `$metadata` is absent) and the three ids of
   * `$metadata` (all undefined without it). A value already wrapped serialises as it is.
   */
  lemma ToJsonOfWrap(v: Value)
    requires !v.metadata.Null?
    ensures v.isPinpointError == Defined(true) ==>
      ToJson(Wrap(Defined(v)).value) == Json(v.message, v.statusCode, v.error)
    ensures v.isPinpointError != Defined(true) && v.metadata.Undefined? ==>
      ToJson(Wrap(Defined(v)).value)
        == Json(if v.message.Undefined? then Defined("") else v.message,
                Defined(500),
                Defined(RequestIds(Undefined, Undefined, Undefined)))
    ensures v.isPinpointError != Defined(true) && v.metadata.Defined? ==>
      var m := v.metadata.value;
      ToJson(Wrap(Defined(v)).value)
        == Json(if v.message.Undefined? then Defined("") else v.message,
                if m.httpStatusCode.Undefined? then Defined(500) else m.httpStatusCode,
                Defined(RequestIds(m.cfId, m.extendedRequestId, m.requestId)))
    ensures ToJson(Wrap(Defined(Wrap(Defined(v)).value)).value) == ToJson(Wrap(Defined(v)).value)
  {
    if v.isPinpointError != Defined(true) {
      WrapFields(v);
      WrapIdsAlwaysPresent(v);
    }
    WrapIdempotent(Defined(v));
  }
}
