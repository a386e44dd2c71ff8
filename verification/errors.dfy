/** The error maps the facade wraps its failures with. */
module Errors {
  import opened Wrappers

  /** `PinpointErrorMap`: the fields that, when truthy, replace those of the wrapped error. */
  datatype ErrorMap = ErrorMap(message: Option<string>, statusCode: Option<int>, errorCode: Option<string>)

  /** An error map that only names the failed operation. */
  function CodeOnly(errorCode: string): ErrorMap
  {
    ErrorMap(None, None, Some(errorCode))
  }

  const SendMessageError := CodeOnly("AwsPinpoint::SEND_MESSAGE")
  const SendEmailError := CodeOnly("AwsPinpoint::SEND_EMAIL")
  const SendSmsError := CodeOnly("AwsPinpoint::SEND_SMS")
  const GetEmailTemplateError := CodeOnly("AwsPinpoint::GET_EMAIL_TEMPLATE")
  const GetSmsTemplateError := CodeOnly("AwsPinpoint::GET_SMS_TEMPLATE")

  /** The five maps the facade uses. */
  const Shipped := [SendMessageError, SendEmailError, SendSmsError, GetEmailTemplateError, GetSmsTemplateError]
}
