/**
 * The records the wrapper passes around: its configuration with the defaults, the integer
 * settings read from the environment, substitution values and the normalised per-address
 * result of a send.
 */
module Types {
  /** The client connection settings (`CONNECTION_CONFIG`). */
  datatype ConnectionConfig = ConnectionConfig(region: string, apiVersion: string)

  /** `PinpointSdkConfig`: connection, application, sender identities and the OTP settings. */
  datatype PinpointSdkConfig = PinpointSdkConfig(
    connectionConfig: ConnectionConfig,
    applicationId: string,
    smsOriginationNumber: string,
    smsSenderId: string,
    emailFromAddress: string,
    otpBrandName: string,
    otpOriginationIdentity: string,
    otpAllowedAttempts: int,
    otpCodeLength: int,
    otpValidityPeriod: int)

  const DefaultRegion := "ap-south-1"
  const DefaultApiVersion := "2016-12-01"
  const DefaultAllowedAttempts := 3
  const DefaultCodeLength := 6
  const DefaultValidityPeriod := 5

  /** `DEFAULT_CONFIG`: the fallback for every setting. */
  const DefaultConfig := PinpointSdkConfig(
    ConnectionConfig(DefaultRegion, DefaultApiVersion),
    "", "", "", "", "", "",
    DefaultAllowedAttempts, DefaultCodeLength, DefaultValidityPeriod)

  /** The three settings that must parse as integers (`IntConfigKeys`). */
  datatype IntConfigKey = AllowedAttempts | CodeLength | ValidityPeriodInMin
  {
    /** The environment variable that holds the setting. */
    function EnvName(): string
    {
      match this
      case AllowedAttempts => "PINPOINT_OTP_ALLOWED_ATTEMPTS"
      case CodeLength => "PINPOINT_OTP_CODE_LENGTH"
      case ValidityPeriodInMin => "PINPOINT_OTP_VALIDITY_PERIOD_IN_MIN"
    }

    /** The value `DEFAULT_CONFIG` gives the setting. */
    function Default(): int
    {
      match this
      case AllowedAttempts => DefaultAllowedAttempts
      case CodeLength => DefaultCodeLength
      case ValidityPeriodInMin => DefaultValidityPeriod
    }
  }

  /** The integer settings in the order they are validated. */
  const IntConfigKeys: seq<IntConfigKey> := [AllowedAttempts, CodeLength, ValidityPeriodInMin]

  /** A value of a `Substitutions` record: string, number, `null` or `undefined`. */
  datatype SubstValue = Str(text: string) | Num(number: int) | NullValue | UndefinedValue

  /** `SendSmsEmailOtpResult`: the outcome of a send for one address. */
  datatype SendResult = SendResult(
    requestId: string,
    messageId: string,
    channelType: string,
    address: string,
    deliveryStatus: string,
    statusCode: int,
    statusMessage: string,
    updatedToken: string)
}
