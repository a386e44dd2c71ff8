/**
 * The configuration loader: the process environment, read once, becomes either a complete
 * `PinpointSdkConfig` or a failure naming every offending variable. The loader first checks
 * the required variables, then validates the three integer settings, and only then
 * assembles the record; the failures stand for its logged messages and `process.exit(1)`.
 */
module Config {
  import opened Wrappers
  import opened Js
  import opened JsNumber
  import opened Types

  /** The variables the loader reads. */
  datatype EnvVar =
    | ApiVersionVar | RegionVar | EnabledVar | ApplicationIdVar
    | SmsOriginationNumberVar | SmsSenderIdVar | EmailFromAddressVar
    | OtpBrandNameVar | OtpOriginationIdentityVar
    | IntVar(key: IntConfigKey)
  {
    function Name(): string
    {
      match this
      case ApiVersionVar => "PINPOINT_API_VERSION"
      case RegionVar => "PINPOINT_REGION"
      case EnabledVar => "PINPOINT_ENABLED"
      case ApplicationIdVar => "PINPOINT_APPLICATION_ID"
      case SmsOriginationNumberVar => "PINPOINT_SMS_ORIGINATION_NUMBER"
      case SmsSenderIdVar => "PINPOINT_SMS_SENDER_ID"
      case EmailFromAddressVar => "PINPOINT_EMAIL_FROM_ADDRESS"
      case OtpBrandNameVar => "PINPOINT_OTP_BRAND_NAME"
      case OtpOriginationIdentityVar => "PINPOINT_OTP_ORIGINATION_IDENTITY"
      case IntVar(key) => key.EnvName()
    }
  }

  /**
   * The process environment, restricted to the variables above: a variable is present only
   * when it is set, and every value is a string.
   */
  type Env = map<EnvVar, string>

  /** A destructuring default: the variable's value, or `fallback` when it is not set. */
  function EnvOr(env: Env, v: EnvVar, fallback: string): string
  {
    if v in env then env[v] else fallback
  }

  /** `!!process.env[name]`: set and not empty. */
  predicate IsSet(env: Env, v: EnvVar)
  {
    v in env && Truthy(env[v])
  }

  /** `PINPOINT_ENABLED === 'true'`, with `'false'` when it is not set. */
  predicate Enabled(env: Env)
  {
    EnvOr(env, EnabledVar, "false") == "true"
  }

  /** The variables that must be set: the application id, and only when the service is enabled. */
  function RequiredKeys(env: Env): seq<EnvVar>
  {
    if Enabled(env) then [ApplicationIdVar] else []
  }

  /**
   * The names of the listed variables that are unset or empty, in order: every such
   * variable is reported and nothing else is.
   */
  function MissingKeys(env: Env, keys: seq<EnvVar>): (missing: seq<string>)
    ensures forall v :: v in keys && !IsSet(env, v) ==> v.Name() in missing
    ensures forall n :: n in missing ==> exists v :: v in keys && !IsSet(env, v) && v.Name() == n
    ensures |missing| <= |keys|
  {
    if keys == [] then []
    else (if IsSet(env, keys[0]) then [] else [keys[0].Name()]) + MissingKeys(env, keys[1..])
  }

  /** No two listed variables share a name. */
  predicate DistinctNames(keys: seq<EnvVar>)
  {
    forall i, j :: 0 <= i < j < |keys| ==> keys[i].Name() != keys[j].Name()
  }

  /** Dropping the first variable keeps the names distinct, and no later one has its name. */
  lemma DistinctNamesTail(keys: seq<EnvVar>)
    requires keys != [] && DistinctNames(keys)
    ensures DistinctNames(keys[1..])
    ensures forall v :: v in keys[1..] ==> v.Name() != keys[0].Name()
  {
    var tail := keys[1..];
    forall i, j | 0 <= i < j < |tail|
      ensures tail[i].Name() != tail[j].Name()
    {
      assert tail[i] == keys[i + 1] && tail[j] == keys[j + 1];
    }
    forall v | v in tail
      ensures v.Name() != keys[0].Name()
    {
      var j :| 0 <= j < |tail| && tail[j] == v;
      assert keys[j + 1] == v;
    }
  }

  /** A name no listed variable has is never reported. */
  lemma MissingKeysNotNamed(env: Env, keys: seq<EnvVar>, name: string)
    requires forall v :: v in keys ==> v.Name() != name
    ensures name !in MissingKeys(env, keys)
  {
  }

  /** A list of variables with distinct names reports each missing one once. */
  lemma {:induction false} MissingKeysDistinct(env: Env, keys: seq<EnvVar>)
    requires DistinctNames(keys)
    ensures Distinct(MissingKeys(env, keys))
  {
    if keys != [] {
      DistinctNamesTail(keys);
      MissingKeysDistinct(env, keys[1..]);
      if !IsSet(env, keys[0]) {
        MissingKeysNotNamed(env, keys[1..], keys[0].Name());
        DistinctCons(keys[0].Name(), MissingKeys(env, keys[1..]));
      }
    }
  }

  /** The text an integer setting is parsed from; an unset variable reads as `""`. */
  function RawInt(env: Env, key: IntConfigKey): string
  {
    EnvOr(env, IntVar(key), "")
  }

  /** The entry one setting contributes to an integer failure. */
  function InvalidEntry(env: Env, key: IntConfigKey): Obj<string>
  {
    if ParseInt(RawInt(env, key)).None? then [Property(key.EnvName(), RawInt(env, key))] else []
  }

  /** The settings of `keys` whose text is not a number, each with its text, in order. */
  function InvalidInts(env: Env, keys: seq<IntConfigKey>): Obj<string>
  {
    if keys == [] then [] else InvalidEntry(env, keys[0]) + InvalidInts(env, keys[1..])
  }

  /** `INT_CONFIG[key] || DEFAULT`: the parsed number, or the default when it is 0. */
  function IntSetting(env: Env, key: IntConfigKey): int
  {
    match ParseInt(RawInt(env, key))
    case Some(n) => if n != 0 then n else key.Default()
    case None => key.Default()
  }

  /** The record assembled once every check has passed. */
  function Assemble(env: Env): PinpointSdkConfig
  {
    PinpointSdkConfig(
      ConnectionConfig(
        OrElse(EnvOr(env, RegionVar, ""), DefaultRegion),
        OrElse(EnvOr(env, ApiVersionVar, ""), DefaultApiVersion)),
      EnvOr(env, ApplicationIdVar, ""),
      EnvOr(env, SmsOriginationNumberVar, ""),
      EnvOr(env, SmsSenderIdVar, ""),
      EnvOr(env, EmailFromAddressVar, ""),
      EnvOr(env, OtpBrandNameVar, ""),
      EnvOr(env, OtpOriginationIdentityVar, ""),
      IntSetting(env, AllowedAttempts),
      IntSetting(env, CodeLength),
      IntSetting(env, ValidityPeriodInMin))
  }

  /** Why loading stopped: the missing variables, or the integer settings with their texts. */
  datatype ConfigError = MissingConfig(keys: seq<string>) | InvalidIntConfig(entries: Obj<string>)

  /** The configuration the module exports, or the failure that ends the process. */
  function Load(env: Env): (r: Result<PinpointSdkConfig, ConfigError>)
    ensures r.Failure? && r.error.MissingConfig? ==> r.error.keys == [ApplicationIdVar.Name()]
    ensures r.Failure? && r.error.InvalidIntConfig? ==> r.error.entries != []
  {
    var missing := MissingKeys(env, RequiredKeys(env));
    if missing != [] then Failure(MissingConfig(missing))
    else
      var invalid := InvalidInts(env, IntConfigKeys);
      if invalid != [] then Failure(InvalidIntConfig(invalid))
      else Success(Assemble(env))
  }

  /** The integer field of the record that a setting fills. */
  function IntField(c: PinpointSdkConfig, key: IntConfigKey): int
  {
    match key
    case AllowedAttempts => c.otpAllowedAttempts
    case CodeLength => c.otpCodeLength
    case ValidityPeriodInMin => c.otpValidityPeriod
  }

  lemma EnvNameInjective(a: IntConfigKey, b: IntConfigKey)
    ensures a.EnvName() == b.EnvName() <==> a == b
  {
  }

  lemma {:induction false} InvalidIntsEmpty(env: Env, keys: seq<IntConfigKey>)
    ensures InvalidInts(env, keys) == [] <==> forall i :: 0 <= i < |keys| ==> ParseInt(RawInt(env, keys[i])).Some?
  {
    if keys != [] {
      InvalidIntsEmpty(env, keys[1..]);
      assert forall i :: 1 <= i < |keys| ==> keys[i] == keys[1..][i - 1];
    }
  }

  /** A setting is listed, with its text, exactly when it is one of `keys` and does not parse. */
  lemma {:induction false} InvalidIntsGet(env: Env, keys: seq<IntConfigKey>, key: IntConfigKey)
    ensures Get(InvalidInts(env, keys), key.EnvName())
         == if key in keys && ParseInt(RawInt(env, key)).None? then Some(RawInt(env, key)) else None
  {
    if keys != [] {
      InvalidIntsGet(env, keys[1..], key);
      EnvNameInjective(keys[0], key);
      assert key in keys <==> key == keys[0] || key in keys[1..] by {
        if key in keys && key != keys[0] {
          var i :| 0 <= i < |keys| && keys[i] == key;
          assert keys[1..][i - 1] == key;
        }
      }
      if ParseInt(RawInt(env, keys[0])).None? {
        ConsGet(Property(keys[0].EnvName(), RawInt(env, keys[0])), InvalidInts(env, keys[1..]), key.EnvName());
      } else {
        assert InvalidInts(env, keys) == InvalidInts(env, keys[1..]);
      }
    }
  }

  /** Each setting is reported at most once. */
  lemma {:induction false} InvalidIntsDistinct(env: Env, keys: seq<IntConfigKey>)
    requires forall i, j :: 0 <= i < j < |keys| ==> keys[i] != keys[j]
    ensures DistinctKeys(InvalidInts(env, keys))
  {
    if keys != [] {
      InvalidIntsDistinct(env, keys[1..]);
      var rest := InvalidInts(env, keys[1..]);
      if ParseInt(RawInt(env, keys[0])).None? {
        InvalidIntsGet(env, keys[1..], keys[0]);
        GetDefined(rest, keys[0].EnvName());
        ConsKeys(Property(keys[0].EnvName(), RawInt(env, keys[0])), rest);
      } else {
        assert InvalidInts(env, keys) == rest;
      }
    }
  }

  /** The three settings are checked in order, each contributing its own entry. */
  lemma InvalidIntsOfAll(env: Env)
    ensures InvalidInts(env, IntConfigKeys)
         == InvalidEntry(env, AllowedAttempts) + InvalidEntry(env, CodeLength) + InvalidEntry(env, ValidityPeriodInMin)
  {
    var keys := IntConfigKeys;
    assert keys[1..] == [CodeLength, ValidityPeriodInMin];
    assert keys[1..][1..] == [ValidityPeriodInMin];
    assert keys[1..][1..][1..] == [];
    assert InvalidInts(env, keys[1..][1..]) == InvalidEntry(env, ValidityPeriodInMin) + [];
  }

  /**
   * Loading succeeds exactly when the application id is set or not required, and all three
   * integer settings parse.
   */
  lemma LoadSucceeds(env: Env)
    ensures Load(env).Success? <==>
      && (Enabled(env) ==> IsSet(env, ApplicationIdVar))
      && ParseInt(RawInt(env, AllowedAttempts)).Some?
      && ParseInt(RawInt(env, CodeLength)).Some?
      && ParseInt(RawInt(env, ValidityPeriodInMin)).Some?
  {
    InvalidIntsOfAll(env);
  }

  /**
   * A missing application id is reported before, and instead of, any integer problem; it is
   * missing when unset or empty.
   */
  lemma LoadMissingFirst(env: Env)
    requires Enabled(env) && !IsSet(env, ApplicationIdVar)
    ensures Load(env) == Failure(MissingConfig([ApplicationIdVar.Name()]))
  {
  }

  /** Any value of `PINPOINT_ENABLED` other than exactly `"true"` (`"TRUE"`, `"1"`) requires nothing. */
  lemma LoadDisabledRequiresNothing(env: Env)
    requires EnvOr(env, EnabledVar, "false") != "true"
    ensures !(Load(env).Failure? && Load(env).error.MissingConfig?)
  {
  }

  lemma IntConfigKeysDistinct()
    ensures forall i, j :: 0 <= i < j < |IntConfigKeys| ==> IntConfigKeys[i] != IntConfigKeys[j]
  {
  }

  /**
   * An integer failure lists every setting that does not parse, each once and with its text,
   * and no setting that does.
   */
  lemma LoadInvalidEntries(env: Env, key: IntConfigKey)
    requires Load(env).Failure? && Load(env).error.InvalidIntConfig?
    ensures Get(Load(env).error.entries, key.EnvName())
         == if ParseInt(RawInt(env, key)).None? then Some(RawInt(env, key)) else None
    ensures DistinctKeys(Load(env).error.entries)
  {
    var entries := InvalidInts(env, IntConfigKeys);
    assert Load(env).error.entries == entries;
    assert key in IntConfigKeys by {
      assert IntConfigKeys == [AllowedAttempts, CodeLength, ValidityPeriodInMin];
    }
    assert DistinctKeys(entries) by {
      IntConfigKeysDistinct();
      InvalidIntsDistinct(env, IntConfigKeys);
    }
    InvalidIntsGet(env, IntConfigKeys, key);
  }

  /** A parsed 0 gives the default; any other parsed number, negative ones included, is kept. */
  lemma LoadIntSetting(env: Env, key: IntConfigKey, n: int)
    requires Load(env).Success?
    requires ParseInt(RawInt(env, key)) == Some(n)
    ensures IntField(Load(env).value, key) == if n == 0 then key.Default() else n
  {
  }

  /** An unset or empty region or API version gives the default connection value. */
  lemma LoadConnectionDefaults(env: Env)
    requires Load(env).Success?
    ensures !IsSet(env, RegionVar) ==> Load(env).value.connectionConfig.region == DefaultRegion
    ensures !IsSet(env, ApiVersionVar) ==> Load(env).value.connectionConfig.apiVersion == DefaultApiVersion
  {
  }

  /** An empty environment is rejected: every unset integer setting reads as `""`. */
  lemma LoadEmptyEnv()
    ensures Load(map[]) == Failure(InvalidIntConfig([
      Property(AllowedAttempts.EnvName(), ""),
      Property(CodeLength.EnvName(), ""),
      Property(ValidityPeriodInMin.EnvName(), "")]))
  {
    var env: Env := map[];
    assert MissingKeys(env, RequiredKeys(env)) == [];
    ParseIntNaN();
    assert InvalidEntry(env, AllowedAttempts) == [Property(AllowedAttempts.EnvName(), "")];
    assert InvalidEntry(env, CodeLength) == [Property(CodeLength.EnvName(), "")];
    assert InvalidEntry(env, ValidityPeriodInMin) == [Property(ValidityPeriodInMin.EnvName(), "")];
    InvalidIntsOfAll(env);
    var entries := [
      Property(AllowedAttempts.EnvName(), ""),
      Property(CodeLength.EnvName(), ""),
      Property(ValidityPeriodInMin.EnvName(), "")];
    assert InvalidInts(env, IntConfigKeys) == entries;
    assert Load(env) == Failure(InvalidIntConfig(InvalidInts(env, IntConfigKeys)));
  }

  /** Several bad settings are reported together, each with its text. */
  lemma LoadReportsEveryInvalidInt()
    ensures Load(map[
      IntVar(AllowedAttempts) := "4",
      IntVar(CodeLength) := "abc",
      IntVar(ValidityPeriodInMin) := "xyz"])
      == Failure(InvalidIntConfig([
        Property(CodeLength.EnvName(), "abc"),
        Property(ValidityPeriodInMin.EnvName(), "xyz")]))
  {
    var env := map[
      IntVar(AllowedAttempts) := "4",
      IntVar(CodeLength) := "abc",
      IntVar(ValidityPeriodInMin) := "xyz"];
    assert RawInt(env, AllowedAttempts) == "4";
    assert RawInt(env, CodeLength) == "abc";
    assert RawInt(env, ValidityPeriodInMin) == "xyz";
    ParseIntToString("", 4, "");
    assert "" + IntToString(4) + "" == "4" by {
      assert NatToString(4) == "4";
    }
    ParseIntNoDigits("abc");
    ParseIntNoDigits("xyz");
    assert MissingKeys(env, RequiredKeys(env)) == [];
    assert InvalidEntry(env, AllowedAttempts) == [];
    assert InvalidEntry(env, CodeLength) == [Property(CodeLength.EnvName(), "abc")];
    assert InvalidEntry(env, ValidityPeriodInMin) == [Property(ValidityPeriodInMin.EnvName(), "xyz")];
    InvalidIntsOfAll(env);
    var entries := [Property(CodeLength.EnvName(), "abc"), Property(ValidityPeriodInMin.EnvName(), "xyz")];
    assert InvalidInts(env, IntConfigKeys) == entries;
    assert Load(env) == Failure(InvalidIntConfig(InvalidInts(env, IntConfigKeys)));
  }

  /** An environment that sets every variable to the text of the corresponding field. */
  function ToEnv(c: PinpointSdkConfig, enabled: bool): Env
  {
    map[
      EnabledVar := if enabled then "true" else "false",
      ApplicationIdVar := c.applicationId,
      RegionVar := c.connectionConfig.region,
      ApiVersionVar := c.connectionConfig.apiVersion,
      SmsOriginationNumberVar := c.smsOriginationNumber,
      SmsSenderIdVar := c.smsSenderId,
      EmailFromAddressVar := c.emailFromAddress,
      OtpBrandNameVar := c.otpBrandName,
      OtpOriginationIdentityVar := c.otpOriginationIdentity,
      IntVar(AllowedAttempts) := IntToString(c.otpAllowedAttempts),
      IntVar(CodeLength) := IntToString(c.otpCodeLength),
      IntVar(ValidityPeriodInMin) := IntToString(c.otpValidityPeriod)]
  }

  lemma ToEnvInts(c: PinpointSdkConfig, enabled: bool, key: IntConfigKey)
    ensures ParseInt(RawInt(ToEnv(c, enabled), key)) == Some(IntField(c, key))
  {
    assert RawInt(ToEnv(c, enabled), key) == "" + IntToString(IntField(c, key)) + "";
    ParseIntToString("", IntField(c, key), "");
  }

  lemma ToEnvIntSetting(c: PinpointSdkConfig, enabled: bool, key: IntConfigKey)
    requires IntField(c, key) != 0
    ensures IntSetting(ToEnv(c, enabled), key) == IntField(c, key)
  {
    ToEnvInts(c, enabled, key);
  }

  lemma ToEnvStrings(c: PinpointSdkConfig, enabled: bool)
    ensures EnvOr(ToEnv(c, enabled), RegionVar, "") == c.connectionConfig.region
    ensures EnvOr(ToEnv(c, enabled), ApiVersionVar, "") == c.connectionConfig.apiVersion
    ensures EnvOr(ToEnv(c, enabled), ApplicationIdVar, "") == c.applicationId
    ensures EnvOr(ToEnv(c, enabled), SmsOriginationNumberVar, "") == c.smsOriginationNumber
    ensures EnvOr(ToEnv(c, enabled), SmsSenderIdVar, "") == c.smsSenderId
    ensures EnvOr(ToEnv(c, enabled), EmailFromAddressVar, "") == c.emailFromAddress
    ensures EnvOr(ToEnv(c, enabled), OtpBrandNameVar, "") == c.otpBrandName
    ensures EnvOr(ToEnv(c, enabled), OtpOriginationIdentityVar, "") == c.otpOriginationIdentity
  {
  }

  lemma ToEnvAssembles(c: PinpointSdkConfig, enabled: bool)
    requires c.connectionConfig.region != "" && c.connectionConfig.apiVersion != ""
    requires c.otpAllowedAttempts != 0 && c.otpCodeLength != 0 && c.otpValidityPeriod != 0
    ensures Assemble(ToEnv(c, enabled)) == c
  {
    ToEnvIntSetting(c, enabled, AllowedAttempts);
    ToEnvIntSetting(c, enabled, CodeLength);
    ToEnvIntSetting(c, enabled, ValidityPeriodInMin);
    ToEnvStrings(c, enabled);
  }

  lemma ToEnvMissing(c: PinpointSdkConfig, enabled: bool)
    ensures MissingKeys(ToEnv(c, enabled), RequiredKeys(ToEnv(c, enabled)))
         == if enabled && c.applicationId == "" then [ApplicationIdVar.Name()] else []
  {
    var env := ToEnv(c, enabled);
    assert Enabled(env) == enabled;
    assert IsSet(env, ApplicationIdVar) == (c.applicationId != "");
  }

  lemma ToEnvValid(c: PinpointSdkConfig, enabled: bool)
    ensures InvalidInts(ToEnv(c, enabled), IntConfigKeys) == []
  {
    ToEnvInts(c, enabled, AllowedAttempts);
    ToEnvInts(c, enabled, CodeLength);
    ToEnvInts(c, enabled, ValidityPeriodInMin);
    InvalidIntsOfAll(ToEnv(c, enabled));
  }

  /**
   * Every field is read back from its variable: the loader inverts `ToEnv` for any record
   * whose connection values are not empty and whose integers are not 0, failing only when
   * the service is enabled without an application id.
   */
  lemma LoadToEnv(c: PinpointSdkConfig, enabled: bool)
    requires c.connectionConfig.region != "" && c.connectionConfig.apiVersion != ""
    requires c.otpAllowedAttempts != 0 && c.otpCodeLength != 0 && c.otpValidityPeriod != 0
    ensures Load(ToEnv(c, enabled))
         == if enabled && c.applicationId == "" then Failure(MissingConfig([ApplicationIdVar.Name()])) else Success(c)
  {
    ToEnvMissing(c, enabled);
    ToEnvValid(c, enabled);
    ToEnvAssembles(c, enabled);
  }

  /**
   * The loader as its integer defaults evidently intend: an unset integer setting reads as the
   * text of its default (as the earlier JavaScript loader did), so that the `|| DEFAULT`
   * fallback is reached; a setting that is set, even to `""`, is still validated.
   */
  function WithIntDefaults(env: Env): Env
  {
    var env1 := if IntVar(AllowedAttempts) in env then env
                else env[IntVar(AllowedAttempts) := IntToString(DefaultAllowedAttempts)];
    var env2 := if IntVar(CodeLength) in env1 then env1
                else env1[IntVar(CodeLength) := IntToString(DefaultCodeLength)];
    if IntVar(ValidityPeriodInMin) in env2 then env2
    else env2[IntVar(ValidityPeriodInMin) := IntToString(DefaultValidityPeriod)]
  }

  function LoadIntended(env: Env): Result<PinpointSdkConfig, ConfigError>
  {
    Load(WithIntDefaults(env))
  }

  /** Filling the defaults touches only unset integer settings. */
  lemma WithIntDefaultsOf(env: Env, v: EnvVar)
    ensures v in env ==> v in WithIntDefaults(env) && WithIntDefaults(env)[v] == env[v]
    ensures v !in env && v.IntVar? ==> v in WithIntDefaults(env) && WithIntDefaults(env)[v] == IntToString(v.key.Default())
    ensures v !in env && !v.IntVar? ==> v !in WithIntDefaults(env)
  {
    if v.IntVar? {
      match v.key
      case AllowedAttempts =>
      case CodeLength =>
      case ValidityPeriodInMin =>
    }
  }

  /** An unset setting now parses, to its default. */
  lemma WithIntDefaultsParses(env: Env, key: IntConfigKey)
    ensures IntVar(key) !in env ==> ParseInt(RawInt(WithIntDefaults(env), key)) == Some(key.Default())
    ensures IntVar(key) in env ==> RawInt(WithIntDefaults(env), key) == RawInt(env, key)
  {
    WithIntDefaultsOf(env, IntVar(key));
    if IntVar(key) !in env {
      ParseIntToString("", key.Default(), "");
      assert "" + IntToString(key.Default()) + "" == IntToString(key.Default());
    }
  }

  /**
   * With the defaults filled in, loading succeeds exactly when the application id is set or
   * not required and every integer setting that is set parses.
   */
  lemma LoadIntendedSucceeds(env: Env)
    ensures LoadIntended(env).Success? <==>
      && (Enabled(env) ==> IsSet(env, ApplicationIdVar))
      && (IntVar(AllowedAttempts) in env ==> ParseInt(RawInt(env, AllowedAttempts)).Some?)
      && (IntVar(CodeLength) in env ==> ParseInt(RawInt(env, CodeLength)).Some?)
      && (IntVar(ValidityPeriodInMin) in env ==> ParseInt(RawInt(env, ValidityPeriodInMin)).Some?)
  {
    var full := WithIntDefaults(env);
    WithIntDefaultsOf(env, EnabledVar);
    WithIntDefaultsOf(env, ApplicationIdVar);
    assert Enabled(full) == Enabled(env);
    assert IsSet(full, ApplicationIdVar) == IsSet(env, ApplicationIdVar);
    WithIntDefaultsParses(env, AllowedAttempts);
    WithIntDefaultsParses(env, CodeLength);
    WithIntDefaultsParses(env, ValidityPeriodInMin);
    LoadSucceeds(full);
  }

  /** An unset integer setting takes its default. */
  lemma LoadIntendedDefault(env: Env, key: IntConfigKey)
    requires LoadIntended(env).Success?
    requires IntVar(key) !in env
    ensures IntField(LoadIntended(env).value, key) == key.Default()
  {
    WithIntDefaultsParses(env, key);
    LoadIntSetting(WithIntDefaults(env), key, key.Default());
  }

  /** Where every integer setting is set, the corrected loader is the loader as written. */
  lemma LoadIntendedAgrees(env: Env)
    requires IntVar(AllowedAttempts) in env && IntVar(CodeLength) in env && IntVar(ValidityPeriodInMin) in env
    ensures LoadIntended(env) == Load(env)
  {
    assert WithIntDefaults(env) == env;
  }

  /** The string settings are read as written: the defaults fill in integer settings only. */
  lemma LoadIntendedStrings(env: Env)
    requires LoadIntended(env).Success?
    ensures LoadIntended(env).value.connectionConfig
         == ConnectionConfig(OrElse(EnvOr(env, RegionVar, ""), DefaultRegion), OrElse(EnvOr(env, ApiVersionVar, ""), DefaultApiVersion))
    ensures LoadIntended(env).value.applicationId == EnvOr(env, ApplicationIdVar, "")
    ensures LoadIntended(env).value.smsOriginationNumber == EnvOr(env, SmsOriginationNumberVar, "")
    ensures LoadIntended(env).value.smsSenderId == EnvOr(env, SmsSenderIdVar, "")
    ensures LoadIntended(env).value.emailFromAddress == EnvOr(env, EmailFromAddressVar, "")
    ensures LoadIntended(env).value.otpBrandName == EnvOr(env, OtpBrandNameVar, "")
    ensures LoadIntended(env).value.otpOriginationIdentity == EnvOr(env, OtpOriginationIdentityVar, "")
  {
    WithIntDefaultsOf(env, RegionVar);
    WithIntDefaultsOf(env, ApiVersionVar);
    WithIntDefaultsOf(env, ApplicationIdVar);
    WithIntDefaultsOf(env, SmsOriginationNumberVar);
    WithIntDefaultsOf(env, SmsSenderIdVar);
    WithIntDefaultsOf(env, EmailFromAddressVar);
    WithIntDefaultsOf(env, OtpBrandNameVar);
    WithIntDefaultsOf(env, OtpOriginationIdentityVar);
  }

  /** With no integer setting set, the corrected loader succeeds with the three defaults. */
  lemma LoadIntendedNoInts(env: Env)
    requires Enabled(env) ==> IsSet(env, ApplicationIdVar)
    requires IntVar(AllowedAttempts) !in env && IntVar(CodeLength) !in env && IntVar(ValidityPeriodInMin) !in env
    ensures LoadIntended(env).Success?
    ensures LoadIntended(env).value.otpAllowedAttempts == DefaultAllowedAttempts
    ensures LoadIntended(env).value.otpCodeLength == DefaultCodeLength
    ensures LoadIntended(env).value.otpValidityPeriod == DefaultValidityPeriod
  {
    LoadIntendedSucceeds(env);
    LoadIntendedDefault(env, AllowedAttempts);
    LoadIntendedDefault(env, CodeLength);
    LoadIntendedDefault(env, ValidityPeriodInMin);
  }

  /** An empty environment now yields the default configuration, where `Load` fails (`LoadEmptyEnv`). */
  lemma LoadIntendedEmptyEnv()
    ensures LoadIntended(map[]) == Success(DefaultConfig)
  {
    var env: Env := map[];
    assert !Enabled(env);
    LoadIntendedNoInts(env);
    LoadIntendedStrings(env);
  }
}
