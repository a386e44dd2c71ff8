# A Dafny model of the am92-aws-pinpoint wrapper core

The package wraps the AWS Pinpoint client. Its logic, apart from the network calls, is
modelled here as pure functions with proved properties.

- **Template renderer** (`templatize`): a left fold, over the substitution keys in
  enumeration order, of `replaceAll("{{key}}", text)`. `String.prototype.replaceAll` is
  modelled as ECMA-262 section 22.1.3.20 defines it for a string pattern. That includes
  the `$` patterns of GetSubstitution (section 22.1.3.19.1).
- **Configuration loader** (`CONFIG`): the environment becomes either a
  `PinpointSdkConfig` or a failure.
  - A first failure names the missing required variables.
  - A second failure lists the integer settings that `parseInt(s, 10)` cannot read.
  - `parseInt` is modelled as section 19.2.5 of ECMA-262 defines it for radix 10.
- **Request and response shaping** of the `PinpointSdk` facade:
  - the constructor's configuration override;
  - the address map;
  - the merge of template default substitutions with the caller's;
  - the template / no-template branch of `sendSms` and `sendEmail`;
  - the normalisation of provider results (`_buildResults`);
  - the `sendOTP` parameter defaults and its first result;
  - the `verifyOTP` result.
- **Errors**:
  - the TypeScript `PinpointError`, with its truthiness fallback chains and the error maps
    of `ERRORS.ts`;
  - the earlier JavaScript `PinpointError`, an idempotent wrapper with `toJSON`.

## Files

| file | module | contents |
|---|---|---|
| `wrappers.dfy` | `Wrappers` | `Option`, `Result` |
| `js.dfy` | `Js` | `undefined`/`null`/defined values, truthiness, plain objects as ordered property lists: `Object.keys`, reads, `o[k] = v`, spread |
| `js_string.dfy` | `JsString` | `replaceAll` with a string pattern, GetSubstitution |
| `js_number.dfy` | `JsNumber` | `parseInt(s, 10)`, the decimal `toString` of an integer |
| `types.dfy` | `Types` | `PinpointSdkConfig`, `DEFAULT_CONFIG`, the integer setting keys, substitution values, `SendSmsEmailOtpResult` |
| `templatize.dfy` | `Templatize` | `templatize` |
| `config.dfy` | `Config` | the loader as written (`Load`) and as intended (`LoadIntended`) |
| `pinpoint_sdk.dfy` | `PinpointSdk` | the facade's shaping |
| `errors.dfy` | `Errors` | the error maps |
| `pinpoint_error.dfy` | `PinpointError` | the TypeScript error class |
| `legacy_error.dfy` | `LegacyPinpointError` | the earlier JavaScript error class |

JavaScript objects are sequences of properties in enumeration order. `Get`, `Set`
(assignment) and `Spread` (`{ ...a, ...b }`) follow the language:

- assigning an existing key keeps its place;
- assigning a new key appends it.

An optional attribute is an `Option`. It is `None` when absent, so that the destructuring
defaults of the source (applied only to `undefined`) are `GetOr`. Where the source
distinguishes `null` from `undefined`, the value is a `Nullable`.

## Model

| member | source | states |
|---|---|---|
| `Templatize.Render` | src/lib/templatize.ts:11-21 | An empty template renders as `""` whatever the substitutions; with no substitutions the template comes back as it is |
| `Templatize.Placeholder` | src/lib/templatize.ts:29 | The pattern for a key is the key wrapped in `{{` and `}}`: four characters longer, the key in the middle |
| `Templatize.FoldAppend` | src/lib/templatize.ts:21-32 | Rendering is a left fold over the properties in enumeration order: rendering with `a + b` is rendering with `a`, then with `b` |
| `Templatize.RenderSnoc` | src/lib/templatize.ts:23-30 | One more property is one more `replaceAll` of its placeholder over the previous result |
| `Templatize.RenderOneKey` | src/lib/templatize.ts:29 | A single key replaces every leftmost non-overlapping `{{key}}`: a template cut at those occurrences renders as the pieces joined with the value's text, for a value without `$` |
| `Templatize.ExampleRepeated` | src/lib/templatize.ts:23-30 | `"{{n}}-{{n}}"` with `n = "5"` renders as `"5-5"` |
| `Templatize.RenderUntouched` | src/lib/templatize.ts:23-30 | A template with no placeholder of any given key comes back unchanged |
| `Templatize.RenderLeading` | src/lib/templatize.ts:23-30 | For a value without `$`, a placeholder at the front is replaced by the value, and the rest of the text stays as it is when it holds no placeholder of that key |
| `Templatize.ExampleUnmapped` | src/lib/templatize.ts:23-30 | `"{{a}}{{b}}"` with only `a = "1"` renders as `"1{{b}}"` |
| `Templatize.ExampleNull` | src/lib/templatize.ts:24-27 | A `null` or `undefined` value erases its placeholder |
| `Templatize.NumberText` | src/lib/templatize.ts:24-29 | A number is written by `toString` so that `parseInt` reads the same number back |
| `Templatize.RenderOwnPlaceholder` | src/lib/templatize.ts:29 | One key's pass never rescans its own output: a value equal to its own placeholder leaves any template unchanged, for a key without `$` |
| `Templatize.WholePlaceholder` | src/lib/templatize.ts:29 | A text that is exactly `{{key}}` becomes the replacement text, for a replacement without `$` |
| `Templatize.RenderPlaceholderOf` | src/lib/templatize.ts:21-30 | A template that is exactly `{{k}}` renders as `k`'s text wherever `k` is listed among distinct keys, when no other key's placeholder occurs in `{{k}}` or in that text and the text has no `$` |
| `Templatize.RenderChain` | src/lib/templatize.ts:23-30 | Later keys see earlier output: with `a` = `{{b}}` listed before `b`, `{{a}}` renders as `b`'s value, for a key `b` and a value without `$` |
| `Templatize.RenderChainTooLate` | src/lib/templatize.ts:23-30 | Listed the other way round, the inserted `{{b}}` stays, for a key `b` without `$` |
| `Templatize.ExampleChain` | src/lib/templatize.ts:23-30 | `{a: "{{b}}", b: "x"}` renders `"{{a}}"` as `"x"`; `{b: "x", a: "{{b}}"}` renders it as `"{{b}}"` |
| `Templatize.ExampleDollarPattern` | src/lib/templatize.ts:29 | A value is a `replaceAll` replacement string, so the value `"$$"` renders as `"$"` |
| `JsString.ReplaceAll` | src/lib/templatize.ts:29 | `replaceAll` for a string pattern; no contract of its own, constrained by `ReplaceAllSplit`, `ReplaceAllAbsent`, `ReplaceAllSelf`, `ReplaceFromMatches`, `ReplaceFromSkips` and `ReplaceFromSplit` |
| `JsString.ReplaceAllSplit` | src/lib/templatize.ts:29 | For a replacement without `$`, `replaceAll` of a text cut at its leftmost non-overlapping occurrences joins the pieces with the replacement |
| `JsString.ReplaceAllAbsent` | src/lib/templatize.ts:29 | A text without the pattern is returned unchanged |
| `JsString.ReplaceAllSelf` | src/lib/templatize.ts:29 | Replacing a `$`-free pattern by itself changes nothing: the scan resumes after each replacement |
| `JsString.SubstitutionLiteral` | src/lib/templatize.ts:29 | A replacement without `$` is inserted literally |
| `JsString.ReplaceFromMatches` | src/lib/templatize.ts:29 | A match at the scan position is replaced by its substitution and the scan resumes after it |
| `JsString.ReplaceFromSkips` | src/lib/templatize.ts:29 | A stretch with no match starting in it is copied as it is |
| `JsString.ReplaceFromSplit` | src/lib/templatize.ts:29 | The scan over pieces joined by the pattern joins the pieces with the replacement, whatever precedes the scan, for a replacement without `$` |
| `JsNumber.ParseInt` | src/CONFIG.ts:73 | `parseInt(s, 10)`, `None` for NaN; no contract of its own, constrained by `TrimStartSpec`, `LeadingDigitsSpec`, `ParseIntDigits`, `ParseIntTrimmed`, `ParseIntToString` and `ParseIntNoDigits` |
| `JsNumber.IntToString` | src/lib/templatize.ts:29 | `toString` of an integer; no contract of its own, constrained by `NatToStringSpec` and by the round trip `ParseIntToString` |
| `JsNumber.TrimStartSpec` | src/CONFIG.ts:73 | `parseInt` skips exactly the leading white space |
| `JsNumber.LeadingDigitsSpec` | src/CONFIG.ts:73 | `parseInt` reads the longest decimal-digit prefix |
| `JsNumber.NatToStringSpec` | src/lib/templatize.ts:29 | `toString` of a natural number writes decimal digits, without a leading zero, that denote it |
| `JsNumber.ParseIntDigits` | src/CONFIG.ts:73 | `parseInt` stops at the first non-digit after the sign and applies the sign |
| `JsNumber.ParseIntTrimmed` | src/CONFIG.ts:73 | A trimmed text starting with the decimal form of `n`, followed by a non-digit or nothing, parses as `n` |
| `JsNumber.ParseIntToString` | src/CONFIG.ts:73 | `parseInt` reads back what `toString` wrote, after any white space and before any non-digit text |
| `JsNumber.ParseIntNoDigits` | src/CONFIG.ts:73-75 | A text without digits is NaN |
| `JsNumber.ParseIntStopsAtLetter` | src/CONFIG.ts:73 | `"12abc"` parses as 12 |
| `JsNumber.ParseIntStopsAtPoint` | src/CONFIG.ts:73 | `"3.9"` parses as 3 |
| `JsNumber.ParseIntSignAfterSpace` | src/CONFIG.ts:73 | `" -7"` parses as -7 |
| `JsNumber.ParseIntNaN` | src/CONFIG.ts:73-75 | `""`, `"  "` and `"- 1"` are NaN |
| `Config.MissingKeys` | src/CONFIG.ts:54-58 | Every listed variable that is unset or `""` is reported, and every reported name is the name of such a variable |
| `Config.MissingKeysDistinct` | src/CONFIG.ts:54-58 | A list of variables with distinct names reports each missing variable at most once |
| `Config.Load` | src/CONFIG.ts:50-112 | A missing-variable failure names exactly `PINPOINT_APPLICATION_ID`; an integer failure lists at least one setting |
| `Config.LoadSucceeds` | src/CONFIG.ts:50-89 | Loading succeeds if and only if the application id is set or not required, and all three integer settings parse |
| `Config.LoadMissingFirst` | src/CONFIG.ts:60-70 | When enabled without an application id (unset or `""`), loading fails with that variable before any integer check |
| `Config.LoadDisabledRequiresNothing` | src/CONFIG.ts:35-52 | Any `PINPOINT_ENABLED` other than exactly `"true"` never gives a missing-variable failure |
| `Config.InvalidInts` | src/CONFIG.ts:70-80 | The settings that do not parse, with their texts; no contract of its own, constrained by `InvalidIntsEmpty`, `InvalidIntsGet`, `InvalidIntsDistinct` and `InvalidIntsOfAll` |
| `Config.IntSetting` | src/CONFIG.ts:104-111 | `INT_CONFIG[key] || DEFAULT`; no contract of its own, constrained by `LoadIntSetting` and `LoadIntendedDefault` |
| `Config.Assemble` | src/CONFIG.ts:92-112 | The exported record; no contract of its own, constrained by `LoadConnectionDefaults`, `LoadIntSetting`, `ToEnvAssembles` and `LoadToEnv` |
| `Config.InvalidIntsEmpty` | src/CONFIG.ts:70-82 | No setting is reported exactly when every one parses |
| `Config.InvalidIntsGet` | src/CONFIG.ts:70-80 | A setting is reported, with its text, exactly when it is checked and does not parse |
| `Config.InvalidIntsDistinct` | src/CONFIG.ts:70-80 | Each setting is reported at most once |
| `Config.InvalidIntsOfAll` | src/CONFIG.ts:38-42 | The three settings are checked in the order allowed attempts, code length, validity period |
| `Config.LoadInvalidEntries` | src/CONFIG.ts:70-89 | An integer failure lists every setting that does not parse, once and with its text, and no setting that does |
| `Config.LoadIntSetting` | src/CONFIG.ts:104-111 | A parsed 0 gives the default; any other parsed number, negative ones included, is kept |
| `Config.LoadConnectionDefaults` | src/CONFIG.ts:93-97 | An unset or empty region or API version gives `ap-south-1` or `2016-12-01` |
| `Config.LoadEmptyEnv` | src/CONFIG.ts:21-89 | An empty environment fails, reporting all three integer settings with the text `""` |
| `Config.LoadReportsEveryInvalidInt` | src/CONFIG.ts:70-89 | `"4"`, `"abc"`, `"xyz"` fails once, listing the last two with their texts |
| `Config.EnvNameInjective` | src/TYPES.ts:8-11 | The three integer settings have distinct variable names |
| `Config.IntConfigKeysDistinct` | src/TYPES.ts:8-11 | The three integer settings are listed once each |
| `Config.ToEnvAssembles` | src/CONFIG.ts:92-112 | The record assembled from variables holding a configuration's fields is that configuration |
| `Config.ToEnvMissing` | src/CONFIG.ts:50-70 | Only the application id can be missing from written-out variables, and only when the service is enabled and the id is empty |
| `Config.ToEnvValid` | src/CONFIG.ts:70-80 | Written-out integer variables always parse |
| `Config.LoadToEnv` | src/CONFIG.ts:9-112 | Round trip: writing a configuration's fields to the variables and loading gives it back, or the missing application id failure when enabled without one |
| `Config.WithIntDefaults` | src/CONFIG.mjs:15-17 | The corrected environment, each unset integer variable filled with its default's text; no contract of its own, constrained by `WithIntDefaultsOf` and `WithIntDefaultsParses` |
| `Config.LoadIntended` | src/CONFIG.ts:50-112 | The corrected loader; no contract of its own, constrained by `LoadIntendedSucceeds`, `LoadIntendedDefault`, `LoadIntendedAgrees`, `LoadIntendedStrings`, `LoadIntendedNoInts` and `LoadIntendedEmptyEnv` |
| `Config.WithIntDefaultsOf` | src/CONFIG.mjs:15-17 | The corrected loader fills in only unset integer variables, with the text of their default |
| `Config.WithIntDefaultsParses` | src/CONFIG.mjs:15-17 | A filled-in setting parses to its default; a set one is read as it is |
| `Config.LoadIntendedSucceeds` | src/CONFIG.ts:50-89 | The corrected loader succeeds if and only if the application id is set or not required and every integer setting that is set parses |
| `Config.LoadIntendedDefault` | src/CONFIG.ts:104-111 | With the corrected loader an unset integer setting takes its default |
| `Config.LoadIntendedAgrees` | src/CONFIG.ts:21-112 | When all three integer settings are set, the corrected loader is the loader as written |
| `Config.LoadIntendedStrings` | src/CONFIG.ts:92-103 | The corrected loader reads the string settings as the loader as written does |
| `Config.LoadIntendedNoInts` | src/CONFIG.ts:104-111 | With no integer setting set, the corrected loader succeeds with 3, 6 and 5 |
| `Config.LoadIntendedEmptyEnv` | src/TYPES.ts:93-107 | With the corrected loader an empty environment gives `DEFAULT_CONFIG` |
| `Js.SetGet` | src/PinpointSdk.ts:148 | After `o[k] = v`, `k` reads `v` and every other key reads as before |
| `Js.SetKeys` | src/PinpointSdk.ts:148 | `o[k] = v` keeps the key order and appends a new key |
| `Js.SetEachNew` | src/PinpointSdk.ts:143-152 | Assigning distinct new keys in turn appends them in order |
| `Js.SpreadGet` | src/PinpointSdk.ts:170 | `{ ...a, ...b }` reads `b`'s value for `b`'s keys and `a`'s for the others |
| `Js.SpreadKeys` | src/PinpointSdk.ts:170 | `{ ...a, ...b }` lists `a`'s keys, then the keys only `b` has, in `b`'s order |
| `Js.SpreadDisjoint` | src/PinpointSdk.ts:170 | Spreading an object whose keys are all new appends its properties |
| `PinpointSdk.NewSdk` | src/PinpointSdk.ts:83-88 | The instance sends with its merged configuration's application id: the caller's when given, else the loaded one |
| `PinpointSdk.Override` | src/PinpointSdk.ts:84 | `{ ...CONFIG, ...config }`; no contract of its own, constrained by `NewSdkDefault`, `NewSdkFalsyWins`, `OverrideComplete`, `OverrideCompose` and `OverrideIdempotent` |
| `PinpointSdk.NewSdkDefault` | src/PinpointSdk.ts:83-84 | Without arguments the loaded configuration is used as it is |
| `PinpointSdk.NewSdkFalsyWins` | src/PinpointSdk.ts:84 | The merge is by presence: a given `""` or `0` replaces the loaded value |
| `PinpointSdk.OverrideComplete` | src/PinpointSdk.ts:84 | A complete configuration given as the argument replaces the loaded one |
| `PinpointSdk.OverrideCompose` | src/PinpointSdk.ts:84 | Overriding twice is overriding once with the merged overrides, the later winning |
| `PinpointSdk.OverrideIdempotent` | src/PinpointSdk.ts:84 | Giving the same fields again changes nothing |
| `PinpointSdk.BuildResults` | src/PinpointSdk.ts:461-487 | `_buildResults`; no contract of its own, constrained by `BuildResultsAt`, `BuildResultsLength`, `BuildResultsAddresses` and the inverse `BuildReported` |
| `PinpointSdk.BuildResultsAt` | src/PinpointSdk.ts:461-487 | One entry per key of `Result`, in key order: the key as address, the shared request id and channel type (`""` when absent), and the defaults `""`, `UNKNOWN_FAILURE`, 0, `""`, `""` for absent fields |
| `PinpointSdk.BuildResultsLength` | src/PinpointSdk.ts:466 | There are as many results as keys |
| `PinpointSdk.BuildResultsAddresses` | src/PinpointSdk.ts:466-479 | The results' addresses are the keys of `Result`, in order |
| `PinpointSdk.BuildReported` | src/PinpointSdk.ts:461-487 | Normalising a fully reported result gives back the results it was reported from |
| `PinpointSdk.SendDataOf` | src/PinpointSdk.ts:206-209 | The `{ results }` of `sendEmail` and `sendSms`; no contract of its own, constrained by `SendDataResults` |
| `PinpointSdk.SendDataResults` | src/PinpointSdk.ts:207-209 | No response, or one without `Result`, gives no results; otherwise one per address |
| `PinpointSdk.AddressMap` | src/PinpointSdk.ts:143-152 | The `Addresses` reduce; no contract of its own, constrained by `AddressMapGet`, `AddressMapKeys` and `AddressMapOrder` |
| `PinpointSdk.AddressMapGet` | src/PinpointSdk.ts:143-152 | Every input address maps to `{ ChannelType }`, and no other key is present |
| `PinpointSdk.AddressMapKeys` | src/PinpointSdk.ts:239-248 | The keys are exactly the input addresses, duplicates collapsed |
| `PinpointSdk.AddressMapOrder` | src/PinpointSdk.ts:143-152 | Distinct addresses keep their input order |
| `PinpointSdk.MergeSubstitutions` | src/PinpointSdk.ts:168-170 | `{ ...DefaultSubstitutionsObj, ...substitutions }`; no contract of its own, constrained by `MergeGet`, `MergeKeys` and `MergeNoDefaults` |
| `PinpointSdk.MergeGet` | src/PinpointSdk.ts:168-170 | A key the caller gives reads the caller's value; any other reads the template default |
| `PinpointSdk.MergeKeys` | src/PinpointSdk.ts:259-261 | The merged keys are the template's, then those only the caller gives, each once |
| `PinpointSdk.MergeNoDefaults` | src/PinpointSdk.ts:168-170 | Absent or empty template defaults leave exactly the caller's substitutions |
| `PinpointSdk.SmsRequestOf` | src/PinpointSdk.ts:227-277 | The `MessageRequest` of `sendSms`; no contract of its own, constrained by `SmsWithoutTemplate`, `SmsTemplateBody`, `SmsCallerWins`, `SmsSenders` and `SmsAddresses` |
| `PinpointSdk.SmsWithoutTemplate` | src/PinpointSdk.ts:227-263 | Without both a truthy template name and version, the template plays no part and the body is the caller's, `""` when absent |
| `PinpointSdk.SmsTemplateBody` | src/PinpointSdk.ts:251-262 | With a template name and version, for any template, the body sent is the template body (`""` when it has none) rendered with the template defaults overridden by the caller's substitutions, and the caller's `body` plays no part |
| `PinpointSdk.SmsTemplateUntouched` | src/PinpointSdk.ts:251-262 | Corollary: a template body with no placeholder of any merged key is sent as the template has it |
| `PinpointSdk.SmsCallerWins` | src/PinpointSdk.ts:259-262 | For any distinct-keyed template defaults and caller substitutions, a caller key overrides the template default of the same key: a body that is exactly `{{k}}` is sent as the caller's value for `k`, when no other key's placeholder occurs in `{{k}}` or in that value and the value has no `$` |
| `PinpointSdk.SmsSenders` | src/PinpointSdk.ts:230-231 | Origination number and sender id default to the configuration only when absent |
| `PinpointSdk.SmsAddresses` | src/PinpointSdk.ts:239-248 | Each destination number is addressed once, on the SMS channel |
| `PinpointSdk.EmailRequestOf` | src/PinpointSdk.ts:126-199 | The `MessageRequest` of `sendEmail`; no contract of its own, constrained by `EmailWithoutTemplate`, `EmailTemplateParts`, `EmailMessageFields` and `EmailAddresses` |
| `PinpointSdk.EmailWithoutTemplate` | src/PinpointSdk.ts:157-184 | Without both a truthy template name and version each email part is the caller's data, `""` when absent |
| `PinpointSdk.EmailTemplateParts` | src/PinpointSdk.ts:157-177 | With a template name and version, for any template, subject, text and HTML part are the template's (`""` when absent), each rendered with the same merged substitutions, and the caller's `simpleEmail` plays no part |
| `PinpointSdk.EmailTemplateUntouched` | src/PinpointSdk.ts:157-177 | Corollary: template parts with no placeholder of any merged key are sent as the template has them, absent ones as `""` |
| `PinpointSdk.EmailMessageFields` | src/PinpointSdk.ts:187-199 | An empty feedback address is dropped, the sender defaults to the configuration only when absent, body and reply-to pass through |
| `PinpointSdk.EmailAddresses` | src/PinpointSdk.ts:143-152 | Each recipient is addressed once, on the email channel |
| `PinpointSdk.OtpRequestOf` | src/PinpointSdk.ts:312-343 | The command input of `sendOTP`; no contract of its own, constrained by `OtpDefaults` and the round trip `OtpGivenWins` |
| `PinpointSdk.OtpDefaults` | src/PinpointSdk.ts:312-339 | Without attributes the tunables come from the configuration and the channel is `SMS` |
| `PinpointSdk.OtpGivenWins` | src/PinpointSdk.ts:312-339 | Given values are sent as given, even `0` and `""` |
| `PinpointSdk.OtpResult` | src/PinpointSdk.ts:348-351 | `results[0]` of `sendOTP`; no contract of its own, constrained by `OtpResultFirst` and `OtpResultNone` |
| `PinpointSdk.OtpResultFirst` | src/PinpointSdk.ts:348-351 | There is a result exactly when the response lists an address; it is the first address's, with channel type `""` |
| `PinpointSdk.OtpResultNone` | src/PinpointSdk.ts:348-351 | No response or no message response gives no result |
| `PinpointSdk.VerifyResult` | src/PinpointSdk.ts:378-379 | What `verifyOTP` returns or throws; no contract of its own, constrained by `VerifyThrows` and `VerifyValid` |
| `PinpointSdk.VerifyThrows` | src/PinpointSdk.ts:378 | Verification throws exactly when the response is missing or its `VerificationResponse` is `null` |
| `PinpointSdk.VerifyValid` | src/PinpointSdk.ts:378-379 | The answer is valid exactly when the provider says `Valid: true`; an absent verification response or `Valid` reads as `false` |
| `PinpointError.New` | src/PinpointError.ts:54-68 | The constructor; no contract of its own, constrained by `NewThrows`, `NewKeeps`, `NewMessage`, `NewStatusCode`, `NewErrorCode` and `NewAlwaysTruthy` |
| `PinpointError.NewThrows` | src/PinpointError.ts:54-60 | Construction throws exactly on an `undefined` or `null` error or a `null` `$metadata` |
| `PinpointError.NewKeeps` | src/PinpointError.ts:22-67 | Both flags are true, the service is recorded and the wrapped value is kept |
| `PinpointError.NewMessage` | src/PinpointError.ts:57-63 | The message is the map's when truthy, else the error's when truthy, else `Pinpoint Error` |
| `PinpointError.NewStatusCode` | src/PinpointError.ts:57-65 | The status is the map's when truthy, else `httpStatusCode` when truthy, else 500; an absent or 0 status gives 500 |
| `PinpointError.NewErrorCode` | src/PinpointError.ts:66 | The error code is the map's when truthy, else `Pinpoint::GENERIC`, never taken from the error |
| `PinpointError.NewAlwaysTruthy` | src/PinpointError.ts:63-66 | Message, status code and error code are never falsy |
| `PinpointError.ShippedMapsOnlyCode` | src/ERRORS.ts:4-26 | With any shipped map, message and status come from the error alone and the code is the map's |
| `PinpointError.ExampleSendEmailFailure` | src/PinpointError.ts:54-68 | A throttled email send with status 503 becomes `Throttled`, 503, `AwsPinpoint::SEND_EMAIL` |
| `LegacyPinpointError.Wrap` | src/PinpointError.mjs:2-23 | The constructor; no contract of its own, constrained by `WrapThrows`, `WrapIdempotent`, `WrapFlagged`, `WrapFields` and `WrapIdsAlwaysPresent` |
| `LegacyPinpointError.ToJson` | src/PinpointError.mjs:25-28 | `toJSON()`; no contract of its own, constrained by `ToJsonOfWrap` |
| `LegacyPinpointError.WrapThrows` | src/PinpointError.mjs:3-12 | Construction throws exactly on an `undefined` or `null` error or a `null` `$metadata` |
| `LegacyPinpointError.WrapIdempotent` | src/PinpointError.mjs:4-19 | A wrapped value is flagged, and wrapping it again returns it unchanged |
| `LegacyPinpointError.WrapFlagged` | src/PinpointError.mjs:14 | A value whose `_isPinpointError` is true is returned as it is |
| `LegacyPinpointError.WrapFields` | src/PinpointError.mjs:5-21 | The message is kept, `""` only when absent; the status is `httpStatusCode`, 500 when it or `$metadata` is absent |
| `LegacyPinpointError.WrapIdsAlwaysPresent` | src/PinpointError.mjs:16-22 | The ids object is always attached, even with no `$metadata` |
| `LegacyPinpointError.ToJsonOfWrap` | src/PinpointError.mjs:2-28 | `toJSON` of a wrapped thrown error gives its message (`""` when absent), `$metadata.httpStatusCode` (500 when it or `$metadata` is absent) and the three ids of `$metadata` (all undefined without it); a value already wrapped serialises as it is, and re-wrapping does not change the JSON |

## Left out

- Network calls and `async` control flow are not modelled: `client.send`, the command
  objects, `sendMessages`, `#_sendMessages`, `getEmailTemplate` and `getSmsTemplate`. A
  fetched template and a provider response are inputs, and a failed call's wrapping is the
  `PinpointError` model.
- `JSON.parse` of a template's `DefaultSubstitutions` is a call into the runtime. The
  decoded object is an input: `None` stands for `""`, an absent field or a falsy result.
  A parse error, which escapes unwrapped, is not modelled.
- `process.exit`, the `console` messages and reading `process.env` are not modelled. The
  environment is a map from the variables the loader reads, and a failure is the `Failure`
  the process would exit on.
- `SERVICE`, the `name@version` string from the npm variables, is a parameter of the
  error constructor.
- Object key order is the insertion order. JavaScript lists integer-like keys first, so
  an address or substitution key such as `"12"` is enumerated differently.
- Numbers are unbounded integers. A JavaScript number holds every integer only up to
  2^53: above it `parseInt` rounds what it reads (`"9007199254740993"` gives
  9007199254740992) and `toString` writes the rounded value's shortest form, so
  `JsNumber.ParseInt` and `JsNumber.IntToString` are exact only below 2^53 in magnitude.
  `NaN`, fractions, `-0` and the exponent notation `toString` uses from `1e21` are not
  modelled either.
- `JsNumber.ParseIntToString` and `Templatize.NumberText`: the round trip holds in
  JavaScript only for magnitudes below 2^53, because the model's integers are unbounded.
- Strings are sequences of characters, not of UTF-16 code units.
- A property present with the value `undefined` is modelled as absent. In the
  constructor's spread such a property would override the loaded value with `undefined`.
- Attributes that are passed through unchanged are not carried:
  - `rawEmail` of `sendEmail`;
  - the request of `verifyOTP` (destination, code, reference id).
- Attribute values of the wrong type are not modelled: a non-string message, or a
  primitive thrown instead of an object.
- The default parameters of `templatize` (`''` and `{}`) are not modelled. Every caller
  passes both arguments.
- The compiled and older copies of the facade, the loader and the renderer are not modelled
  (`dist/`, `src/PinpointSdk.mjs`, `src/CONFIG.mjs`, `src/helpers/templatize.js`). The
  earlier loader is only the reference for the corrected integer defaults below.
- `JsString.ReplaceAllSplit`: proved only for replacements without `$`. `$` patterns are
  modelled in full and shown by example (`Templatize.ExampleDollarPattern`).
- A value is a `replaceAll` replacement string, so `$&`, `$$`, `` $` `` and `$'` in it are
  expanded rather than inserted: the value `"$&"` renders `{{key}}` as `{{key}}`. The
  following lemmas are therefore proved only without `$`.
- `Templatize.RenderOneKey`: proved only when the value has no `$`.
- `Templatize.RenderLeading`: proved only when the value has no `$`.
- `Templatize.RenderOwnPlaceholder`: proved only when the key has no `$` (its placeholder is the value).
- `Templatize.WholePlaceholder`: proved only when the replacement has no `$`.
- `Templatize.RenderPlaceholderOf`: proved only when the value has no `$`.
- `Templatize.RenderChain`: proved only when neither the key `b` nor its value has a `$`.
- `Templatize.RenderChainTooLate`: proved only when the key `b` has no `$` (its placeholder is a value).
- `JsString.ReplaceFromSplit`: proved only when the replacement has no `$`.
- `PinpointSdk.SmsCallerWins`: proved only when the caller's value has no `$`.

## Findings

| source | as written | input that shows it | evidently intended | confidence | as-written member | corrected member |
|---|---|---|---|---|---|---|
| src/CONFIG.ts:21-23 | An unset integer variable defaults to `""`. `parseInt("")` is NaN, so loading fails, and the fallbacks to `DEFAULT_CONFIG` of lines 104-111 are reached only for a parsed 0. | An environment without the three `PINPOINT_OTP_*` integer variables | An unset setting takes its default 3, 6 or 5, as the earlier loader's `'3'`, `'6'`, `'5'` destructuring defaults gave (src/CONFIG.mjs:15-17) | medium, not executed | `Config.LoadEmptyEnv` | `Config.LoadIntendedEmptyEnv` |
