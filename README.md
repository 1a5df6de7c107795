# Image verification-code filter — Dafny model

This project models `ValidateCodeFilter`, the servlet filter in the v-security core that guards
the form-login endpoint with an image verification code (a CAPTCHA):

- **Initialisation** (`afterPropertiesSet`) builds the set of intercepted URL patterns. It holds
  every configured pattern plus the fixed login-processing URL `/authentication/form`.
- **Interception** (`doFilterInternal`) scans the pattern set with the Ant path matcher. It stops
  at the first pattern that matches the request URI.
- **Validation** (`validate`) checks the session entry stored under
  `SESSION_KEY_PREFIX + "IMAGE"`. The checks run in this order:
  1. A blank submitted `imageCode` is refused (`Empty`).
  2. A missing stored code is refused (`NotFound`).
  3. An expired stored code is removed, then refused (`Expired`).
  4. A stored code with a different value is refused (`Mismatch`) and kept.
  5. Otherwise the code is consumed (removed) and the request passes.
- **Dispatch**: a refusal goes to the authentication-failure handler exactly once and the request
  stops there. Every other request is forwarded to the filter chain exactly once.

Layout:

- `validate_code_filter.dfy`, module `ValidateCode`, holds the model:
  - the data types;
  - the string helpers (`isBlank`, null-safe `equals`);
  - the specification function `Validation`;
  - the session store as the class `SessionStore`;
  - the filter as the class `ValidateCodeFilter`. Its `urls` set and its ghost `trace` of
    hand-offs are updated in place.
- `validate_code_lemmas.dfy`, module `ValidateCodeLemmas`, holds properties of one validation
  and of runs of several:
  - the outcome of one validation and what it leaves in the session;
  - single use of a code;
  - unlimited mismatch retries;
  - independence from the set's iteration order;
  - two filter-level walk-throughs.

Parameters and abstractions:

- **Path matcher.** The Ant path matcher is the filter's constant `pathMatcher`, an arbitrary
  total function `(pattern, uri) -> bool`. Nothing about glob syntax is assumed.
- **Expiry.** The code's own expiry test is the field `StoredCode.expired`. It holds the value
  that test gives at the moment of the request.
- **Key prefix.** `SESSION_KEY_PREFIX` is defined in `ValidateCodeProcessor`, which is not part
  of this model. The filter takes the prefix as a constructor parameter.
- **Submitted parameter.** The request parameter is an `Option<string>`. `None` is an absent
  (null) parameter.
- **Failure handler and chain.** Calls to these are recorded as the ghost events
  `HandlerInvoked(kind)` and `ChainInvoked`.
- **Key access.** The session store keeps a ghost set `touched` of the keys read or removed.

Behaviour of the filter worth knowing:

- **Pattern order.** The filter keeps an unordered `HashSet` of patterns and one boolean, so
  which pattern matched is never observed. The model proves that every iteration order gives
  the same answer (`ScanOrderIndependent`).
- **Removal on mismatch.** A mismatch leaves the stored code in place, although single use would
  suggest removing it on every outcome. Only expiry and success remove it.
  `MismatchRetriesUnbounded` proves the consequence: any number of wrong guesses leaves a live
  code in place.
- **Store access.** The session attribute is read before the blank check. So an intercepted
  request with a blank code still reads the key, although it changes nothing. A request that is
  not intercepted does not touch the store at all.
- **Time between requests.** In runs of several submissions (`Attempts`), the stored code's
  expiry flag may change before each request, as the clock moves on.

## Model

| member | source | states |
|---|---|---|
| `ValidateCode.ValidateCodeFilter.constructor` | v-security-core/src/main/java/cn/vshop/security/core/validate/code/ValidateCodeFilter.java:46-61 | a new filter has an empty URL set, an empty hand-off trace, and the given matcher and key prefix |
| `ValidateCode.ValidateCodeFilter.AfterPropertiesSet` | v-security-core/src/main/java/cn/vshop/security/core/validate/code/ValidateCodeFilter.java:63-71 | the loop adds to `urls` exactly the configured URLs plus the login URL, and nothing else |
| `ValidateCode.ConfiguredUrls` | v-security-core/src/main/java/cn/vshop/security/core/validate/code/ValidateCodeFilter.java:64-71 | a URL is in the initialised set iff it is configured or is `/authentication/form`; the login URL is always in it |
| `ValidateCodeLemmas.InitialisedFilter` | v-security-core/src/main/java/cn/vshop/security/core/validate/code/ValidateCodeFilter.java:64-71 | construction followed by initialisation yields exactly the configured set plus the login URL, an empty trace, and the given matcher and key prefix |
| `ValidateCode.ValidateCodeFilter.IsIntercepted` | v-security-core/src/main/java/cn/vshop/security/core/validate/code/ValidateCodeFilter.java:77-84 | the early-exit scan over the set, in any order, returns true iff some pattern in `urls` matches the URI |
| `ValidateCodeLemmas.ScanFindsMatch` | v-security-core/src/main/java/cn/vshop/security/core/validate/code/ValidateCodeFilter.java:79-84 | a scan with `break` over one iteration order finds a match iff some element of that order matches |
| `ValidateCodeLemmas.ScanOrderIndependent` | v-security-core/src/main/java/cn/vshop/security/core/validate/code/ValidateCodeFilter.java:77-84 | every iteration order of the URL set gives the same interception flag: whether some pattern matches |
| `ValidateCode.ValidateCodeFilter.DoFilterInternal` | v-security-core/src/main/java/cn/vshop/security/core/validate/code/ValidateCodeFilter.java:73-101 | a request that is not intercepted passes, leaves the store unchanged and unread, and runs the chain once; an intercepted one gets the validation outcome and store; each request adds exactly one hand-off: the failure handler with the reject kind on a refusal, or the chain on a pass |
| `ValidateCode.ValidateCodeFilter.Validate` | v-security-core/src/main/java/cn/vshop/security/core/validate/code/ValidateCodeFilter.java:108-130 | the returned outcome and the new session contents are those of `Validation` on the old contents under the image key; only that key is read or removed |
| `ValidateCode.Validation` | v-security-core/src/main/java/cn/vshop/security/core/validate/code/ValidateCodeFilter.java:108-130 | each outcome holds iff its condition holds: Empty iff the submission is blank; NotFound iff it is non-blank and no code is stored; Expired iff a stored code is expired; Mismatch iff a live code differs; Pass iff a live code equals the submission. The key is removed exactly on Pass and Expired, and no other entry changes |
| `ValidateCode.IsBlank` | v-security-core/src/main/java/cn/vshop/security/core/validate/code/ValidateCodeFilter.java:114 | blank iff absent, or every character is Java whitespace (so the empty string is blank) |
| `ValidateCode.AllWhitespace` | v-security-core/src/main/java/cn/vshop/security/core/validate/code/ValidateCodeFilter.java:114 | the left-to-right early-exit scan returns true iff every character is Java whitespace |
| `ValidateCode.NullSafeEquals` | v-security-core/src/main/java/cn/vshop/security/core/validate/code/ValidateCodeFilter.java:126 | two absent values are equal; an absent value equals no string; two strings are equal iff they are the same |
| `ValidateCode.SessionStore.GetAttribute` | v-security-core/src/main/java/cn/vshop/security/core/validate/code/ValidateCodeFilter.java:111 | returns the stored code iff the key is present, changes no attribute, and records the key as touched |
| `ValidateCode.SessionStore.RemoveAttribute` | v-security-core/src/main/java/cn/vshop/security/core/validate/code/ValidateCodeFilter.java:122 | the key is absent afterwards, every other attribute is unchanged, and the key is recorded as touched |
| `ValidateCode.SessionKey` | v-security-core/src/main/java/cn/vshop/security/core/validate/code/ValidateCodeFilter.java:136-138 | the key is the prefix followed by the kind name, whose length is the sum of their lengths |
| `ValidateCode.ValidateCodeFilter.CodeSessionKey` | v-security-core/src/main/java/cn/vshop/security/core/validate/code/ValidateCodeFilter.java:136-138 | the image key is the filter's prefix followed by `IMAGE`, and differs from the key of every other kind under the same prefix |
| `ValidateCodeLemmas.SessionKeysDistinct` | v-security-core/src/main/java/cn/vshop/security/core/validate/code/ValidateCodeFilter.java:136-138 | codes of different kinds under the same prefix never share a session key |
| `ValidateCodeLemmas.BlankIgnoresSession` | v-security-core/src/main/java/cn/vshop/security/core/validate/code/ValidateCodeFilter.java:111-116 | a blank submission is refused as Empty and the session is unchanged, whatever it holds |
| `ValidateCodeLemmas.OtherKeysUnchanged` | v-security-core/src/main/java/cn/vshop/security/core/validate/code/ValidateCodeFilter.java:111-129 | validation leaves every key other than the image key present or absent as before, with the same value |
| `ValidateCodeLemmas.PassIsSingleUse` | v-security-core/src/main/java/cn/vshop/security/core/validate/code/ValidateCodeFilter.java:117-129 | after a pass, resubmitting the same value is refused as NotFound |
| `ValidateCodeLemmas.ExpiredLeavesNoCode` | v-security-core/src/main/java/cn/vshop/security/core/validate/code/ValidateCodeFilter.java:117-125 | after an Expired refusal the key is gone, and any non-blank retry is refused as NotFound |
| `ValidateCodeLemmas.MismatchKeepsCode` | v-security-core/src/main/java/cn/vshop/security/core/validate/code/ValidateCodeFilter.java:126-128 | a mismatch leaves the session unchanged, so the stored value, if not blank, still passes afterwards |
| `ValidateCodeLemmas.BlankCodeNeverPasses` | v-security-core/src/main/java/cn/vshop/security/core/validate/code/ValidateCodeFilter.java:114-129 | a stored code whose value is blank can never pass, because its only match is refused as Empty |
| `ValidateCodeLemmas.NoCodeNoPass` | v-security-core/src/main/java/cn/vshop/security/core/validate/code/ValidateCodeFilter.java:117-119 | with no code stored, no sequence of submissions ever passes and none stores a code, whatever the expiry flag does between requests |
| `ValidateCodeLemmas.AtMostOnePass` | v-security-core/src/main/java/cn/vshop/security/core/validate/code/ValidateCodeFilter.java:117-129 | in any sequence of submissions with no new code issued, at most one passes, whenever the code expires between requests |
| `ValidateCodeLemmas.MismatchRetriesUnbounded` | v-security-core/src/main/java/cn/vshop/security/core/validate/code/ValidateCodeFilter.java:126-128 | any number of wrong non-blank submissions against a code that stays live are all refused as Mismatch, and the session is unchanged |
| `ValidateCodeLemmas.PassThenReplay` | v-security-core/src/main/java/cn/vshop/security/core/validate/code/ValidateCodeFilter.java:87-100 | on an intercepted URI with a live matching code, the first request passes and runs the chain; the replay is refused as NotFound and goes to the failure handler |
| `ValidateCodeLemmas.ConcreteScenarios` | v-security-core/src/main/java/cn/vshop/security/core/validate/code/ValidateCodeFilter.java:114-129 | worked values: a live "7f3k" passes and empties the session, then is NotFound; an expired "1234" is refused and removed; "" is Empty even with nothing stored; "" and " \t" are blank and "x " is not |

## Left out

- The Ant path-matching algorithm is a library routine. It is the opaque parameter `pathMatcher`, so no property of glob syntax is modelled.
- The clock and the code's expiry time are not modelled. Expiry is the flag the code's own expiry test would return at the request.
- The value of `SESSION_KEY_PREFIX` is not modelled: `ValidateCodeProcessor` is not part of this model, so the prefix is a constructor parameter.
- `ImageCode` is not part of this model. Its value is a non-null string, so a stored code with a null value is not modelled. The session holds only image codes, so the cast failure for an attribute of another type is also not modelled.
- Servlet plumbing is reduced to the URI, the submitted parameter and a trace of hand-offs. The request and response objects, the `ServletWebRequest` wrapper and the HTTP response the failure handler writes are not modelled.
- The exception messages handed to the failure handler are reduced to the reject kind.
- Exceptions other than the validation exception are not modelled: `ServletRequestBindingException`, `IOException` and `ServletException` from the chain or the handler. Null-pointer failures are not modelled either: an unset failure handler, or unset security properties.
- `super.afterPropertiesSet()` and the once-per-request guard of the base filter class are framework behaviour, so they are not modelled.
- `IsBlank` follows Java's `Character.isWhitespace` on current Unicode data. Java versions whose Unicode tables still count U+180E as a space separator are not modelled.
- Code generation, image rendering, the email sender and the default-bean registration live in other files with no filter logic (`ValidateCodeBeanConfig.java`, `DemoImageCodeGenerator.java`), so they are not modelled.
- Concurrent requests on the same session are not modelled: each validation is one atomic step on the store.
- The unused static import of `getSessionKey` is not modelled.
