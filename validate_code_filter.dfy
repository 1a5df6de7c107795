/**
 * The image verification-code gate of the security core: a servlet filter that
 * decides whether a request is intercepted (its URI matches one of a set of
 * Ant-style patterns) and, if so, checks the submitted `imageCode` parameter
 * against the code stored in the caller's session.
 */
module ValidateCode {

  datatype Option<T> = None | Some(value: T)

  /** The login-processing URL that is always intercepted. */
  const LoginProcessingUrl: string := "/authentication/form"

  /** The kind suffix of the session key under which image codes are stored. */
  const ImageKind: string := "IMAGE"

  /**
   * A code as it sits in the session. `expired` is what the code's own
   * expiry test answers at the moment of the request (the clock is not modelled).
   */
  datatype StoredCode = StoredCode(value: string, expired: bool)

  /** Why a submission was refused; one per message of the validation exception. */
  datatype RejectKind = Empty | NotFound | Expired | Mismatch

  datatype Outcome = Pass | Reject(kind: RejectKind)

  /** What the filter handed the request to: the failure handler or the rest of the chain. */
  datatype Event = HandlerInvoked(error: RejectKind) | ChainInvoked

  /** The outcome of one validation together with the session contents afterwards. */
  datatype Verdict = Verdict(outcome: Outcome, session: map<string, StoredCode>)

  // ---------------------------------------------------------------------------
  // String utilities used by the filter

  /** The characters Java's `Character.isWhitespace` accepts. */
  predicate IsJavaWhitespace(c: char)
  {
    || c == ' ' || ('\t' <= c <= '\r') || ('\U{1C}' <= c <= '\U{1F}')
    || c == '\U{1680}' || ('\U{2000}' <= c <= '\U{2006}') || ('\U{2008}' <= c <= '\U{200A}')
    || c == '\U{2028}' || c == '\U{2029}' || c == '\U{205F}' || c == '\U{3000}'
  }

  /** Scans the string left to right and stops at the first non-whitespace character. */
  function AllWhitespace(s: string): (b: bool)
    ensures b <==> forall i :: 0 <= i < |s| ==> IsJavaWhitespace(s[i])
  {
    if s == [] then true
    else if !IsJavaWhitespace(s[0]) then false
    else
      assert forall i :: 1 <= i < |s| ==> s[i] == s[1..][i - 1];
      AllWhitespace(s[1..])
  }

  /** Blank: null, empty, or only whitespace. */
  function IsBlank(s: Option<string>): (b: bool)
    ensures b <==> s.None? || forall i :: 0 <= i < |s.value| ==> IsJavaWhitespace(s.value[i])
  {
    s.None? || AllWhitespace(s.value)
  }

  /** Null-safe string equality: two nulls are equal, a null equals no string. */
  function NullSafeEquals(a: Option<string>, b: Option<string>): (r: bool)
    ensures r <==> (a.None? && b.None?) || (a.Some? && b.Some? && a.value == b.value)
  {
    a == b
  }

  // ---------------------------------------------------------------------------
  // Session keys

  /** The session key for codes of one kind: the shared prefix followed by the kind. */
  function SessionKey(prefix: string, kind: string): (k: string)
    ensures |k| == |prefix| + |kind|
    ensures k[..|prefix|] == prefix && k[|prefix|..] == kind
  {
    prefix + kind
  }

  // ---------------------------------------------------------------------------
  // Specification functions

  /** The URL set the filter intercepts once initialised: the configured ones and the login URL. */
  function ConfiguredUrls(configUrls: seq<string>): (r: set<string>)
    ensures LoginProcessingUrl in r
    ensures forall u :: u in r <==> u in configUrls || u == LoginProcessingUrl
  {
    (set u | u in configUrls) + {LoginProcessingUrl}
  }

  /** A request is intercepted when some pattern of the set matches its URI. */
  ghost predicate Intercepts(urls: set<string>, matcher: (string, string) -> bool, uri: string)
  {
    exists u :: u in urls && matcher(u, uri)
  }

  /**
   * One validation against the session contents `session`, reading and removing
   * only `key`. The checks come in the order `validate` makes them: blank
   * submission, missing code, expired code (removed), differing value (kept),
   * match (removed).
   */
  function Validation(session: map<string, StoredCode>, key: string, submitted: Option<string>): (r: Verdict)
    ensures r.outcome == Reject(Empty) <==> IsBlank(submitted)
    ensures r.outcome == Reject(NotFound) <==> !IsBlank(submitted) && key !in session
    ensures r.outcome == Reject(Expired) <==>
      !IsBlank(submitted) && key in session && session[key].expired
    ensures r.outcome == Reject(Mismatch) <==>
      !IsBlank(submitted) && key in session && !session[key].expired && submitted != Some(session[key].value)
    ensures r.outcome == Pass <==>
      !IsBlank(submitted) && key in session && !session[key].expired && submitted == Some(session[key].value)
    // the stored code is consumed exactly on a pass or on expiry; nothing else changes
    ensures r.outcome in {Pass, Reject(Expired)} ==> key in session && r.session == map k | k in session && k != key :: session[k]
    ensures r.outcome !in {Pass, Reject(Expired)} ==> r.session == session
  {
    if IsBlank(submitted) then Verdict(Reject(Empty), session)
    else if key !in session then Verdict(Reject(NotFound), session)
    else if session[key].expired then Verdict(Reject(Expired), session - {key})
    else if !NullSafeEquals(Some(session[key].value), submitted) then Verdict(Reject(Mismatch), session)
    else Verdict(Pass, session - {key})
  }

  // ---------------------------------------------------------------------------
  // The session, as seen through the session strategy

  class SessionStore {
    /** The session attributes. */
    var attributes: map<string, StoredCode>
    /** Every key that has been read or removed so far. */
    ghost var touched: set<string>

    constructor (initial: map<string, StoredCode>)
      ensures attributes == initial && touched == {}
    {
      attributes := initial;
      touched := {};
    }

    method GetAttribute(key: string) returns (c: Option<StoredCode>)
      modifies this`touched
      ensures c.Some? <==> key in attributes
      ensures c.Some? ==> c.value == attributes[key]
      ensures touched == old(touched) + {key}
    {
      touched := touched + {key};
      if key in attributes {
        c := Some(attributes[key]);
      } else {
        c := None;
      }
    }

    method RemoveAttribute(key: string)
      modifies this
      ensures key !in attributes
      ensures forall k :: k in old(attributes) && k != key ==> k in attributes && attributes[k] == old(attributes)[k]
      ensures attributes.Keys == old(attributes).Keys - {key}
      ensures touched == old(touched) + {key}
    {
      attributes := attributes - {key};
      touched := touched + {key};
    }
  }

  // ---------------------------------------------------------------------------
  // The filter

  class ValidateCodeFilter {
    /** The URL patterns to intercept. */
    var urls: set<string>
    /** The Ant-style path matcher: does pattern `p` match URI `u`? */
    const pathMatcher: (string, string) -> bool
    /** The prefix shared by all session keys of verification codes. */
    const sessionKeyPrefix: string
    /** Every hand-off so far, to the failure handler or to the rest of the chain. */
    ghost var trace: seq<Event>

    constructor (pathMatcher: (string, string) -> bool, sessionKeyPrefix: string)
      ensures urls == {} && trace == []
      ensures this.pathMatcher == pathMatcher && this.sessionKeyPrefix == sessionKeyPrefix
    {
      urls := {};
      this.pathMatcher := pathMatcher;
      this.sessionKeyPrefix := sessionKeyPrefix;
      trace := [];
    }

    /** The key of the image code in the session, distinct from the key of every other kind. */
    function CodeSessionKey(): (k: string)
      ensures |k| == |sessionKeyPrefix| + |ImageKind|
      ensures k[..|sessionKeyPrefix|] == sessionKeyPrefix && k[|sessionKeyPrefix|..] == ImageKind
      ensures forall kind :: kind != ImageKind ==> k != SessionKey(sessionKeyPrefix, kind)
    {
      SessionKey(sessionKeyPrefix, ImageKind)
    }

    /** Adds every configured URL pattern, then the login URL. */
    method AfterPropertiesSet(configUrls: seq<string>)
      modifies this`urls
      ensures urls == old(urls) + ConfiguredUrls(configUrls)
    {
      var i := 0;
      while i < |configUrls|
        invariant 0 <= i <= |configUrls|
        invariant urls == old(urls) + set j | 0 <= j < i :: configUrls[j]
      {
        urls := urls + {configUrls[i]};
        i := i + 1;
      }
      urls := urls + {LoginProcessingUrl};
    }

    /**
     * The interception scan: tries the patterns one by one, in whatever order
     * the set yields them, and stops at the first that matches.
     */
    method IsIntercepted(uri: string) returns (action: bool)
      ensures action == Intercepts(urls, pathMatcher, uri)
    {
      action := false;
      ghost var hit := "";
      var rest := urls;
      while rest != {}
        invariant rest <= urls
        invariant forall u :: u in urls - rest ==> !pathMatcher(u, uri)
        decreases rest
      {
        var url :| url in rest;
        if pathMatcher(url, uri) {
          action := true;
          hit := url;
          break;
        }
        rest := rest - {url};
      }
      if action {
        assert hit in urls && pathMatcher(hit, uri);
      }
    }

    /** Checks the submitted code against the one stored in the session. */
    method Validate(store: SessionStore, codeInRequest: Option<string>) returns (outcome: Outcome)
      modifies store
      ensures Verdict(outcome, store.attributes) == Validation(old(store.attributes), CodeSessionKey(), codeInRequest)
      ensures store.touched == old(store.touched) + {CodeSessionKey()}
    {
      var key := CodeSessionKey();
      var codeInSession := store.GetAttribute(key);
      if IsBlank(codeInRequest) {
        return Reject(Empty);
      }
      if codeInSession.None? {
        return Reject(NotFound);
      }
      if codeInSession.value.expired {
        store.RemoveAttribute(key);
        return Reject(Expired);
      }
      if !NullSafeEquals(Some(codeInSession.value.value), codeInRequest) {
        return Reject(Mismatch);
      }
      store.RemoveAttribute(key);
      assert store.attributes == old(store.attributes) - {key};
      outcome := Pass;
    }

    /**
     * One request: intercept or not; if intercepted, validate; on rejection hand
     * the error to the failure handler and stop, otherwise continue the chain.
     */
    method DoFilterInternal(store: SessionStore, uri: string, codeInRequest: Option<string>) returns (outcome: Outcome)
      modifies this`trace, store
      ensures outcome == if Intercepts(urls, pathMatcher, uri)
        then Validation(old(store.attributes), CodeSessionKey(), codeInRequest).outcome
        else Pass
      ensures store.attributes == if Intercepts(urls, pathMatcher, uri)
        then Validation(old(store.attributes), CodeSessionKey(), codeInRequest).session
        else old(store.attributes)
      ensures store.touched == if Intercepts(urls, pathMatcher, uri)
        then old(store.touched) + {CodeSessionKey()}
        else old(store.touched)
      ensures trace == old(trace) + [if outcome.Reject? then HandlerInvoked(outcome.kind) else ChainInvoked]
    {
      var action := IsIntercepted(uri);
      if action {
        var result := Validate(store, codeInRequest);
        if result.Reject? {
          trace := trace + [HandlerInvoked(result.kind)];
          return result;
        }
      }
      trace := trace + [ChainInvoked];
      outcome := Pass;
    }
  }
}
