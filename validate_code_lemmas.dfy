/**
 * Properties of the verification-code gate: of one validation, of runs of several
 * validations, of the iteration order of the URL set, and of the filter's life cycle.
 */
module ValidateCodeLemmas {
  import opened ValidateCode

  // ---------------------------------------------------------------------------
  // One validation

  /** A blank submission is refused as empty whatever the session holds, and nothing is removed. */
  lemma BlankIgnoresSession(session: map<string, StoredCode>, key: string, submitted: Option<string>)
    requires IsBlank(submitted)
    ensures Validation(session, key, submitted) == Verdict(Reject(Empty), session)
  {
  }

  /** Validation reads and removes only `key`: every other entry stays as it was. */
  lemma OtherKeysUnchanged(session: map<string, StoredCode>, key: string, submitted: Option<string>, other: string)
    requires other != key
    ensures other in Validation(session, key, submitted).session <==> other in session
    ensures other in session ==> Validation(session, key, submitted).session[other] == session[other]
  {
  }

  /** After a pass the code is gone: resubmitting the same value finds nothing. */
  lemma PassIsSingleUse(session: map<string, StoredCode>, key: string, submitted: Option<string>)
    requires Validation(session, key, submitted).outcome == Pass
    ensures Validation(Validation(session, key, submitted).session, key, submitted).outcome == Reject(NotFound)
  {
  }

  /** After expiry the code is gone, so any non-blank retry finds nothing. */
  lemma ExpiredLeavesNoCode(session: map<string, StoredCode>, key: string, submitted: Option<string>, retry: Option<string>)
    requires Validation(session, key, submitted).outcome == Reject(Expired)
    requires !IsBlank(retry)
    ensures key !in Validation(session, key, submitted).session
    ensures Validation(Validation(session, key, submitted).session, key, retry).outcome == Reject(NotFound)
  {
  }

  /** A mismatch keeps the code, so the right value (when it is not blank) still passes afterwards. */
  lemma MismatchKeepsCode(session: map<string, StoredCode>, key: string, submitted: Option<string>)
    requires Validation(session, key, submitted).outcome == Reject(Mismatch)
    requires !IsBlank(Some(session[key].value))
    ensures Validation(session, key, submitted).session == session
    ensures Validation(session, key, Some(session[key].value)).outcome == Pass
  {
  }

  /** A stored code whose value is blank can never pass: its only match is refused as empty. */
  lemma BlankCodeNeverPasses(session: map<string, StoredCode>, key: string, submitted: Option<string>)
    requires key in session && IsBlank(Some(session[key].value))
    ensures Validation(session, key, submitted).outcome != Pass
  {
  }

  // ---------------------------------------------------------------------------
  // A sequence of submissions within one session, with no new code issued in between.
  // Time may pass between requests: before attempt i the stored code's expiry flag
  // becomes exp[i], whatever it was.

  datatype Run = Run(outcomes: seq<Outcome>, session: map<string, StoredCode>)

  /** The session as the next request sees it: the stored code, if any, with its expiry flag now `expired`. */
  function Aged(session: map<string, StoredCode>, key: string, expired: bool): (s: map<string, StoredCode>)
    ensures s.Keys == session.Keys
    ensures key in s ==> s[key] == session[key].(expired := expired)
    ensures forall k :: k in s && k != key ==> s[k] == session[k]
  {
    if key in session then session[key := session[key].(expired := expired)] else session
  }

  function Attempts(session: map<string, StoredCode>, key: string, subs: seq<Option<string>>, exp: seq<bool>): (r: Run)
    requires |exp| == |subs|
    ensures |r.outcomes| == |subs|
  {
    if subs == [] then Run([], session)
    else
      var v := Validation(Aged(session, key, exp[0]), key, subs[0]);
      var rest := Attempts(v.session, key, subs[1..], exp[1..]);
      Run([v.outcome] + rest.outcomes, rest.session)
  }

  function CountPass(outcomes: seq<Outcome>): nat
  {
    if outcomes == [] then 0
    else (if outcomes[0] == Pass then 1 else 0) + CountPass(outcomes[1..])
  }

  /** With no code stored, no submission ever passes, however expiry evolves. */
  lemma {:induction false} NoCodeNoPass(session: map<string, StoredCode>, key: string, subs: seq<Option<string>>, exp: seq<bool>)
    requires key !in session
    requires |exp| == |subs|
    ensures CountPass(Attempts(session, key, subs, exp).outcomes) == 0
    ensures key !in Attempts(session, key, subs, exp).session
  {
    if subs != [] {
      var v := Validation(Aged(session, key, exp[0]), key, subs[0]);
      NoCodeNoPass(v.session, key, subs[1..], exp[1..]);
    }
  }

  /** A stored code passes at most once, however many submissions follow and however expiry evolves. */
  lemma {:induction false} AtMostOnePass(session: map<string, StoredCode>, key: string, subs: seq<Option<string>>, exp: seq<bool>)
    requires |exp| == |subs|
    ensures CountPass(Attempts(session, key, subs, exp).outcomes) <= 1
  {
    if subs != [] {
      var v := Validation(Aged(session, key, exp[0]), key, subs[0]);
      if v.outcome == Pass {
        NoCodeNoPass(v.session, key, subs[1..], exp[1..]);
      } else {
        AtMostOnePass(v.session, key, subs[1..], exp[1..]);
      }
    }
  }

  /**
   * A code that stays live survives any number of wrong, non-blank submissions:
   * every one is refused as a mismatch and the session is left exactly as it was.
   */
  lemma {:induction false} MismatchRetriesUnbounded(session: map<string, StoredCode>, key: string, subs: seq<Option<string>>, exp: seq<bool>)
    requires key in session && !session[key].expired
    requires |exp| == |subs| && forall i :: 0 <= i < |exp| ==> !exp[i]
    requires forall i :: 0 <= i < |subs| ==> !IsBlank(subs[i]) && subs[i] != Some(session[key].value)
    ensures forall i :: 0 <= i < |subs| ==> Attempts(session, key, subs, exp).outcomes[i] == Reject(Mismatch)
    ensures Attempts(session, key, subs, exp).session == session
  {
    if subs != [] {
      assert Aged(session, key, exp[0]) == session;
      MismatchRetriesUnbounded(session, key, subs[1..], exp[1..]);
    }
  }

  // ---------------------------------------------------------------------------
  // Interception does not depend on the iteration order of the URL set

  /** The scan with early exit, over one particular iteration order. */
  function ScanInOrder(order: seq<string>, matcher: (string, string) -> bool, uri: string): bool
  {
    if order == [] then false
    else if matcher(order[0], uri) then true
    else ScanInOrder(order[1..], matcher, uri)
  }

  lemma {:induction false} ScanFindsMatch(order: seq<string>, matcher: (string, string) -> bool, uri: string)
    ensures ScanInOrder(order, matcher, uri) <==> exists i :: 0 <= i < |order| && matcher(order[i], uri)
  {
    if order != [] {
      ScanFindsMatch(order[1..], matcher, uri);
      if !matcher(order[0], uri) && exists i :: 0 <= i < |order| && matcher(order[i], uri) {
        var i :| 0 <= i < |order| && matcher(order[i], uri);
        assert order[1..][i - 1] == order[i];
      }
    }
  }

  /**
   * Whatever order the set is traversed in, the scan answers whether some pattern
   * matches. This is the fact `IsIntercepted` proves with its arbitrary choice of
   * element, restated over an explicit iteration sequence.
   */
  lemma ScanOrderIndependent(order: seq<string>, urls: set<string>, matcher: (string, string) -> bool, uri: string)
    requires forall u :: u in urls <==> u in order
    ensures ScanInOrder(order, matcher, uri) == Intercepts(urls, matcher, uri)
  {
    ScanFindsMatch(order, matcher, uri);
    if Intercepts(urls, matcher, uri) {
      var u :| u in urls && matcher(u, uri);
      var i :| 0 <= i < |order| && order[i] == u;
    }
  }

  // ---------------------------------------------------------------------------
  // Session keys

  /** Codes of different kinds live under different keys. */
  lemma SessionKeysDistinct(prefix: string, kind1: string, kind2: string)
    requires kind1 != kind2
    ensures SessionKey(prefix, kind1) != SessionKey(prefix, kind2)
  {
  }

  // ---------------------------------------------------------------------------
  // The filter's life cycle

  /** A filter built and initialised from `configUrls` intercepts exactly those URLs and the login URL. */
  method InitialisedFilter(pathMatcher: (string, string) -> bool, prefix: string, configUrls: seq<string>)
    returns (f: ValidateCodeFilter)
    ensures fresh(f)
    ensures f.urls == ConfiguredUrls(configUrls) && f.trace == []
    ensures f.pathMatcher == pathMatcher && f.sessionKeyPrefix == prefix
  {
    f := new ValidateCodeFilter(pathMatcher, prefix);
    f.AfterPropertiesSet(configUrls);
  }

  /** Pass then resubmit on the same filter: the chain runs once, then the failure handler once. */
  method PassThenReplay(f: ValidateCodeFilter, store: SessionStore, uri: string, submitted: Option<string>)
    returns (first: Outcome, second: Outcome)
    requires Intercepts(f.urls, f.pathMatcher, uri)
    requires f.CodeSessionKey() in store.attributes
    requires !store.attributes[f.CodeSessionKey()].expired
    requires submitted == Some(store.attributes[f.CodeSessionKey()].value) && !IsBlank(submitted)
    modifies f`trace, store
    ensures first == Pass && second == Reject(NotFound)
    ensures f.trace == old(f.trace) + [ChainInvoked, HandlerInvoked(NotFound)]
    ensures f.CodeSessionKey() !in store.attributes
  {
    first := f.DoFilterInternal(store, uri, submitted);
    second := f.DoFilterInternal(store, uri, submitted);
  }

  // ---------------------------------------------------------------------------
  // Concrete walk-throughs

  /** A live code "7f3k" passes once and is then not found; an expired "1234" is refused and removed. */
  lemma ConcreteScenarios(key: string)
    ensures var s := map[key := StoredCode("7f3k", false)];
      Validation(s, key, Some("7f3k")) == Verdict(Pass, map[])
      && Validation(map[], key, Some("7f3k")).outcome == Reject(NotFound)
    ensures var s := map[key := StoredCode("1234", true)];
      Validation(s, key, Some("1234")) == Verdict(Reject(Expired), map[])
    ensures Validation(map[], key, Some("")).outcome == Reject(Empty)
    ensures IsBlank(Some("")) && IsBlank(Some(" \t")) && !IsBlank(Some("x "))
  {
  }
}
