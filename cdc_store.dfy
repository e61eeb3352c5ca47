/**
  The association store of the service: an in-memory dictionary from a
  two-part key (QR identifier, trimmed session token) to a trimmed credential
  (`cdc_id`), written by the store handler and read by the lookup handler.

  `Save` and `Lookup` are the handlers as functions of the dictionary; the
  class `AssociationStore` holds the dictionary as a field that its methods
  update in place, and each method is proved to agree with its function.
*/
module CdcStore {
  import opened Wrappers
  import opened PyStr

  /** A dictionary key: the identifier and the trimmed session token. */
  type Key = (int, string)

  /** An HTTP error raised by a handler. */
  datatype ApiError = HttpError(statusCode: int, detail: string)

  const EmptyCdcError := HttpError(400, "cdc_id no puede estar vac\U{ED}o")
  const EmptySessionError := HttpError(400, "session_id no puede estar vac\U{ED}o")

  /** The JSON body of a successful store call. */
  datatype SaveResponse = SaveResponse(status: string, message: string, qrId: int, sessionId: string)

  /** The JSON body of a lookup; `cdcId == None` is JSON `null`. */
  datatype VerifyResponse = VerifyResponse(cdcId: Option<string>, found: bool, qrId: int)

  /** What a store call returns, together with the dictionary after it. */
  datatype SaveOutcome = SaveOutcome(result: Result<SaveResponse, ApiError>, storage: map<Key, string>)

  /** The confirmation text; it quotes the credential as received, untrimmed,
      between a fixed opening and a fixed closing text. */
  function Message(cdcId: string): (msg: string)
    ensures |msg| == |cdcId| + 29
    ensures msg[..5] == "CDC '"
    ensures msg[5..5 + |cdcId|] == cdcId
    ensures msg[5 + |cdcId|..] == "' guardado correctamente"
  {
    "CDC '" + cdcId + "' guardado correctamente"
  }

  /** The two input checks of the store handler, credential first. */
  function Validate(cdcId: string, sessionId: string): (e: Option<ApiError>)
    ensures AllWhitespace(cdcId) ==> e == Some(EmptyCdcError)
    ensures !AllWhitespace(cdcId) && AllWhitespace(sessionId) ==> e == Some(EmptySessionError)
    ensures !AllWhitespace(cdcId) && !AllWhitespace(sessionId) ==> e == None
  {
    if IsBlank(cdcId) then Some(EmptyCdcError)
    else if IsBlank(sessionId) then Some(EmptySessionError)
    else None
  }

  /** The store handler on a dictionary `m`: validate, trim both strings, and
      insert or overwrite the entry under the normalised key. */
  function Save(m: map<Key, string>, qrId: int, cdcId: string, sessionId: string): (out: SaveOutcome)
    ensures out.result.Failure? <==> AllWhitespace(cdcId) || AllWhitespace(sessionId)
    ensures AllWhitespace(cdcId) ==> out.result == Failure(EmptyCdcError)
    ensures !AllWhitespace(cdcId) && AllWhitespace(sessionId) ==> out.result == Failure(EmptySessionError)
    ensures out.result.Failure? ==> out.storage == m
    ensures out.result.Success? ==>
      out.result.value == SaveResponse("ok", Message(cdcId), qrId, Strip(sessionId))
    ensures out.result.Success? ==>
      && out.storage.Keys == m.Keys + {(qrId, Strip(sessionId))}
      && out.storage[(qrId, Strip(sessionId))] == Strip(cdcId)
      && forall k :: k in m && k != (qrId, Strip(sessionId)) ==> out.storage[k] == m[k]
  {
    match Validate(cdcId, sessionId)
    case Some(e) => SaveOutcome(Failure(e), m)
    case None =>
      var normalized := Strip(sessionId);
      SaveOutcome(Success(SaveResponse("ok", Message(cdcId), qrId, normalized)),
                  m[(qrId, normalized) := Strip(cdcId)])
  }

  /** The lookup handler on a dictionary `m`: `dict.get` under the normalised
      key, with `found` telling whether a value came back. */
  function Lookup(m: map<Key, string>, qrId: int, sessionId: string): (r: VerifyResponse)
    ensures r.qrId == qrId
    ensures r.found <==> (qrId, Strip(sessionId)) in m
    ensures r.found <==> r.cdcId.Some?
    ensures r.found ==> r.cdcId.value == m[(qrId, Strip(sessionId))]
  {
    var key := (qrId, Strip(sessionId));
    var cdc := if key in m then Some(m[key]) else None;
    VerifyResponse(cdc, cdc.Some?, qrId)
  }

  /** What the store handlers keep true of the dictionary: every key holds a
      trimmed, non-empty session token and every value is a trimmed, non-empty
      credential. */
  predicate Normalised(m: map<Key, string>)
  {
    forall k :: k in m ==> k.1 != "" && IsTrimmed(k.1) && m[k] != "" && IsTrimmed(m[k])
  }

  /** Every store call, successful or not, keeps the dictionary normalised. */
  lemma SaveKeepsNormalised(m: map<Key, string>, qrId: int, cdcId: string, sessionId: string)
    requires Normalised(m)
    ensures Normalised(Save(m, qrId, cdcId, sessionId).storage)
  {
    StripEmptyIff(cdcId);
    StripEmptyIff(sessionId);
  }

  /** On a normalised dictionary a lookup with a blank session token finds
      nothing, since no stored key has a blank token. */
  lemma BlankLookupMisses(m: map<Key, string>, qrId: int, sessionId: string)
    requires Normalised(m) && AllWhitespace(sessionId)
    ensures Lookup(m, qrId, sessionId) == VerifyResponse(None, false, qrId)
  {
    StripEmptyIff(sessionId);
  }

  // ---------------------------------------------------------------------------
  // Properties of store and lookup together
  // ---------------------------------------------------------------------------

  /** A lookup right after a successful store, with any session token that
      trims to the same text, finds the trimmed credential. */
  lemma SaveThenLookup(m: map<Key, string>, qrId: int, cdcId: string, sessionId: string, query: string)
    requires Save(m, qrId, cdcId, sessionId).result.Success?
    requires Strip(query) == Strip(sessionId)
    ensures Lookup(Save(m, qrId, cdcId, sessionId).storage, qrId, query)
            == VerifyResponse(Some(Strip(cdcId)), true, qrId)
  {
  }

  /** A store call, successful or not, does not change what a lookup under any
      other key returns. */
  lemma SaveKeepsOtherLookups(m: map<Key, string>, qrId: int, cdcId: string, sessionId: string,
                              otherId: int, query: string)
    requires (otherId, Strip(query)) != (qrId, Strip(sessionId))
    ensures Lookup(Save(m, qrId, cdcId, sessionId).storage, otherId, query) == Lookup(m, otherId, query)
  {
  }

  /** A successful store is one dictionary update under the normalised key. */
  lemma SaveIsUpdate(m: map<Key, string>, qrId: int, cdcId: string, sessionId: string)
    requires Save(m, qrId, cdcId, sessionId).result.Success?
    ensures Save(m, qrId, cdcId, sessionId).storage == m[(qrId, Strip(sessionId)) := Strip(cdcId)]
  {
  }

  /** Last write wins: of two successful stores under keys that normalise to
      the same key, only the second leaves a trace. */
  lemma LastWriteWins(m: map<Key, string>, qrId: int, cdc1: string, session1: string,
                      cdc2: string, session2: string)
    requires Save(m, qrId, cdc1, session1).result.Success?
    requires Save(m, qrId, cdc2, session2).result.Success?
    requires Strip(session1) == Strip(session2)
    ensures Save(Save(m, qrId, cdc1, session1).storage, qrId, cdc2, session2).storage
            == Save(m, qrId, cdc2, session2).storage
    ensures Lookup(Save(Save(m, qrId, cdc1, session1).storage, qrId, cdc2, session2).storage,
                   qrId, session1).cdcId == Some(Strip(cdc2))
  {
    SaveIsUpdate(m, qrId, cdc1, session1);
    SaveIsUpdate(m, qrId, cdc2, session2);
    SaveIsUpdate(Save(m, qrId, cdc1, session1).storage, qrId, cdc2, session2);
    UpdateTwice(m, (qrId, Strip(session1)), Strip(cdc1), Strip(cdc2));
    SaveThenLookup(m, qrId, cdc2, session2, session1);
  }

  lemma UpdateTwice(m: map<Key, string>, key: Key, first: string, second: string)
    ensures m[key := first][key := second] == m[key := second]
  {
  }

  /** Whitespace around the session token is irrelevant on both sides: a
      lookup with the stored token padded by whitespace finds the entry. */
  lemma PaddedLookup(m: map<Key, string>, qrId: int, cdcId: string, sessionId: string,
                     before: string, after: string)
    requires Save(m, qrId, cdcId, sessionId).result.Success?
    requires AllWhitespace(before) && AllWhitespace(after)
    ensures Lookup(Save(m, qrId, cdcId, sessionId).storage, qrId, before + sessionId + after)
            == VerifyResponse(Some(Strip(cdcId)), true, qrId)
  {
    StripIgnoresPadding(before, sessionId, after);
    SaveThenLookup(m, qrId, cdcId, sessionId, before + sessionId + after);
  }

  /** Nothing has been stored in a fresh dictionary. */
  lemma LookupBeforeStore(qrId: int, sessionId: string)
    ensures Lookup(map[], qrId, sessionId) == VerifyResponse(None, false, qrId)
  {
  }

  // ---------------------------------------------------------------------------
  // The dictionary as mutable state
  // ---------------------------------------------------------------------------

  /** The module-level dictionary `cdc_storage` and the two handlers using it. */
  class AssociationStore {
    var storage: map<Key, string>

    /** The class invariant: the dictionary is normalised. */
    predicate Valid()
      reads this
    {
      Normalised(storage)
    }

    constructor ()
      ensures Valid() && storage == map[]
    {
      storage := map[];
    }

    /** The store handler: rejects a blank credential, then a blank session
        token, and otherwise writes the trimmed credential under the key. */
    method SaveCdc(qrId: int, cdcId: string, sessionId: string) returns (r: Result<SaveResponse, ApiError>)
      requires Valid()
      modifies this
      ensures Valid()
      ensures SaveOutcome(r, storage) == Save(old(storage), qrId, cdcId, sessionId)
      ensures r.Failure? ==> storage == old(storage)
      ensures r.Success? ==> storage == old(storage)[(qrId, Strip(sessionId)) := Strip(cdcId)]
    {
      if cdcId == "" || Strip(cdcId) == "" {
        r := Failure(EmptyCdcError);
        return;
      }
      if sessionId == "" || Strip(sessionId) == "" {
        r := Failure(EmptySessionError);
        return;
      }
      SaveKeepsNormalised(storage, qrId, cdcId, sessionId);
      var normalized := Strip(sessionId);
      var key := (qrId, normalized);
      storage := storage[key := Strip(cdcId)];
      r := Success(SaveResponse("ok", Message(cdcId), qrId, normalized));
    }

    /** The lookup handler; it reads the dictionary and changes nothing. */
    method VerifyCdc(qrId: int, sessionId: string) returns (r: VerifyResponse)
      ensures r == Lookup(storage, qrId, sessionId)
      ensures r.found <==> (qrId, Strip(sessionId)) in storage
      ensures r.found ==> r.cdcId == Some(storage[(qrId, Strip(sessionId))])
      ensures !r.found ==> r.cdcId == None
      ensures Valid() && AllWhitespace(sessionId) ==> !r.found
    {
      if Valid() && AllWhitespace(sessionId) {
        BlankLookupMisses(storage, qrId, sessionId);
      }
      var key := (qrId, Strip(sessionId));
      var cdc := if key in storage then Some(storage[key]) else None;
      r := VerifyResponse(cdc, cdc.Some?, qrId);
    }
  }

  // Helpers for the two scenarios below: what stripping does to each literal
  // string they use.

  lemma TrimmedLiteral(s: string)
    requires s == "abc123" || s == "s1" || s == "s2"
    ensures Strip(s) == s && !AllWhitespace(s)
  {
    assert !IsWhitespace(s[0]);
    StripTrimmed(s);
  }

  lemma PaddedTokenLiteral(s: string, t: string)
    requires s == " s1 " && t == "s1"
    ensures Strip(s) == t
  {
    StripUnique(" ", t, " ");
    assert " " + t + " " == s;
  }

  lemma PaddedCredentialLiteral(s: string, t: string)
    requires s == "  xyz" && t == "xyz"
    ensures Strip(s) == t && !AllWhitespace(s)
  {
    assert !IsWhitespace(s[2]);
    StripUnique("  ", t, "");
    assert "  " + t + "" == s;
  }

  /** A store call followed by lookups on a fresh store: the stored pair is
      found, another session token under the same identifier is not. */
  method StoreThenVerifyScenario() returns (saved: Result<SaveResponse, ApiError>,
                                            found: VerifyResponse, missing: VerifyResponse)
    ensures saved == Success(SaveResponse("ok", Message("abc123"), 42, "s1"))
    ensures found == VerifyResponse(Some("abc123"), true, 42)
    ensures missing == VerifyResponse(None, false, 42)
  {
    TrimmedLiteral("abc123");
    TrimmedLiteral("s1");
    TrimmedLiteral("s2");
    var store := new AssociationStore();
    saved := store.SaveCdc(42, "abc123", "s1");
    found := store.VerifyCdc(42, "s1");
    missing := store.VerifyCdc(42, "s2");
  }

  /** Overwriting through a padded session token, then a rejected store call
      with a blank credential that leaves the entry as it was. */
  method OverwriteScenario() returns (overwritten: VerifyResponse,
                                      rejected: Result<SaveResponse, ApiError>, after: VerifyResponse)
    ensures overwritten == VerifyResponse(Some("xyz"), true, 42)
    ensures rejected == Failure(EmptyCdcError)
    ensures after == overwritten
  {
    TrimmedLiteral("abc123");
    TrimmedLiteral("s1");
    PaddedTokenLiteral(" s1 ", "s1");
    PaddedCredentialLiteral("  xyz", "xyz");
    assert AllWhitespace("   ");

    var store := new AssociationStore();
    var first := store.SaveCdc(42, "abc123", "s1");
    var second := store.SaveCdc(42, "  xyz", " s1 ");
    overwritten := store.VerifyCdc(42, "s1");
    rejected := store.SaveCdc(42, "   ", "s1");
    after := store.VerifyCdc(42, "s1");
  }
}
