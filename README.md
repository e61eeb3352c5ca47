# Api-QR association store, modelled in Dafny

The service is a small FastAPI application. It has three handlers:

- `POST /qr/generador` draws a random identifier `qr_id` and builds a page URL that carries `qr_id` and the caller's `session_id`. It then renders that URL as a QR image.
- `POST /qr/guardar-cdc` stores a credential `cdc_id` under the key `(qr_id, session_id.strip())` in the module-level dictionary `cdc_storage`.
- `GET /qr/verificar-cdc` looks a credential up under the same kind of key.

The model covers the dictionary and the two handlers that use it, plus the URL text the generation handler builds:

- `wrappers.dfy`, module `Wrappers`: `Option`, which stands for Python's `None`, and `Result`, which stands for an `HTTPException`.
- `python_str.dfy`, module `PyStr`: Python's `str.strip()` with no argument and `str(n)` for a non-negative integer. Whitespace is the exact set of characters Python's `str.isspace()` accepts.
- `qr_payload.dfy`, module `QrPayload`: the URL f-string and the generation handler's `url`/`qr_id` response. A reader `ParsePayload` inverts the f-string in both directions: a text parses to `(n, t)` exactly when it is the payload built from `n` and `t`.
- `cdc_store.dfy`, module `CdcStore`: the store. `Save` and `Lookup` are the two handlers written as functions of the dictionary. The class `AssociationStore` holds `cdc_storage` as a `map` field. Its method `SaveCdc` updates that field in place, and the read-only method `VerifyCdc` looks it up. Both methods are proved to agree with `Save` and `Lookup`. The class invariant `Valid` says every stored session token and credential is trimmed and non-empty, so a blank token never finds an entry. The lemmas relate store calls and lookups: last write wins, other keys are untouched, and padded session tokens reach the same entry.

A 400 error is the value `HttpError(400, detail)`, and the detail texts are the source's own. A failed store call returns that error and leaves the dictionary unchanged.

The random draw `random.randint(1, 999999)` is an input of `GenerateQr` with the precondition `1 <= qrId <= 999999`.

## Model

| member | source | states |
|---|---|---|
| `PyStr.IsWhitespace` | main.py:93 | a character counts as whitespace exactly when it is in the set of code points Python's `str.isspace()` accepts, listed one by one |
| `PyStr.SkipLeading` | main.py:93 | the left scan of `strip` stops at the first non-whitespace index at or after `i` (or the end), and everything it skipped is whitespace |
| `PyStr.SkipTrailing` | main.py:93 | the right scan stops just after the last non-whitespace character above `lo` (or at `lo`), and everything it skipped is whitespace |
| `PyStr.Strip` | main.py:93 | the stripped string starts and ends with a non-whitespace character (or is empty) and is no longer than the input |
| `PyStr.StripSplit` | main.py:93 | the stripped string is a contiguous slice `s[i..j]` of the input, and only whitespace lies outside it |
| `PyStr.StripUnique` | main.py:93 | any trimmed string with only whitespace added on both sides strips back to exactly that string |
| `PyStr.StripTrimmed` | main.py:109 | stripping a string that is already trimmed returns it unchanged |
| `PyStr.StripIdempotent` | main.py:93 | stripping twice gives the same result as stripping once |
| `PyStr.StripIgnoresPadding` | main.py:109 | adding whitespace before or after a session token does not change its stripped form |
| `PyStr.IsBlank` | main.py:87-90 | the handler's test `not s or not s.strip()` holds exactly when every character of `s` is whitespace, in both directions; the empty string is one such case, so the first disjunct adds nothing |
| `PyStr.StripEmptyIff` | main.py:87 | the stripped string is empty if and only if every character of the input is whitespace |
| `PyStr.NatToDecimal` | main.py:58 | `str(n)` is a non-empty string of digits, has no leading zero when `n > 0`, and is `"0"` for zero |
| `PyStr.DecimalRoundTrip` | main.py:58 | reading back the decimal digits printed for `n` gives `n` |
| `PyStr.DecimalCanonicalRoundTrip` | main.py:58 | printing the value of a digit string without a leading zero gives that string back, so `str(n)` is a bijection onto such strings |
| `QrPayload.Payload` | main.py:58 | the URL is the fixed prefix, then the decimal `qr_id` at the prefix's end, then `&session_id=`, and ends with the session token as received; its length is the sum of the parts |
| `QrPayload.ParsePayload` | main.py:58 | a payload that parses starts with the fixed URL prefix and ends with the session token it yields |
| `QrPayload.PayloadRoundTrip` | main.py:58 | parsing the payload built from `qr_id` and `session_id` gives back both values unchanged |
| `QrPayload.ParsePayloadExact` | main.py:58 | every text the reader accepts is exactly the payload built from the identifier and token it reads; with `PayloadRoundTrip` this makes the reader an exact inverse |
| `QrPayload.PayloadContains` | main.py:58 | both the decimal `qr_id` and the untouched `session_id` occur as literal substrings of the payload |
| `QrPayload.GenerateQr` | main.py:56-80 | the response echoes the drawn `qr_id`, which lies in [1, 999999], and its `url` parses back to the identifier and the session token and contains both |
| `CdcStore.Message` | main.py:99 | the confirmation is `CDC '`, the credential exactly as received (untrimmed), then `' guardado correctamente` |
| `CdcStore.Validate` | main.py:87-91 | a blank `cdc_id` gives the `cdc_id` error even when `session_id` is blank too; otherwise a blank `session_id` gives the `session_id` error; otherwise there is no error |
| `CdcStore.Save` | main.py:85-102 | fails exactly when either field is whitespace-only, the credential check winning; a failure leaves the dictionary equal to the old one; a success returns status `"ok"`, the message, `qr_id` and the trimmed session token, adds exactly the key `(qr_id, strip(session_id))` with value `strip(cdc_id)`, and keeps every other entry |
| `CdcStore.Lookup` | main.py:107-111 | echoes `qr_id`; `found` holds exactly when `(qr_id, strip(session_id))` is a key, exactly when a value is returned, and the value is the stored one |
| `CdcStore.SaveIsUpdate` | main.py:93-95 | a successful store is the single dictionary update `m[(qr_id, strip(session_id)) := strip(cdc_id)]` |
| `CdcStore.SaveKeepsNormalised` | main.py:87-95 | if every stored token and credential is trimmed and non-empty, this stays true after any store call, successful or rejected |
| `CdcStore.BlankLookupMisses` | main.py:107-111 | on a dictionary the handlers built, a lookup with an empty or whitespace-only session token returns `None`, `false` and the echoed `qr_id` |
| `CdcStore.SaveThenLookup` | main.py:93-110 | right after a successful store, a lookup with any token that strips to the same text finds the trimmed credential |
| `CdcStore.SaveKeepsOtherLookups` | main.py:94-95 | a store call, successful or not, does not change the lookup result for any other normalised key |
| `CdcStore.LastWriteWins` | main.py:94-95 | two successful stores under the same normalised key leave the dictionary the second alone would leave, and the lookup then returns the second trimmed credential |
| `CdcStore.PaddedLookup` | main.py:93-109 | after a store, a lookup with the session token padded by any whitespace on either side finds the entry |
| `CdcStore.LookupBeforeStore` | main.py:109-111 | on the empty dictionary every lookup returns `cdc_id = None`, `found = false` and the echoed `qr_id`, and raises no error |
| `CdcStore.AssociationStore.constructor` | main.py:15 | the dictionary starts empty, which satisfies the class invariant `Valid` (every key and value trimmed and non-empty) |
| `CdcStore.AssociationStore.SaveCdc` | main.py:85-102 | the returned result and the new dictionary are those of `Save` on the old dictionary; on failure the dictionary is unchanged; on success it is the old one updated at the normalised key; the class invariant `Valid` is preserved |
| `CdcStore.AssociationStore.VerifyCdc` | main.py:107-111 | returns `Lookup` of the current dictionary, so `found` is true exactly when the normalised key is present, with the stored value, and `None` otherwise; under the class invariant a blank session token is never found; it modifies nothing |
| `CdcStore.StoreThenVerifyScenario` | main.py:85-111 | on a fresh store, storing `(42, "abc123", "s1")` returns `ok` with `qr_id` 42 and session `"s1"`; looking up `(42, "s1")` finds `"abc123"`; looking up `(42, "s2")` finds nothing |
| `CdcStore.OverwriteScenario` | main.py:85-111 | storing `"  xyz"` under `" s1 "` overwrites the entry stored under `"s1"` with `"xyz"`; a later store with a blank credential is rejected with the `cdc_id` error and leaves the lookup result as it was |

## Left out

- QR rendering, the resize to 400×400 and PNG serialisation (main.py:60-74). These are foreign library calls with image and floating-point internals.
- The base64 `qr` field of the generation response (main.py:77). It encodes image bytes the model does not produce. `QrResponse` holds only `url` and `qr_id`.
- `random.randint` (main.py:57). It is nondeterministic, so its value is a parameter of `GenerateQr`, bounded by a precondition.
- The CORS middleware and the OPTIONS preflight handler (main.py:18-24, 40-50). They are HTTP configuration with no logic.
- FastAPI/pydantic request parsing and type coercion (main.py:29-35, 108), and HTTP transport. The request fields arrive as typed parameters, and an `HTTPException` is a `Failure` value.
- Concurrent requests on the shared dictionary. The model is sequential: each handler call runs to completion on its own.
- Percent-encoding of the session token in the URL. The source inserts the token verbatim, and so does `Payload`. `ParsePayload` reads everything after `&session_id=` as the token, so the round trip holds for that reader only. A standard URL parser would not return every token unchanged. A `#` ends the query and starts the fragment. In the query string, `&` separates parameters, `+` decodes to a space and `%XX` is decoded as an escape.
- `GenerateQr`: there is no non-emptiness requirement on `session_id`. The handler does not check one, so the model follows the code.
- `str(n)` for negative integers. Identifiers drawn by the generation handler are positive, so `NatToDecimal` covers `nat` only.
