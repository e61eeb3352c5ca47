/**
  The text that the QR-generation handler encodes: a fixed page URL with the
  identifier and the caller's session token appended as query parameters.
  The session token is inserted exactly as received, with no percent-encoding.
*/
module QrPayload {
  import opened Wrappers
  import opened PyStr

  /** The range `random.randint(1, 999999)` draws identifiers from. */
  const MinQrId := 1
  const MaxQrId := 999999

  /** Everything in front of the identifier. */
  const Prefix := "https://enrrimendoza.github.io/Api-QR-generator/?qr_id="

  /** The text between the identifier and the session token. */
  const SessionParam := "&session_id="

  /** `part` occurs in `text` starting at position `k`. */
  predicate OccursAt(text: string, part: string, k: int)
  {
    0 <= k && k + |part| <= |text| && text[k..k + |part|] == part
  }

  /** `part` occurs in `text` as a contiguous substring. */
  ghost predicate Contains(text: string, part: string)
  {
    exists k :: OccursAt(text, part, k)
  }

  /** The f-string of the generation handler: the prefix, the decimal
      identifier, the session parameter, then the token as received. */
  function Payload(qrId: nat, sessionId: string): (url: string)
    ensures |url| == |Prefix| + |NatToDecimal(qrId)| + |SessionParam| + |sessionId|
    ensures url[..|Prefix|] == Prefix
    ensures url[|Prefix|..|Prefix| + |NatToDecimal(qrId)|] == NatToDecimal(qrId)
    ensures url[|Prefix| + |NatToDecimal(qrId)|..|url| - |sessionId|] == SessionParam
    ensures url[|url| - |sessionId|..] == sessionId
  {
    Prefix + NatToDecimal(qrId) + SessionParam + sessionId
  }

  /** Reads an identifier and a session token back from a payload: the fixed
      prefix, a run of digits without a leading zero (as `str` prints them),
      the session parameter, and then the rest of the text taken verbatim as
      the session token. */
  function ParsePayload(url: string): (r: Option<(nat, string)>)
    ensures r.Some? ==> |url| >= |Prefix| && url[..|Prefix|] == Prefix
    ensures r.Some? ==> |url| >= |r.value.1| && url[|url| - |r.value.1|..] == r.value.1
  {
    if |url| < |Prefix| || url[..|Prefix|] != Prefix then None
    else
      var rest := url[|Prefix|..];
      var k := LeadingDigits(rest);
      var tail := rest[k..];
      if k == 0 || (k > 1 && rest[0] == '0') then None
      else if |tail| < |SessionParam| || tail[..|SessionParam|] != SessionParam then None
      else
        assert url[|url| - |tail[|SessionParam|..]|..] == tail[|SessionParam|..];
        Some((DecimalValue(rest[..k]), tail[|SessionParam|..]))
  }

  /** How a text built as `p + d + (sep + t)` splits at the ends of `p` and `d`. */
  lemma ConcatSlices(p: string, d: string, rest: string)
    ensures (p + d + rest)[..|p|] == p
    ensures (p + d + rest)[|p|..] == d + rest
    ensures (d + rest)[..|d|] == d && (d + rest)[|d|..] == rest
  {
    assert p + d + rest == p + (d + rest);
  }

  /** The payload determines the identifier and the session token it was
      built from: parsing it gives both back unchanged. */
  lemma PayloadRoundTrip(qrId: nat, sessionId: string)
    ensures ParsePayload(Payload(qrId, sessionId)) == Some((qrId, sessionId))
  {
    var digits := NatToDecimal(qrId);
    var tail := SessionParam + sessionId;
    assert Payload(qrId, sessionId) == Prefix + digits + tail;
    ConcatSlices(Prefix, digits, tail);
    LeadingDigitsOf(digits, tail);
    assert tail[..|SessionParam|] == SessionParam && tail[|SessionParam|..] == sessionId;
    DecimalRoundTrip(qrId);
  }

  /** Conversely, a text the reader accepts is exactly the payload built from
      what it reads, so `ParsePayload(u) == Some((n, t))` holds if and only if
      `u == Payload(n, t)`. */
  lemma ParsePayloadExact(url: string)
    requires ParsePayload(url).Some?
    ensures url == Payload(ParsePayload(url).value.0, ParsePayload(url).value.1)
  {
    var rest := url[|Prefix|..];
    var k := LeadingDigits(rest);
    var digits := rest[..k];
    var tail := rest[k..];
    var token := tail[|SessionParam|..];
    assert ParsePayload(url).value == (DecimalValue(digits), token);
    assert tail[..|SessionParam|] == SessionParam;
    assert IsCanonicalDecimal(digits) by {
      assert digits[0] == rest[0];
    }
    DecimalCanonicalRoundTrip(digits);
    SplitAt(url, |Prefix|);
    SplitAt(rest, k);
    SplitAt(tail, |SessionParam|);
    Reassociate(Prefix, digits, SessionParam, token);
  }

  lemma SplitAt(s: string, i: nat)
    requires i <= |s|
    ensures s == s[..i] + s[i..]
  {
  }

  lemma Reassociate(a: string, b: string, c: string, d: string)
    ensures a + (b + (c + d)) == a + b + c + d
  {
  }

  /** Both values appear in the payload as literal substrings. */
  lemma PayloadContains(qrId: nat, sessionId: string)
    ensures Contains(Payload(qrId, sessionId), NatToDecimal(qrId))
    ensures Contains(Payload(qrId, sessionId), sessionId)
  {
    var digits := NatToDecimal(qrId);
    var url := Payload(qrId, sessionId);
    assert OccursAt(url, digits, |Prefix|) by {
      assert url[|Prefix|..|Prefix| + |digits|] == digits;
    }
    assert OccursAt(url, sessionId, |url| - |sessionId|) by {
      assert url[|url| - |sessionId|..] == sessionId;
    }
  }

  /** The JSON body of the generation handler, without its `qr` image field. */
  datatype QrResponse = QrResponse(url: string, qrId: int)

  /** The generation handler with the random draw supplied as `qrId`. */
  function GenerateQr(qrId: int, sessionId: string): (resp: QrResponse)
    requires MinQrId <= qrId <= MaxQrId
    ensures resp.qrId == qrId && MinQrId <= resp.qrId <= MaxQrId
    ensures ParsePayload(resp.url) == Some((qrId, sessionId))
    ensures Contains(resp.url, NatToDecimal(qrId)) && Contains(resp.url, sessionId)
  {
    PayloadRoundTrip(qrId, sessionId);
    PayloadContains(qrId, sessionId);
    QrResponse(Payload(qrId, sessionId), qrId)
  }
}
