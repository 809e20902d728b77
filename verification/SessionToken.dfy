/** Session tokens (controller/internal/auth/session.go). HMAC-SHA256 is an uninterpreted function of the key and the
    signed text. */
module SessionToken {
  import opened Wrappers
  import opened Text

  const DOT: Byte := 46
  const PIPE: Byte := 124
  const SECOND := 1_000_000_000

  /** `ttl` in nanoseconds, as moments are. */
  datatype Signer = Signer(mac: Str -> Str, ttl: nat)

  /** `time.Time.Unix`: whole seconds, rounded towards the past. */
  function Unix(moment: int): int { moment / SECOND }

  function Sign(signer: Signer, encoded: Str): Str { Encode(UrlSafe, signer.mac(encoded)) }

  function Payload(subject: Str, expiry: int, nonce: Str): Str {
    Join([Encode(UrlSafe, subject), FormatInt(expiry), Encode(UrlSafe, nonce)], PIPE)
  }

  function Seal(signer: Signer, encoded: Str): Str { encoded + [DOT] + Sign(signer, encoded) }

  function Issue(signer: Signer, subject: Str, nonce: Str, now: int): Option<Str> {
    if subject == [] then None
    else Some(Seal(signer, Encode(UrlSafe, Payload(subject, Unix(now + signer.ttl), nonce))))
  }

  /** What a decoded payload grants at a moment. */
  function Grant(raw: Str, now: int): Option<Str> {
    var parts := Split(raw, PIPE);
    if |parts| != 3 then None
    else
      var subject := Decode(UrlSafe, parts[0]);
      if subject.None? || subject.value == [] then None
      else
        var expiry := ParseInt(parts[1]);
        if expiry.None? || Unix(now) >= expiry.value then None else subject
  }

  function Verify(signer: Signer, token: Str, now: int): Option<Str> {
    var cut := Cut(token, DOT);
    if cut.None? || cut.value.1 != Sign(signer, cut.value.0) then None
    else
      var raw := Decode(UrlSafe, cut.value.0);
      if raw.None? then None else Grant(raw.value, now)
  }

  lemma EncodedAvoids(bs: Str, c: Byte)
    requires Value(UrlSafe, c).None?
    ensures c !in Encode(UrlSafe, bs)
  {
    assert InAlphabet(UrlSafe, Encode(UrlSafe, bs));
  }

  lemma DecimalAvoids(i: int, c: Byte)
    requires !IsDigit(c) && c != MINUS
    ensures c !in FormatInt(i)
  {
  }

  lemma PayloadGrants(subject: Str, expiry: int, nonce: Str, now: int)
    requires subject != [] && IsInt64(expiry)
    ensures Grant(Payload(subject, expiry, nonce), now) == if Unix(now) < expiry then Some(subject) else None
  {
    var parts := [Encode(UrlSafe, subject), FormatInt(expiry), Encode(UrlSafe, nonce)];
    EncodedAvoids(subject, PIPE);
    EncodedAvoids(nonce, PIPE);
    DecimalAvoids(expiry, PIPE);
    SplitJoin(parts, PIPE);
    DecodeEncode(UrlSafe, subject);
    ParseFormatInt(expiry);
    hide Encode;
    hide FormatInt;
    hide Decode;
    hide ParseInt;
    hide Join;
    hide Split;
  }

  /** What is granted has exactly three parts: the subject, a second that has not come yet, and something. */
  lemma GrantedText(raw: Str, now: int)
    requires Grant(raw, now).Some?
    ensures exists a: Str, b: Str, c: Str :: raw == a + ['|' as int] + b + ['|' as int] + c
                              && PIPE !in a && PIPE !in b && PIPE !in c && Decode(UrlSafe, a) == Grant(raw, now)
                              && ParseInt(b).Some? && now / 1_000_000_000 < ParseInt(b).value
    ensures Grant(raw, now).value != []
  {
    JoinSplit(raw, PIPE);
    hide Split;
    hide Decode;
    hide ParseInt;
    var parts := Split(raw, PIPE);
    assert Join(parts[1..], PIPE) == parts[1] + [PIPE] + Join(parts[2..], PIPE);
    assert raw == parts[0] + [PIPE] + parts[1] + [PIPE] + parts[2];
  }

  /** A sealed text passes the signature check and is recovered. */
  lemma SealOpens(signer: Signer, raw: Str, now: int)
    ensures Verify(signer, Seal(signer, Encode(UrlSafe, raw)), now) == Grant(raw, now)
  {
    var encoded := Encode(UrlSafe, raw);
    EncodedAvoids(raw, DOT);
    CutJoin(encoded, DOT, Sign(signer, encoded));
    DecodeEncode(UrlSafe, raw);
    hide Encode;
    hide Decode;
    hide Grant;
  }

  /** `Verify` undoes `Issue`: the subject comes back exactly while the current second is before the expiry second. */
  lemma VerifyUndoesIssue(signer: Signer, subject: Str, nonce: Str, issued: int, now: int)
    requires IsInt64(Unix(issued + signer.ttl))
    ensures Issue(signer, subject, nonce, issued).None? <==> subject == []
    ensures subject != [] ==>
              Verify(signer, Issue(signer, subject, nonce, issued).value, now)
              == if Unix(now) < Unix(issued + signer.ttl) then Some(subject) else None
  {
    hide Verify;
    hide Grant;
    hide Payload;
    hide Seal;
    hide Encode;
    hide Unix;
    if subject != [] {
      PayloadGrants(subject, Unix(issued + signer.ttl), nonce, now);
      SealOpens(signer, Payload(subject, Unix(issued + signer.ttl), nonce), now);
    }
  }

  /** A token lives as long as it was issued for, but for the last second: it is accepted until one second before, and
      never from the end on. */
  lemma TokenLifetime(signer: Signer, subject: Str, nonce: Str, issued: int, now: int)
    requires IsInt64(Unix(issued + signer.ttl)) && subject != []
    ensures now + 1_000_000_000 <= issued + signer.ttl ==>
              Verify(signer, Issue(signer, subject, nonce, issued).value, now) == Some(subject)
    ensures issued + signer.ttl <= now ==> Verify(signer, Issue(signer, subject, nonce, issued).value, now) == None
  {
    VerifyUndoesIssue(signer, subject, nonce, issued, now);
    hide Verify;
    hide Issue;
  }

  /** What a token says, to anyone: base64 of subject, expiry second and nonce, separated by bars, and after a dot the
      MAC of that text. */
  lemma TokenText(signer: Signer, subject: Str, nonce: Str, issued: int)
    requires subject != []
    ensures var token := Issue(signer, subject, nonce, issued).value;
            var cut := Cut(token, '.' as int);
            && cut.Some? && Decode(UrlSafe, cut.value.1) == Some(signer.mac(cut.value.0))
            && Decode(UrlSafe, cut.value.0).Some?
            && var parts := Split(Decode(UrlSafe, cut.value.0).value, '|' as int);
               && |parts| == 3 && Decode(UrlSafe, parts[0]) == Some(subject)
               && parts[1] == FormatInt((issued + signer.ttl) / 1_000_000_000)
               && Decode(UrlSafe, parts[2]) == Some(nonce)
  {
    hide Encode;
    hide Decode;
    hide FormatInt;
    hide Split;
    hide Cut;
    hide Join;
    var payload := Payload(subject, Unix(issued + signer.ttl), nonce);
    var encoded := Encode(UrlSafe, payload);
    EncodedAvoids(payload, DOT);
    CutJoin(encoded, DOT, Sign(signer, encoded));
    DecodeEncode(UrlSafe, signer.mac(encoded));
    DecodeEncode(UrlSafe, payload);
    EncodedAvoids(subject, PIPE);
    EncodedAvoids(nonce, PIPE);
    DecimalAvoids(Unix(issued + signer.ttl), PIPE);
    SplitJoin([Encode(UrlSafe, subject), FormatInt(Unix(issued + signer.ttl)), Encode(UrlSafe, nonce)], PIPE);
    DecodeEncode(UrlSafe, subject);
    DecodeEncode(UrlSafe, nonce);
  }

  /** Every accepted token is a text sealed under the key: its signature is the only one that goes with its text. */
  lemma AcceptedIsSealed(signer: Signer, token: Str, now: int)
    requires Verify(signer, token, now).Some?
    ensures Cut(token, DOT).Some? && token == Seal(signer, Cut(token, DOT).value.0)
  {
    CutIsJoin(token, DOT);
    hide IndexOf;
    hide Encode;
  }

  /** One call of `Issue`. */
  datatype Call = Call(subject: Str, nonce: Str, moment: int)

  function ResultOf(signer: Signer, c: Call): Option<Str> { Issue(signer, c.subject, c.nonce, c.moment) }

  /** The text whose MAC a successful call computes. */
  function TextOf(signer: Signer, c: Call): Str {
    Encode(UrlSafe, Payload(c.subject, Unix(c.moment + signer.ttl), c.nonce))
  }

  /** The texts signed under the key in these calls. */
  ghost function Signed(signer: Signer, calls: seq<Call>): set<Str> {
    set k | 0 <= k < |calls| && calls[k].subject != [] :: TextOf(signer, calls[k])
  }

  /** Unforgeability: whoever made up these (text, tag) pairs, a tag is the MAC of its text only if that text was
      signed. */
  ghost predicate Unforgeable(mac: Str -> Str, signed: set<Str>, pairs: set<(Str, Str)>) {
    forall p :: p in pairs && p.1 == mac(p.0) ==> p.0 in signed
  }

  /** What a presented token claims: a text and, decoded, the tag for it. */
  function Claim(token: Str): Option<(Str, Str)> {
    var cut := Cut(token, DOT);
    if cut.None? then None
    else
      var tag := Decode(UrlSafe, cut.value.1);
      if tag.None? then None else Some((cut.value.0, tag.value))
  }

  ghost function Claims(tokens: set<Str>): set<(Str, Str)> {
    set t | t in tokens && Claim(t).Some? :: Claim(t).value
  }

  /** An accepted token claims the MAC of its text. */
  lemma AcceptedClaims(signer: Signer, token: Str, now: int)
    requires Verify(signer, token, now).Some?
    ensures Cut(token, DOT).Some?
            && Claim(token) == Some((Cut(token, DOT).value.0, signer.mac(Cut(token, DOT).value.0)))
  {
    DecodeEncode(UrlSafe, signer.mac(Cut(token, DOT).value.0));
    hide Encode;
    hide Decode;
    hide Grant;
  }

  /** After any calls of `Issue`, and whatever tokens are presented: if the MAC is unforgeable, every accepted token is
      the result of one of the calls, and is accepted for its subject and before its expiry second. */
  lemma OnlyIssuedAccepted(signer: Signer, calls: seq<Call>, tokens: set<Str>, token: Str, now: int)
    requires forall k :: 0 <= k < |calls| ==> IsInt64(Unix(calls[k].moment + signer.ttl))
    ensures Unforgeable(signer.mac, Signed(signer, calls), Claims(tokens)) && token in tokens
            && Verify(signer, token, now).Some? ==>
              exists k :: 0 <= k < |calls| && ResultOf(signer, calls[k]) == Some(token)
                          && Verify(signer, token, now) == Some(calls[k].subject)
                          && Unix(now) < Unix(calls[k].moment + signer.ttl)
  {
    hide Cut;
    hide Claim;
    hide Verify;
    hide Issue;
    hide Seal;
    hide TextOf;
    hide Unix;
    if Unforgeable(signer.mac, Signed(signer, calls), Claims(tokens)) && token in tokens
       && Verify(signer, token, now).Some? {
      AcceptedClaims(signer, token, now);
      AcceptedIsSealed(signer, token, now);
      var text := Cut(token, DOT).value.0;
      assert Claim(token).value in Claims(tokens);
      assert text in Signed(signer, calls);
      var k :| 0 <= k < |calls| && calls[k].subject != [] && TextOf(signer, calls[k]) == text;
      IssuedText(signer, calls[k]);
      VerifyUndoesIssue(signer, calls[k].subject, calls[k].nonce, calls[k].moment, now);
    }
  }

  lemma IssuedText(signer: Signer, c: Call)
    requires c.subject != []
    ensures ResultOf(signer, c) == Some(Seal(signer, TextOf(signer, c)))
  {
    hide Encode;
    hide Seal;
    hide Payload;
  }

  /** Acceptance only ever ends: a token accepted at a moment is accepted, for the same subject, at
      every earlier one. */
  lemma AcceptanceOnlyEnds(signer: Signer, token: Str, earlier: int, now: int)
    requires earlier <= now && Verify(signer, token, now).Some?
    ensures Verify(signer, token, earlier) == Verify(signer, token, now)
  {
    hide Encode;
    hide Decode;
    hide Split;
    hide ParseInt;
    hide IndexOf;
  }
}
