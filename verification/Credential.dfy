/** The stored operator password (controller/internal/auth/credential.go). PBKDF2 is an uninterpreted function of
    password, salt, iteration count and key length. */
module Credential {
  import opened Wrappers
  import opened Text

  const DOLLAR: Byte := 36
  /** "pbkdf2-sha256" */
  const SCHEME: Str := [112, 98, 107, 100, 102, 50, 45, 115, 104, 97, 50, 53, 54]
  const DEFAULT_ITERATIONS := 600_000
  const MIN_ITERATIONS := 100_000
  const KEY_LENGTH := 32

  datatype ParsedHash = ParsedHash(iterations: int, salt: Str, key: Str)

  datatype Kdf = Kdf(derive: (Str, Str, int, nat) -> Str)

  /** Keys have the length asked for. */
  ghost predicate KeysFit(kdf: Kdf) {
    forall password, salt, iterations, length: nat :: |kdf.derive(password, salt, iterations, length)| == length
  }

  function FormatHash(h: ParsedHash): Str {
    Join([SCHEME, FormatInt(h.iterations), Encode(Standard, h.salt), Encode(Standard, h.key)], DOLLAR)
  }

  function HashPassword(kdf: Kdf, password: Str, salt: Str): Option<Str> {
    if password == [] then None
    else Some(FormatHash(ParsedHash(DEFAULT_ITERATIONS, salt,
                                    kdf.derive(password, salt, DEFAULT_ITERATIONS, KEY_LENGTH))))
  }

  function ParseHash(encoded: Str): Option<ParsedHash> {
    var parts := Split(encoded, DOLLAR);
    if |parts| != 4 || parts[0] != SCHEME then None
    else
      var iterations := ParseInt(parts[1]);
      if iterations.None? || iterations.value < MIN_ITERATIONS then None
      else
        var salt := Decode(Standard, parts[2]);
        if salt.None? || salt.value == [] then None
        else
          var key := Decode(Standard, parts[3]);
          if key.None? || key.value == [] then None else Some(ParsedHash(iterations.value, salt.value, key.value))
  }

  predicate Usable(h: ParsedHash) {
    100_000 <= h.iterations && IsInt64(h.iterations) && h.salt != [] && h.key != []
  }

  /** `Credential.Verify` against a parsed hash and a user name. */
  predicate Verify(kdf: Kdf, hash: ParsedHash, owner: Str, username: Str, password: Str) {
    kdf.derive(password, hash.salt, hash.iterations, |hash.key|) == hash.key && username == owner
  }

  lemma EncodedAvoidsDollar(bs: Str)
    ensures DOLLAR !in Encode(Standard, bs)
  {
    assert InAlphabet(Standard, Encode(Standard, bs));
  }

  lemma DecimalAvoidsDollar(i: int)
    ensures DOLLAR !in FormatInt(i)
  {
  }

  /** Parsing recovers what was printed, exactly for the hashes it is willing to use. */
  lemma ParseUndoesFormat(h: ParsedHash)
    ensures ParseHash(FormatHash(h)) == if Usable(h) then Some(h) else None
  {
    EncodedAvoidsDollar(h.salt);
    EncodedAvoidsDollar(h.key);
    DecimalAvoidsDollar(h.iterations);
    SplitJoin([SCHEME, FormatInt(h.iterations), Encode(Standard, h.salt), Encode(Standard, h.key)], DOLLAR);
    DecodeEncode(Standard, h.salt);
    DecodeEncode(Standard, h.key);
    ParseFormatInt(h.iterations);
    hide Encode;
    hide FormatInt;
    hide Decode;
    hide ParseInt;
    hide Join;
    hide Split;
  }

  /** The name of the scheme. */
  lemma SchemeText()
    ensures |SCHEME| == |"pbkdf2-sha256"|
    ensures forall k :: 0 <= k < |SCHEME| ==> SCHEME[k] == "pbkdf2-sha256"[k] as int
  {
  }

  /** Whatever is parsed has exactly four parts, the first of which is the name of the scheme, and is usable. */
  lemma ParsedText(encoded: Str)
    requires ParseHash(encoded).Some?
    ensures Usable(ParseHash(encoded).value)
    ensures exists a: Str, b: Str, c: Str :: encoded == SCHEME + [DOLLAR] + a + [DOLLAR] + b + [DOLLAR] + c
                              && DOLLAR !in a && DOLLAR !in b && DOLLAR !in c
                              && ParseInt(a) == Some(ParseHash(encoded).value.iterations)
                              && Decode(Standard, b) == Some(ParseHash(encoded).value.salt)
                              && Decode(Standard, c) == Some(ParseHash(encoded).value.key)
  {
    JoinSplit(encoded, DOLLAR);
    hide Split;
    hide Decode;
    hide ParseUint;
    var parts := Split(encoded, DOLLAR);
    assert Join(parts[1..], DOLLAR) == parts[1] + [DOLLAR] + Join(parts[2..], DOLLAR);
    assert Join(parts[2..], DOLLAR) == parts[2] + [DOLLAR] + Join(parts[3..], DOLLAR);
    assert encoded == parts[0] + [DOLLAR] + parts[1] + [DOLLAR] + parts[2] + [DOLLAR] + parts[3];
  }

  /** The text of a hash: scheme, iterations, salt and key, separated by dollar signs. */
  lemma HashText(h: ParsedHash)
    ensures var parts := Split(FormatHash(h), '$' as int);
            && |parts| == 4 && parts[0] == SCHEME && parts[1] == FormatInt(h.iterations)
            && Decode(Standard, parts[2]) == Some(h.salt) && Decode(Standard, parts[3]) == Some(h.key)
  {
    EncodedAvoidsDollar(h.salt);
    EncodedAvoidsDollar(h.key);
    DecimalAvoidsDollar(h.iterations);
    SplitJoin([SCHEME, FormatInt(h.iterations), Encode(Standard, h.salt), Encode(Standard, h.key)], DOLLAR);
    DecodeEncode(Standard, h.salt);
    DecodeEncode(Standard, h.key);
    hide Encode;
    hide Decode;
    hide FormatInt;
    hide Split;
    hide Join;
  }

  /** A password hashed and stored lets in exactly the owner with a password that derives the same key. */
  lemma LoginRoundTrip(kdf: Kdf, owner: Str, password: Str, salt: Str, username: Str, attempt: Str)
    requires KeysFit(kdf) && password != [] && salt != []
    ensures HashPassword(kdf, password, salt).Some?
    ensures ParseHash(HashPassword(kdf, password, salt).value).Some?
    ensures Verify(kdf, ParseHash(HashPassword(kdf, password, salt).value).value, owner, username, attempt)
            <==> username == owner
                 && kdf.derive(attempt, salt, 600_000, 32) == kdf.derive(password, salt, 600_000, 32)
  {
    var key := kdf.derive(password, salt, DEFAULT_ITERATIONS, KEY_LENGTH);
    assert |key| == KEY_LENGTH;
    ParseUndoesFormat(ParsedHash(DEFAULT_ITERATIONS, salt, key));
    hide ParseHash;
    hide FormatHash;
  }
}
