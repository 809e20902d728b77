/** The byte-string operations the codecs are made of: split and join, cut, decimal numbers, and unpadded base64
    (sections 3.2, 4 and 5 of RFC 4648, as Go's encoding/base64 decodes it). */
module Text {
  import opened Wrappers

  type Byte = b: nat | b < 256

  /** A Go string: bytes. */
  type Str = seq<Byte>

  // ---------- separators ----------

  function IndexOf(s: Str, c: Byte): (k: nat)
    requires c in s
    ensures k < |s| && s[k] == c && forall j :: 0 <= j < k ==> s[j] != c
  {
    if s[0] == c then 0 else 1 + IndexOf(s[1..], c)
  }

  function Split(s: Str, c: Byte): (parts: seq<Str>)
    ensures parts != [] && forall k :: 0 <= k < |parts| ==> c !in parts[k]
  {
    if c !in s then [s]
    else
      var k := IndexOf(s, c);
      [s[..k]] + Split(s[k + 1..], c)
  }

  function Join(parts: seq<Str>, c: Byte): Str
    requires parts != []
  {
    if |parts| == 1 then parts[0] else parts[0] + [c] + Join(parts[1..], c)
  }

  /** The text before and after the first separator. */
  function Cut(s: Str, c: Byte): Option<(Str, Str)> {
    if c !in s then None else Some((s[..IndexOf(s, c)], s[IndexOf(s, c) + 1..]))
  }

  lemma IndexOfFirst(a: Str, c: Byte, b: Str)
    requires c !in a
    ensures c in a + [c] + b && IndexOf(a + [c] + b, c) == |a|
  {
    var s := a + [c] + b;
    assert s[|a|] == c;
    var k := IndexOf(s, c);
    assert forall j :: 0 <= j < |a| ==> s[j] == a[j];
  }

  lemma SplitFirst(a: Str, c: Byte, b: Str)
    requires c !in a
    ensures Split(a + [c] + b, c) == [a] + Split(b, c)
  {
    IndexOfFirst(a, c, b);
    var s := a + [c] + b;
    assert s[..|a|] == a && s[|a| + 1..] == b;
  }

  lemma {:induction false} SplitJoin(parts: seq<Str>, c: Byte)
    requires parts != [] && forall k :: 0 <= k < |parts| ==> c !in parts[k]
    ensures Split(Join(parts, c), c) == parts
  {
    if |parts| > 1 {
      SplitJoin(parts[1..], c);
      SplitFirst(parts[0], c, Join(parts[1..], c));
    }
  }

  /** Joining undoes splitting. */
  lemma {:induction false} JoinSplit(s: Str, c: Byte)
    ensures Join(Split(s, c), c) == s
  {
    if c in s {
      var k := IndexOf(s, c);
      JoinSplit(s[k + 1..], c);
      assert s == s[..k] + [c] + s[k + 1..];
      assert Split(s, c)[1..] == Split(s[k + 1..], c);
    }
  }

  lemma CutJoin(a: Str, c: Byte, b: Str)
    requires c !in a
    ensures Cut(a + [c] + b, c) == Some((a, b))
  {
    IndexOfFirst(a, c, b);
    var s := a + [c] + b;
    assert s[..|a|] == a && s[|a| + 1..] == b;
  }

  lemma CutIsJoin(s: Str, c: Byte)
    ensures Cut(s, c).Some? ==> s == Cut(s, c).value.0 + [c] + Cut(s, c).value.1 && c !in Cut(s, c).value.0
  {
  }

  // ---------- decimal numbers ----------

  const ZERO: Byte := 48
  const PLUS: Byte := 43
  const MINUS: Byte := 45

  predicate IsDigit(c: Byte) { ZERO <= c <= ZERO + 9 }

  function FormatNat(n: nat): (s: Str)
    ensures s != [] && forall k :: 0 <= k < |s| ==> IsDigit(s[k])
  {
    if n < 10 then [ZERO + n] else FormatNat(n / 10) + [ZERO + n % 10]
  }

  function FormatInt(i: int): Str { if i < 0 then [MINUS] + FormatNat(-i) else FormatNat(i) }

  /** The value of a non-empty digit string. */
  function ParseDigits(s: Str): Option<nat> {
    if s == [] || !IsDigit(s[|s| - 1]) then None
    else if |s| == 1 then Some(s[0] - ZERO)
    else
      var front := ParseDigits(s[..|s| - 1]);
      if front.None? then None else Some(front.value * 10 + (s[|s| - 1] - ZERO))
  }

  /** `strconv.ParseUint(s, 10, 64)`. */
  function ParseUint(s: Str): Option<nat> {
    var v := ParseDigits(s);
    if v.Some? && v.value < 0x1_0000_0000_0000_0000 then v else None
  }

  /** `strconv.ParseInt(s, 10, 64)` and, on 64-bit systems, `strconv.Atoi`. */
  function ParseInt(s: Str): (r: Option<int>)
  {
    if s == [] then None
    else
      var negative := s[0] == MINUS;
      var v := ParseUint(if s[0] == MINUS || s[0] == PLUS then s[1..] else s);
      if v.None? || (if negative then v.value > 0x8000_0000_0000_0000 else v.value >= 0x8000_0000_0000_0000) then None
      else Some(if negative then 0 - v.value else v.value)
  }

  predicate IsInt64(i: int) { -0x8000_0000_0000_0000 <= i < 0x8000_0000_0000_0000 }

  lemma {:induction false} ParseFormatNat(n: nat)
    ensures ParseDigits(FormatNat(n)) == Some(n)
  {
    if n >= 10 {
      ParseFormatNat(n / 10);
      var s := FormatNat(n);
      assert s[..|s| - 1] == FormatNat(n / 10);
    }
  }

  function Pow10(k: nat): nat { if k == 0 then 1 else 10 * Pow10(k - 1) }

  lemma DivideTwice(n: nat, p: nat)
    requires p > 0
    ensures n / 10 / p == n / (10 * p)
  {
    var q, r := n / 10 / p, n / 10 % p;
    assert n / 10 == q * p + r;
    assert n == 10 * (q * p + r) + n % 10;
    assert n == q * (10 * p) + (10 * r + n % 10);
    assert 0 <= 10 * r + n % 10 < 10 * p;
    DivideUnique(n, 10 * p, q, 10 * r + n % 10);
  }

  lemma DivideUnique(n: nat, d: nat, q: nat, r: nat)
    requires d > 0 && n == q * d + r && r < d
    ensures n / d == q
  {
    var q' := n / d;
    assert n == q' * d + n % d;
    if q < q' {
      Apart(q, q', d);
    } else if q' < q {
      Apart(q', q, d);
    }
  }

  lemma {:induction false} Apart(a: nat, b: nat, d: nat)
    requires a < b
    ensures a * d + d <= b * d
    decreases b
  {
    assert b * d == (b - 1) * d + d;
    if a < b - 1 {
      Apart(a, b - 1, d);
    }
  }

  /** The digits of a number, most significant first, without leading zeros. */
  lemma {:induction false} DigitsAre(n: nat, k: nat)
    requires k < |FormatNat(n)|
    ensures Pow10(|FormatNat(n)| - 1 - k) > 0
    ensures FormatNat(n)[k] == '0' as int + n / Pow10(|FormatNat(n)| - 1 - k) % 10
    ensures n < Pow10(|FormatNat(n)|) && (n > 0 ==> Pow10(|FormatNat(n)| - 1) <= n)
  {
    if n >= 10 {
      var s, front := FormatNat(n), FormatNat(n / 10);
      assert s == front + [ZERO + n % 10] && |front| == |s| - 1;
      DigitsAre(n / 10, if k < |front| then k else 0);
      if k < |front| {
        DivideTwice(n, Pow10(|front| - 1 - k));
      }
    }
  }

  /** Parsing undoes formatting exactly on the uint64 range. */
  lemma ParseFormatUint(n: nat)
    ensures ParseUint(FormatNat(n)) == if n < 0x1_0000_0000_0000_0000 then Some(n) else None
  {
    ParseFormatNat(n);
  }

  /** Parsing undoes formatting exactly on the int64 range. */
  lemma ParseFormatInt(i: int)
    ensures ParseInt(FormatInt(i)) == if IsInt64(i) then Some(i) else None
  {
    if i < 0 {
      ParseFormatNat(-i);
      assert FormatInt(i)[1..] == FormatNat(-i);
    } else {
      ParseFormatNat(i);
      assert IsDigit(FormatInt(i)[0]);
    }
  }

  /** A sign in front is read, a plus too. */
  lemma ParseSigned(n: nat)
    ensures ParseInt([MINUS] + FormatNat(n)) == if n <= 0x8000_0000_0000_0000 then Some(-(n as int)) else None
    ensures ParseInt([PLUS] + FormatNat(n)) == if n < 0x8000_0000_0000_0000 then Some(n) else None
  {
    ParseFormatUint(n);
    assert ([MINUS] + FormatNat(n))[1..] == FormatNat(n) == ([PLUS] + FormatNat(n))[1..];
    hide FormatNat;
    hide ParseUint;
  }

  // ---------- base64 ----------

  datatype Alphabet = Standard | UrlSafe

  function Symbol(a: Alphabet, v: nat): Byte
    requires v < 64
  {
    if v < 26 then 65 + v
    else if v < 52 then 97 + (v - 26)
    else if v < 62 then 48 + (v - 52)
    else if v == 62 then (if a.Standard? then 43 else 45)
    else (if a.Standard? then 47 else 95)
  }

  function Value(a: Alphabet, c: Byte): (v: Option<nat>)
    ensures v.Some? ==> v.value < 64
  {
    if 65 <= c <= 90 then Some(c - 65)
    else if 97 <= c <= 122 then Some(c - 97 + 26)
    else if 48 <= c <= 57 then Some(c - 48 + 52)
    else if c == (if a.Standard? then 43 else 45) then Some(62)
    else if c == (if a.Standard? then 47 else 95) then Some(63)
    else None
  }

  predicate InAlphabet(a: Alphabet, s: Str) { forall k :: 0 <= k < |s| ==> Value(a, s[k]).Some? }

  function Encode(a: Alphabet, bs: Str): (s: Str)
    ensures InAlphabet(a, s)
  {
    if bs == [] then []
    else if |bs| == 1 then [Symbol(a, bs[0] / 4), Symbol(a, bs[0] % 4 * 16)]
    else if |bs| == 2 then
      [Symbol(a, bs[0] / 4), Symbol(a, bs[0] % 4 * 16 + bs[1] / 16), Symbol(a, bs[1] % 16 * 4)]
    else
      [Symbol(a, bs[0] / 4), Symbol(a, bs[0] % 4 * 16 + bs[1] / 16), Symbol(a, bs[1] % 16 * 4 + bs[2] / 64),
       Symbol(a, bs[2] % 64)] + Encode(a, bs[3..])
  }

  function Visible(s: Str): Str {
    if s == [] then [] else if s[0] == 10 || s[0] == 13 then Visible(s[1..]) else [s[0]] + Visible(s[1..])
  }

  /** One group of up to four symbols after another; one symbol alone is an error, unused trailing bits are not. */
  function DecodeGroups(a: Alphabet, s: Str): Option<Str> {
    if s == [] then Some([])
    else if |s| == 1 || Value(a, s[0]).None? || Value(a, s[1]).None? then None
    else
      var v0, v1 := Value(a, s[0]).value, Value(a, s[1]).value;
      if |s| == 2 then Some([v0 * 4 + v1 / 16])
      else if Value(a, s[2]).None? then None
      else
        var v2 := Value(a, s[2]).value;
        if |s| == 3 then Some([v0 * 4 + v1 / 16, v1 % 16 * 16 + v2 / 4])
        else if Value(a, s[3]).None? then None
        else
          var rest := DecodeGroups(a, s[4..]);
          if rest.None? then None
          else Some([v0 * 4 + v1 / 16, v1 % 16 * 16 + v2 / 4, v2 % 4 * 64 + Value(a, s[3]).value] + rest.value)
  }

  /** Go's decoder skips carriage returns and newlines wherever they stand. */
  function Decode(a: Alphabet, s: Str): Option<Str> { DecodeGroups(a, Visible(s)) }

  lemma {:induction false} AlphabetIsVisible(a: Alphabet, s: Str)
    requires InAlphabet(a, s)
    ensures Visible(s) == s
  {
    if s != [] {
      assert Value(a, s[0]).Some?;
      AlphabetIsVisible(a, s[1..]);
    }
  }

  lemma GroupOfFour(a: Alphabet, c0: Byte, c1: Byte, c2: Byte, c3: Byte, rest: Str)
    requires Value(a, c0).Some? && Value(a, c1).Some? && Value(a, c2).Some? && Value(a, c3).Some?
    requires DecodeGroups(a, rest).Some?
    ensures var v0, v1, v2, v3 := Value(a, c0).value, Value(a, c1).value, Value(a, c2).value, Value(a, c3).value;
            DecodeGroups(a, [c0, c1, c2, c3] + rest)
            == Some([v0 * 4 + v1 / 16, v1 % 16 * 16 + v2 / 4, v2 % 4 * 64 + v3] + DecodeGroups(a, rest).value)
  {
    hide Value;
    var s := [c0, c1, c2, c3] + rest;
    assert s[4..] == rest;
  }

  lemma ThreeOrMore(a: Alphabet, bs: Str)
    requires |bs| >= 3 && DecodeGroups(a, Encode(a, bs[3..])) == Some(bs[3..])
    ensures DecodeGroups(a, Encode(a, bs)) == Some(bs)
  {
    hide Symbol;
    hide Value;
    hide DecodeGroups;
    ThreeBytes(a, bs[0], bs[1], bs[2]);
    GroupOfFour(a, Symbol(a, bs[0] / 4), Symbol(a, bs[0] % 4 * 16 + bs[1] / 16),
                Symbol(a, bs[1] % 16 * 4 + bs[2] / 64), Symbol(a, bs[2] % 64), Encode(a, bs[3..]));
    assert bs == [bs[0], bs[1], bs[2]] + bs[3..];
  }

  lemma {:induction false} DecodeEncodeGroups(a: Alphabet, bs: Str)
    ensures DecodeGroups(a, Encode(a, bs)) == Some(bs)
  {
    if bs != [] {
      hide Encode;
      hide DecodeGroups;
      if |bs| >= 3 {
        DecodeEncodeGroups(a, bs[3..]);
        ThreeOrMore(a, bs);
      } else if |bs| == 2 {
        TwoBytes(a, bs[0], bs[1]);
        assert bs == [bs[0], bs[1]];
      } else {
        OneByte(a, bs[0]);
        assert bs == [bs[0]];
      }
    }
  }

  lemma TwoBytes(a: Alphabet, b0: Byte, b1: Byte)
    ensures DecodeGroups(a, Encode(a, [b0, b1])) == Some([b0, b1])
  {
    ThreeBytes(a, b0, b1, 0);
    assert b1 % 16 * 4 + 0 / 64 == b1 % 16 * 4;
    hide Symbol;
    hide Value;
  }

  lemma OneByte(a: Alphabet, b0: Byte)
    ensures DecodeGroups(a, Encode(a, [b0])) == Some([b0])
  {
    ThreeBytes(a, b0, 0, 0);
    assert b0 % 4 * 16 + 0 / 16 == b0 % 4 * 16;
    hide Symbol;
    hide Value;
  }

  lemma ThreeBytes(a: Alphabet, b0: Byte, b1: Byte, b2: Byte)
    ensures Value(a, Symbol(a, b0 / 4)) == Some(b0 / 4)
    ensures Value(a, Symbol(a, b0 % 4 * 16 + b1 / 16)) == Some(b0 % 4 * 16 + b1 / 16)
    ensures Value(a, Symbol(a, b1 % 16 * 4 + b2 / 64)) == Some(b1 % 16 * 4 + b2 / 64)
    ensures Value(a, Symbol(a, b2 % 64)) == Some(b2 % 64)
    ensures b0 / 4 * 4 + (b0 % 4 * 16 + b1 / 16) / 16 == b0
    ensures (b0 % 4 * 16 + b1 / 16) % 16 * 16 + (b1 % 16 * 4 + b2 / 64) / 4 == b1
    ensures (b1 % 16 * 4 + b2 / 64) % 4 * 64 + b2 % 64 == b2
  {
  }

  /** The alphabets of sections 4 and 5 of RFC 4648; they differ in the last two symbols. */
  lemma SymbolsAre(v: nat)
    requires v < 64
    ensures v < 26 ==> Symbol(Standard, v) == 'A' as int + v
    ensures 26 <= v < 52 ==> Symbol(Standard, v) == 'a' as int + v - 26
    ensures 52 <= v < 62 ==> Symbol(Standard, v) == '0' as int + v - 52
    ensures Symbol(Standard, 62) == '+' as int && Symbol(Standard, 63) == '/' as int
    ensures Symbol(UrlSafe, v) == if v == 62 then '-' as int else if v == 63 then '_' as int else Symbol(Standard, v)
  {
  }

  /** Three bytes and their four symbols are the same number, in base 256 and in base 64; one or two bytes at the end
      are encoded as if zeros followed, without the symbols that only zeros would give. */
  lemma EncodesNumbers(a: Alphabet, b0: Byte, b1: Byte, b2: Byte, rest: Str)
    ensures var s := Encode(a, [b0, b1, b2]);
            && |s| == 4 && Encode(a, [b0, b1, b2] + rest) == s + Encode(a, rest)
            && b0 * 0x1_0000 + b1 * 0x100 + b2
               == Value(a, s[0]).value * 0x4_0000 + Value(a, s[1]).value * 0x1000 + Value(a, s[2]).value * 0x40
                  + Value(a, s[3]).value
    ensures Encode(a, [b0]) == Encode(a, [b0, 0, 0])[..2] && Encode(a, [b0, b1]) == Encode(a, [b0, b1, 0])[..3]
  {
    ThreeBytes(a, b0, b1, b2);
    hide Symbol;
    hide Value;
    assert ([b0, b1, b2] + rest)[3..] == rest;
    assert [b0, b1, b2][3..] == [];
  }

  predicate Readable(a: Alphabet, c: Byte) { Value(a, c).Some? || c == 10 || c == 13 }

  /** A text can be decoded exactly if it holds nothing but symbols, carriage returns and newlines, and the number of
      symbols does not leave one alone. */
  lemma DecodesExactly(a: Alphabet, s: Str)
    ensures Decode(a, s).Some?
        <==> (forall k :: 0 <= k < |s| ==> Readable(a, s[k])) && |Visible(s)| % 4 != 1
  {
    VisibleReadable(a, s);
    GroupsDecode(a, Visible(s));
    hide Value;
    hide DecodeGroups;
  }

  lemma {:induction false} VisibleReadable(a: Alphabet, s: Str)
    ensures InAlphabet(a, Visible(s)) <==> forall k :: 0 <= k < |s| ==> Readable(a, s[k])
    ensures forall c :: c in Visible(s) <==> c in s && c != 10 && c != 13
  {
    if s != [] {
      VisibleReadable(a, s[1..]);
      assert s == [s[0]] + s[1..];
      var rest := Visible(s[1..]);
      assert InAlphabet(a, [s[0]] + rest) <==> Value(a, s[0]).Some? && InAlphabet(a, rest) by {
        assert ([s[0]] + rest)[0] == s[0];
        assert forall k :: 0 <= k < |rest| ==> ([s[0]] + rest)[k + 1] == rest[k];
      }
    }
  }

  lemma {:induction false} GroupsDecode(a: Alphabet, s: Str)
    ensures DecodeGroups(a, s).Some? <==> InAlphabet(a, s) && |s| % 4 != 1
  {
    if |s| >= 4 {
      GroupsDecode(a, s[4..]);
      assert s == s[..4] + s[4..];
    }
    hide Value;
  }

  /** Decoding undoes encoding, for every byte string and both alphabets. */
  lemma DecodeEncode(a: Alphabet, bs: Str)
    ensures Decode(a, Encode(a, bs)) == Some(bs)
  {
    AlphabetIsVisible(a, Encode(a, bs));
    DecodeEncodeGroups(a, bs);
  }
}
