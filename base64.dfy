/** `btoa`: the base 64 encoding of section 4 of RFC 4648 applied to a string
    whose characters are all bytes (code points below 256), with `=` padding.
    The decoder is here only to show that the encoding loses nothing. */
module Base64 {
  import opened Types

  /** The pad symbol; the 64 value symbols are given by `Symbol`. */
  const Pad: char := '='

  /** `btoa` accepts a string only when every character is a byte. */
  predicate IsByteString(s: string) {
    forall i :: 0 <= i < |s| ==> s[i] as int < 256
  }

  /** The symbol for a 6-bit value, from the table in section 4 of RFC 4648:
      `A`-`Z`, `a`-`z`, `0`-`9`, `+`, `/`. */
  function Symbol(v: nat): (c: char)
    requires v < 64
    ensures c != Pad
  {
    if v < 26 then ('A' as int + v) as char
    else if v < 52 then ('a' as int + (v - 26)) as char
    else if v < 62 then ('0' as int + (v - 52)) as char
    else if v == 62 then '+'
    else '/'
  }

  /** The value of a symbol (0 for anything outside the alphabet). */
  function Value(c: char): (v: nat)
    ensures v < 64
  {
    if 'A' <= c <= 'Z' then c as int - 'A' as int
    else if 'a' <= c <= 'z' then c as int - 'a' as int + 26
    else if '0' <= c <= '9' then c as int - '0' as int + 52
    else if c == '+' then 62
    else if c == '/' then 63
    else 0
  }

  lemma SymbolValue(v: nat)
    requires v < 64
    ensures Value(Symbol(v)) == v
  {
  }

  /** The boundaries of the four ranges of the alphabet. */
  lemma AlphabetRanges()
    ensures Symbol(0) == 'A' && Symbol(25) == 'Z'
    ensures Symbol(26) == 'a' && Symbol(51) == 'z'
    ensures Symbol(52) == '0' && Symbol(61) == '9'
    ensures Symbol(62) == '+' && Symbol(63) == '/'
  {
  }

  /** The test vectors of section 10 of RFC 4648 that fit in one group. */
  lemma RfcShortVectors()
    ensures Encode("f") == "Zg=="
    ensures Encode("fo") == "Zm8="
    ensures Encode("foo") == "Zm9v"
  {
    assert Encode("f") == "Zg==";
    assert Encode("fo") == "Zm8=";
  }

  /** The test vectors of section 10 of RFC 4648 that take two groups. */
  lemma RfcLongVectors()
    ensures Encode("foob") == "Zm9vYg=="
    ensures Encode("fooba") == "Zm9vYmE="
    ensures Encode("foobar") == "Zm9vYmFy"
  {
    RfcShortVectors();
    SecondGroups();
    assert "foob"[..3] == "foo" && "foob"[3..] == "b";
    assert "fooba"[..3] == "foo" && "fooba"[3..] == "ba";
    assert "foobar"[..3] == "foo" && "foobar"[3..] == "bar";
  }

  /** The second groups of the two-group vectors, encoded on their own. */
  lemma SecondGroups()
    ensures Encode("b") == "Yg=="
    ensures Encode("ba") == "YmE="
    ensures Encode("bar") == "YmFy"
  {
    assert Encode("b") == "Yg==";
    assert Encode("ba") == "YmE=";
  }

  /** One group of one to three bytes becomes four symbols; a short group is
      zero-filled to a whole symbol and padded with `=`. */
  function EncodeGroup(g: string): (r: string)
    requires 1 <= |g| <= 3 && IsByteString(g)
    ensures |r| == 4
    ensures |g| == 3 ==> r[2] != Pad && r[3] != Pad
  {
    var b0 := g[0] as int;
    if |g| == 1 then
      [Symbol(b0 / 4), Symbol((b0 % 4) * 16), Pad, Pad]
    else
      var b1 := g[1] as int;
      if |g| == 2 then
        [Symbol(b0 / 4), Symbol((b0 % 4) * 16 + b1 / 16), Symbol((b1 % 16) * 4), Pad]
      else
        var b2 := g[2] as int;
        [Symbol(b0 / 4), Symbol((b0 % 4) * 16 + b1 / 16), Symbol((b1 % 16) * 4 + b2 / 64), Symbol(b2 % 64)]
  }

  function Encode(s: string): (r: string)
    requires IsByteString(s)
    ensures |r| == 4 * ((|s| + 2) / 3)
    decreases |s|
  {
    if |s| == 0 then []
    else if |s| <= 3 then EncodeGroup(s)
    else
      ByteStringSplit(s, 3);
      GroupCount(|s| - 3);
      EncodeGroup(s[..3]) + Encode(s[3..])
  }

  lemma ByteStringSplit(s: string, i: nat)
    requires IsByteString(s) && i <= |s|
    ensures IsByteString(s[..i]) && IsByteString(s[i..])
  {
    assert forall j :: 0 <= j < i ==> s[..i][j] == s[j];
    assert forall j :: 0 <= j < |s| - i ==> s[i..][j] == s[i + j];
  }

  lemma GroupCount(n: nat)
    ensures (n + 2) / 3 + 1 == (n + 3 + 2) / 3
  {
  }

  /** `btoa(s)`: throws `InvalidCharacterError` on a character above 255. */
  function Btoa(s: string): (r: Result<string>)
    ensures r.Success? <==> IsByteString(s)
    ensures r.Success? ==> |r.value| == 4 * ((|s| + 2) / 3)
  {
    if IsByteString(s) then Success(Encode(s)) else Failure("InvalidCharacterError")
  }

  /** Decodes whole groups of four symbols; a group with padding ends the text. */
  function Decode(t: string): (r: string)
    decreases |t|
  {
    if |t| < 4 then []
    else
      var c0, c1, c2, c3 := Value(t[0]), Value(t[1]), Value(t[2]), Value(t[3]);
      var b0 := (c0 * 4 + c1 / 16) as char;
      if t[2] == Pad then [b0]
      else
        var b1 := ((c1 % 16) * 16 + c2 / 4) as char;
        if t[3] == Pad then [b0, b1]
        else [b0, b1, ((c2 % 4) * 64 + c3) as char] + Decode(t[4..])
  }

  /** The three arithmetic facts behind decoding: each byte is recovered
      from the two symbols that carry its bits. */
  lemma RecoverFirst(b0: nat, b1: nat)
    requires b0 < 256 && b1 < 256
    ensures (b0 / 4) * 4 + ((b0 % 4) * 16 + b1 / 16) / 16 == b0
  {
    assert ((b0 % 4) * 16 + b1 / 16) / 16 == b0 % 4;
  }

  lemma RecoverSecond(b1: nat, b2: nat, hi: nat)
    requires b1 < 256 && b2 < 256 && hi < 4
    ensures ((hi * 16 + b1 / 16) % 16) * 16 + ((b1 % 16) * 4 + b2 / 64) / 4 == b1
  {
    assert (hi * 16 + b1 / 16) % 16 == b1 / 16;
    assert ((b1 % 16) * 4 + b2 / 64) / 4 == b1 % 16;
  }

  lemma RecoverThird(b2: nat, lo: nat)
    requires b2 < 256 && lo < 16
    ensures ((lo * 4 + b2 / 64) % 4) * 64 + b2 % 64 == b2
  {
    assert (lo * 4 + b2 / 64) % 4 == b2 / 64;
  }

  /** A group of one byte: `b0` comes back from the first two symbols. */
  lemma DecodeGroupOne(g: string)
    requires |g| == 1 && IsByteString(g)
    ensures Decode(EncodeGroup(g)) == g
  {
    var e := EncodeGroup(g);
    var b0 := g[0] as int;
    SymbolValue(b0 / 4);
    SymbolValue((b0 % 4) * 16);
    RecoverFirst(b0, 0);
    assert Value(e[0]) * 4 + Value(e[1]) / 16 == b0;
  }

  /** A group of two bytes: the third symbol holds the rest of `b1`. */
  lemma DecodeGroupTwo(g: string)
    requires |g| == 2 && IsByteString(g)
    ensures Decode(EncodeGroup(g)) == g
  {
    var e := EncodeGroup(g);
    var b0, b1 := g[0] as int, g[1] as int;
    SymbolValue(b0 / 4);
    SymbolValue((b0 % 4) * 16 + b1 / 16);
    SymbolValue((b1 % 16) * 4);
    RecoverFirst(b0, b1);
    RecoverSecond(b1, 0, b0 % 4);
    assert Value(e[0]) * 4 + Value(e[1]) / 16 == b0;
    assert (Value(e[1]) % 16) * 16 + Value(e[2]) / 4 == b1;
  }

  /** A full group: all three bytes come back and nothing follows. */
  lemma DecodeGroupThree(g: string)
    requires |g| == 3 && IsByteString(g)
    ensures Decode(EncodeGroup(g)) == g
  {
    var e := EncodeGroup(g);
    var b0, b1, b2 := g[0] as int, g[1] as int, g[2] as int;
    var v0, v1, v2, v3 := b0 / 4, (b0 % 4) * 16 + b1 / 16, (b1 % 16) * 4 + b2 / 64, b2 % 64;
    assert e == [Symbol(v0), Symbol(v1), Symbol(v2), Symbol(v3)];
    DecodeSymbols(v0, v1, v2, v3);
    RecoverGroup(b0, b1, b2);
    CharsOfBytes(g);
  }

  lemma CharsOfBytes(g: string)
    requires |g| == 3
    ensures g == [(g[0] as int) as char, (g[1] as int) as char, (g[2] as int) as char]
  {
  }

  /** Four unpadded symbols decode to the bytes their values spell. */
  lemma DecodeSymbols(v0: nat, v1: nat, v2: nat, v3: nat)
    requires v0 < 64 && v1 < 64 && v2 < 64 && v3 < 64
    ensures Decode([Symbol(v0), Symbol(v1), Symbol(v2), Symbol(v3)])
         == [(v0 * 4 + v1 / 16) as char, ((v1 % 16) * 16 + v2 / 4) as char, ((v2 % 4) * 64 + v3) as char]
  {
    SymbolValue(v0);
    SymbolValue(v1);
    SymbolValue(v2);
    SymbolValue(v3);
    DecodeFullGroup([Symbol(v0), Symbol(v1), Symbol(v2), Symbol(v3)]);
  }

  /** The three recoveries together, for a full group. */
  lemma RecoverGroup(b0: nat, b1: nat, b2: nat)
    requires b0 < 256 && b1 < 256 && b2 < 256
    ensures var v0, v1, v2, v3 := b0 / 4, (b0 % 4) * 16 + b1 / 16, (b1 % 16) * 4 + b2 / 64, b2 % 64;
      && v0 * 4 + v1 / 16 == b0
      && (v1 % 16) * 16 + v2 / 4 == b1
      && (v2 % 4) * 64 + v3 == b2
  {
    RecoverFirst(b0, b1);
    RecoverSecond(b1, b2, b0 % 4);
    RecoverThird(b2, b1 % 16);
  }

  /** An unpadded group of four symbols decodes to three bytes. */
  lemma DecodeFullGroup(e: string)
    requires |e| == 4 && e[2] != Pad && e[3] != Pad
    ensures Decode(e) == [(Value(e[0]) * 4 + Value(e[1]) / 16) as char,
                          ((Value(e[1]) % 16) * 16 + Value(e[2]) / 4) as char,
                          ((Value(e[2]) % 4) * 64 + Value(e[3])) as char]
  {
    assert e[4..] == [];
  }

  lemma DecodeGroup(g: string)
    requires 1 <= |g| <= 3 && IsByteString(g)
    ensures Decode(EncodeGroup(g)) == g
  {
    if |g| == 1 {
      DecodeGroupOne(g);
    } else if |g| == 2 {
      DecodeGroupTwo(g);
    } else {
      DecodeGroupThree(g);
    }
  }

  /** A group without padding decodes on its own and lets decoding go on. */
  lemma DecodeUnpadded(group: string, rest: string)
    requires |group| == 4 && group[2] != Pad && group[3] != Pad
    ensures Decode(group + rest) == Decode(group) + Decode(rest)
  {
    var t := group + rest;
    assert t[..4] == group && t[4..] == rest;
    assert group[4..] == [];
  }

  /** Decoding undoes encoding: `btoa` is injective on byte strings. */
  lemma {:induction false} DecodeEncode(s: string)
    requires IsByteString(s)
    ensures Decode(Encode(s)) == s
    decreases |s|
  {
    if |s| == 0 {
    } else if |s| <= 3 {
      DecodeGroup(s);
    } else {
      var g, rest := s[..3], s[3..];
      var eg := EncodeGroup(g);
      assert Encode(s) == eg + Encode(rest);
      DecodeUnpadded(eg, Encode(rest));
      DecodeGroup(g);
      DecodeEncode(rest);
      assert s == g + rest;
    }
  }

  /** Three bytes make four symbols on their own, so the first eight symbols
      of the encoding are the encoding of the first six bytes. */
  lemma EncodeFirstSix(s: string)
    requires IsByteString(s) && |s| >= 6
    ensures |Encode(s)| >= 8
    ensures Encode(s)[..8] == Encode(s[..6])
  {
    ByteStringSplit(s, 6);
    var six := s[..6];
    EncodeStep(six);
    assert six[..3] == s[..3] && six[3..] == s[3..6];
    var first, second := EncodeGroup(s[..3]), EncodeGroup(s[3..6]);
    assert Encode(six) == first + second;
    if |s| > 6 {
      ByteStringSplit(s, 3);
      var t := s[3..];
      EncodeStep(s);
      EncodeStep(t);
      assert t[..3] == s[3..6] && t[3..] == s[6..];
      assert Encode(s) == first + (second + Encode(s[6..]));
      assert (first + (second + Encode(s[6..])))[..8] == first + second;
    } else {
      assert six == s;
    }
  }

  /** Encoding takes the first group off and goes on with the rest. */
  lemma EncodeStep(s: string)
    requires IsByteString(s) && |s| > 3
    ensures IsByteString(s[..3]) && IsByteString(s[3..])
    ensures Encode(s) == EncodeGroup(s[..3]) + Encode(s[3..])
  {
    ByteStringSplit(s, 3);
  }
}
