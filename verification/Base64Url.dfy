/** Unpadded base64url: the printer of public keys in the browser and the parser of the
    anchor routes. `btoa` and `atob` follow sections 4 and 5 of RFC 4648; `atob` is the
    forgiving decoder browsers implement. */
module Base64Url {
  import opened Basics

  type Byte = b: int | 0 <= b < 256

  type Digit = d: int | 0 <= d < 64

  // ----- Characters --------------------------------------------------------------------

  function ToChar(d: Digit): char {
    if d < 26 then (d + 65) as char
    else if d < 52 then (d + 71) as char
    else if d < 62 then (d - 4) as char
    else if d == 62 then '+'
    else '/'
  }

  function FromChar(c: char): Option<Digit> {
    if 'A' <= c <= 'Z' then Some(c as int - 65)
    else if 'a' <= c <= 'z' then Some(c as int - 71)
    else if '0' <= c <= '9' then Some(c as int + 4)
    else if c == '+' then Some(62)
    else if c == '/' then Some(63)
    else None
  }

  function Chars(ds: seq<Digit>): string {
    seq(|ds|, i requires 0 <= i < |ds| => ToChar(ds[i]))
  }

  predicate AllInAlphabet(s: string) {
    forall i | 0 <= i < |s| :: FromChar(s[i]).Some?
  }

  function Digits(s: string): seq<Digit>
    requires AllInAlphabet(s)
  {
    seq(|s|, i requires 0 <= i < |s| => FromChar(s[i]).value)
  }

  /** `replaceAll` with a single character to replace. */
  function ReplaceAll(s: string, c: char, r: string): string {
    if s == [] then [] else ReplaceAll(s[..|s| - 1], c, r) + (if s[|s| - 1] == c then r else [s[|s| - 1]])
  }

  // ----- Groups of three bytes and four digits --------------------------------------------

  function Digit0(b0: Byte): Digit { b0 / 4 }
  function Digit1(b0: Byte, b1: Byte): Digit { b0 % 4 * 16 + b1 / 16 }
  function Digit2(b1: Byte, b2: Byte): Digit { b1 % 16 * 4 + b2 / 64 }
  function Digit3(b2: Byte): Digit { b2 % 64 }

  function Byte0(d0: Digit, d1: Digit): Byte { d0 * 4 + d1 / 16 }
  function Byte1(d1: Digit, d2: Digit): Byte { d1 % 16 * 16 + d2 / 4 }
  function Byte2(d2: Digit, d3: Digit): Byte { d2 % 4 * 64 + d3 }

  function EncodeDigits(bs: seq<Byte>): seq<Digit> {
    if |bs| == 0 then []
    else if |bs| == 1 then [Digit0(bs[0]), Digit1(bs[0], 0)]
    else if |bs| == 2 then [Digit0(bs[0]), Digit1(bs[0], bs[1]), Digit2(bs[1], 0)]
    else [Digit0(bs[0]), Digit1(bs[0], bs[1]), Digit2(bs[1], bs[2]), Digit3(bs[2])] + EncodeDigits(bs[3..])
  }

  /** Left-over bits, four or two of them, are dropped. */
  function DecodeDigits(ds: seq<Digit>): seq<Byte>
    requires |ds| % 4 != 1
  {
    if |ds| == 0 then []
    else if |ds| == 2 then [Byte0(ds[0], ds[1])]
    else if |ds| == 3 then [Byte0(ds[0], ds[1]), Byte1(ds[1], ds[2])]
    else [Byte0(ds[0], ds[1]), Byte1(ds[1], ds[2]), Byte2(ds[2], ds[3])] + DecodeDigits(ds[4..])
  }

  /** Three bytes and their four digits write the same 24-bit number, high end first. */
  lemma {:induction false} SameNumber(b0: Byte, b1: Byte, b2: Byte)
    ensures Digit0(b0) * 262144 + Digit1(b0, b1) * 4096 + Digit2(b1, b2) * 64 + Digit3(b2)
         == b0 * 65536 + b1 * 256 + b2
  {
  }

  lemma {:induction false} BytesBack(b0: Byte, b1: Byte, b2: Byte)
    ensures Byte0(Digit0(b0), Digit1(b0, b1)) == b0
    ensures Byte1(Digit1(b0, b1), Digit2(b1, b2)) == b1
    ensures Byte2(Digit2(b1, b2), Digit3(b2)) == b2
  {
  }

  lemma {:induction false} DigitsBack(d0: Digit, d1: Digit, d2: Digit, d3: Digit)
    ensures Digit0(Byte0(d0, d1)) == d0
    ensures Digit1(Byte0(d0, d1), Byte1(d1, d2)) == d1
    ensures Digit2(Byte1(d1, d2), Byte2(d2, d3)) == d2
    ensures Digit3(Byte2(d2, d3)) == d3
    ensures Digit1(Byte0(d0, d1), 0) == d1 <==> d1 % 16 == 0
    ensures Digit2(Byte1(d1, d2), 0) == d2 <==> d2 % 4 == 0
  {
  }

  function Padding(n: nat): string {
    if n % 4 == 2 then "==" else if n % 4 == 3 then "=" else ""
  }

  /** `btoa`: throws on a character beyond Latin-1. */
  function Btoa(binary: string): Option<string> {
    if exists i | 0 <= i < |binary| :: binary[i] as int > 255 then None
    else
      var ds := EncodeDigits(seq(|binary|, i requires 0 <= i < |binary| => binary[i] as int));
      Some(Chars(ds) + Padding(|ds|))
  }

  predicate IsWhitespace(c: char) {
    c == '\t' || c == '\n' || c as int == 12 || c == '\r' || c == ' '
  }

  function StripWhitespace(s: string): string {
    if s == [] then []
    else StripWhitespace(s[..|s| - 1]) + (if IsWhitespace(s[|s| - 1]) then [] else [s[|s| - 1]])
  }

  function StripPadding(s: string): string {
    var n := |s|;
    if n % 4 != 0 || n == 0 then s
    else if s[n - 1] == '=' && s[n - 2] == '=' then s[..n - 2]
    else if s[n - 1] == '=' then s[..n - 1]
    else s
  }

  /** `atob`: drops whitespace and padding, then wants a possible length and alphabet characters only. */
  function Atob(s: string): Option<seq<Byte>> {
    DecodeData(StripPadding(StripWhitespace(s)))
  }

  function DecodeData(data: string): Option<seq<Byte>> {
    if |data| % 4 == 1 || !AllInAlphabet(data) then None else Some(DecodeDigits(Digits(data)))
  }

  function Repeat(c: char, n: nat): string {
    seq(n, i => c)
  }

  // ----- The two functions ---------------------------------------------------------------------

  function BinaryString(bytes: seq<Byte>): string {
    seq(|bytes|, i requires 0 <= i < |bytes| => bytes[i] as char)
  }

  /** What `base64Url` prints: the digits in the URL-safe alphabet, without padding. */
  function Encode(bytes: seq<Byte>): string {
    UrlChars(EncodeDigits(bytes))
  }

  function UrlChar(d: Digit): char {
    if d == 62 then '-' else if d == 63 then '_' else ToChar(d)
  }

  function UrlChars(ds: seq<Digit>): string {
    seq(|ds|, i requires 0 <= i < |ds| => UrlChar(ds[i]))
  }

  /** What is missing to the next multiple of four. */
  function Missing(length: nat): (n: nat)
    ensures n <= 3 && (length + n) % 4 == 0
    ensures n == 3 <==> length % 4 == 1
  {
    (4 - length % 4) % 4
  }

  /** `base64UrlToBytes`. */
  function Base64UrlToBytes(value: string): Option<seq<Byte>> {
    var base64 := ReplaceAll(ReplaceAll(value, '-', "+"), '_', "/");
    Atob(base64 + Repeat('=', Missing(|base64|)))
  }

  lemma {:induction false} ReplaceEach(s: string, c: char, r: char)
    ensures |ReplaceAll(s, c, [r])| == |s|
    ensures forall i | 0 <= i < |s| :: ReplaceAll(s, c, [r])[i] == Swap(s[i], c, r)
  {
    if s != [] {
      ReplaceEach(s[..|s| - 1], c, r);
    }
  }

  lemma {:induction false} ReplaceInConcat(s: string, t: string, c: char, r: string)
    ensures ReplaceAll(s + t, c, r) == ReplaceAll(s, c, r) + ReplaceAll(t, c, r)
  {
    if t == [] {
      assert s + t == s;
    } else {
      var u := t[..|t| - 1];
      assert (s + t)[..|s + t| - 1] == s + u;
      ReplaceInConcat(s, u, c, r);
    }
  }

  lemma {:induction false} ReplaceNothing(s: string, c: char, r: string)
    requires c !in s
    ensures ReplaceAll(s, c, r) == s
  {
    if s != [] {
      ReplaceNothing(s[..|s| - 1], c, r);
    }
  }

  lemma {:induction false} StripNothing(s: string)
    requires forall i | 0 <= i < |s| :: !IsWhitespace(s[i])
    ensures StripWhitespace(s) == s
  {
    if s != [] {
      StripNothing(s[..|s| - 1]);
    }
  }

  function Swap(c: char, from: char, to: char): char {
    if c == from then to else c
  }

  lemma {:induction false} UrlCharOf(d: Digit)
    ensures Swap(Swap(ToChar(d), '+', '-'), '/', '_') == UrlChar(d)
    ensures Swap(Swap(UrlChar(d), '-', '+'), '_', '/') == ToChar(d)
  {
  }

  lemma {:induction false} ReplaceTwice(s: string, c1: char, r1: char, c2: char, r2: char)
    ensures ReplaceAll(ReplaceAll(s, c1, [r1]), c2, [r2])
         == seq(|s|, i requires 0 <= i < |s| => Swap(Swap(s[i], c1, r1), c2, r2))
  {
    ReplaceEach(s, c1, r1);
    ReplaceEach(ReplaceAll(s, c1, [r1]), c2, r2);
  }

  lemma {:induction false} UrlAlphabet(ds: seq<Digit>)
    ensures ReplaceAll(ReplaceAll(Chars(ds), '+', "-"), '/', "_") == UrlChars(ds)
  {
    ReplaceTwice(Chars(ds), '+', '-', '/', '_');
    forall i | 0 <= i < |ds|
      ensures Swap(Swap(Chars(ds)[i], '+', '-'), '/', '_') == UrlChars(ds)[i]
    {
      UrlCharOf(ds[i]);
    }
  }

  lemma {:induction false} StandardAlphabet(ds: seq<Digit>)
    ensures ReplaceAll(ReplaceAll(UrlChars(ds), '-', "+"), '_', "/") == Chars(ds)
  {
    ReplaceTwice(UrlChars(ds), '-', '+', '_', '/');
    forall i | 0 <= i < |ds|
      ensures Swap(Swap(UrlChars(ds)[i], '-', '+'), '_', '/') == Chars(ds)[i]
    {
      UrlCharOf(ds[i]);
    }
  }

  lemma {:induction false} NoEquals(ds: seq<Digit>)
    ensures '=' !in UrlChars(ds)
  {
  }

  /** The replacements turn the standard alphabet into the URL-safe one and strip exactly the padding. */
  lemma {:induction false} UrlSafe(ds: seq<Digit>)
    ensures
      var padded := Chars(ds) + Padding(|ds|);
      ReplaceAll(ReplaceAll(ReplaceAll(padded, '+', "-"), '/', "_"), '=', "") == UrlChars(ds)
  {
    var padding := Padding(|ds|);
    var a := ReplaceAll(Chars(ds), '+', "-");
    UrlAlphabet(ds);
    ReplaceInConcat(Chars(ds), padding, '+', "-");
    ReplaceNothing(padding, '+', "-");
    ReplaceInConcat(a, padding, '/', "_");
    ReplaceNothing(padding, '/', "_");
    ReplaceInConcat(UrlChars(ds), padding, '=', "");
    NoEquals(ds);
    ReplaceNothing(UrlChars(ds), '=', "");
    PaddingVanishes(|ds|);
  }

  lemma {:induction false} PaddingVanishes(n: nat)
    ensures ReplaceAll(Padding(n), '=', "") == ""
  {
    assert "="[..0] == "";
    assert "=="[..1] == "=";
  }

  lemma {:induction false} BtoaOfBytes(bytes: seq<Byte>)
    ensures Btoa(BinaryString(bytes)) == Some(Chars(EncodeDigits(bytes)) + Padding(|EncodeDigits(bytes)|))
  {
    var binary := BinaryString(bytes);
    assert seq(|binary|, i requires 0 <= i < |binary| => binary[i] as int) == bytes;
  }

  /** The URL-safe alphabet, table 2 of RFC 4648: capitals, small letters, digits, `-`, `_`. */
  lemma {:induction false} AlphabetRuns(d: Digit)
    ensures UrlChar(0) == 'A' && UrlChar(25) == 'Z' && UrlChar(26) == 'a' && UrlChar(51) == 'z'
    ensures UrlChar(52) == '0' && UrlChar(61) == '9' && UrlChar(62) == '-' && UrlChar(63) == '_'
    ensures 0 < d < 62 && d !in {26, 52} ==> UrlChar(d) as int == UrlChar(d - 1) as int + 1
  {
  }

  /** `base64Url`: the loop that builds the binary string, then `btoa` and the replacements. */
  method Base64Url(bytes: seq<Byte>) returns (printed: string)
    ensures printed == Encode(bytes)
  {
    var binary := "";
    for i := 0 to |bytes|
      invariant binary == BinaryString(bytes[..i])
    {
      binary := binary + [bytes[i] as char];
    }
    assert bytes[..|bytes|] == bytes;
    BtoaOfBytes(bytes);
    UrlSafe(EncodeDigits(bytes));
    printed := ReplaceAll(ReplaceAll(ReplaceAll(Btoa(binary).value, '+', "-"), '/', "_"), '=', "");
  }

  // ----- Lengths ----------------------------------------------------------------------------------

  lemma {:induction false} ThirdsMore(n: nat)
    ensures (4 * (n + 3) + 2) / 3 == (4 * n + 2) / 3 + 4
    ensures (4 * n + 2) / 3 % 4 != 1
  {
    assert n == n / 3 * 3 + n % 3;
  }

  lemma {:induction false} DigitsLength(bytes: seq<Byte>)
    ensures |EncodeDigits(bytes)| == (4 * |bytes| + 2) / 3
    decreases |bytes|
  {
    if |bytes| >= 3 {
      DigitsLength(bytes[3..]);
      ThirdsMore(|bytes| - 3);
    }
  }

  lemma {:induction false} StrippedIsMissing(n: nat)
    requires n % 4 != 1
    ensures Repeat('=', Missing(n)) == Padding(n)
  {
  }

  /** The printed length is ceil(4n/3), never 1 modulo 4; so what the parser appends is what was stripped. */
  lemma {:induction false} EncodedLength(bytes: seq<Byte>)
    ensures |Encode(bytes)| == (4 * |bytes| + 2) / 3
    ensures |Encode(bytes)| % 4 != 1
    ensures Repeat('=', Missing(|Encode(bytes)|)) == Padding(|Encode(bytes)|)
  {
    DigitsLength(bytes);
    ThirdsMore(|bytes|);
    StrippedIsMissing(|Encode(bytes)|);
  }

  // ----- Round trips --------------------------------------------------------------------------------

  lemma {:induction false} DecodeEncodeDigits(bs: seq<Byte>)
    ensures |EncodeDigits(bs)| % 4 != 1
    ensures DecodeDigits(EncodeDigits(bs)) == bs
  {
    if |bs| >= 3 {
      DecodeEncodeDigits(bs[3..]);
      DecodeEncodeGroup(bs);
      assert bs == bs[..3] + bs[3..];
    } else {
      DecodeEncodeRest(bs);
    }
  }

  lemma {:induction false} DecodeEncodeRest(bs: seq<Byte>)
    requires |bs| < 3
    ensures |EncodeDigits(bs)| % 4 != 1
    ensures DecodeDigits(EncodeDigits(bs)) == bs
  {
    if |bs| == 1 {
      OneByteBack(bs[0]);
      assert bs == [bs[0]];
    } else if |bs| == 2 {
      TwoBytesBack(bs[0], bs[1]);
      assert bs == [bs[0], bs[1]];
    }
  }

  lemma {:induction false} OneByteBack(b: Byte)
    ensures |EncodeDigits([b])| == 2
    ensures DecodeDigits(EncodeDigits([b])) == [b]
  {
  }

  lemma {:induction false} TwoBytesBack(b: Byte, c: Byte)
    ensures |EncodeDigits([b, c])| == 3
    ensures DecodeDigits(EncodeDigits([b, c])) == [b, c]
  {
    BytesBack(b, c, 0);
    DecodeThree(Digit0(b), Digit1(b, c), Digit2(c, 0), b, c);
  }

  lemma {:induction false} DecodeThree(d0: Digit, d1: Digit, d2: Digit, b: Byte, c: Byte)
    requires Byte0(d0, d1) == b && Byte1(d1, d2) == c
    ensures DecodeDigits([d0, d1, d2]) == [b, c]
  {
  }

  lemma {:induction false} DecodeGroup(d0: Digit, d1: Digit, d2: Digit, d3: Digit, rest: seq<Digit>)
    requires |rest| % 4 != 1
    ensures |[d0, d1, d2, d3] + rest| % 4 != 1
    ensures DecodeDigits([d0, d1, d2, d3] + rest) == [Byte0(d0, d1), Byte1(d1, d2), Byte2(d2, d3)] + DecodeDigits(rest)
  {
    assert ([d0, d1, d2, d3] + rest)[4..] == rest;
  }

  lemma {:induction false} DecodeEncodeGroup(bs: seq<Byte>)
    requires |bs| >= 3
    requires |EncodeDigits(bs[3..])| % 4 != 1
    ensures |EncodeDigits(bs)| % 4 != 1
    ensures DecodeDigits(EncodeDigits(bs)) == bs[..3] + DecodeDigits(EncodeDigits(bs[3..]))
  {
    BytesBack(bs[0], bs[1], bs[2]);
    DecodeGroup(Digit0(bs[0]), Digit1(bs[0], bs[1]), Digit2(bs[1], bs[2]), Digit3(bs[2]), EncodeDigits(bs[3..]));
  }

  /** The bits after the last whole byte are zero. */
  predicate Canonical(ds: seq<Digit>) {
    && (|ds| % 4 == 2 ==> ds[|ds| - 1] % 16 == 0)
    && (|ds| % 4 == 3 ==> ds[|ds| - 1] % 4 == 0)
  }

  lemma {:induction false} EncodeDecodeDigits(ds: seq<Digit>)
    requires |ds| % 4 != 1
    ensures EncodeDigits(DecodeDigits(ds)) == ds <==> Canonical(ds)
  {
    if |ds| >= 4 {
      var group, rest := [ds[0], ds[1], ds[2], ds[3]], ds[4..];
      FourLess(|ds|);
      EncodeDecodeDigits(rest);
      EncodeDecodeGroup(ds[0], ds[1], ds[2], ds[3], rest);
      SameTail(group, EncodeDigits(DecodeDigits(rest)), rest);
      assert ds == group + rest;
      CanonicalTail(ds);
    } else {
      EncodeDecodeRest(ds);
    }
  }

  lemma {:induction false} SameTail(a: seq<Digit>, x: seq<Digit>, y: seq<Digit>)
    ensures a + x == a + y <==> x == y
  {
    assert (a + x)[|a|..] == x && (a + y)[|a|..] == y;
  }

  lemma {:induction false} CanonicalTail(ds: seq<Digit>)
    requires |ds| >= 4 && |ds| % 4 != 1
    ensures Canonical(ds) <==> Canonical(ds[4..])
  {
    FourLess(|ds|);
    assert |ds| % 4 != 0 ==> ds[4..][|ds| - 5] == ds[|ds| - 1];
  }

  lemma {:induction false} FourLess(n: nat)
    requires n >= 4
    ensures n % 4 == (n - 4) % 4
    ensures n % 4 != 0 ==> n > 4
  {
  }

  lemma {:induction false} EncodeDecodeRest(ds: seq<Digit>)
    requires |ds| < 4 && |ds| != 1
    ensures EncodeDigits(DecodeDigits(ds)) == ds <==> Canonical(ds)
  {
    if |ds| == 2 {
      DigitsBack(ds[0], ds[1], 0, 0);
    } else if |ds| == 3 {
      DigitsBack(ds[0], ds[1], ds[2], 0);
    }
  }

  lemma {:induction false} EncodeDecodeGroup(d0: Digit, d1: Digit, d2: Digit, d3: Digit, rest: seq<Digit>)
    requires |rest| % 4 != 1
    ensures |[d0, d1, d2, d3] + rest| % 4 != 1
    ensures EncodeDigits(DecodeDigits([d0, d1, d2, d3] + rest)) == [d0, d1, d2, d3] + EncodeDigits(DecodeDigits(rest))
  {
    DecodeGroup(d0, d1, d2, d3, rest);
    var bs := [Byte0(d0, d1), Byte1(d1, d2), Byte2(d2, d3)] + DecodeDigits(rest);
    assert bs[3..] == DecodeDigits(rest);
    DigitsBack(d0, d1, d2, d3);
  }

  lemma {:induction false} DigitsOfChars(ds: seq<Digit>)
    ensures AllInAlphabet(Chars(ds)) && Digits(Chars(ds)) == ds
  {
  }

  lemma {:induction false} NoWhitespace(ds: seq<Digit>)
    ensures forall i | 0 <= i < |ds| :: !IsWhitespace(Chars(ds)[i])
  {
  }

  lemma {:induction false} DataOfChars(ds: seq<Digit>)
    requires |ds| % 4 != 1
    ensures DecodeData(Chars(ds)) == Some(DecodeDigits(ds))
  {
    DigitsOfChars(ds);
  }

  lemma {:induction false} ParsesReplaced(value: string, ds: seq<Digit>)
    requires ReplaceAll(ReplaceAll(value, '-', "+"), '_', "/") == Chars(ds)
    ensures Base64UrlToBytes(value) == if |ds| % 4 == 1 then None else Some(DecodeDigits(ds))
  {
    assert |Chars(ds)| == |ds|;
    DecodesPadded(ds, Missing(|ds|));
  }

  /** The parser reads any string of URL-safe digits of a possible length. */
  lemma {:induction false} ParsesDigits(ds: seq<Digit>)
    ensures Base64UrlToBytes(UrlChars(ds)) == if |ds| % 4 == 1 then None else Some(DecodeDigits(ds))
  {
    StandardAlphabet(ds);
    ParsesReplaced(UrlChars(ds), ds);
  }

  lemma {:induction false} NotOneOver(length: nat, n: nat)
    requires n < 3 && (length + n) % 4 == 0
    ensures length % 4 != 1
  {
  }

  lemma {:induction false} DecodesPadded(ds: seq<Digit>, n: nat)
    requires n <= 3 && (|ds| + n) % 4 == 0
    ensures Atob(Chars(ds) + Repeat('=', n)) == if n == 3 then None else Some(DecodeDigits(ds))
  {
    AtobOfChars(ds, n);
    if n < 3 {
      NotOneOver(|ds|, n);
      DataOfChars(ds);
    }
  }

  lemma {:induction false} AtobOfChars(ds: seq<Digit>, n: nat)
    requires n <= 3 && (|ds| + n) % 4 == 0
    ensures Atob(Chars(ds) + Repeat('=', n)) == if n == 3 then None else DecodeData(Chars(ds))
  {
    NoWhitespace(ds);
    LastIsNotEquals(ds);
    AtobOfPadded(Chars(ds), n);
  }

  lemma {:induction false} AtobOfPadded(data: string, n: nat)
    requires n <= 3 && (|data| + n) % 4 == 0
    requires data != "" ==> data[|data| - 1] != '='
    requires forall i | 0 <= i < |data| :: !IsWhitespace(data[i])
    ensures Atob(data + Repeat('=', n)) == if n == 3 then None else DecodeData(data)
  {
    StripNothing(data + Repeat('=', n));
    PaddingComesOff(data, n);
  }

  lemma {:induction false} LastIsNotEquals(ds: seq<Digit>)
    ensures Chars(ds) != "" ==> Chars(ds)[|Chars(ds)| - 1] != '='
  {
  }

  lemma {:induction false} PaddingComesOff(data: string, n: nat)
    requires n <= 3 && (|data| + n) % 4 == 0
    requires data != "" ==> data[|data| - 1] != '='
    ensures n < 3 ==> StripPadding(data + Repeat('=', n)) == data
    ensures n == 3 ==> !AllInAlphabet(StripPadding(data + Repeat('=', n)))
  {
    var s := data + Repeat('=', n);
    if n == 0 {
      assert s == data;
    } else {
      assert s[|s| - 1] == '=' && s[|data|] == '=';
      assert s[..|data|] == data;
      if n == 3 {
        assert StripPadding(s)[|data|] == '=';
      }
    }
  }

  /** Parsing a printed byte string gives the bytes back. */
  lemma {:induction false} RoundTrip(bytes: seq<Byte>)
    ensures Base64UrlToBytes(Encode(bytes)) == Some(bytes)
  {
    ParsesDigits(EncodeDigits(bytes));
    DecodeEncodeDigits(bytes);
  }

  lemma {:induction false} EncodeIsInjective(a: seq<Byte>, b: seq<Byte>)
    requires Encode(a) == Encode(b)
    ensures a == b
  {
    RoundTrip(a);
    RoundTrip(b);
  }

  lemma {:induction false} DigitsPrintBack(ds: seq<Digit>)
    requires |ds| % 4 != 1
    ensures Base64UrlToBytes(UrlChars(ds)).Some?
    ensures Encode(Base64UrlToBytes(UrlChars(ds)).value) == UrlChars(ds) <==> Canonical(ds)
  {
    ParsesDigits(ds);
    EncodeDecodeDigits(ds);
    var es := EncodeDigits(DecodeDigits(ds));
    if UrlChars(es) == UrlChars(ds) {
      SameDigits(es, ds);
    }
  }

  /** The parser is looser than the printer. Of all the texts it reads, those that print back to
      themselves are the URL-safe digits whose dropped bits are zero: no plus or slash, no
      padding, no white space. */
  lemma {:induction false} PrintsBackIffCanonical(value: string)
    requires Base64UrlToBytes(value).Some?
    ensures Encode(Base64UrlToBytes(value).value) == value <==> exists ds :: value == UrlChars(ds) && Canonical(ds)
  {
    var bytes := Base64UrlToBytes(value).value;
    if Encode(bytes) == value {
      EncodedLength(bytes);
      DigitsPrintBack(EncodeDigits(bytes));
      assert value == UrlChars(EncodeDigits(bytes)) && Canonical(EncodeDigits(bytes));
    }
    if ds :| value == UrlChars(ds) && Canonical(ds) {
      ParsesDigits(ds);
      DigitsPrintBack(ds);
    }
  }

  // ----- What can be read -------------------------------------------------------------------------------

  /** A letter, a digit, or one of the two characters either alphabet has for 62 and 63. */
  predicate Base64Char(c: char) {
    var n := c as int;
    65 <= n <= 90 || 97 <= n <= 122 || 48 <= n <= 57 || n in {43, 47, 45, 95}
  }

  lemma {:induction false} SwappedIsInAlphabet(c: char)
    ensures FromChar(Swap(Swap(c, '-', '+'), '_', '/')).Some? <==> Base64Char(c)
  {
  }

  lemma {:induction false} ReplacedReads(value: string, data: string)
    requires data == ReplaceAll(ReplaceAll(value, '-', "+"), '_', "/")
    requires forall i | 0 <= i < |data| :: !IsWhitespace(data[i]) && data[i] != '='
    ensures Base64UrlToBytes(value) == if |data| % 4 == 1 then None else DecodeData(data)
  {
    AtobOfPadded(data, Missing(|data|));
  }

  /** Of the texts without white space and padding the parser reads exactly those of a possible
      length whose characters are all of one alphabet or the other. */
  lemma {:induction false} ReadsBothAlphabets(value: string)
    requires forall c | c in value :: c as int !in {9, 10, 12, 13, 32, 61}
    ensures Base64UrlToBytes(value).Some? <==> |value| % 4 != 1 && forall c | c in value :: Base64Char(c)
  {
    var data := ReplaceAll(ReplaceAll(value, '-', "+"), '_', "/");
    ReplaceTwice(value, '-', '+', '_', '/');
    assert |data| == |value|;
    forall i | 0 <= i < |value|
      ensures data[i] == Swap(Swap(value[i], '-', '+'), '_', '/')
      ensures !IsWhitespace(data[i]) && data[i] != '='
      ensures FromChar(data[i]).Some? <==> Base64Char(value[i])
    {
      assert value[i] in value;
      SwappedIsInAlphabet(value[i]);
    }
    ReplacedReads(value, data);
    assert AllInAlphabet(data) <==> forall c | c in value :: Base64Char(c);
  }

  lemma {:induction false} StripConcat(a: string, b: string)
    ensures StripWhitespace(a + b) == StripWhitespace(a) + StripWhitespace(b)
    decreases |b|
  {
    if b == "" {
      assert a + b == a;
    } else {
      var n := |b| - 1;
      StripConcat(a, b[..n]);
      assert (a + b)[..|a + b| - 1] == a + b[..n] && (a + b)[|a + b| - 1] == b[n];
    }
  }

  /** White space vanishes wherever it is: tab, line feed, form feed, return and space. */
  lemma {:induction false} WhitespaceVanishes(a: string, c: char, b: string)
    ensures StripWhitespace(a + [c] + b)
         == StripWhitespace(a) + (if c as int in {9, 10, 12, 13, 32} then "" else [c]) + StripWhitespace(b)
  {
    StripConcat(a + [c], b);
    StripConcat(a, [c]);
    assert [c][..0] == "";
  }

  lemma {:induction false} NothingToReplace(ds: seq<Digit>)
    ensures ReplaceAll(ReplaceAll(Chars(ds), '-', "+"), '_', "/") == Chars(ds)
  {
    assert '-' !in Chars(ds) && '_' !in Chars(ds);
    ReplaceNothing(Chars(ds), '-', "+");
    ReplaceNothing(Chars(ds), '_', "/");
  }

  /** Digits of the standard alphabet are read as well. */
  lemma {:induction false} ParsesStandardDigits(ds: seq<Digit>)
    ensures Base64UrlToBytes(Chars(ds)) == if |ds| % 4 == 1 then None else Some(DecodeDigits(ds))
  {
    NothingToReplace(ds);
    ParsesReplaced(Chars(ds), ds);
  }

  lemma {:induction false} PlusIsNotPrinted(ds: seq<Digit>)
    ensures '+' !in UrlChars(ds)
  {
  }

  /** A text with a plus in it may be read, but is never printed. */
  lemma {:induction false} PlusDoesNotPrintBack(ds: seq<Digit>)
    requires |ds| % 4 != 1 && 62 in ds
    ensures Base64UrlToBytes(Chars(ds)).Some? && Encode(Base64UrlToBytes(Chars(ds)).value) != Chars(ds)
  {
    ParsesStandardDigits(ds);
    PlusIsNotPrinted(EncodeDigits(DecodeDigits(ds)));
    var i :| 0 <= i < |ds| && ds[i] == 62;
    assert Chars(ds)[i] == '+';
  }

  lemma {:induction false} PlusAIsDigits()
    ensures Chars([62, 0]) == "+A"
  {
  }

  lemma {:induction false} PlusADoesNotPrintBack()
    ensures Base64UrlToBytes("+A").Some? && Encode(Base64UrlToBytes("+A").value) != "+A"
  {
    PlusAIsDigits();
    PlusDoesNotPrintBack([62, 0]);
  }

  lemma {:induction false} SameDigits(a: seq<Digit>, b: seq<Digit>)
    requires UrlChars(a) == UrlChars(b)
    ensures a == b
  {
    forall i | 0 <= i < |a|
      ensures |a| == |UrlChars(a)| == |b| && a[i] == b[i]
    {
      assert UrlChar(a[i]) == UrlChars(a)[i] == UrlChars(b)[i] == UrlChar(b[i]);
    }
  }
}
