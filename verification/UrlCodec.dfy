// URLEncode and URLDecode (src/core/Util.cpp) on byte strings.

module UrlCodec {
  import opened Bits
  import opened Bytes
  import opened Options

  // isdigit and isalnum in the C locale
  predicate IsDigit(x: byte) {
    '0' as int <= x <= '9' as int
  }

  predicate IsAlnum(x: byte) {
    IsDigit(x) || 'A' as int <= x <= 'Z' as int || 'a' as int <= x <= 'z' as int
  }

  const PERCENT: byte := 37
  const PLUS: byte := 43
  const SPACE: byte := 32

  function ToHex(x: nat): byte
    requires x < 16
  {
    if x > 9 then x - 10 + 'A' as int else x + '0' as int
  }

  // The result is an unsigned char: for a byte that is no digit and below 'A' it wraps, and
  // for a lower-case letter it is more than 15.
  function FromHex(x: byte): byte {
    if IsDigit(x) then x - '0' as int else (x - 'A' as int + 10) % 256
  }

  // ch = fromHex(hi) << 4; ch |= fromHex(lo); both in an unsigned char.
  function Unescaped(hi: byte, lo: byte): byte {
    ByteOr(FromHex(hi) * 16 % 256, FromHex(lo))
  }

  function ByteOr(x: byte, y: byte): byte {
    Low8(Or(x, y))
  }

  function Low8(n: nat): byte {
    n % 256
  }

  // ---- Encoding

  function Escaped(x: byte): (s: seq<byte>)
    ensures |s| == 1 || |s| == 3
  {
    if IsAlnum(x) then [x] else [PERCENT, ToHex(x / 16), ToHex(x % 16)]
  }

  function Encoded(s: seq<byte>): seq<byte> {
    if s == [] then [] else Encoded(s[..|s| - 1]) + Escaped(s[|s| - 1])
  }

  method URLEncode(s: seq<byte>) returns (out: seq<byte>)
    ensures out == Encoded(s)
  {
    out := [];
    var ix := 0;
    while ix < |s|
      invariant ix <= |s| && out == Encoded(s[..ix])
    {
      assert s[..ix + 1][..ix] == s[..ix];
      if IsAlnum(s[ix]) {
        out := out + [s[ix]];
      } else {
        out := out + [PERCENT, ToHex(s[ix] / 16), ToHex(s[ix] % 16)];
      }
      ix := ix + 1;
    }
    assert s[..|s|] == s;
  }

  // ---- Decoding

  // Reading a string at its end gives NUL; what lies further out must not be read.
  function At(s: seq<byte>, i: nat): byte
    requires i <= |s|
  {
    if i < |s| then s[i] else 0
  }

  // None if a read falls outside the string.
  function Decoded(s: seq<byte>): Option<seq<byte>>
    decreases |s|
  {
    if s == [] then Some([])
    else if s[0] == PERCENT then
      if |s| < 2 then None
      else
        var rest := Decoded(if |s| == 2 then [] else s[3..]);
        if rest == None then None else Some([Unescaped(s[1], At(s, 2))] + rest.value)
    else
      var rest := Decoded(s[1..]);
      if rest == None then None else Some([if s[0] == PLUS then SPACE else s[0]] + rest.value)
  }

  // Every escape that decoding meets has its two characters.
  predicate WellEscaped(s: seq<byte>)
    decreases |s|
  {
    if s == [] then true
    else if s[0] == PERCENT then |s| >= 3 && WellEscaped(s[3..])
    else WellEscaped(s[1..])
  }

  function After(done: seq<byte>, rest: Option<seq<byte>>): Option<seq<byte>> {
    if rest == None then None else Some(done + rest.value)
  }

  lemma AfterNothing(rest: Option<seq<byte>>, done: seq<byte>)
    ensures After([], rest) == rest && After(done, Some([])) == Some(done)
  {
    assert done + [] == done;
    if rest != None {
      assert [] + rest.value == rest.value;
    }
  }

  lemma AfterMore(done: seq<byte>, x: byte, rest: Option<seq<byte>>)
    ensures After(done + [x], rest) == After(done, After([x], rest))
  {
    if rest != None {
      assert done + [x] + rest.value == done + ([x] + rest.value);
    }
  }

  method URLDecode(s: seq<byte>) returns (r: Option<seq<byte>>)
    ensures r == Decoded(s)
  {
    var out := [];
    var ix := 0;
    AfterNothing(Decoded(s), []);
    while ix < |s|
      invariant ix <= |s| + 1
      invariant Decoded(s) == After(out, Decoded(From(s, ix)))
      decreases |s| + 1 - ix
    {
      var ch: byte := 0;
      ghost var rest := From(s, ix);
      var next := ix + 1;
      if s[ix] == PERCENT {
        if ix + 2 > |s| {
          return None;
        }
        ch := Unescaped(At(s, ix + 1), At(s, ix + 2));
        next := ix + 3;
      } else if s[ix] == PLUS {
        ch := SPACE;
      } else {
        ch := s[ix];
      }
      AfterMore(out, ch, Decoded(From(s, next)));
      FromNext(s, ix);
      out := out + [ch];
      ix := next;
    }
    AfterNothing(None, out);
    r := Some(out);
  }

  // What is left from ix on. Skipping the second character of a cut-off escape leads one
  // beyond the end.
  function From(s: seq<byte>, ix: nat): seq<byte> {
    if ix <= |s| then s[ix..] else []
  }

  lemma FromNext(s: seq<byte>, ix: nat)
    requires ix < |s|
    ensures From(s, ix + 1) == From(s, ix)[1..]
    ensures ix + 3 <= |s| ==> From(s, ix + 3) == From(s, ix)[3..]
  {
  }

  // ---- The round trip

  lemma DoubledIsDisjoint(x: nat, y: nat, half: nat)
    requires And(x, half) == 0 && half == y / 2
    ensures And(2 * x, y) == 0
  {
    assert 2 * x / 2 == x && 2 * x % 2 == 0;
  }

  lemma NibblesAreDisjoint(h: nat, h2: nat, h4: nat, h8: nat, h16: nat, l: nat)
    requires h2 == 2 * h && h4 == 2 * h2 && h8 == 2 * h4 && h16 == 2 * h8 && l < 16
    ensures And(h16, l) == 0
  {
    var l2, l4, l8 := l / 2, l / 4, l / 8;
    AndZero(h);
    DoubledIsDisjoint(h, l8, 0);
    DoubledIsDisjoint(h2, l4, l8);
    DoubledIsDisjoint(h4, l2, l4);
    DoubledIsDisjoint(h8, l, l2);
  }

  lemma OrOfDisjoint(x: nat, y: nat)
    requires And(x, y) == 0
    ensures Or(x, y) == x + y
  {
  }

  lemma Low8OfByte(n: nat)
    requires n < 256
    ensures Low8(n) == n
  {
  }

  lemma NibblesJoin(h: nat, x: byte, l: byte)
    requires x == h * 16 && l < 16
    ensures ByteOr(x, l) == x + l
  {
    NibblesAreDisjoint(h, 2 * h, 4 * h, 8 * h, x, l);
    OrOfDisjoint(x, l);
    Low8OfByte(x + l);
  }

  lemma HexOfNibble(n: nat)
    requires n < 16
    ensures FromHex(ToHex(n)) == n
  {
  }

  lemma {:induction false} UnescapedEscape(x: byte)
    ensures Unescaped(ToHex(x / 16), ToHex(x % 16)) == x
  {
    HexOfNibble(x / 16);
    HexOfNibble(x % 16);
    NibblesJoin(x / 16, x / 16 * 16 % 256, x % 16);
  }

  lemma {:induction false} DecodedEscape(x: byte, t: seq<byte>)
    ensures Decoded(Escaped(x) + t) == After([x], Decoded(t))
    ensures WellEscaped(Escaped(x) + t) <==> WellEscaped(t)
  {
    var s := Escaped(x) + t;
    if IsAlnum(x) {
      assert s[1..] == t;
    } else {
      assert s[0] == PERCENT && s[1] == ToHex(x / 16) && s[2] == ToHex(x % 16);
      assert s[3..] == t;
      UnescapedEscape(x);
    }
  }

  lemma {:induction false} DecodedEncoding(s: seq<byte>, t: seq<byte>)
    ensures Decoded(Encoded(s) + t) == After(s, Decoded(t))
    ensures WellEscaped(Encoded(s) + t) <==> WellEscaped(t)
  {
    if s == [] {
      assert [] + t == t;
      AfterNothing(Decoded(t), []);
    } else {
      var front, x := s[..|s| - 1], s[|s| - 1];
      assert Encoded(s) + t == Encoded(front) + (Escaped(x) + t);
      assert s == front + [x];
      DecodedEncoding(front, Escaped(x) + t);
      DecodedEscape(x, t);
      AfterMore(front, x, Decoded(t));
    }
  }

  // Every byte string survives, and decoding what was encoded reads no character beyond it.
  lemma {:induction false} RoundTrip(s: seq<byte>)
    ensures Decoded(Encoded(s)) == Some(s)
    ensures WellEscaped(Encoded(s))
  {
    DecodedEncoding(s, []);
    assert Encoded(s) + [] == Encoded(s) && s + [] == s;
  }

  // Decoding reads outside the string if and only if it ends right behind the '%' of an
  // escape: '%' is the last character, and all that decoding meets before it is complete.
  lemma {:induction false} LeavesStringIff(s: seq<byte>)
    ensures Decoded(s) == None <==> s != [] && s[|s| - 1] == PERCENT && WellEscaped(s[..|s| - 1])
    decreases |s|
  {
    if s != [] {
      var n := if s[0] != PERCENT then 1 else if |s| < 3 then |s| else 3;
      if n < |s| {
        LeavesStringIff(s[n..]);
        AllButLast(s, n);
      } else {
        assert s[n..] == [];
      }
    }
  }

  lemma AllButLast(s: seq<byte>, n: nat)
    requires n < |s|
    ensures s[..|s| - 1][n..] == s[n..][..|s| - n - 1] && s[n..][|s| - n - 1] == s[|s| - 1]
  {
  }

  // For example, a lone '%'. A cut-off "%4" does decode: its missing digit is the NUL at the
  // end.
  lemma LonePercent()
    ensures Decoded([PERCENT]) == None
    ensures Decoded([PERCENT, '4' as int]) != None && !WellEscaped([PERCENT, '4' as int])
  {
    LeavesStringIff([PERCENT]);
    LeavesStringIff([PERCENT, '4' as int]);
  }

  // Complete escapes always decode, and decoding never lengthens.
  lemma {:induction false} DecodedIsNoLonger(s: seq<byte>)
    ensures Decoded(s) != None ==> |Decoded(s).value| <= |s|
    ensures WellEscaped(s) ==> Decoded(s) != None
    decreases |s|
  {
    if s != [] {
      DecodedIsNoLonger(if s[0] != PERCENT then s[1..] else if |s| < 3 then [] else s[3..]);
    }
  }

  // The encoding uses letters, digits and '%' only.
  lemma {:induction false} EncodedIsPlain(s: seq<byte>, i: nat)
    requires i < |Encoded(s)|
    ensures IsAlnum(Encoded(s)[i]) || Encoded(s)[i] == PERCENT
  {
    var front := s[..|s| - 1];
    if i < |Encoded(front)| {
      EncodedIsPlain(front, i);
    }
  }

  // ---- What is escaped, and how

  // Letters and digits, by their codes.
  predicate IsPlain(x: byte) {
    48 <= x <= 57 || 65 <= x <= 90 || 97 <= x <= 122
  }

  const HEX: seq<byte> := [48, 49, 50, 51, 52, 53, 54, 55, 56, 57, 65, 66, 67, 68, 69, 70]

  lemma HexIsListed(n: nat)
    requires n < 16
    ensures ToHex(n) == HEX[n]
  {
  }

  // They encode to themselves, and any other byte to '%' and two upper-case hexadecimal digits.
  lemma EscapedMeans(x: byte)
    ensures IsPlain(x) ==> Encoded([x]) == [x]
    ensures !IsPlain(x) ==> Encoded([x]) == [37, HEX[x / 16], HEX[x % 16]]
  {
    HexIsListed(x / 16);
    HexIsListed(x % 16);
    assert [x][..0] == [];
    assert Encoded([x]) == Escaped(x);
  }

  lemma EncodedPlain(front: seq<byte>, x: byte)
    requires Encoded(front) == front && IsPlain(x)
    ensures Encoded(front + [x]) == front + [x]
  {
    assert (front + [x])[..|front|] == front;
  }

  lemma {:induction false} PlainIsKept(s: seq<byte>)
    requires forall i :: 0 <= i < |s| ==> IsPlain(s[i])
    ensures Encoded(s) == s
  {
    if s != [] {
      var front, x := s[..|s| - 1], s[|s| - 1];
      PlainIsKept(front);
      EncodedPlain(front, x);
      assert s == front + [x];
    }
  }

  // "+" decodes to a space, as "%20" does.
  lemma PlusIsSpace(t: seq<byte>)
    ensures Decoded([43] + t) == After([32], Decoded(t))
    ensures Decoded([37, 50, 48] + t) == After([32], Decoded(t))
  {
    assert ([43] + t)[1..] == t;
    assert Escaped(32) == [37, 50, 48];
    DecodedEscape(32, t);
  }

  // ---- Lower-case escapes

  // Hexadecimal digits of either case, and what they stand for.
  predicate IsHex(x: byte) {
    48 <= x <= 57 || 65 <= x <= 70 || 97 <= x <= 102
  }

  function HexValue(x: byte): (n: nat)
    requires IsHex(x)
    ensures n < 16
  {
    if x <= 57 then x - 48 else if x <= 70 then x - 55 else x - 87
  }

  // A lower-case digit comes out 32 too large.
  lemma FromHexIs(x: byte)
    requires IsHex(x)
    ensures FromHex(x) == HexValue(x) + if x >= 97 then 32 else 0
  {
  }

  // In the high place that is shifted out ...
  lemma HighDigit(x: byte)
    requires IsHex(x)
    ensures FromHex(x) * 16 % 256 == HexValue(x) * 16
  {
    FromHexIs(x);
  }

  lemma AndOfDoubled(x2: nat, x: nat, y: nat, half: nat)
    requires x2 == 2 * x && half == y / 2
    ensures And(x2, y) == 2 * And(x, half)
  {
    Parts(x2, y);
    assert x2 / 2 == x && x2 % 2 == 0;
  }

  lemma AndTwo(h: nat, two: nat)
    requires two == 2
    ensures And(h, two) == if h / 2 % 2 == 1 then 2 else 0
  {
    Parts(h, two);
    Parts(h / 2, two / 2);
    AndZero(h / 2 / 2);
  }

  // ... but in the low place it meets a bit of the high digit.
  lemma Overlap(h: nat, h2: nat, h4: nat, h8: nat, h16: nat, n: nat)
    requires h2 == 2 * h && h4 == 2 * h2 && h8 == 2 * h4 && h16 == 2 * h8 && 32 <= n < 48
    ensures And(h16, n) == if h / 2 % 2 == 1 then 32 else 0
  {
    AndOfDoubled(h16, h8, n, n / 2);
    AndOfDoubled(h8, h4, n / 2, n / 4);
    AndOfDoubled(h4, h2, n / 4, n / 8);
    AndOfDoubled(h2, h, n / 8, n / 16);
    AndTwo(h, n / 16);
  }

  lemma OneByte(h: nat, l: nat, n: nat)
    requires h < 16 && l < 16 && n == 16 * h + l + if h / 2 % 2 == 1 then 0 else 32
    ensures n < 256
  {
  }

  lemma LowerCase(h: nat, l: nat, x: byte, y: byte, n: nat)
    requires h < 16 && l < 16 && x == 16 * h && y == 32 + l
    requires n == x + l + if h / 2 % 2 == 1 then 0 else 32
    ensures n < 256 && ByteOr(x, y) == n
  {
    Overlap(h, 2 * h, 4 * h, 8 * h, x, y);
    OneByte(h, l, n);
    Low8OfByte(n);
  }

  lemma DigitsJoin(h: nat, l: nat, lower: bool, x: byte, y: byte)
    requires h < 16 && l < 16 && x == h * 16 && y == l + if lower then 32 else 0
    ensures ByteOr(x, y) == 16 * h + l + if !lower || h / 2 % 2 == 1 then 0 else 32
  {
    if lower {
      LowerCase(h, l, x, y, x + l + if h / 2 % 2 == 1 then 0 else 32);
    } else {
      NibblesJoin(h, x, y);
    }
  }

  lemma UnescapedIs(hi: byte, lo: byte, h: nat, l: nat)
    requires IsHex(hi) && IsHex(lo) && h == HexValue(hi) && l == HexValue(lo)
    ensures Unescaped(hi, lo) == 16 * h + l + if lo < 97 || h / 2 % 2 == 1 then 0 else 32
  {
    HighDigit(hi);
    FromHexIs(lo);
    DigitsJoin(h, l, lo >= 97, FromHex(hi) * 16 % 256, FromHex(lo));
  }

  lemma DecodedOne(s: seq<byte>, hi: byte, lo: byte)
    requires s == [37, hi, lo]
    ensures Decoded(s) == Some([Unescaped(hi, lo)])
  {
    assert s[3..] == [];
    AfterNothing(Some([]), [Unescaped(hi, lo)]);
  }

  lemma EscapeDecodes(s: seq<byte>, hi: byte, lo: byte, n: nat)
    requires s == [37, hi, lo] && IsHex(hi) && IsHex(lo)
    requires n == 16 * HexValue(hi) + HexValue(lo) + if lo < 97 || HexValue(hi) / 2 % 2 == 1 then 0 else 32
    ensures n < 256 && Decoded(s) == Some([n])
  {
    UnescapedIs(hi, lo, HexValue(hi), HexValue(lo));
    DecodedOne(s, hi, lo);
  }

  // So an escape decodes to the byte it stands for if and only if its second digit is not in
  // lower case, or its first one has the bit of value 2.
  lemma EscapeDecodesIff(s: seq<byte>, hi: byte, lo: byte, n: nat)
    requires s == [37, hi, lo] && IsHex(hi) && IsHex(lo) && n == 16 * HexValue(hi) + HexValue(lo)
    ensures Decoded(s) == Some([n]) <==> lo < 97 || HexValue(hi) / 2 % 2 == 1
  {
    EscapeDecodes(s, hi, lo, n + if lo < 97 || HexValue(hi) / 2 % 2 == 1 then 0 else 32);
  }

  // For example, "%4a" decodes to the byte 0x6A.
  lemma LowerCaseEscape(s: seq<byte>, hi: byte, lo: byte, n: nat)
    requires s == [37, hi, lo] && hi == 0x34 && lo == 0x61 && n == 0x6A
    ensures Decoded(s) == Some([n])
  {
    EscapeDecodes(s, hi, lo, n);
  }
}
