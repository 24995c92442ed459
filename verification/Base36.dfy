// Numbers in URLs: idtourl and urltoid (src/core/UtilPdu.cpp). All arithmetic is modulo
// 2^32, as in the source.

module Base36 {
  import opened Bytes
  import opened Options

  const WORD := 0x1_0000_0000

  // digits[d] of the source
  function Digit(d: nat): (c: char)
    requires d < 36
    ensures DigitOf(c) == Some(d)
  {
    if d < 10 then ('0' as int + d) as char else ('a' as int + d - 10) as char
  }

  lemma DigitIsListed(d: nat)
    requires d < 36
    ensures Digit(d) == "0123456789abcdefghijklmnopqrstuvwxyz"[d]
  {
  }

  // What urltoid makes of a character; it skips all others.
  function DigitOf(c: char): (d: Option<nat>)
    ensures d.Some? ==> d.value < 36
  {
    if '0' <= c <= '9' then Some(c as int - '0' as int)
    else if 'a' <= c <= 'z' then Some(c as int - ('a' as int - 10))
    else if 'A' <= c <= 'Z' then Some(c as int - ('A' as int - 10))
    else None
  }

  lemma UpperCaseToo(d: nat)
    requires d < 36
    ensures DigitOf("0123456789ABCDEFGHIJKLMNOPQRSTUVWXYZ"[d]) == Some(d)
  {
  }

  // ---- What the two functions compute

  function Digits(v: nat): (s: string)
    ensures |s| > 0
  {
    (if v < 36 then [] else Digits(v / 36)) + [Digit(v % 36)]
  }

  function Value(id: uint32): (v: uint32) {
    var twice: nat := id * 2 + 56;
    twice % WORD
  }

  // A version digit, then the number.
  function Url(id: uint32): string {
    ['1'] + Digits(Value(id))
  }

  function Number(s: string): (n: nat)
    ensures n < WORD
  {
    if s == [] then 0
    else
      var n, d := Number(s[..|s| - 1]), DigitOf(s[|s| - 1]);
      if d == None then n else (n * 36 + d.value) % WORD
  }

  function Id(url: string): (id: uint32) {
    var n := if url == [] then 0 else Number(url[1..]);
    (n + WORD - 56) % WORD / 2
  }

  // ---- The methods

  method UrlToId(url: string) returns (id: uint32)
    ensures id == Id(url)
  {
    var number: nat := 0;
    var i := 1;
    while i < |url|
      invariant 1 <= i <= |url| || i == 1
      invariant number == if url == [] then 0 else Number(url[1..i])
    {
      assert url[1..i + 1][..i - 1] == url[1..i];
      number := TakeDigit(number, url[i]);
      i := i + 1;
    }
    assert url != [] ==> url[1..|url|] == url[1..];
    id := (number + WORD - 56) % WORD / 2;
  }

  // The loop body of UrlToId.
  method TakeDigit(number: nat, c: char) returns (n: nat)
    ensures n == var d := DigitOf(c); if d == None then number else (number * 36 + d.value) % WORD
  {
    n := number;
    if '0' <= c <= '9' {
      n := (number * 36 + (c as int - '0' as int)) % WORD;
    } else if 'a' <= c <= 'z' {
      n := (number * 36 + (c as int - ('a' as int - 10))) % WORD;
    } else if 'A' <= c <= 'Z' {
      n := (number * 36 + (c as int - ('A' as int - 10))) % WORD;
    }
  }

  // The digits go into a buffer of 64 bytes from its end; the loop ends because no digits
  // are left, long before it could run out of room.
  method IdToUrl(id: uint32) returns (buf: array<char>, ptr: nat)
    ensures buf.Length == 64 && 1 <= ptr < 63
    ensures buf[ptr..63] == Url(id) && buf[63] == '\0'
  {
    buf, ptr := WriteDigits(Value(id));
    PutBefore(buf, ptr, '1');
    ptr := ptr - 1;
  }

  method WriteDigits(v: uint32) returns (buf: array<char>, ptr: nat)
    ensures fresh(buf) && buf.Length == 64 && 2 <= ptr < 63
    ensures buf[ptr..63] == Digits(v) && buf[63] == '\0'
  {
    var value: nat := v;
    buf := new char[64];
    ptr := 63;
    buf[ptr] := '\0';
    ghost var digits := Digits(v);
    AtMostSeven(v);
    var more := true;  // do ... while
    while more
      invariant 1 <= ptr <= 63 && buf[63] == '\0'
      invariant digits == Rest(value, ptr == 63) + buf[ptr..63]
      invariant more <==> ptr == 63 || value != 0
      decreases ptr
    {
      value := PutDigit(buf, ptr, value, ptr == 63);
      ptr := ptr - 1;
      more := ptr > 0 && value != 0;
    }
    assert digits == buf[ptr..63];
  }

  // The loop body: the last digit goes before those already written.
  method PutDigit(buf: array<char>, ptr: nat, value: nat, ghost first: bool) returns (quotient: nat)
    requires buf.Length == 64 && 0 < ptr <= 63 && (first || value != 0)
    modifies buf
    ensures quotient == value / 36 && buf[63] == old(buf[63])
    ensures Rest(quotient, false) + buf[ptr - 1..63] == Rest(value, first) + old(buf[ptr..63])
    ensures |Rest(value, first)| == |Rest(quotient, false)| + 1
  {
    NextDigit(value, first, buf[ptr..63]);
    PutBefore(buf, ptr, Digit(value % 36));
    quotient := value / 36;
  }

  // *--ptr = c
  method PutBefore(buf: array<char>, ptr: nat, c: char)
    requires buf.Length == 64 && 0 < ptr <= 63
    modifies buf
    ensures buf[ptr - 1..63] == [c] + old(buf[ptr..63]) && buf[63] == old(buf[63])
  {
    buf[ptr - 1] := c;
  }

  // The digits still to be written: none once the value is 0, except before the first.
  function Rest(v: nat, first: bool): string {
    if v == 0 && !first then [] else Digits(v)
  }

  lemma NextDigit(v: nat, first: bool, tail: string)
    requires first || v != 0
    ensures Rest(v, first) + tail == Rest(v / 36, false) + ([Digit(v % 36)] + tail)
    ensures |Rest(v, first)| == |Rest(v / 36, false)| + 1
  {
  }

  lemma AtMostSeven(v: uint32)
    ensures |Digits(v)| <= 7
  {
    var v1, v2, v3 := v / 36, v / 36 / 36, v / 36 / 36 / 36;
    var v4, v5, v6 := v3 / 36, v3 / 36 / 36, v3 / 36 / 36 / 36;
    assert v6 < 36;
    OneMoreDigit(v6);
    OneMoreDigit(v5);
    OneMoreDigit(v4);
    OneMoreDigit(v3);
    OneMoreDigit(v2);
    OneMoreDigit(v1);
    OneMoreDigit(v);
  }

  lemma OneMoreDigit(v: nat)
    ensures |Digits(v)| == if v < 36 then 1 else |Digits(v / 36)| + 1
  {
  }

  // ---- The round trip

  // Appending the digit d to the digits of q.
  lemma NumberOfAppend(s: string, q: nat, d: nat, v: nat)
    requires d < 36 && Number(s) == q && (q * 36 + d) % WORD == v
    ensures Number(s + [Digit(d)]) == v
  {
    assert (s + [Digit(d)])[..|s|] == s;
  }

  lemma Quotient(v: nat)
    requires v < WORD
    ensures (v / 36 * 36 + v % 36) % WORD == v
  {
  }

  lemma {:induction false} NumberOfDigits(v: nat)
    requires v < WORD
    ensures Number(Digits(v)) == v
  {
    Quotient(v);
    if v < 36 {
      NumberOfAppend([], 0, v % 36, v);
    } else {
      NumberOfDigits(v / 36);
      NumberOfAppend(Digits(v / 36), v / 36, v % 36, v);
    }
  }

  lemma ValueOfLow31Bits(id: uint32)
    ensures Value(id) == (2 * (id % 0x8000_0000) + 56) % WORD
  {
    var low := if id < 0x8000_0000 then id else id - 0x8000_0000;
    assert id % 0x8000_0000 == low;
    assert id * 2 + 56 == 2 * low + 56 || id * 2 + 56 == 2 * low + 56 + WORD;
  }

  lemma Low31Bits(id: uint32)
    ensures (Value(id) + WORD - 56) % WORD == 2 * (id % 0x8000_0000)
  {
    ValueOfLow31Bits(id);
    Unshifted(2 * (id % 0x8000_0000));
  }

  lemma Unshifted(n: nat)
    requires n < WORD
    ensures ((n + 56) % WORD + WORD - 56) % WORD == n
  {
    assert (n + 56) % WORD == n + 56 || (n + 56) % WORD == n + 56 - WORD;
  }

  lemma IdOfDigits(v: uint32)
    ensures Id(['1'] + Digits(v)) == (v + WORD - 56) % WORD / 2
  {
    NumberOfDigits(v);
    assert (['1'] + Digits(v))[1..] == Digits(v);
  }

  // Decoding gives back the low 31 bits, although 2 * id + 56 may overflow ...
  lemma RoundTrip(id: uint32)
    ensures Id(Url(id)) == id % 0x8000_0000
  {
    IdOfDigits(Value(id));
    Low31Bits(id);
  }

  // ... so two ids have the same URL exactly if they differ in the top bit at most.
  lemma SameUrlIff(a: uint32, b: uint32)
    ensures Url(a) == Url(b) <==> a % 0x8000_0000 == b % 0x8000_0000
  {
    if a % 0x8000_0000 == b % 0x8000_0000 {
      ValueOfLow31Bits(a);
      ValueOfLow31Bits(b);
    } else {
      RoundTrip(a);
      RoundTrip(b);
    }
  }

  // ---- What a URL looks like

  predicate IsUrlChar(c: char) {
    '0' <= c <= '9' || 'a' <= c <= 'z'
  }

  lemma {:induction false} DigitsArePlain(v: nat)
    ensures forall c :: c in Digits(v) ==> IsUrlChar(c)
    ensures Digits(v)[0] == '0' ==> v == 0
  {
    if v >= 36 {
      DigitsArePlain(v / 36);
    }
  }

  // The version digit 1, then a number of at most seven digits without leading zeros.
  lemma UrlIsPlain(id: uint32)
    ensures 2 <= |Url(id)| <= 8 && Url(id)[0] == '1'
    ensures forall c :: c in Url(id) ==> IsUrlChar(c)
    ensures Url(id)[1] == '0' ==> |Url(id)| == 2
  {
    AtMostSeven(Value(id));
    DigitsArePlain(Value(id));
  }

  // For example: 56 is 1 * 36 + 20.
  lemma FirstUrl(id: uint32)
    requires id == 0
    ensures Url(id) == "11k"
  {
    var v := Value(id);
    assert v / 36 == 1 && v % 36 == 20;
    assert Digits(v / 36) == ['1'];
  }
}
