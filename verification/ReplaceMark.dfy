// Filling in the '?' marks of an SQL template one value after the other (the two
// replace_mark of src/core/Util.cpp).

module ReplaceMark {
  import opened Sequences

  datatype Value = Text(s: string) | Number(n: nat)

  function Decimal(n: nat): (s: string)
    ensures |s| > 0 && forall c :: c in s ==> '0' <= c <= '9'
  {
    (if n < 10 then [] else Decimal(n / 10)) + [('0' as int + n % 10) as char]
  }

  // The number that digits stand for.
  function Value10(s: string): int {
    if s == [] then 0 else 10 * Value10(s[..|s| - 1]) + (s[|s| - 1] as int - '0' as int)
  }

  lemma Value10OfAppend(s: string, c: char)
    ensures Value10(s + [c]) == 10 * Value10(s) + (c as int - '0' as int)
  {
    assert (s + [c])[..|s|] == s;
  }

  // The digits of n are a numeral for n, without leading zeros.
  lemma {:induction false} DecimalIsNumeral(n: nat)
    ensures Value10(Decimal(n)) == n
    ensures n > 0 ==> Decimal(n)[0] != '0'
  {
    var c := ('0' as int + n % 10) as char;
    if n >= 10 {
      DecimalIsNumeral(n / 10);
      Value10OfAppend(Decimal(n / 10), c);
    } else {
      Value10OfAppend([], c);
    }
  }

  // What a value puts in the place of its mark. A text goes in as it is, marks included.
  function Rendered(v: Value): string {
    match v
    case Text(s) => "'" + s + "'"
    case Number(n) => Decimal(n)
  }

  // A text stands between two quotes.
  lemma TextIsQuoted(s: string)
    ensures Rendered(Text(s)) == ['\''] + s + ['\'']
    ensures |Rendered(Text(s))| == |s| + 2 && Rendered(Text(s))[1..|s| + 1] == s
  {
  }

  // string::find: the first mark at or after from, |s| for npos.
  function Find(s: string, from: nat): (pos: nat)
    ensures pos <= |s|
    ensures pos < |s| ==> from <= pos && s[pos] == '?'
    ensures forall i :: from <= i < pos ==> s[i] != '?'
    decreases |s| - from
  {
    if from >= |s| || s[from] == '?' then (if from < |s| then from else |s|) else Find(s, from + 1)
  }

  // A template being filled in, and where the search for the next mark begins.
  datatype Progress = Progress(str: string, begin: nat)

  function Replace(p: Progress, r: string): Progress {
    var pos := Find(p.str, p.begin);
    if pos == |p.str| then p
    else Progress(p.str[..pos] + r + p.str[pos + 1..], pos + |r|)
  }

  method ReplaceMarkText(str: string, newValue: string, beginPos: nat) returns (str': string, beginPos': nat)
    ensures Progress(str', beginPos') == Replace(Progress(str, beginPos), Rendered(Text(newValue)))
  {
    str', beginPos' := str, beginPos;
    var pos := Find(str, beginPos);
    if pos == |str| {
      return;
    }
    var primeNewValue := "'" + newValue + "'";
    str' := str[..pos] + primeNewValue + str[pos + 1..];
    beginPos' := pos + |primeNewValue|;
  }

  method ReplaceMarkNumber(str: string, newValue: nat, beginPos: nat) returns (str': string, beginPos': nat)
    ensures Progress(str', beginPos') == Replace(Progress(str, beginPos), Rendered(Number(newValue)))
  {
    str', beginPos' := str, beginPos;
    var strValue := Decimal(newValue);
    var pos := Find(str, beginPos);
    if pos == |str| {
      return;
    }
    str' := str[..pos] + strValue + str[pos + 1..];
    beginPos' := pos + |strValue|;
  }

  // The calls for a list of values, each begun where the one before left off.
  function InTurn(p: Progress, vs: seq<Value>): Progress
    decreases |vs|
  {
    if vs == [] then p else InTurn(Replace(p, Rendered(vs[0])), vs[1..])
  }

  // What they are for: the k-th value takes the place of the k-th mark of the template,
  // all at once. Marks without a value stay, values without a mark are not used.
  function AtOnce(template: string, vs: seq<Value>): string {
    if template == [] then []
    else if template[0] == '?' && vs != [] then Rendered(vs[0]) + AtOnce(template[1..], vs[1..])
    else [template[0]] + AtOnce(template[1..], vs)
  }

  function Marks(template: string): nat {
    if template == [] then 0 else (if template[0] == '?' then 1 else 0) + Marks(template[1..])
  }

  predicate Plain(s: string) {
    forall i :: 0 <= i < |s| ==> s[i] != '?'
  }

  // Text without marks is passed over.
  lemma {:induction false} AtOncePlain(plain: string, rest: string, vs: seq<Value>)
    requires Plain(plain)
    ensures AtOnce(plain + rest, vs) == plain + AtOnce(rest, vs)
  {
    if plain == [] {
      assert [] + rest == rest;
    } else {
      assert (plain + rest)[1..] == plain[1..] + rest;
      AtOncePlain(plain[1..], rest, vs);
    }
  }

  lemma {:induction false} AtOnceNothing(rest: string)
    ensures AtOnce(rest, []) == rest
  {
    if rest != [] {
      AtOnceNothing(rest[1..]);
    }
  }

  // The first mark of a template, or none.
  lemma FirstMark(rest: string) returns (plain: string, after: string)
    ensures Plain(plain) && rest == plain + after && (after != [] ==> after[0] == '?')
  {
    var k := Find(rest, 0);
    plain, after := rest[..k], rest[k..];
  }

  lemma FindMark(done: string, plain: string, after: string)
    requires Plain(plain) && (after != [] ==> after[0] == '?')
    ensures Find(done + (plain + after), |done|) == |done| + |plain|
  {
    var s, k := done + (plain + after), Find(done + (plain + after), |done|);
    forall i | |done| <= i < |done| + |plain| ensures s[i] != '?' {
      assert s[i] == plain[i - |done|];
    }
    assert after != [] ==> s[|done| + |plain|] == '?';
  }

  lemma ReplaceMarkAt(done: string, plain: string, after: string, r: string)
    requires Plain(plain) && after != [] && after[0] == '?'
    ensures Replace(Progress(done + (plain + after), |done|), r)
            == Progress(done + plain + r + after[1..], |done + plain + r|)
  {
    FindMark(done, plain, after);
    var s, k := done + (plain + after), |done| + |plain|;
    assert s[..k] == done + plain;
    assert s[k + 1..] == after[1..];
  }

  // done is what has been filled in, rest the part of the template that has not been seen.
  lemma {:induction false} InTurnFrom(done: string, rest: string, vs: seq<Value>)
    ensures InTurn(Progress(done + rest, |done|), vs).str == done + AtOnce(rest, vs)
    decreases |vs|
  {
    var plain, after := FirstMark(rest);
    FindMark(done, plain, after);
    AtOncePlain(plain, after, vs);
    if vs == [] || after == [] {
      NoMoreFilled(Progress(done + rest, |done|), vs);
      AtOnceNothing(rest);
    } else {
      var r := Rendered(vs[0]);
      ReplaceMarkAt(done, plain, after, r);
      InTurnFrom(done + plain + r, after[1..], vs[1..]);
      var tail := AtOnce(after[1..], vs[1..]);
      Associates(done, plain, r);
      Associates(done, plain + r, tail);
      Associates(plain, r, tail);
    }
  }

  lemma NoMoreFilled(p: Progress, vs: seq<Value>)
    requires vs == [] || Find(p.str, p.begin) == |p.str|
    ensures InTurn(p, vs) == p
  {
    if vs != [] {
      NoMarkLeft(p, vs);
    }
  }

  lemma {:induction false} NoMarkLeft(p: Progress, vs: seq<Value>)
    requires Find(p.str, p.begin) == |p.str|
    ensures InTurn(p, vs) == p
    decreases |vs|
  {
    if vs != [] {
      NoMarkLeft(p, vs[1..]);
    }
  }

  // Filling in one value after the other is filling them in at once, even if values contain
  // marks.
  lemma InTurnIsAtOnce(template: string, vs: seq<Value>)
    ensures InTurn(Progress(template, 0), vs).str == AtOnce(template, vs)
  {
    Empty(template);
    InTurnFrom([], template, vs);
    Empty(AtOnce(template, vs));
  }

  // Values beyond the last mark change nothing.
  lemma {:induction false} SurplusIgnored(template: string, vs: seq<Value>, more: seq<Value>)
    requires |vs| >= Marks(template)
    ensures AtOnce(template, vs + more) == AtOnce(template, vs)
  {
    if template != [] {
      if template[0] == '?' {
        assert (vs + more)[1..] == vs[1..] + more;
        SurplusIgnored(template[1..], vs[1..], more);
      } else {
        SurplusIgnored(template[1..], vs, more);
      }
    }
  }

  lemma SurplusChangesNothing(template: string, vs: seq<Value>, more: seq<Value>)
    requires |vs| >= Marks(template)
    ensures InTurn(Progress(template, 0), vs + more).str == InTurn(Progress(template, 0), vs).str
  {
    InTurnIsAtOnce(template, vs + more);
    InTurnIsAtOnce(template, vs);
    SurplusIgnored(template, vs, more);
  }

  // The calls a caller makes to fill in a whole template.
  method FillIn(template: string, vs: seq<Value>) returns (str: string)
    ensures str == AtOnce(template, vs)
  {
    str := template;
    var beginPos: nat := 0;
    for i := 0 to |vs|
      invariant InTurn(Progress(template, 0), vs) == InTurn(Progress(str, beginPos), vs[i..])
    {
      assert vs[i..][1..] == vs[i + 1..];
      match vs[i] {
        case Text(s) => str, beginPos := ReplaceMarkText(str, s, beginPos);
        case Number(n) => str, beginPos := ReplaceMarkNumber(str, n, beginPos);
      }
    }
    InTurnIsAtOnce(template, vs);
  }
}
