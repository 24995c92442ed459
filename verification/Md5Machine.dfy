// One block of MD5 on the words of any machine whose operators agree with those of RFC 1321.

module Md5Machines {
  import opened Bits
  import opened Md5
  import opened Md5Rfc

  // The words of a machine, as numbers, and its operators.
  datatype Machine<!W(!new)> = Machine(
    num: W -> word, and: (W, W) -> W, or: (W, W) -> W, xor: (W, W) -> W, not: W -> W,
    plus: (W, W) -> W, rotate: (W, nat) -> W)
  {
    // They do to the words what the RFC's do to the numbers.
    ghost predicate Faithful() {
      Ands() && Ors() && Xors() && Nots() && Sums() && Turns()
    }

    ghost predicate Ands() { forall b, c :: num(and(b, c)) == And(num(b), num(c)) }

    ghost predicate Ors() { forall b, c :: num(or(b, c)) == Or(num(b), num(c)) }

    ghost predicate Xors() { forall b, c :: num(xor(b, c)) == Xor(num(b), num(c)) }

    ghost predicate Nots() { forall b :: num(not(b)) == Not(num(b)) }

    ghost predicate Sums() { forall b, c :: num(plus(b, c)) == Wrap(num(b) + num(c)) }

    ghost predicate Turns() { forall b, n :: num(rotate(b, n)) == RotateLeft(num(b), n) }

    function Aux(round: nat, x: W, y: W, z: W): W {
      match round
      case 0 => or(and(x, y), and(not(x), z))
      case 1 => or(and(x, z), and(y, not(z)))
      case 2 => xor(xor(x, y), z)
      case _ => xor(y, or(x, not(z)))
    }

    // The operation [abcd k s i], in the order in which the source adds.
    function New(round: nat, a: W, b: W, c: W, d: W, x: W, k: W, s: nat): W {
      Mix(a, b, Aux(round, b, c, d), x, k, s)
    }

    function Mix(a: W, b: W, f: W, x: W, k: W, s: nat): W {
      plus(b, rotate(plus(plus(plus(a, f), x), k), s))
    }

    lemma AuxIs(round: nat, x: W, y: W, z: W)
      requires Faithful()
      ensures num(Aux(round, x, y, z)) == Auxiliary(round, num(x), num(y), num(z))
    {
    }

    lemma PlusIs(b: W, c: W)
      requires Faithful()
      ensures num(plus(b, c)) == Wrap(num(b) + num(c))
    {
    }

    lemma FourSum(a: W, f: W, x: W, k: W)
      requires Faithful()
      ensures num(plus(plus(plus(a, f), x), k)) == Wrap(num(a) + num(f) + num(x) + num(k))
    {
      PlusIs(a, f);
      PlusIs(plus(a, f), x);
      PlusIs(plus(plus(a, f), x), k);
      WrapFour(num(a), num(f), num(x), num(k), num(plus(a, f)), num(plus(plus(a, f), x)));
    }

    lemma RotateIs(b: W, n: nat)
      requires Faithful()
      ensures num(rotate(b, n)) == RotateLeft(num(b), n)
    {
    }

    lemma MixIs(a: W, b: W, f: W, x: W, k: W, s: Amount)
      requires Faithful()
      ensures num(Mix(a, b, f, x, k, s)) == Mixed(num(a), num(b), num(f), num(x), num(k), s)
    {
      var sum := plus(plus(plus(a, f), x), k);
      FourSum(a, f, x, k);
      RotateIs(sum, s);
      PlusIs(b, rotate(sum, s));
    }

    // The operation of the RFC.
    lemma NewIs(round: nat, a: W, b: W, c: W, d: W, x: W, k: W, s: Amount)
      requires Faithful()
      ensures num(New(round, a, b, c, d, x, k, s))
           == Mixed(num(a), num(b), Auxiliary(round, num(b), num(c), num(d)), num(x), num(k), s)
    {
      AuxIs(round, b, c, d);
      MixIs(a, b, Aux(round, b, c, d), x, k, s);
    }
  }

  // Four words, in the order in which the next operation names them.
  datatype Words<W> = Words(a: W, b: W, c: W, d: W)

  // n operations on the words x of a block, with the sines k.
  function Run<W(!new)>(m: Machine<W>, n: nat, r: Words<W>, x: seq<W>, k: seq<W>): Words<W>
    requires n <= 64 && |x| == 16 && |k| == 64
  {
    if n == 0 then r
    else Next(m, n - 1, Run(m, n - 1, r, x, k), x, k)
  }

  function Next<W(!new)>(m: Machine<W>, i: nat, q: Words<W>, x: seq<W>, k: seq<W>): Words<W>
    requires i < 64 && |x| == 16 && |k| == 64
  {
    Turn(m, q, i / 16, x[X_INDEX[i / 16][i % 16]], k[i], SHIFTS[i / 16][i % 4])
  }

  function Turn<W(!new)>(m: Machine<W>, q: Words<W>, round: nat, x: W, k: W, s: nat): Words<W> {
    Words(q.d, m.New(round, q.a, q.b, q.c, q.d, x, k, s), q.b, q.c)
  }

  function Numbers<W(!new)>(m: Machine<W>, r: Words<W>): Registers {
    Registers(m.num(r.a), m.num(r.b), m.num(r.c), m.num(r.d))
  }

  // These are the numbers of these words.
  ghost predicate Stand<W(!new)>(m: Machine<W>, w: seq<W>, n: seq<word>) {
    |w| == |n| && forall i :: 0 <= i < |w| ==> m.num(w[i]) == n[i]
  }

  lemma TurnIs<W(!new)>(m: Machine<W>, n: nat, q: Words<W>, r: Registers, x: seq<word>, w: W, k: W)
    requires m.Faithful() && n < 64 && |x| == 16
    requires Named(n, r) == Numbers(m, q)
    requires m.num(w) == x[X_INDEX[n / 16][n % 16]] && m.num(k) == T()[n]
    ensures Named(n + 1, Operation(StandardTables(), n, r, x))
         == Numbers(m, Turn(m, q, n / 16, w, k, SHIFTS[n / 16][n % 4]))
  {
    ShiftedStepIsRenamedStep(StandardTables(), n, r, x);
    m.NewIs(n / 16, q.a, q.b, q.c, q.d, w, k, SHIFTS[n / 16][n % 4]);
  }

  function Operations(y: seq<word>, n: nat, r: Registers): Registers
    requires |y| == 16
  {
    Repeat(OperationOn(StandardTables(), y), n, r)
  }

  lemma OneOperation(y: seq<word>, n: nat, r: Registers)
    requires |y| == 16 && n < 64
    ensures Operations(y, n + 1, r) == Operation(StandardTables(), n, Operations(y, n, r), y)
  {
  }

  lemma NextTurn<W(!new)>(m: Machine<W>, n: nat, q: Words<W>, r: Registers, x: seq<W>, k: seq<W>, y: seq<word>)
    requires m.Faithful() && n < 64 && Named(n, r) == Numbers(m, q)
    requires |y| == 16 && Stand(m, x, y) && Stand(m, k, T())
    ensures Named(n + 1, Operation(StandardTables(), n, r, y)) == Numbers(m, Next(m, n, q, x, k))
  {
    TurnIs(m, n, q, r, y, x[X_INDEX[n / 16][n % 16]], k[n]);
  }

  // The operations of a faithful machine are those of section 3.4.
  lemma {:induction false} RunIs<W(!new)>(m: Machine<W>, n: nat, r: Words<W>, x: seq<W>, k: seq<W>, y: seq<word>)
    requires m.Faithful() && n <= 64
    requires |y| == 16 && Stand(m, x, y) && Stand(m, k, T())
    ensures Named(n, Operations(y, n, Numbers(m, r))) == Numbers(m, Run(m, n, r, x, k))
  {
    if n > 0 {
      RunIs(m, n - 1, r, x, k, y);
      OneOperation(y, n - 1, Numbers(m, r));
      NextTurn(m, n - 1, Run(m, n - 1, r, x, k), Operations(y, n - 1, Numbers(m, r)), x, k, y);
    }
  }

  lemma WrapTwice(a: nat, b: nat)
    ensures Wrap(Wrap(a) + b) == Wrap(a + b)
  {
    QuotientUnique(a + b, MODULUS, a / MODULUS + (Wrap(a) + b) / MODULUS, Wrap(Wrap(a) + b));
  }

  lemma WrapFour(a: nat, b: nat, c: nat, d: nat, e: nat, f: nat)
    requires e == Wrap(a + b) && f == Wrap(e + c)
    ensures Wrap(f + d) == Wrap(a + b + c + d)
  {
    WrapTwice(a + b, c);
    WrapTwice(a + b + c, d);
  }
}
