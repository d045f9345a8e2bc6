/**
 What a table-driven checksum owes to the laws of exclusive or and halving alone, proved of any word
 type that has them: a look-up per message word does what taking in its bits one at a time does.
 */
module ShiftRegisters {
  datatype Words<!W> = Words(xor: (W, W) -> W, odd: W -> bool, half: W -> W, zero: W, polynomial: W)

  ghost predicate Lawful<W(!new)>(w: Words<W>) {
    Associates(w) && Commutes(w) && Cancels(w) && HasZero(w) && OddAdds(w) && HalfAdds(w)
  }

  ghost predicate Associates<W(!new)>(w: Words<W>) { forall x, y, z :: w.xor(w.xor(x, y), z) == w.xor(x, w.xor(y, z)) }
  ghost predicate Commutes<W(!new)>(w: Words<W>) { forall x, y :: w.xor(x, y) == w.xor(y, x) }
  ghost predicate Cancels<W(!new)>(w: Words<W>) { forall x :: w.xor(x, x) == w.zero }
  ghost predicate HasZero<W(!new)>(w: Words<W>) { forall x :: w.xor(w.zero, x) == x }
  ghost predicate OddAdds<W(!new)>(w: Words<W>) { forall x, y :: w.odd(w.xor(x, y)) == (w.odd(x) != w.odd(y)) }
  ghost predicate HalfAdds<W(!new)>(w: Words<W>) { forall x, y :: w.half(w.xor(x, y)) == w.xor(w.half(x), w.half(y)) }

  // ---------------------------------------------------------------- the reference: one bit at a time

  /** The register takes in one message bit. */
  function Clock<W>(w: Words<W>, register: W, bit: bool): W {
    if w.odd(register) != bit then w.xor(w.polynomial, w.half(register)) else w.half(register)
  }

  /** The register takes in the n lowest bits of a message word, lowest first. */
  function Feed<W>(w: Words<W>, register: W, message: W, n: nat): W {
    if n == 0 then register else Feed(w, Clock(w, register, w.odd(message)), w.half(message), n - 1)
  }

  // ---------------------------------------------------------------- the table's step

  function Shift<W>(w: Words<W>, value: W): W {
    if w.odd(value) then w.xor(w.polynomial, w.half(value)) else w.half(value)
  }

  function Shifts<W>(w: Words<W>, value: W, n: nat): W {
    if n == 0 then value else Shifts(w, Shift(w, value), n - 1)
  }

  function Halves<W>(w: Words<W>, value: W, n: nat): W {
    if n == 0 then value else Halves(w, w.half(value), n - 1)
  }

  lemma XorTwice<W(!new)>(w: Words<W>, p: W, x: W, y: W)
    requires Lawful(w)
    ensures w.xor(w.xor(p, x), w.xor(p, y)) == w.xor(x, y)
  {
    calc {
      w.xor(w.xor(p, x), w.xor(p, y));
      w.xor(w.xor(x, p), w.xor(p, y));
      w.xor(x, w.xor(p, w.xor(p, y)));
      w.xor(x, w.xor(w.xor(p, p), y));
      w.xor(x, w.xor(w.zero, y));
      w.xor(x, y);
    }
  }

  lemma XorMoves<W(!new)>(w: Words<W>, p: W, x: W, y: W)
    requires Lawful(w)
    ensures w.xor(p, w.xor(x, y)) == w.xor(w.xor(p, x), y) == w.xor(x, w.xor(p, y))
  {
    calc {
      w.xor(x, w.xor(p, y));
      w.xor(w.xor(x, p), y);
      w.xor(w.xor(p, x), y);
    }
  }

  /** The linearity the table rests on: a step distributes over exclusive or. */
  lemma ShiftIsLinear<W(!new)>(w: Words<W>, a: W, b: W)
    requires Lawful(w)
    ensures Shift(w, w.xor(a, b)) == w.xor(Shift(w, a), Shift(w, b))
  {
    XorTwice(w, w.polynomial, w.half(a), w.half(b));
    XorMoves(w, w.polynomial, w.half(a), w.half(b));
  }

  lemma {:induction false} ShiftsAreLinear<W(!new)>(w: Words<W>, a: W, b: W, n: nat)
    requires Lawful(w)
    ensures Shifts(w, w.xor(a, b), n) == w.xor(Shifts(w, a, n), Shifts(w, b, n))
  {
    if n > 0 {
      ShiftIsLinear(w, a, b);
      ShiftsAreLinear(w, Shift(w, a), Shift(w, b), n - 1);
    }
  }

  /** One step over a register with a message word added: the lowest bit is taken in, the rest moves down. */
  lemma StepTakesBit<W(!new)>(w: Words<W>, register: W, message: W)
    requires Lawful(w)
    ensures Shift(w, w.xor(register, message)) == w.xor(Clock(w, register, w.odd(message)), w.half(message))
  {
    XorMoves(w, w.polynomial, w.half(register), w.half(message));
  }

  /** So adding a message word first and stepping n times is taking its bits in one by one. */
  lemma {:induction false} StepsFeed<W(!new)>(w: Words<W>, register: W, message: W, n: nat)
    requires Lawful(w)
    ensures Shifts(w, w.xor(register, message), n) == w.xor(Feed(w, register, message, n), Halves(w, message, n))
  {
    if n > 0 {
      StepTakesBit(w, register, message);
      StepsFeed(w, Clock(w, register, w.odd(message)), w.half(message), n - 1);
    }
  }

  /** Steps over a word whose low bits are clear only halve it. */
  lemma {:induction false} ClearBitsOnlyMove<W(!new)>(w: Words<W>, value: W, n: nat)
    requires LowBitsClear(w, value, n)
    ensures Shifts(w, value, n) == Halves(w, value, n)
  {
    if n > 0 { ClearBitsOnlyMove(w, w.half(value), n - 1); }
  }

  predicate LowBitsClear<W>(w: Words<W>, value: W, n: nat) {
    n == 0 || (!w.odd(value) && LowBitsClear(w, w.half(value), n - 1))
  }

  lemma EightHalves<W(!new)>(w: Words<W>, v: W)
    ensures Halves(w, v, 8) == w.half(w.half(w.half(w.half(w.half(w.half(w.half(w.half(v))))))))
  {
    var h := w.half(w.half(w.half(w.half(v))));
    assert Halves(w, v, 8) == Halves(w, w.half(v), 7) == Halves(w, w.half(w.half(v)), 6) == Halves(w, w.half(w.half(w.half(v))), 5) == Halves(w, h, 4);
    assert Halves(w, h, 4) == Halves(w, w.half(h), 3) == Halves(w, w.half(w.half(h)), 2) == Halves(w, w.half(w.half(w.half(h))), 1);
    assert Halves(w, w.half(w.half(w.half(h))), 1) == Halves(w, w.half(w.half(w.half(w.half(h)))), 0);
  }

  /**
   The table look-up: the steps over the low part are tabulated, the high part only moves, and the two
   are added; together that is taking the message's bits in one by one.
   */
  lemma LookUpFeeds<W(!new)>(w: Words<W>, register: W, message: W, low: W, high: W, n: nat)
    requires Lawful(w) && w.xor(low, high) == w.xor(register, message) && LowBitsClear(w, high, n)
    requires Halves(w, message, n) == w.zero
    ensures w.xor(Shifts(w, low, n), Halves(w, high, n)) == Feed(w, register, message, n)
  {
    ShiftsAreLinear(w, low, high, n);
    ClearBitsOnlyMove(w, high, n);
    StepsFeed(w, register, message, n);
    assert w.xor(Feed(w, register, message, n), w.zero) == Feed(w, register, message, n);
  }

  // ---------------------------------------------------------------- detection

  /** No word but zero steps to zero. */
  ghost predicate Reversible<W(!new)>(w: Words<W>) {
    forall x :: Shift(w, x) == w.zero ==> x == w.zero
  }

  lemma {:induction false} ShiftsTellApart<W(!new)>(w: Words<W>, a: W, b: W, n: nat)
    requires Lawful(w) && Reversible(w) && Shifts(w, a, n) == Shifts(w, b, n)
    ensures a == b
  {
    if n > 0 {
      ShiftsTellApart(w, Shift(w, a), Shift(w, b), n - 1);
      ShiftIsLinear(w, a, b);
      SameWhenSumIsZero(w, a, b);
    }
  }

  lemma SameWhenSumIsZero<W(!new)>(w: Words<W>, a: W, b: W)
    requires Lawful(w)
    ensures w.xor(a, b) == w.zero ==> a == b
  {
    assert w.xor(w.xor(a, b), b) == w.xor(a, w.xor(b, b)) == w.xor(w.zero, a) == a;
  }

  /** Different message words leave a register different, and different registers stay so. */
  lemma FeedTellsApart<W(!new)>(w: Words<W>, r: W, m: W, s: W, n: W, k: nat)
    requires Lawful(w) && Reversible(w) && Halves(w, m, k) == w.zero && Halves(w, n, k) == w.zero
    ensures Feed(w, r, m, k) == Feed(w, s, n, k) ==> w.xor(r, m) == w.xor(s, n)
  {
    StepsFeed(w, r, m, k);
    StepsFeed(w, s, n, k);
    if Feed(w, r, m, k) == Feed(w, s, n, k) { ShiftsTellApart(w, w.xor(r, m), w.xor(s, n), k); }
  }

  /** So of two registers and two message words, a difference in just one of them stays. */
  lemma OneDifferenceStays<W(!new)>(w: Words<W>, r: W, m: W, s: W, n: W, k: nat)
    requires Lawful(w) && Reversible(w) && Halves(w, m, k) == w.zero && Halves(w, n, k) == w.zero
    requires (r == s && m != n) || (r != s && m == n)
    ensures Feed(w, r, m, k) != Feed(w, s, n, k)
  {
    FeedTellsApart(w, r, m, s, n, k);
    if r == s { Cancel(w, r, m, n); } else { Cancel(w, m, r, s); }
  }

  lemma Cancel<W(!new)>(w: Words<W>, p: W, x: W, y: W)
    requires Lawful(w)
    ensures w.xor(p, x) == w.xor(p, y) ==> x == y
  {
    assert w.xor(p, w.xor(p, x)) == w.xor(w.xor(p, p), x) == x;
    assert w.xor(p, w.xor(p, y)) == w.xor(w.xor(p, p), y) == y;
  }
}
