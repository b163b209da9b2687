/** The bit operations on unsigned words that `md5_finish` makes its length words with. */
module Md5Length {
  import opened Md5Words

  function And(a: nat, b: nat): (r: nat)
    ensures r <= a && r <= b
    decreases a
  {
    if a == 0 || b == 0 then 0 else 2 * And(a / 2, b / 2) + (if a % 2 == 1 && b % 2 == 1 then 1 else 0)
  }

  function Or(a: nat, b: nat): nat
    decreases a
  {
    if a == 0 then b else if b == 0 then a else 2 * Or(a / 2, b / 2) + (if a % 2 == 1 || b % 2 == 1 then 1 else 0)
  }

  /** k zero bits put below. */
  function Up(a: nat, k: nat): nat {
    if k == 0 then a else 2 * Up(a, k - 1)
  }

  /** The k lowest bits dropped. */
  function Down(a: nat, k: nat): nat {
    if k == 0 then a else Down(a / 2, k - 1)
  }

  /** Bits shifted out of a 32-bit word are lost. */
  function ShiftLeft(a: nat, k: nat): Constant {
    Up(a, k) % 0x1_0000_0000
  }

  /** The k lowest bits. */
  function Low(a: nat, k: nat): nat {
    if k == 0 then 0 else 2 * Low(a / 2, k - 1) + a % 2
  }

  function Ones(k: nat): nat {
    if k == 0 then 0 else 2 * Ones(k - 1) + 1
  }

  lemma {:induction false} MaskLow(a: nat, k: nat)
    ensures And(a, Ones(k)) == Low(a, k)
    decreases k
  {
    if k > 0 {
      MaskLow(a / 2, k - 1);
      assert a == 0 ==> And(a / 2, Ones(k - 1)) == 0;
    }
  }

  /** A mask with k zero bits at its end masks what is left after a shift. */
  lemma {:induction false} MaskShifted(a: nat, m: nat, k: nat)
    ensures And(a, Up(m, k)) == Up(And(Down(a, k), m), k)
    decreases k
  {
    if k > 0 {
      MaskShifted(a / 2, m, k - 1);
      AndEven(a, Up(m, k - 1));
    }
  }

  lemma AndEven(a: nat, m: nat)
    ensures And(a, 2 * m) == 2 * And(a / 2, m)
  {
  }

  lemma {:induction false} DownUp(a: nat, k: nat)
    ensures Down(Up(a, k), k) == a
    decreases k
  {
    if k > 0 {
      DownUp(a, k - 1);
    }
  }

  lemma {:induction false} Split(a: nat, k: nat)
    ensures a == Up(Down(a, k), k) + Low(a, k) && Low(a, k) <= Ones(k)
    decreases k
  {
    if k > 0 {
      Split(a / 2, k - 1);
    }
  }

  /** Where the bits do not meet, or is a sum. */
  lemma {:induction false} OrIsSum(a: nat, b: nat, k: nat)
    requires b <= Ones(k)
    ensures Or(Up(a, k), b) == Up(a, k) + b
    decreases k
  {
    if k > 0 {
      OrIsSum(a, b / 2, k - 1);
    }
  }

  lemma {:induction false} UpAdds(a: nat, j: nat, k: nat)
    ensures Up(Up(a, j), k) == Up(a, j + k)
    decreases k
  {
    if k > 0 {
      UpAdds(a, j, k - 1);
    }
  }

  lemma UpFour(a: nat)
    ensures Up(a, 2) == 4 * a && Up(a, 3) == 8 * a && Up(a, 4) == 16 * a
  {
    assert Up(a, 1) == 2 * a;
    assert Up(a, 2) == 2 * Up(a, 1);
    assert Up(a, 3) == 2 * Up(a, 2);
    assert Up(a, 4) == 2 * Up(a, 3);
  }

  lemma UpEight(a: nat)
    ensures Up(a, 8) == 256 * a && Up(a, 5) == 32 * a
  {
    UpFour(a);
    UpFour(Up(a, 4));
    UpAdds(a, 4, 4);
    assert Up(a, 5) == 2 * Up(a, 4);
  }

  lemma {:induction false} OnesUp(k: nat)
    ensures Ones(k) + 1 == Up(1, k)
    decreases k
  {
    if k > 0 {
      OnesUp(k - 1);
    }
  }

  lemma Up29(a: nat)
    ensures Up(a, 29) == 0x2000_0000 * a && Ones(29) == 0x1FFF_FFFF
  {
    UpTo29(a);
    UpTo29(1);
    OnesUp(29);
  }

  lemma UpTo29(a: nat)
    ensures Up(a, 29) == 0x2000_0000 * a
  {
    UpEight(a);
    UpEight(Up(a, 8));
    UpEight(Up(a, 16));
    UpEight(Up(a, 24));
    UpAdds(a, 8, 8);
    UpAdds(a, 16, 8);
    UpAdds(a, 24, 5);
  }

  lemma Parts29(t: Constant)
    ensures And(t, Ones(29)) == Low(t, 29) == t % 0x2000_0000
    ensures Down(t, 29) == t / 0x2000_0000 <= 7
  {
    Up29(Down(t, 29));
    MaskLow(t, 29);
    Split(t, 29);
  }

  lemma LowThree(t: nat)
    requires t <= 7
    ensures And(t, 7) == t && Ones(3) == 7
  {
    OnesUp(3);
    UpFour(1);
    MaskLow(t, 3);
    Split(t, 3);
    UpFour(Down(t, 3));
  }

  /** The low word: 29 bits moved up. */
  lemma LowWordIs(t: Constant, mask: nat)
    requires mask == 0x1FFF_FFFF
    ensures ShiftLeft(And(t, mask), 3) == t % 0x2000_0000 * 8
  {
    Up29(1);
    Parts29(t);
    UpFour(Low(t, 29));
  }

  lemma ShiftedOut(t: Constant)
    ensures t * 8 % 0x1_0000_0000 == t % 0x2000_0000 * 8
  {
  }

  /** The high word: moved up, and the top three bits of the other one below it. */
  lemma HighWordIs(t0: Constant, t1: Constant, mask: nat)
    requires mask == 0xE000_0000
    ensures Or(ShiftLeft(t1, 3), Down(And(t0, mask), 29)) == t1 * 8 % 0x1_0000_0000 + t0 / 0x2000_0000
  {
    var top := t0 / 0x2000_0000;
    assert Down(And(t0, mask), 29) == top by {
      Parts29(t0);
      Up29(7);
      MaskShifted(t0, 7, 29);
      DownUp(And(top, 7), 29);
      LowThree(top);
    }
    assert ShiftLeft(t1, 3) == Up(t1 % 0x2000_0000, 3) == t1 * 8 % 0x1_0000_0000 by {
      UpFour(t1);
      UpFour(t1 % 0x2000_0000);
      ShiftedOut(t1);
    }
    LowThree(0);
    OrIsSum(t1 % 0x2000_0000, top, 3);
  }
}
