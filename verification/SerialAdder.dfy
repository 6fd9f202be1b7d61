/** The bit-serial adder both OPLL counters are built from: a register that rotates right one
    place per clock while a sum bit enters at the top and the carry is kept for the next clock. */
module SerialAdder {
  import opened Bits

  datatype Ring = Ring(reg: seq<bool>, carry: bool)

  function Sum(a: bool, b: bool, c: bool): bool { (a != b) != c }
  function Carry(a: bool, b: bool, c: bool): bool { (a && b) || (a && c) || (b && c) }

  /** One clock: the low bit plus one addend bit plus the carry; the sum bit enters at the top. */
  function AddBit(r: Ring, addendBit: bool): Ring
    requires r.reg != []
  {
    Ring(r.reg[1..] + [Sum(r.reg[0], addendBit, r.carry)], Carry(r.reg[0], addendBit, r.carry))
  }

  /** The carry into bit k of v + d. */
  function CarryInto(v: seq<bool>, d: seq<bool>, k: nat): bool
    requires k <= |v| == |d|
  {
    k > 0 && Carry(v[k - 1], d[k - 1], CarryInto(v, d, k - 1))
  }

  /** The sum as a register of the same width. */
  function Add(v: seq<bool>, d: seq<bool>): (s: seq<bool>)
    requires |v| == |d|
    ensures |s| == |v|
  {
    seq(|v|, k requires 0 <= k < |v| => Sum(v[k], d[k], CarryInto(v, d, k)))
  }

  /** The ring k clocks into an addition: the bits of v not yet visited below the sum bits so far. */
  function AfterBits(v: seq<bool>, d: seq<bool>, k: nat): (r: Ring)
    requires k <= |v| == |d|
    ensures |r.reg| == |v|
  {
    Ring(v[k..] + Add(v, d)[..k], CarryInto(v, d, k))
  }

  lemma AddBitStep(v: seq<bool>, d: seq<bool>, k: nat)
    requires k < |v| == |d|
    ensures AddBit(AfterBits(v, d, k), d[k]) == AfterBits(v, d, k + 1)
  {
    var s := Add(v, d);
    assert v[k..][1..] == v[k + 1..];
    assert s[..k] + [s[k]] == s[..k + 1];
    assert (v[k..] + s[..k])[1..] == v[k + 1..] + s[..k];
  }

  /** Adding nothing never carries. */
  lemma {:induction false} NoCarry(v: seq<bool>, k: nat)
    requires k <= |v|
    ensures !CarryInto(v, Zeros(|v|), k)
  {
    if k > 0 {
      NoCarry(v, k - 1);
    }
  }

  /** The prefix sums: the serial adder computes addition, with the carry as the next bit up. */
  lemma {:induction false} AddValue(v: seq<bool>, d: seq<bool>, k: nat)
    requires k <= |v| == |d|
    ensures Value(Add(v, d)[..k]) + BitAt(CarryInto(v, d, k), k) == Value(v[..k]) + Value(d[..k])
  {
    if k > 0 {
      AddValue(v, d, k - 1);
      var s := Add(v, d);
      assert s[..k][..k - 1] == s[..k - 1];
      assert v[..k][..k - 1] == v[..k - 1];
      assert d[..k][..k - 1] == d[..k - 1];
    }
  }

  /** A full turn of the ring adds, modulo the register's width. */
  lemma FullTurn(v: seq<bool>, d: seq<bool>)
    requires |v| == |d|
    ensures AfterBits(v, d, |v|).reg == Add(v, d)
    ensures var total := Value(v) + Value(d);
            Value(Add(v, d)) == if total < Pow2(|v|) then total else total - Pow2(|v|)
  {
    var n := |v|;
    AddValue(v, d, n);
    assert v[..n] == v && d[..n] == d && Add(v, d)[..n] == Add(v, d);
    assert v[n..] == [];
    ValueBound(Add(v, d));
    ValueBound(v);
    ValueBound(d);
  }
}
