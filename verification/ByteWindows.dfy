/** The masks and shifts that cut five-bit windows out of bytes, as arithmetic. */
module ByteWindows {

  lemma {:induction false} Keep3Shift2(a: bv8)
    ensures ((a & 0x07) << 2) as nat == a as nat % 8 * 4
  {
  }

  lemma {:induction false} Keep1Shift4(a: bv8)
    ensures ((a & 0x01) << 4) as nat == a as nat % 2 * 16
  {
  }

  lemma {:induction false} Keep4Shift1(a: bv8)
    ensures ((a & 0x0F) << 1) as nat == a as nat % 16 * 2
  {
  }

  lemma {:induction false} Keep2Shift3(a: bv8)
    ensures ((a & 0x03) << 3) as nat == a as nat % 4 * 8
  {
  }

  lemma {:induction false} Top2(a: bv8)
    ensures ((a & 0xC0) >> 6) as nat == a as nat / 64
  {
  }

  lemma {:induction false} Top4(a: bv8)
    ensures ((a & 0xF0) >> 4) as nat == a as nat / 16
  {
  }

  lemma {:induction false} Top1(a: bv8)
    ensures ((a & 0x80) >> 7) as nat == a as nat / 128
  {
  }

  lemma {:induction false} Top3(a: bv8)
    ensures ((a & 0xE0) >> 5) as nat == a as nat / 32
  {
  }

  /** Windows that share no bit are put together by adding. */
  lemma {:induction false} OrAdds(p: bv8, q: bv8, k: bv8)
    requires k in {2, 4, 8, 16} && p & (k - 1) == 0 && p < 32 && q < k
    ensures (p | q) as nat == p as nat + q as nat
  {
  }

  lemma {:induction false} Low5(a: bv8)
    ensures (a & 0x1F) as nat == a as nat % 32
  {
  }

  lemma {:induction false} Top5(a: bv8)
    ensures ((a & 0xF8) >> 3) as nat == a as nat / 8
  {
  }

  lemma {:induction false} Half(a: bv8)
    ensures (a >> 1) as nat == a as nat / 2
  {
  }

  lemma {:induction false} Quarter(a: bv8)
    ensures (a >> 2) as nat == a as nat / 4
  {
  }

  // -----------------------------------------------------------------------------------------
  // The eight windows of five bytes
  // -----------------------------------------------------------------------------------------

  method Window0(a: bv8) returns (w: nat)
    ensures w == a as nat / 8
  {
    Top5(a);
    w := ((a & 0xF8) >> 3) as nat;
  }

  method Window1(a: bv8, b: bv8) returns (w: nat)
    ensures w == a as nat % 8 * 4 + b as nat / 64
  {
    Keep3Shift2(a);
    Top2(b);
    OrAdds((a & 0x07) << 2, (b & 0xC0) >> 6, 4);
    w := (((a & 0x07) << 2) | ((b & 0xC0) >> 6)) as nat;
  }

  method Window2(b: bv8) returns (w: nat)
    ensures w == b as nat / 2 % 32
  {
    assert (b & 0x3E) >> 1 == (b >> 1) & 0x1F;
    Half(b);
    Low5(b >> 1);
    w := ((b & 0x3E) >> 1) as nat;
  }

  method Window3(b: bv8, c: bv8) returns (w: nat)
    ensures w == b as nat % 2 * 16 + c as nat / 16
  {
    Keep1Shift4(b);
    Top4(c);
    OrAdds((b & 0x01) << 4, (c & 0xF0) >> 4, 16);
    w := (((b & 0x01) << 4) | ((c & 0xF0) >> 4)) as nat;
  }

  method Window4(c: bv8, d: bv8) returns (w: nat)
    ensures w == c as nat % 16 * 2 + d as nat / 128
  {
    Keep4Shift1(c);
    Top1(d);
    OrAdds((c & 0x0F) << 1, (d & 0x80) >> 7, 2);
    w := (((c & 0x0F) << 1) | ((d & 0x80) >> 7)) as nat;
  }

  method Window5(d: bv8) returns (w: nat)
    ensures w == d as nat / 4 % 32
  {
    assert (d & 0x7C) >> 2 == (d >> 2) & 0x1F;
    Quarter(d);
    Low5(d >> 2);
    w := ((d & 0x7C) >> 2) as nat;
  }

  method Window6(d: bv8, e: bv8) returns (w: nat)
    ensures w == d as nat % 4 * 8 + e as nat / 32
  {
    Keep2Shift3(d);
    Top3(e);
    OrAdds((d & 0x03) << 3, (e & 0xE0) >> 5, 8);
    w := (((d & 0x03) << 3) | ((e & 0xE0) >> 5)) as nat;
  }

  method Window7(e: bv8) returns (w: nat)
    ensures w == e as nat % 32
  {
    Low5(e);
    w := (e & 0x1F) as nat;
  }
}
