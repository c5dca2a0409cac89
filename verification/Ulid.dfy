/** The text form of document ids: a 48-bit millisecond timestamp and 80 random bits in Crockford base32. */
module Ulid {
  import opened StringOrder
  import opened Radix
  import opened ByteWindows

  const ALPHABET := "0123456789ABCDEFGHJKMNPQRSTVWXYZ"
  const MS_LIMIT: nat := 0x4_0000_0000_0000  // 2^50: what ten characters can carry
  const RAND_LIMIT: nat := 0x1_0000_0000_0000_0000_0000  // 2^80

  /** Ten bytes, most significant first. */
  type Rand = r: seq<nat> | |r| == 10 && AreDigits(r, 256) witness [0, 0, 0, 0, 0, 0, 0, 0, 0, 0]

  /** The random part as the big-endian number it is. */
  function RandValue(r: seq<nat>): nat
  {
    Value(r, 256)
  }

  /** (ms >> k) & 0x1F on an unsigned word, with the power of two written out. */
  function Shifted(ms: nat, power: nat): nat
    requires power > 0
  {
    ms / power % 32
  }

  function TimeIndices(ms: nat): (ix: seq<nat>)
    ensures |ix| == 10
  {
    [ Shifted(ms, 0x2000_0000_0000), Shifted(ms, 0x100_0000_0000), Shifted(ms, 0x8_0000_0000), Shifted(ms, 0x4000_0000),
      Shifted(ms, 0x200_0000), Shifted(ms, 0x10_0000), Shifted(ms, 0x8000), Shifted(ms, 0x400), Shifted(ms, 0x20),
        Shifted(ms, 1) ]
  }

  /** Five bytes as eight base32 digits. */
  function Windows(a: nat, b: nat, c: nat, d: nat, e: nat): (ws: seq<nat>)
    ensures |ws| == 8
  {
    [a / 8, a % 8 * 4 + b / 64, b / 2 % 32, b % 2 * 16 + c / 16, c % 16 * 2 + d / 128, d / 4 % 32,
      d % 4 * 8 + e / 32, e % 32]
  }

  function Chars(ix: seq<nat>): string
    requires AreDigits(ix, 32)
  {
    seq(|ix|, i requires 0 <= i < |ix| => ALPHABET[ix[i]])
  }

  /** The 26 alphabet positions, most significant first. */
  function Indices(ms: nat, r: Rand): seq<nat>
  {
    TimeIndices(ms) + Windows(r[0], r[1], r[2], r[3], r[4]) + Windows(r[5], r[6], r[7], r[8], r[9])
  }

  /** The text of a timestamp and randomness. */
  function Encode(ms: nat, r: Rand): string
  {
    IndicesAreDigits(ms, r);
    Chars(Indices(ms, r))
  }

  function Numbers(r: seq<bv8>): (n: Rand)
    requires |r| == 10
    ensures forall i :: 0 <= i < 10 ==> n[i] == r[i] as nat
  {
    var n := seq(10, i requires 0 <= i < 10 => r[i] as nat);
    assert AreDigits(n, 256);
    n
  }

  /** Five bytes cut with masks and shifts. */
  method Cut(a: bv8, b: bv8, c: bv8, d: bv8, e: bv8) returns (ws: seq<nat>)
    ensures ws == Windows(a as nat, b as nat, c as nat, d as nat, e as nat)
  {
    var w0 := Window0(a);
    var w1 := Window1(a, b);
    var w2 := Window2(b);
    var w3 := Window3(b, c);
    var w4 := Window4(c, d);
    var w5 := Window5(d);
    var w6 := Window6(d, e);
    var w7 := Window7(e);
    EightWindows(a as nat, b as nat, c as nat, d as nat, e as nat, w0, w1, w2, w3, w4, w5, w6, w7);
    ws := [w0, w1, w2, w3, w4, w5, w6, w7];
  }

  lemma {:induction false} EightWindows(a: nat, b: nat, c: nat, d: nat, e: nat, w0: nat, w1: nat, w2: nat, w3: nat,
      w4: nat, w5: nat, w6: nat, w7: nat)
    requires w0 == a / 8 && w1 == a % 8 * 4 + b / 64 && w2 == b / 2 % 32 && w3 == b % 2 * 16 + c / 16
    requires w4 == c % 16 * 2 + d / 128 && w5 == d / 4 % 32 && w6 == d % 4 * 8 + e / 32 && w7 == e % 32
    ensures [w0, w1, w2, w3, w4, w5, w6, w7] == Windows(a, b, c, d, e)
  {
  }

  /** What encode does with the bytes themselves. */
  method EncodeBytes(ms: nat, r: seq<bv8>) returns (s: string)
    requires |r| == 10
    ensures s == Encode(ms, Numbers(r))
  {
    var front := Cut(r[0], r[1], r[2], r[3], r[4]);
    var back := Cut(r[5], r[6], r[7], r[8], r[9]);
    ghost var n := Numbers(r);
    assert front == Windows(n[0], n[1], n[2], n[3], n[4]) && back == Windows(n[5], n[6], n[7], n[8], n[9]);
    IndicesAreDigits(ms, n);
    s := Chars(TimeIndices(ms) + front + back);
  }

  // -----------------------------------------------------------------------------------------
  // The 26 positions are the base32 digits of the 130-bit number ms * 2^80 + randomness
  // -----------------------------------------------------------------------------------------

  lemma {:induction false} WindowsAreDigits(a: nat, b: nat, c: nat, d: nat, e: nat)
    requires a < 256 && b < 256 && c < 256 && d < 256 && e < 256
    ensures AreDigits(Windows(a, b, c, d, e), 32)
  {
  }

  lemma {:induction false} IndicesAreDigits(ms: nat, r: Rand)
    ensures AreDigits(Indices(ms, r), 32)
  {
    WindowsAreDigits(r[0], r[1], r[2], r[3], r[4]);
    WindowsAreDigits(r[5], r[6], r[7], r[8], r[9]);
  }

  lemma {:induction false} DigitsStep(v: nat, n: nat)
    ensures Digits(v, 32, n + 1) == Digits(v / 32, 32, n) + [v % 32]
  {
  }

  /** Ten shifts by multiples of five are ten divisions by 32. */
  lemma {:induction false} TimeIndicesAreDigits(ms: nat)
    ensures TimeIndices(ms) == Digits(ms, 32, 10)
  {
    var q1 := ms / 32;
    var q2 := q1 / 32;
    var q3 := q2 / 32;
    var q4 := q3 / 32;
    var q5 := q4 / 32;
    var q6 := q5 / 32;
    var q7 := q6 / 32;
    var q8 := q7 / 32;
    var q9 := q8 / 32;
    Quotients(ms);
    DigitsStep(q9, 0); DigitsStep(q8, 1); DigitsStep(q7, 2); DigitsStep(q6, 3); DigitsStep(q5, 4);
    DigitsStep(q4, 5); DigitsStep(q3, 6); DigitsStep(q2, 7); DigitsStep(q1, 8); DigitsStep(ms, 9);
    var ds := TimeIndices(ms);
    assert ds == [q9 % 32, q8 % 32, q7 % 32, q6 % 32, q5 % 32, q4 % 32, q3 % 32, q2 % 32, q1 % 32, ms % 32];
  }

  lemma {:induction false} Quotients(ms: nat)
    ensures ms / 0x400 == ms / 32 / 32
    ensures ms / 0x8000 == ms / 32 / 32 / 32
    ensures ms / 0x10_0000 == ms / 32 / 32 / 32 / 32
    ensures ms / 0x200_0000 == ms / 32 / 32 / 32 / 32 / 32
    ensures ms / 0x4000_0000 == ms / 32 / 32 / 32 / 32 / 32 / 32
    ensures ms / 0x8_0000_0000 == ms / 32 / 32 / 32 / 32 / 32 / 32 / 32
    ensures ms / 0x100_0000_0000 == ms / 32 / 32 / 32 / 32 / 32 / 32 / 32 / 32
    ensures ms / 0x2000_0000_0000 == ms / 32 / 32 / 32 / 32 / 32 / 32 / 32 / 32 / 32
  {
  }

  lemma {:induction false} ValuePush(ds: seq<nat>, d: nat, b: nat)
    ensures Value(ds + [d], b) == Value(ds, b) * b + d
  {
    assert (ds + [d])[..|ds|] == ds;
  }

  lemma {:induction false} Value5(a: nat, b: nat, c: nat, d: nat, e: nat, base: nat)
    requires IsBase(base)
    ensures Value([a, b, c, d, e], base) == (((a * base + b) * base + c) * base + d) * base + e
  {
    ValuePush([], a, base);
    ValuePush([a], b, base);
    ValuePush([a, b], c, base);
    ValuePush([a, b, c], d, base);
    ValuePush([a, b, c, d], e, base);
    assert [] + [a] == [a] && [a] + [b] == [a, b] && [a, b] + [c] == [a, b, c];
    assert [a, b, c] + [d] == [a, b, c, d] && [a, b, c, d] + [e] == [a, b, c, d, e];
  }

  lemma {:induction false} Value8(ix: seq<nat>)
    requires |ix| == 8
    ensures Value(ix, 32) == ((((((ix[0] * 32 + ix[1]) * 32 + ix[2]) * 32 + ix[3]) * 32 + ix[4]) * 32 + ix[5]) * 32 + ix[6]) * 32 + ix[7]
  {
    var x5 := ix[..5];
    Value5(ix[0], ix[1], ix[2], ix[3], ix[4], 32);
    assert x5 == [ix[0], ix[1], ix[2], ix[3], ix[4]];
    ValuePush(x5, ix[5], 32);
    ValuePush(x5 + [ix[5]], ix[6], 32);
    ValuePush(x5 + [ix[5]] + [ix[6]], ix[7], 32);
    assert ix == x5 + [ix[5]] + [ix[6]] + [ix[7]];
  }

  /** The same forty bits, read as five bytes and as eight windows. */
  lemma {:induction false} PartsValue(a1: nat, a0: nat, b2: nat, b1: nat, b0: nat, c1: nat, c0: nat, d2: nat, d1: nat,
      d0: nat, e1: nat, e0: nat)
    ensures ((((a1 * 8 + a0) * 256 + (b2 * 64 + b1 * 2 + b0)) * 256 + (c1 * 16 + c0)) * 256 + (d2 * 128 + d1 * 4 + d0)) * 256 + (e1 * 32 + e0)
         == (((((((a1 * 32 + (a0 * 4 + b2)) * 32 + b1) * 32 + (b0 * 16 + c1)) * 32 + (c0 * 2 + d2)) * 32 + d1) * 32 + (d0 * 8 + e1)) * 32 + e0)
  {
  }

  lemma {:induction false} ByteParts(x: nat)
    requires x < 256
    ensures x == x / 8 * 8 + x % 8 && x == x / 16 * 16 + x % 16 && x == x / 32 * 32 + x % 32
    ensures x == x / 64 * 64 + x / 2 % 32 * 2 + x % 2
    ensures x == x / 128 * 128 + x / 4 % 32 * 4 + x % 4
  {
    var h, q := x / 2, x / 4;
    assert h == h / 32 * 32 + h % 32 && h / 32 == x / 64;
    assert q == q / 32 * 32 + q % 32 && q / 32 == x / 128;
  }

  lemma {:induction false} WindowsOfParts(a1: nat, a0: nat, b2: nat, b1: nat, b0: nat, c1: nat, c0: nat, d2: nat,
      d1: nat, d0: nat, e1: nat, e0: nat)
    ensures Value([a1, a0 * 4 + b2, b1, b0 * 16 + c1, c0 * 2 + d2, d1, d0 * 8 + e1, e0], 32)
         == Value([a1 * 8 + a0, b2 * 64 + b1 * 2 + b0, c1 * 16 + c0, d2 * 128 + d1 * 4 + d0, e1 * 32 + e0], 256)
  {
    Value8([a1, a0 * 4 + b2, b1, b0 * 16 + c1, c0 * 2 + d2, d1, d0 * 8 + e1, e0]);
    Value5(a1 * 8 + a0, b2 * 64 + b1 * 2 + b0, c1 * 16 + c0, d2 * 128 + d1 * 4 + d0, e1 * 32 + e0, 256);
    PartsValue(a1, a0, b2, b1, b0, c1, c0, d2, d1, d0, e1, e0);
  }

  /** Five bytes are eight base32 digits. */
  lemma {:induction false} WindowsValue(a: nat, b: nat, c: nat, d: nat, e: nat)
    requires a < 256 && b < 256 && c < 256 && d < 256 && e < 256
    ensures Value(Windows(a, b, c, d, e), 32) == Value([a, b, c, d, e], 256)
  {
    ByteParts(a);
    ByteParts(b);
    ByteParts(c);
    ByteParts(d);
    ByteParts(e);
    var a1, a0, b2, b1, b0, c1, c0 := a / 8, a % 8, b / 64, b / 2 % 32, b % 2, c / 16, c % 16;
    var d2, d1, d0, e1, e0 := d / 128, d / 4 % 32, d % 4, e / 32, e % 32;
    WindowsOfParts(a1, a0, b2, b1, b0, c1, c0, d2, d1, d0, e1, e0);
    assert [a, b, c, d, e] == [a1 * 8 + a0, b2 * 64 + b1 * 2 + b0, c1 * 16 + c0, d2 * 128 + d1 * 4 + d0, e1 * 32 + e0];
    assert Windows(a, b, c, d, e) == [a1, a0 * 4 + b2, b1, b0 * 16 + c1, c0 * 2 + d2, d1, d0 * 8 + e1, e0];
  }

  lemma {:induction false} PowConstants()
    ensures Pow(32, 8) == 0x100_0000_0000 && Pow(256, 5) == 0x100_0000_0000
    ensures Pow(32, 10) == MS_LIMIT && Pow(32, 16) == RAND_LIMIT && Pow(256, 10) == RAND_LIMIT
    ensures Pow(32, 26) == MS_LIMIT * RAND_LIMIT
  {
    assert Pow(32, 0) == 1 && Pow(32, 1) == 32 && Pow(32, 2) == 0x400 && Pow(32, 3) == 0x8000 &&
      Pow(32, 4) == 0x10_0000;
    PowAdd(32, 4, 4);
    PowAdd(32, 8, 2);
    PowAdd(32, 8, 8);
    PowAdd(32, 10, 16);
    assert Pow(256, 1) == 256 && Pow(256, 2) == 0x1_0000 && Pow(256, 3) == 0x100_0000;
    PowAdd(256, 3, 2);
    PowAdd(256, 5, 5);
  }

  /** The positions spell ms * 2^80 + randomness, with only the low 50 bits of ms. */
  lemma {:induction false} IndicesValue(ms: nat, r: Rand)
    ensures Value(Indices(ms, r), 32) == ms % MS_LIMIT * RAND_LIMIT + RandValue(r)
    ensures RandValue(r) < RAND_LIMIT
  {
    var t, w0, w1 := TimeIndices(ms), Windows(r[0], r[1], r[2], r[3], r[4]), Windows(r[5], r[6], r[7], r[8], r[9]);
    PowConstants();
    TimeIndicesAreDigits(ms);
    ValueOfDigits(ms, 32, 10);
    WindowsValue(r[0], r[1], r[2], r[3], r[4]);
    WindowsValue(r[5], r[6], r[7], r[8], r[9]);
    ValueAppend(t, w0 + w1, 32);
    ValueAppend(w0, w1, 32);
    assert Indices(ms, r) == t + (w0 + w1);
    assert r == [r[0], r[1], r[2], r[3], r[4]] + [r[5], r[6], r[7], r[8], r[9]];
    ValueAppend([r[0], r[1], r[2], r[3], r[4]], [r[5], r[6], r[7], r[8], r[9]], 256);
    ValueBound(r, 256);
  }

  // -----------------------------------------------------------------------------------------
  // Order
  // -----------------------------------------------------------------------------------------

  /** Crockford's alphabet: the digits and the capital letters without I, L, O and U. */
  predicate IsCrockford(c: char)
  {
    '0' <= c <= '9' || ('A' <= c <= 'Z' && c != 'I' && c != 'L' && c != 'O' && c != 'U')
  }

  lemma {:induction false} AlphabetIsCrockford(c: char)
    ensures |ALPHABET| == 32 && (c in ALPHABET <==> IsCrockford(c))
  {
    if IsCrockford(c) { CrockfordIndex(c); }
    if c in ALPHABET {
      var k: nat :| k < 32 && ALPHABET[k] == c;
      CrockfordAt(k);
    }
  }

  lemma {:induction false} CrockfordAt(k: nat)
    requires k < 32
    ensures IsCrockford(ALPHABET[k])
  {
  }

  lemma {:induction false} CrockfordIndex(c: char)
    requires IsCrockford(c)
    ensures c in ALPHABET
  {
    var n := c as int - '0' as int;
    var k := if c <= '9' then n else if c < 'I' then n - 7 else if c < 'L' then n - 8 else if c < 'O' then n - 9
      else if c < 'U' then n - 10 else n - 11;
    assert ALPHABET[k] == c;
  }

  lemma {:induction false} AlphabetLess(i: nat, j: nat)
    requires i < j < 32
    ensures ALPHABET[i] < ALPHABET[j]
  {
  }

  lemma {:induction false} AlphabetAscends(i: nat, j: nat)
    requires i < 32 && j < 32
    ensures ALPHABET[i] < ALPHABET[j] <==> i < j
    ensures ALPHABET[i] == ALPHABET[j] <==> i == j
  {
    if i < j {
      AlphabetLess(i, j);
    } else if j < i {
      AlphabetLess(j, i);
    }
  }

  lemma {:induction false} CharsStep(a: seq<nat>)
    requires a != [] && AreDigits(a, 32)
    ensures Chars(a) == [ALPHABET[a[0]]] + Chars(a[1..])
  {
  }

  lemma {:induction false} CharsKeepOrder(a: seq<nat>, b: seq<nat>)
    requires |a| == |b| && AreDigits(a, 32) && AreDigits(b, 32)
    ensures StringLess(Chars(a), Chars(b)) <==> LexLess(a, b)
  {
    if a == [] {
    } else {
      CharsKeepOrder(a[1..], b[1..]);
      AlphabetAscends(a[0], b[0]);
      CharsStep(a);
      CharsStep(b);
      assert Chars(a)[1..] == Chars(a[1..]) && Chars(b)[1..] == Chars(b[1..]);
    }
  }

  lemma {:induction false} CharsInjective(a: seq<nat>, b: seq<nat>)
    requires |a| == |b| && AreDigits(a, 32) && AreDigits(b, 32) && Chars(a) == Chars(b)
    ensures a == b
  {
    forall i | 0 <= i < |a| ensures a[i] == b[i] {
      assert Chars(a)[i] == Chars(b)[i];
      AlphabetAscends(a[i], b[i]);
    }
  }

  /** What an id is, without the bits: digits of a number, in the alphabet. */
  ghost predicate Spells(s: string, ix: seq<nat>, v: nat)
  {
    AreDigits(ix, 32) && |ix| == 26 && s == Chars(ix) && Value(ix, 32) == v
  }

  lemma {:induction false} EncodeSpells(ms: nat, r: Rand) returns (ix: seq<nat>)
    ensures Spells(Encode(ms, r), ix, ms % MS_LIMIT * RAND_LIMIT + RandValue(r))
    ensures RandValue(r) < RAND_LIMIT
  {
    ix := Indices(ms, r);
    IndicesAreDigits(ms, r);
    IndicesValue(ms, r);
  }

  lemma {:induction false} PairsCompare(ms: nat, a: nat, ms': nat, a': nat)
    requires a < RAND_LIMIT && a' < RAND_LIMIT
    ensures ms * RAND_LIMIT + a < ms' * RAND_LIMIT + a' <==> ms < ms' || (ms == ms' && a < a')
    ensures ms * RAND_LIMIT + a == ms' * RAND_LIMIT + a' <==> ms == ms' && a == a'
  {
  }

  lemma {:induction false} SpellingsCompare(s: string, ix: seq<nat>, v: nat, s': string, ix': seq<nat>, v': nat)
    requires Spells(s, ix, v) && Spells(s', ix', v')
    ensures StringLess(s, s') <==> v < v'
    ensures s == s' <==> v == v'
  {
    CharsKeepOrder(ix, ix');
    if s == s' { CharsInjective(ix, ix'); }
    LexIsNumeric(ix, ix', 32);
  }

  lemma {:induction false} RandValueInjective(r: Rand, r': Rand)
    ensures RandValue(r) == RandValue(r') <==> r == r'
  {
    LexIsNumeric(r, r', 256);
  }

  lemma {:induction false} TextsCompare(s: string, ix: seq<nat>, ms: nat, a: nat, s': string, ix': seq<nat>, ms': nat,
      a': nat)
    requires a < RAND_LIMIT && a' < RAND_LIMIT
    requires Spells(s, ix, ms * RAND_LIMIT + a) && Spells(s', ix', ms' * RAND_LIMIT + a')
    ensures StringLess(s, s') <==> ms < ms' || (ms == ms' && a < a')
    ensures s == s' <==> ms == ms' && a == a'
  {
    SpellingsCompare(s, ix, ms * RAND_LIMIT + a, s', ix', ms' * RAND_LIMIT + a');
    PairsCompare(ms, a, ms', a');
  }

  lemma {:induction false} WholeTime(ms: nat)
    requires ms < MS_LIMIT
    ensures ms % MS_LIMIT == ms
  {
  }

  lemma {:induction false} EncodeSpellsExactly(ms: nat, r: Rand) returns (ix: seq<nat>)
    requires ms < MS_LIMIT
    ensures Spells(Encode(ms, r), ix, ms * RAND_LIMIT + RandValue(r)) && RandValue(r) < RAND_LIMIT
  {
    ix := EncodeSpells(ms, r);
    WholeTime(ms);
  }

  /** Ids compare as strings exactly as their (timestamp, randomness) pairs compare as numbers. */
  lemma {:induction false} EncodeKeepsOrder(ms: nat, r: Rand, ms': nat, r': Rand)
    requires ms < MS_LIMIT && ms' < MS_LIMIT
    ensures StringLess(Encode(ms, r), Encode(ms', r')) <==> ms < ms' || (ms == ms' && RandValue(r) < RandValue(r'))
  {
    var ix := EncodeSpellsExactly(ms, r);
    var ix' := EncodeSpellsExactly(ms', r');
    TextsCompare(Encode(ms, r), ix, ms, RandValue(r), Encode(ms', r'), ix', ms', RandValue(r'));
  }

  /** Different pairs have different ids. */
  lemma {:induction false} EncodeInjective(ms: nat, r: Rand, ms': nat, r': Rand)
    requires ms < MS_LIMIT && ms' < MS_LIMIT
    ensures Encode(ms, r) == Encode(ms', r') <==> ms == ms' && r == r'
  {
    var ix := EncodeSpellsExactly(ms, r);
    var ix' := EncodeSpellsExactly(ms', r');
    TextsCompare(Encode(ms, r), ix, ms, RandValue(r), Encode(ms', r'), ix', ms', RandValue(r'));
    RandValueInjective(r, r');
  }

  // -----------------------------------------------------------------------------------------
  // Decoding
  // -----------------------------------------------------------------------------------------

  predicate IsId(s: string)
  {
    |s| == 26 && forall i :: 0 <= i < 26 ==> s[i] in ALPHABET
  }

  function IndexOf(s: string, c: char): (k: nat)
    requires c in s
    ensures k < |s| && s[k] == c
  {
    if s[0] == c then 0 else 1 + IndexOf(s[1..], c)
  }

  function Positions(s: string): (ix: seq<nat>)
    requires forall i :: 0 <= i < |s| ==> s[i] in ALPHABET
    ensures |ix| == |s| && AreDigits(ix, 32)
    ensures forall i :: 0 <= i < |s| ==> ALPHABET[ix[i]] == s[i]
  {
    seq(|s|, i requires 0 <= i < |s| => IndexOf(ALPHABET, s[i]))
  }

  /** Reading an id: its digits as one number, cut into timestamp and bytes. */
  function Decode(s: string): (nat, Rand)
    requires IsId(s)
  {
    var v := Value(Positions(s), 32);
    (v / RAND_LIMIT, Digits(v % RAND_LIMIT, 256, 10))
  }

  lemma {:induction false} EncodeIsId(ms: nat, r: Rand)
    ensures IsId(Encode(ms, r))
  {
    IndicesAreDigits(ms, r);
  }

  lemma {:induction false} PositionsOfChars(ix: seq<nat>)
    requires AreDigits(ix, 32)
    ensures Positions(Chars(ix)) == ix
  {
    forall i | 0 <= i < |ix| ensures Positions(Chars(ix))[i] == ix[i] {
      AlphabetAscends(Positions(Chars(ix))[i], ix[i]);
    }
  }

  lemma {:induction false} CharsInAlphabet(ix: seq<nat>)
    requires AreDigits(ix, 32)
    ensures |Chars(ix)| == |ix| && forall i :: 0 <= i < |ix| ==> Chars(ix)[i] in ALPHABET
  {
  }

  lemma {:induction false} PartsOfChars(ix: seq<nat>, k: nat)
    requires AreDigits(ix, 32) && k <= |ix|
    ensures |Chars(ix)| == |ix| && forall i :: 0 <= i < |ix| ==> Chars(ix)[i] in ALPHABET
    ensures Positions(Chars(ix)[..k]) == ix[..k] && Positions(Chars(ix)[k..]) == ix[k..]
  {
    CharsInAlphabet(ix);
    assert Chars(ix)[..k] == Chars(ix[..k]) && Chars(ix)[k..] == Chars(ix[k..]);
    PositionsOfChars(ix[..k]);
    PositionsOfChars(ix[k..]);
  }

  lemma {:induction false} HalvesValue(ms: nat, r: Rand)
    ensures Value(Indices(ms, r)[..10], 32) == ms % MS_LIMIT && Value(Indices(ms, r)[10..], 32) == RandValue(r)
  {
    var ix := Indices(ms, r);
    PowConstants();
    TimeIndicesAreDigits(ms);
    ValueOfDigits(ms, 32, 10);
    assert ix == ix[..10] + ix[10..] && ix[..10] == TimeIndices(ms);
    ValueAppend(ix[..10], ix[10..], 32);
    IndicesValue(ms, r);
  }

  /** The first ten characters of an id in base 32. */
  ghost function TimeRead(id: string): nat
    requires IsId(id)
  {
    Value(Positions(id[..10]), 32)
  }

  /** The other sixteen. */
  ghost function RandomRead(id: string): nat
    requires IsId(id)
  {
    Value(Positions(id[10..]), 32)
  }

  /** The first ten characters are the timestamp in base 32, the other sixteen the randomness. */
  lemma {:induction false} HalvesOfId(ms: nat, r: Rand, id: string)
    requires id == Encode(ms, r)
    ensures IsId(id) && TimeRead(id) == ms % MS_LIMIT && RandomRead(id) == RandValue(r)
  {
    IndicesAreDigits(ms, r);
    PartsOfChars(Indices(ms, r), 10);
    HalvesValue(ms, r);
  }

  lemma {:induction false} SplitPair(v: nat)
    requires v < MS_LIMIT * RAND_LIMIT
    ensures v / RAND_LIMIT < MS_LIMIT && v == v / RAND_LIMIT * RAND_LIMIT + v % RAND_LIMIT
  {
  }

  lemma {:induction false} PositionsSpell(s: string)
    requires IsId(s)
    ensures Spells(s, Positions(s), Value(Positions(s), 32)) && Value(Positions(s), 32) < MS_LIMIT * RAND_LIMIT
  {
    PowConstants();
    ValueBound(Positions(s), 32);
    assert Chars(Positions(s)) == s;
  }

  lemma {:induction false} RandOf(w: nat)
    requires w < RAND_LIMIT
    ensures RandValue(Digits(w, 256, 10)) == w
  {
    PowConstants();
    ValueOfDigits(w, 256, 10);
  }

  lemma {:induction false} DecodeValue(s: string) returns (ms: nat, r: Rand)
    requires IsId(s)
    ensures Decode(s) == (ms, r) && ms < MS_LIMIT && RandValue(r) < RAND_LIMIT
    ensures Spells(s, Positions(s), ms * RAND_LIMIT + RandValue(r))
  {
    var v := Value(Positions(s), 32);
    ms, r := v / RAND_LIMIT, Digits(v % RAND_LIMIT, 256, 10);
    PositionsSpell(s);
    SplitPair(v);
    RandOf(v % RAND_LIMIT);
  }

  /** Every string of 26 alphabet characters is the encoding of what it decodes to. */
  lemma {:induction false} EncodeInvertsDecode(s: string)
    requires IsId(s)
    ensures Decode(s).0 < MS_LIMIT && Encode(Decode(s).0, Decode(s).1) == s
  {
    var ms, r := DecodeValue(s);
    var ix := EncodeSpellsExactly(ms, r);
    TextsCompare(s, Positions(s), ms, RandValue(r), Encode(ms, r), ix, ms, RandValue(r));
  }

  lemma {:induction false} DecodeOf(s: string, ix: seq<nat>, ms: nat, r: Rand)
    requires IsId(s) && RandValue(r) < RAND_LIMIT && Spells(s, ix, ms * RAND_LIMIT + RandValue(r))
    ensures Decode(s) == (ms, r)
  {
    var m, q := DecodeValue(s);
    TextsCompare(s, Positions(s), m, RandValue(q), s, ix, ms, RandValue(r));
    RandValueInjective(r, q);
  }

  /** Decoding recovers the randomness, and the timestamp up to the fifty bits that ten characters carry. */
  lemma {:induction false} DecodeInvertsEncode(ms: nat, r: Rand)
    requires IsId(Encode(ms, r))
    ensures Decode(Encode(ms, r)) == (ms % MS_LIMIT, r)
  {
    var ix := EncodeSpells(ms, r);
    DecodeOf(Encode(ms, r), ix, ms % MS_LIMIT, r);
  }
}
