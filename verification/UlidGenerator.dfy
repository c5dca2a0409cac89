/** The stateful id source: a counter that survives clock rewinds. */
module UlidGenerator {
  import opened StringOrder
  import opened Radix
  import opened Ulid

  /** What one call draws: a clock reading, ten seed bytes, a 32-bit step, and ten more bytes for an overflow. */
  datatype Draw = Draw(now: nat, seed: Rand, step: nat, reseed: Rand)

  const STEP_LIMIT: nat := 0x1_0000_0000

  predicate DrawOk(d: Draw)
  {
    d.step < STEP_LIMIT
  }

  /** A zero draw counts as one. */
  function Step(d: Draw): nat
  {
    if d.step == 0 then 1 else d.step
  }

  /** lastMs, and lastRand as a number. */
  datatype Gen = Gen(ms: nat, rand: nat)

  /** The random step would run past 80 bits. */
  predicate Overflows(g: Gen, d: Draw)
  {
    d.now <= g.ms && g.rand + Step(d) >= RAND_LIMIT
  }

  function Next(g: Gen, d: Draw): Gen
  {
    if d.now > g.ms then Gen(d.now, RandValue(d.seed))
    else if Overflows(g, d) then Gen(g.ms, RandValue(d.reseed))
    else Gen(g.ms, g.rand + Step(d))
  }

  /** Numbers of ten bytes, whatever their digits. */
  lemma {:induction false} RandBound(r: Rand)
    ensures RandValue(r) < RAND_LIMIT
  {
    PowConstants();
    ValueBound(r, 256);
  }

  class Generator {
    var lastMs: nat
    const lastRand: array<nat>  // ten bytes

    ghost predicate Valid()
      reads this, lastRand
    {
      lastRand.Length == 10 && AreDigits(lastRand[..], 256)
    }

    ghost function State(): Gen
      reads this, lastRand
    {
      Gen(lastMs, RandValue(lastRand[..]))
    }

    constructor ()
      ensures Valid() && lastMs == 0 && fresh(lastRand)
    {
      lastMs := 0;
      lastRand := new nat[10](i => 0);
    }

    method New(d: Draw) returns (id: string)
      requires Valid() && DrawOk(d)
      modifies this, lastRand
      ensures Valid() && State() == Next(old(State()), d)
      ensures id == Encode(lastMs, lastRand[..])
      ensures lastMs == if d.now > old(lastMs) then d.now else old(lastMs)
      ensures d.now > old(lastMs) ==> lastRand[..] == d.seed
      ensures d.now <= old(lastMs) ==>
        var sum := RandValue(old(lastRand[..])) + (if d.step == 0 then 1 else d.step);
        if sum < 0x1_0000_0000_0000_0000_0000 then RandValue(lastRand[..]) == sum else lastRand[..] == d.reseed
      ensures IsId(id) && Value(Positions(id[..10]), 32) == lastMs % 0x4_0000_0000_0000
      ensures Value(Positions(id[10..]), 32) == RandValue(lastRand[..])
    {
      Advance(d);
      id := Encode(lastMs, lastRand[..]);
      HalvesOfId(lastMs, lastRand[..], id);
    }

    /** The branches of New up to the encoding. */
    method Advance(d: Draw)
      requires Valid() && DrawOk(d)
      modifies this, lastRand
      ensures Valid() && State() == Next(old(State()), d)
      ensures lastMs == if d.now > old(lastMs) then d.now else old(lastMs)
      ensures d.now > old(lastMs) ==> lastRand[..] == d.seed
      ensures d.now <= old(lastMs) && Overflows(old(State()), d) ==> lastRand[..] == d.reseed
    {
      if d.now > lastMs {
        lastMs := d.now;
        Fill(lastRand, d.seed);
      } else {
        var ok := AddRandStep80(lastRand, d.step);
        if ok {
          ghost var total := old(State()).rand + Step(d);
          assert RandValue(lastRand[..]) == total;
        } else {
          Fill(lastRand, d.reseed);
        }
      }
    }
  }

  method Fill(b: array<nat>, r: Rand)
    requires b.Length == 10
    modifies b
    ensures b[..] == r
  {
    for i := 0 to 10
      invariant forall k :: 0 <= k < i ==> b[k] == r[k]
    {
      b[i] := r[i];
    }
  }

  /** One byte of the carry loop. */
  lemma {:induction false} CarryStep(hi: nat, digit: nat, lo: nat, carry: nat, p: nat)
    ensures (hi * 256 + digit) * p + carry * p + lo
         == hi * (256 * p) + (digit + carry) / 256 * (256 * p) + ((digit + carry) % 256 * p + lo)
  {
    var sum := digit + carry;
    assert sum == sum / 256 * 256 + sum % 256;
    var c, d := sum / 256, sum % 256;
    assert hi * 256 * p == hi * (256 * p);
    assert c * 256 * p == c * (256 * p);
    assert (c * 256 + d) * p == c * 256 * p + d * p;
    assert (hi * 256 + digit) * p == hi * 256 * p + digit * p;
    assert (digit + carry) * p == digit * p + carry * p;
  }

  /** What the bytes and a carry into position i - 1 amount to. */
  ghost function Pending(b: seq<nat>, i: nat, carry: nat): nat
    requires |b| == 10 && i <= 10
  {
    Value(b[..i], 256) * Pow(256, 10 - i) + carry * Pow(256, 10 - i) + Value(b[i..], 256)
  }

  lemma {:induction false} PendingStep(b: seq<nat>, i: nat, carry: nat)
    requires |b| == 10 && i < 10
    ensures Pending(b[i := (b[i] + carry) % 256], i, (b[i] + carry) / 256) == Pending(b, i + 1, carry)
  {
    var b' := b[i := (b[i] + carry) % 256];
    var hi, lo := b[..i], b[i + 1..];
    assert b[..i + 1][..i] == hi && b'[..i] == hi && b'[i..][1..] == lo;
    ValueFront(b'[i..], 256);
    CarryStep(Value(hi, 256), b[i], Value(lo, 256), carry, Pow(256, 9 - i));
  }

  /** Adding a step to the bytes from the last one up; the result is exact modulo 2^80, and false means it wrapped. */
  method AddRandStep80(b: array<nat>, drawn: nat) returns (ok: bool)
    requires b.Length == 10 && AreDigits(b[..], 256) && drawn < STEP_LIMIT
    modifies b
    ensures AreDigits(b[..], 256)
    ensures var total := RandValue(old(b[..])) + (if drawn == 0 then 1 else drawn);
      && RandValue(b[..]) == total % RAND_LIMIT
      && (ok <==> total < RAND_LIMIT)
  {
    var step := drawn;
    if step == 0 { step := 1; }
    ghost var total := RandValue(b[..]) + step;
    var carry: nat := step;
    var i := 10;
    assert b[..][..10] == b[..] && b[..][10..] == [];
    RandBound(b[..]);
    while i > 0 && carry > 0
      invariant 0 <= i <= 10 && AreDigits(b[..], 256)
      invariant total == Pending(b[..], i, carry)
      decreases i
    {
      i := i - 1;
      ghost var before := b[..];
      PendingStep(before, i, carry);
      var sum := b[i] + carry;
      b[i] := sum % 256;
      carry := sum / 256;
      assert b[..] == before[i := sum % 256];
    }
    AddDone(b[..], i, carry, total);
    ok := carry == 0;
  }

  lemma {:induction false} AddDone(b: seq<nat>, i: nat, carry: nat, total: nat)
    requires |b| == 10 && i <= 10 && AreDigits(b, 256) && total == Pending(b, i, carry) && (i == 0 || carry == 0)
    requires total < RAND_LIMIT + STEP_LIMIT
    ensures RandValue(b) == total % RAND_LIMIT && (carry == 0 <==> total < RAND_LIMIT)
  {
    Whole(b, i);
    PowConstants();
    RandBound(b);
    if carry > 0 {
      assert b[..0] == [] && b[0..] == b;
      CarryIsOne(total, carry, RandValue(b));
    }
  }

  lemma {:induction false} Whole(b: seq<nat>, i: nat)
    requires |b| == 10 && i <= 10
    ensures Value(b, 256) == Value(b[..i], 256) * Pow(256, 10 - i) + Value(b[i..], 256)
  {
    assert b == b[..i] + b[i..];
    ValueAppend(b[..i], b[i..], 256);
  }

  /** A 32-bit step wraps at most once. */
  lemma {:induction false} CarryIsOne(total: nat, carry: nat, v: nat)
    requires carry > 0 && total == carry * RAND_LIMIT + v && v < RAND_LIMIT && total < 2 * RAND_LIMIT
    ensures total % RAND_LIMIT == v && total >= RAND_LIMIT
  {
  }

  // -----------------------------------------------------------------------------------------
  // Runs
  // -----------------------------------------------------------------------------------------

  /** The state after every call of a run, starting with the state before the first. */
  function States(g: Gen, ds: seq<Draw>): (gs: seq<Gen>)
    ensures |gs| == |ds| + 1 && gs[0] == g
    decreases |ds|
  {
    if ds == [] then [g] else [g] + States(Next(g, ds[0]), ds[1..])
  }

  predicate Before(a: Gen, b: Gen)
  {
    a.ms < b.ms || (a.ms == b.ms && a.rand < b.rand)
  }

  lemma {:induction false} StatesStep(g: Gen, ds: seq<Draw>, k: nat)
    requires k < |ds|
    ensures States(g, ds)[k + 1] == Next(States(g, ds)[k], ds[k])
    decreases k
  {
    if k == 0 {
    } else {
      StatesStep(Next(g, ds[0]), ds[1..], k - 1);
    }
  }

  /** A call moves the pair forward unless it overflows; then exactly if the new seed happens to be higher. */
  lemma {:induction false} CallAdvances(g: Gen, d: Draw)
    ensures Before(g, Next(g, d)) <==> (Overflows(g, d) ==> g.rand < RandValue(d.reseed))
  {
  }

  lemma {:induction false} RunAdvances(g: Gen, ds: seq<Draw>, i: nat, j: nat)
    requires i < j <= |ds|
    requires forall k :: i <= k < j ==> !Overflows(States(g, ds)[k], ds[k])
    ensures Before(States(g, ds)[i], States(g, ds)[j])
    decreases j
  {
    StatesStep(g, ds, j - 1);
    CallAdvances(States(g, ds)[j - 1], ds[j - 1]);
    if i < j - 1 { RunAdvances(g, ds, i, j - 1); }
  }

  /** The id that a state was encoded to. */
  ghost predicate IdOf(id: string, g: Gen, r: Rand)
  {
    RandValue(r) == g.rand && id == Encode(g.ms, r)
  }

  lemma {:induction false} ClockStaysBelow(g: Gen, ds: seq<Draw>, k: nat)
    requires k <= |ds| && g.ms < MS_LIMIT && forall i :: 0 <= i < |ds| ==> ds[i].now < MS_LIMIT
    ensures States(g, ds)[k].ms < MS_LIMIT
  {
    if k == 0 {
    } else {
      StatesStep(g, ds, k - 1);
      ClockStaysBelow(g, ds, k - 1);
    }
  }

  /**
    Over any run, whatever the clock does, an id is greater than every earlier one as long as no call
    in between overflowed.
   */
  lemma {:induction false} IdsAscend(g: Gen, ds: seq<Draw>, i: nat, j: nat, a: string, ra: Rand, b: string, rb: Rand)
    requires g.ms < MS_LIMIT && forall k :: 0 <= k < |ds| ==> ds[k].now < MS_LIMIT
    requires i < j <= |ds| && forall k :: i <= k < j ==> !Overflows(States(g, ds)[k], ds[k])
    requires IdOf(a, States(g, ds)[i], ra) && IdOf(b, States(g, ds)[j], rb)
    ensures StringLess(a, b)
  {
    ClockStaysBelow(g, ds, i);
    ClockStaysBelow(g, ds, j);
    RunAdvances(g, ds, i, j);
    EncodeKeepsOrder(States(g, ds)[i].ms, ra, States(g, ds)[j].ms, rb);
  }

  /** Calls i to j - 1 of a run do not overflow. */
  ghost predicate Smooth(g: Gen, ds: seq<Draw>, i: nat, j: nat)
    requires j <= |ds|
  {
    forall k :: i <= k < j ==> !Overflows(States(g, ds)[k], ds[k])
  }

  ghost predicate IdsOf(ids: seq<string>, gs: seq<Gen>, rs: seq<Rand>)
  {
    |rs| == |ids| < |gs| && forall k :: 0 <= k < |ids| ==> IdOf(ids[k], gs[k + 1], rs[k])
  }

  /** The ids of one generator ascend over every stretch of calls in which none after the first overflows. */
  ghost predicate Ascending(ids: seq<string>, g: Gen, ds: seq<Draw>)
    requires |ids| == |ds|
  {
    forall i, j :: 0 <= i < j < |ids| && Smooth(g, ds, i + 1, j + 1) ==> StringLess(ids[i], ids[j])
  }

  lemma {:induction false} IssuedAscend(g: Gen, ds: seq<Draw>, ids: seq<string>, rs: seq<Rand>)
    requires g.ms < MS_LIMIT && forall k :: 0 <= k < |ds| ==> ds[k].now < MS_LIMIT
    requires |ids| == |ds| && IdsOf(ids, States(g, ds), rs)
    ensures Ascending(ids, g, ds)
  {
    forall i, j | 0 <= i < j < |ids| && Smooth(g, ds, i + 1, j + 1) ensures StringLess(ids[i], ids[j]) {
      IdsAscend(g, ds, i + 1, j + 1, ids[i], rs[i], ids[j], rs[j]);
    }
  }

  /** m is the latest of a start and the first k clock readings. */
  ghost predicate Latest(m: nat, start: nat, ds: seq<Draw>, k: nat)
    requires k <= |ds|
  {
    && start <= m && (forall i :: 0 <= i < k ==> ds[i].now <= m)
    && (m == start || exists i :: 0 <= i < k && ds[i].now == m)
  }

  lemma {:induction false} LatestStep(m: nat, start: nat, ds: seq<Draw>, k: nat)
    requires k < |ds| && Latest(m, start, ds, k)
    ensures Latest(if ds[k].now > m then ds[k].now else m, start, ds, k + 1)
  {
  }

  /** After every call the id carries the latest of the start and all readings so far, and a new seed if that moved. */
  ghost predicate Timed(ids: seq<string>, start: nat, ds: seq<Draw>)
    requires |ids| <= |ds|
  {
    forall k :: 0 <= k < |ids| ==> TimedAt(ids[k], start, ds, k)
  }

  ghost predicate TimedAt(id: string, start: nat, ds: seq<Draw>, k: nat)
    requires k < |ds|
  {
    && IsId(id) && Latest(TimeRead(id), start, ds, k + 1)
    && (start < ds[k].now && (forall i :: 0 <= i < k ==> ds[i].now < ds[k].now) ==>
          RandomRead(id) == RandValue(ds[k].seed))
  }

  lemma {:induction false} ReadingIsNewer(m: nat, start: nat, ds: seq<Draw>, k: nat)
    requires k < |ds| && Latest(m, start, ds, k)
    ensures ds[k].now > m <==> start < ds[k].now && forall i :: 0 <= i < k ==> ds[i].now < ds[k].now
  {
  }

  /** Any number of calls of one generator, each with its own draw. */
  method Issue(g: Generator, ds: seq<Draw>) returns (ids: seq<string>)
    requires g.Valid() && g.lastMs < MS_LIMIT && forall k :: 0 <= k < |ds| ==> DrawOk(ds[k]) && ds[k].now < MS_LIMIT
    modifies g, g.lastRand
    ensures g.Valid() && g.State() == States(old(g.State()), ds)[|ds|]
    ensures |ids| == |ds| && Ascending(ids, old(g.State()), ds)
    ensures Latest(g.lastMs, old(g.lastMs), ds, |ds|) && Timed(ids, old(g.lastMs), ds)
  {
    ghost var start := g.State();
    ghost var rs: seq<Rand> := [];
    ids := [];
    for i := 0 to |ds|
      invariant g.Valid() && |ids| == i && (ids, rs, g.State()) in Issued(start, ds, i)
    {
      ghost var before := g.State();
      var id := g.New(ds[i]);
      OneIssued(start, ds, i, ids, rs, before, g.State(), id, g.lastRand[..]);
      ids, rs := ids + [id], rs + [g.lastRand[..]];
    }
    AllIssued(start, ds, ids, rs, g.State());
  }

  /** Ids, their random parts and the state that a generator may have after the first n draws. */
  ghost function Issued(start: Gen, ds: seq<Draw>, n: nat): iset<(seq<string>, seq<Rand>, Gen)>
    requires n <= |ds|
  {
    iset s: (seq<string>, seq<Rand>, Gen) |
      s.2 == States(start, ds)[n] && |s.0| == n && IdsOf(s.0, States(start, ds), s.1) &&
      Latest(s.2.ms, start.ms, ds, n) && Timed(s.0, start.ms, ds)
  }

  lemma {:induction false} OneTimed(start: nat, ds: seq<Draw>, k: nat, m: nat, id: string)
    requires k < |ds| && Latest(m, start, ds, k) && IsId(id)
    requires TimeRead(id) == if ds[k].now > m then ds[k].now else m
    requires ds[k].now > m ==> RandomRead(id) == RandValue(ds[k].seed)
    ensures TimedAt(id, start, ds, k)
  {
    LatestStep(m, start, ds, k);
    ReadingIsNewer(m, start, ds, k);
  }

  lemma {:induction false} Reads(g: Gen, r: Rand, id: string)
    requires g.ms < MS_LIMIT && RandValue(r) == g.rand && id == Encode(g.ms, r)
    ensures IsId(id) && TimeRead(id) == g.ms && RandomRead(id) == RandValue(r)
  {
    HalvesOfId(g.ms, r, id);
    WholeTime(g.ms);
  }

  lemma {:induction false} IdsPush(ids: seq<string>, gs: seq<Gen>, rs: seq<Rand>, id: string, r: Rand)
    requires IdsOf(ids, gs, rs) && |ids| + 1 < |gs| && IdOf(id, gs[|ids| + 1], r)
    ensures IdsOf(ids + [id], gs, rs + [r])
  {
  }

  lemma {:induction false} TimedPush(ids: seq<string>, start: nat, ds: seq<Draw>, id: string)
    requires |ids| < |ds| && Timed(ids, start, ds) && TimedAt(id, start, ds, |ids|)
    ensures Timed(ids + [id], start, ds)
  {
  }

  lemma {:induction false} IssuedIs(start: Gen, ds: seq<Draw>, k: nat, ids: seq<string>, rs: seq<Rand>, g: Gen)
    requires k <= |ds|
    ensures (ids, rs, g) in Issued(start, ds, k) <==>
      g == States(start, ds)[k] && |ids| == k && IdsOf(ids, States(start, ds), rs) &&
      Latest(g.ms, start.ms, ds, k) && Timed(ids, start.ms, ds)
  {
  }

  /** The id of the next call. */
  lemma {:induction false} NextTimed(start: Gen, ds: seq<Draw>, k: nat, g: Gen, next: Gen, id: string, r: Rand)
    requires k < |ds| && Latest(g.ms, start.ms, ds, k) && next == Next(g, ds[k]) && next.ms < MS_LIMIT
    requires IdOf(id, next, r) && (ds[k].now > g.ms ==> r == ds[k].seed)
    ensures TimedAt(id, start.ms, ds, k) && Latest(next.ms, start.ms, ds, k + 1)
  {
    Reads(next, r, id);
    OneTimed(start.ms, ds, k, g.ms, id);
    LatestStep(g.ms, start.ms, ds, k);
  }

  lemma {:induction false} OneIssued(start: Gen, ds: seq<Draw>, k: nat, ids: seq<string>, rs: seq<Rand>, g: Gen,
      next: Gen, id: string, r: Rand)
    requires start.ms < MS_LIMIT && forall i :: 0 <= i < |ds| ==> ds[i].now < MS_LIMIT
    requires k < |ds| && (ids, rs, g) in Issued(start, ds, k) && next == Next(g, ds[k])
    requires IdOf(id, next, r) && (ds[k].now > g.ms ==> r == ds[k].seed)
    ensures (ids + [id], rs + [r], next) in Issued(start, ds, k + 1)
  {
    IssuedIs(start, ds, k, ids, rs, g);
    StatesStep(start, ds, k);
    ClockStaysBelow(start, ds, k + 1);
    NextTimed(start, ds, k, g, next, id, r);
    TimedPush(ids, start.ms, ds, id);
    IdsPush(ids, States(start, ds), rs, id, r);
    IssuedIs(start, ds, k + 1, ids + [id], rs + [r], next);
  }

  lemma {:induction false} AllIssued(start: Gen, ds: seq<Draw>, ids: seq<string>, rs: seq<Rand>, g: Gen)
    requires start.ms < MS_LIMIT && forall i :: 0 <= i < |ds| ==> ds[i].now < MS_LIMIT
    requires |ids| == |ds| && (ids, rs, g) in Issued(start, ds, |ds|)
    ensures g == States(start, ds)[|ds|] && Ascending(ids, start, ds)
    ensures Latest(g.ms, start.ms, ds, |ds|) && Timed(ids, start.ms, ds)
  {
    IssuedAscend(start, ds, ids, rs);
  }

  /**
    While the clock does not pass the stored millisecond, n further calls cannot overflow if n steps
    of the largest size still fit.
   */
  lemma {:induction false} NoOverflowWithin(g: Gen, ds: seq<Draw>)
    requires forall k :: 0 <= k < |ds| ==> DrawOk(ds[k]) && ds[k].now <= g.ms
    requires g.rand + |ds| * (STEP_LIMIT - 1) < RAND_LIMIT
    ensures forall k :: 0 <= k < |ds| ==> !Overflows(States(g, ds)[k], ds[k])
    ensures States(g, ds)[|ds|].ms == g.ms && States(g, ds)[|ds|].rand <= g.rand + |ds| * (STEP_LIMIT - 1)
    decreases |ds|
  {
    if ds == [] {
    } else {
      var g' := Next(g, ds[0]);
      NoOverflowWithin(g', ds[1..]);
      forall k | 0 <= k < |ds| ensures !Overflows(States(g, ds)[k], ds[k]) {
        if k > 0 { assert ds[k] == ds[1..][k - 1] && States(g, ds)[k] == States(g', ds[1..])[k - 1]; }
      }
    }
  }

  /** The number of calls in that bound, as a quotient. */
  lemma {:induction false} SafeCalls(rand: nat, n: nat)
    requires rand < RAND_LIMIT && n <= (RAND_LIMIT - 1 - rand) / (STEP_LIMIT - 1)
    ensures rand + n * (STEP_LIMIT - 1) < RAND_LIMIT
  {
  }

  function LargestDraws(n: nat, seed: Rand): (ds: seq<Draw>)
    ensures |ds| == n && forall k :: 0 <= k < n ==> DrawOk(ds[k]) && ds[k].now == 0
    ensures n > 0 ==> ds[0] == Draw(0, seed, STEP_LIMIT - 1, seed) && ds[1..] == LargestDraws(n - 1, seed)
  {
    if n == 0 then [] else [Draw(0, seed, STEP_LIMIT - 1, seed)] + LargestDraws(n - 1, seed)
  }

  lemma {:induction false} OneStepFewer(rand: nat, n: nat)
    requires rand < RAND_LIMIT && rand + n * (STEP_LIMIT - 1) >= RAND_LIMIT
    ensures n > 0 && rand + STEP_LIMIT - 1 + (n - 1) * (STEP_LIMIT - 1) >= RAND_LIMIT
  {
  }

  /** The bound is tight: one more call of the largest step can overflow. */
  lemma {:induction false} BoundIsTight(g: Gen, n: nat, seed: Rand) returns (k: nat)
    requires g.rand < RAND_LIMIT && g.rand + n * (STEP_LIMIT - 1) >= RAND_LIMIT
    ensures k < n && Overflows(States(g, LargestDraws(n, seed))[k], LargestDraws(n, seed)[k])
    decreases n
  {
    var ds := LargestDraws(n, seed);
    if Overflows(g, ds[0]) {
      k := 0;
    } else {
      var g' := Next(g, ds[0]);
      assert g' == Gen(g.ms, g.rand + STEP_LIMIT - 1);
      OneStepFewer(g.rand, n);
      var k' := BoundIsTight(g', n - 1, seed);
      k := k' + 1;
      assert States(g, ds)[k] == States(g', ds[1..])[k'] && ds[k] == ds[1..][k'];
    }
  }
}
