/** The difficulty rule (`GetNextWorkRequired`) along a chain of headers. */
module Retarget {
  import opened Compact
  import opened Numerals

  const INTERVAL: nat := 4
  const SPACING: int := 60
  const TIMESPAN: int := INTERVAL * SPACING

  /** What the rule reads of a block; its height is its position in the chain. */
  datatype Header = Header(time: int, bits: nat)

  datatype Params = Params(limit: nat, testnet: bool)

  /** The measured time, kept between 3/4 and 3/2 of the target. */
  function Clamp(actual: int): (r: int)
    ensures TIMESPAN - TIMESPAN / 4 <= r <= TIMESPAN + TIMESPAN / 2
  {
    if actual < TIMESPAN - TIMESPAN / 4 then TIMESPAN - TIMESPAN / 4
    else if actual > TIMESPAN + TIMESPAN / 2 then TIMESPAN + TIMESPAN / 2
    else actual
  }

  /** `BN_div` rounds towards zero. */
  function DivTowardsZero(a: int, b: int): int
    requires b > 0
  {
    if a < 0 then -((-a) / b) else a / b
  }

  /** The new target before encoding. */
  function Adjusted(target: int, span: int, limit: nat): int
  {
    var t := DivTowardsZero(target * span, TIMESPAN);
    if t > limit then limit else t
  }

  /** On the test network, the bits of the last block that did not use the easy rule in this window. */
  function LastRegular(p: Params, chain: seq<Header>, i: nat): nat
    requires i < |chain|
  {
    if i > 0 && i % INTERVAL != 1 && chain[i].bits == Encode(p.limit) then LastRegular(p, chain, i - 1) else chain[i].bits
  }

  /** The time that a retarget after the last block of the chain measures. */
  function Measured(chain: seq<Header>): int
    requires |chain| > INTERVAL
  {
    chain[|chain| - 1].time - chain[|chain| - 1 - INTERVAL].time
  }

  /** The bits required of the next block. */
  function Next(p: Params, chain: seq<Header>, time: int): nat
  {
    if |chain| <= 1 then Encode(p.limit)
    else
      var tip := |chain| - 1;
      if tip % INTERVAL != 0 then
        if !p.testnet then chain[tip].bits
        else if time > chain[tip].time + SPACING * 2 then Encode(p.limit)
        else LastRegular(p, chain, tip)
      else EncodeInt(Adjusted(Decode(chain[tip].bits), Clamp(Measured(chain)), p.limit))
  }

  /** The program: it walks back block by block, and the first block of the window is always there. */
  method GetNextWorkRequired(p: Params, chain: seq<Header>, time: int) returns (bits: nat)
    ensures bits == Next(p, chain, time)
  {
    hide Encode, EncodeInt, Decode, DivTowardsZero;
    var limitBits := Encode(p.limit);
    if |chain| == 0 || |chain| - 1 == 0 { return limitBits; }
    var last := |chain| - 1;
    if last % INTERVAL != 0 {
      if p.testnet {
        if time > chain[last].time + SPACING * 2 { return limitBits; }
        var i := last;
        while i > 0 && i % INTERVAL != 1 && chain[i].bits == limitBits
          invariant 0 <= i <= last && LastRegular(p, chain, last) == LastRegular(p, chain, i)
        {
          i := i - 1;
        }
        return chain[i].bits;
      }
      return chain[last].bits;
    }
    var first := last;
    var i := 0;
    while first >= 0 && i < INTERVAL
      invariant 0 <= i <= INTERVAL && first == last - i
    {
      first := first - 1;
      i := i + 1;
    }
    assert first >= 0;
    var span := chain[last].time - chain[first].time;
    if span < TIMESPAN - TIMESPAN / 4 { span := TIMESPAN - TIMESPAN / 4; }
    if span > TIMESPAN + TIMESPAN / 2 { span := TIMESPAN + TIMESPAN / 2; }
    var t := DivTowardsZero(Decode(chain[last].bits) * span, TIMESPAN);
    if t > p.limit { t := p.limit; }
    bits := EncodeInt(t);
  }

  // ---- bounds of one step ----

  lemma Scaled(target: nat, span: int)
    requires TIMESPAN - TIMESPAN / 4 <= span <= TIMESPAN + TIMESPAN / 2
    ensures target * 3 / 4 <= target * span / TIMESPAN && 2 * (target * span / TIMESPAN) <= 3 * target
  {
    MulMono(target, target, 180, span);
    MulMono(target, target, span, 360);
  }

  /** The smallest target a retarget may aim at: three quarters of the old one, or the limit if that is less. */
  function Floor(target: nat, limit: nat): nat { if target * 3 / 4 < limit then target * 3 / 4 else limit }

  lemma AdjustedBounds(target: nat, actual: int, limit: nat)
    ensures var t := Adjusted(target, Clamp(actual), limit); Floor(target, limit) <= t <= limit && 2 * t <= 3 * target
  {
    Scaled(target, Clamp(actual));
    MulMono(0, target, 0, Clamp(actual));
  }

  /** One retarget: never above the limit or 3/2 of the old target, and below 3/4 of it (or the limit) only
      by the truncation of the code, less than one part in 2^15. */
  lemma StepBounds(target: nat, actual: int, limit: nat)
    ensures var next := Decode(EncodeInt(Adjusted(target, Clamp(actual), limit)));
            var floor := Floor(target, limit);
            && 0 <= next <= limit && 2 * next <= 3 * target
            && (floor > 0 ==> (LEAST - 1) * floor < LEAST * next)
  {
    AdjustedBounds(target, actual, limit);
    hide Encode, Decode, Adjusted, Clamp, Floor;
    EncodeClose(Adjusted(target, Clamp(actual), limit));
  }

  // ---- along a chain ----

  /** Every block after genesis carries the bits required of it. */
  ghost predicate Ruled(p: Params, chain: seq<Header>)
  {
    && |chain| >= 1 && chain[0].bits == Encode(p.limit)
    && forall i | 1 <= i < |chain| :: chain[i].bits == Next(p, chain[..i], chain[i].time)
  }

  function Target(chain: seq<Header>, i: nat): int requires i < |chain| { Decode(chain[i].bits) }

  /** In a ruled chain off the test network, each block has its parent's target or a bounded adjustment of it. */
  lemma NextTarget(p: Params, chain: seq<Header>, i: nat)
    requires Ruled(p, chain) && !p.testnet && 1 <= i < |chain|
    ensures i == 1 ==> chain[i].bits == Encode(p.limit)
    ensures i > 1 && (i - 1) % INTERVAL != 0 ==> chain[i].bits == chain[i - 1].bits
    ensures i > 1 && (i - 1) % INTERVAL == 0 ==>
              i - 1 >= INTERVAL &&
              chain[i].bits == EncodeInt(Adjusted(Target(chain, i - 1), Clamp(chain[i - 1].time - chain[i - 1 - INTERVAL].time), p.limit))
  {
    hide Encode, EncodeInt, Decode, Adjusted, Clamp;
    var c := chain[..i];
    assert chain[i].bits == Next(p, c, chain[i].time);
    assert forall k | 0 <= k < i :: c[k] == chain[k];
  }

  /** Whatever the time stamps, no target ever exceeds the limit. */
  lemma {:induction false} NeverAboveLimit(p: Params, chain: seq<Header>, i: nat)
    requires Ruled(p, chain) && !p.testnet && i < |chain|
    ensures 0 <= Target(chain, i) <= p.limit
  {
    hide Encode, EncodeInt, Decode, Adjusted, Clamp;
    EncodeClose(p.limit);
    if i > 0 {
      NextTarget(p, chain, i);
      NeverAboveLimit(p, chain, i - 1);
      if i > 1 && (i - 1) % INTERVAL == 0 {
        StepBounds(Target(chain, i - 1), chain[i - 1].time - chain[i - 1 - INTERVAL].time, p.limit);
      }
    }
  }

  /** From block to block the target grows at most by half. */
  lemma GrowsAtMostByHalf(p: Params, chain: seq<Header>, i: nat)
    requires Ruled(p, chain) && !p.testnet && 1 <= i < |chain|
    ensures 2 * Target(chain, i) <= 3 * Target(chain, i - 1)
  {
    hide Encode, EncodeInt, Decode, Adjusted, Clamp;
    NextTarget(p, chain, i);
    NeverAboveLimit(p, chain, i - 1);
    if i > 1 && (i - 1) % INTERVAL == 0 {
      StepBounds(Target(chain, i - 1), chain[i - 1].time - chain[i - 1 - INTERVAL].time, p.limit);
    }
  }

  /** ... and falls at most by a quarter, but for rounding down and the truncation of the code. */
  lemma FallsAtMostByQuarter(p: Params, chain: seq<Header>, i: nat)
    requires Ruled(p, chain) && !p.testnet && 1 <= i < |chain| && Target(chain, i - 1) * 3 / 4 > 0
    ensures (LEAST - 1) * (Target(chain, i - 1) * 3 / 4) < LEAST * Target(chain, i)
  {
    hide Encode, EncodeInt, Decode, Adjusted, Clamp;
    NextTarget(p, chain, i);
    NeverAboveLimit(p, chain, i - 1);
    if i > 1 && (i - 1) % INTERVAL == 0 {
      StepBounds(Target(chain, i - 1), chain[i - 1].time - chain[i - 1 - INTERVAL].time, p.limit);
    }
  }

  /** Every code in a ruled chain is canonical: decoding and encoding it again is the identity. */
  lemma {:induction false} CodesCanonical(p: Params, chain: seq<Header>, i: nat)
    requires Ruled(p, chain) && !p.testnet && i < |chain|
    ensures Target(chain, i) >= 0 && Encode(Target(chain, i)) == chain[i].bits
  {
    hide Encode, EncodeInt, Decode, Adjusted, Clamp;
    Reencodes(p.limit);
    if i > 0 {
      NextTarget(p, chain, i);
      CodesCanonical(p, chain, i - 1);
      if i > 1 && (i - 1) % INTERVAL == 0 {
        var actual := chain[i - 1].time - chain[i - 1 - INTERVAL].time;
        AdjustedBounds(Target(chain, i - 1), actual, p.limit);
        NonNegative(Adjusted(Target(chain, i - 1), Clamp(actual), p.limit));
        Reencodes(Adjusted(Target(chain, i - 1), Clamp(actual), p.limit));
      }
    }
  }

  lemma NonNegative(x: int)
    requires x >= 0
    ensures EncodeInt(x) == Encode(x)
  {}

  lemma Reencodes(x: nat)
    ensures Decode(Encode(x)) >= 0 && Encode(Decode(Encode(x))) == Encode(x)
  {
    EncodeUnsigned(x);
    hide Encode, Decode, Canonical;
    PartsCanonical(x);
    ReencodeIff(Encode(x));
  }

  // ---- the rule in numbers ----

  lemma Ratios(t: nat, m: int)
    ensures 180 <= m <= 360 ==> t * 3 / 4 <= t * m / 240 <= t * 3 / 2
    ensures t * 360 / 240 == t * 3 / 2 && t * 180 / 240 == t * 3 / 4 && t * 240 / 240 == t
  {
    assert t * 360 == 120 * (t * 3) && t * 180 == 60 * (t * 3);
    if 180 <= m <= 360 {
      MulMono(t, t, 180, m);
      MulMono(t, t, m, 360);
    }
  }

  /** Every fourth block, the target is multiplied by the minutes measured over four: by 3/4 for three minutes or
      less, by 3/2 for six or more, not at all for four; and it is capped by the limit. */
  lemma RetargetInNumbers(p: Params, chain: seq<Header>, time: int)
    requires |chain| > 4 && (|chain| - 1) % 4 == 0
    ensures var tip := |chain| - 1;
            var t, m := Decode(chain[tip].bits), chain[tip].time - chain[tip - 4].time;
            var size := if t < 0 then -t else t;
            var scaled := if m <= 180 then size * 3 / 4 else if m >= 360 then size * 3 / 2 else size * m / 240;
            && Next(p, chain, time) == EncodeInt(if t < 0 then -scaled else if scaled > p.limit then p.limit else scaled)
            && (m == 240 ==> scaled == size)
  {
    hide Encode, EncodeInt, Decode;
    var tip := |chain| - 1;
    var t, m := Decode(chain[tip].bits), chain[tip].time - chain[tip - 4].time;
    var size: nat := if t < 0 then -t else t;
    Ratios(size, m);
    assert t < 0 ==> (-t) * Clamp(m) == -(t * Clamp(m));
    MulMono(0, size, 0, Clamp(m));
  }

  /** Between those blocks, and before the first retarget, nothing changes. */
  lemma BetweenRetargets(p: Params, chain: seq<Header>, time: int)
    requires |chain| <= 4 || (|chain| - 1) % 4 != 0
    ensures |chain| <= 1 ==> Next(p, chain, time) == Encode(p.limit)
    ensures |chain| > 1 && !p.testnet ==> Next(p, chain, time) == chain[|chain| - 1].bits
  {
    hide Encode, EncodeInt, Decode;
  }

  /** The longer the window took, the easier the next target. */
  lemma SlowerIsEasier(p: Params, a: seq<Header>, b: seq<Header>, s: int, t: int)
    requires |a| == |b| > 4 && (|a| - 1) % 4 == 0
    requires var tip := |a| - 1;
             && a[tip].bits == b[tip].bits && Decode(a[tip].bits) >= 0
             && a[tip].time - a[tip - 4].time <= b[tip].time - b[tip - 4].time
    ensures Decode(Next(p, a, s)) <= Decode(Next(p, b, t))
  {
    hide Encode, EncodeInt, Decode, Next;
    RetargetInNumbers(p, a, s);
    RetargetInNumbers(p, b, t);
    var tip := |a| - 1;
    var target: nat := Decode(a[tip].bits);
    var m, n := a[tip].time - a[tip - 4].time, b[tip].time - b[tip - 4].time;
    Ratios(target, m);
    Ratios(target, n);
    if 180 <= m <= n { MulMono(target, target, m, n); }
    var x: nat := if m <= 180 then target * 3 / 4 else if m >= 360 then target * 3 / 2 else target * m / 240;
    var y: nat := if n <= 180 then target * 3 / 4 else if n >= 360 then target * 3 / 2 else target * n / 240;
    assert x <= y;
    NonNegative(if x > p.limit then p.limit else x);
    NonNegative(if y > p.limit then p.limit else y);
    DecodeMonotone(if x > p.limit then p.limit else x, if y > p.limit then p.limit else y);
  }

  /** On the test network, between retargets: the limit if more than two minutes have passed; otherwise the code of
      the last block that is the first of its window or does not itself have the code of the limit. */
  lemma TestnetRule(p: Params, chain: seq<Header>, time: int)
    requires p.testnet && |chain| > 1 && (|chain| - 1) % 4 != 0
    ensures var tip := |chain| - 1;
            var easy := Encode(p.limit);
            if time > chain[tip].time + 120 then Next(p, chain, time) == easy
            else exists j :: 0 <= j <= tip && Next(p, chain, time) == chain[j].bits
                             && (j == 0 || j % 4 == 1 || chain[j].bits != easy)
                             && forall k | j < k <= tip :: chain[k].bits == easy && k % 4 != 1
  {
    hide Encode, EncodeInt, Decode;
    var j := LastRegularAt(p, chain, |chain| - 1);
  }

  lemma {:induction false} LastRegularAt(p: Params, chain: seq<Header>, i: nat) returns (j: nat)
    requires i < |chain|
    ensures j <= i && LastRegular(p, chain, i) == chain[j].bits
    ensures j == 0 || j % 4 == 1 || chain[j].bits != Encode(p.limit)
    ensures forall k | j < k <= i :: chain[k].bits == Encode(p.limit) && k % 4 != 1
  {
    hide Encode;
    if i > 0 && i % INTERVAL != 1 && chain[i].bits == Encode(p.limit) { j := LastRegularAt(p, chain, i - 1); } else { j := i; }
  }

  // ---- windows share their end blocks ----

  /** The chain as it was when the retarget of window `k` was due. */
  function UpTo(chain: seq<Header>, k: nat): (r: seq<Header>)
    requires INTERVAL * (k + 1) < |chain|
    ensures |r| == INTERVAL * (k + 1) + 1
  {
    chain[..INTERVAL * (k + 1) + 1]
  }

  /** Every retarget is decided by the time measured for its window. */
  lemma RetargetUsesMeasured(p: Params, chain: seq<Header>, k: nat, time: int)
    requires INTERVAL * (k + 1) < |chain|
    ensures Next(p, UpTo(chain, k), time) ==
            EncodeInt(Adjusted(Target(chain, INTERVAL * (k + 1)), Clamp(Measured(UpTo(chain, k))), p.limit))
  {
    hide Encode, EncodeInt, Decode, Adjusted, Clamp;
    var h := INTERVAL * (k + 1);
    assert h % INTERVAL == 0;
    assert UpTo(chain, k)[h] == chain[h];
  }

  /** The times measured by the first `n` retargets. */
  function SumMeasured(chain: seq<Header>, n: nat): int
    requires INTERVAL * n < |chain|
  {
    if n == 0 then 0 else SumMeasured(chain, n - 1) + Measured(UpTo(chain, n - 1))
  }

  /** Each window begins with the block that ended the one before, so no second is measured twice and none is
      missed: the times the rule measures add up to the time of the chain. */
  lemma {:induction false} WindowsTelescope(chain: seq<Header>, n: nat)
    requires INTERVAL * n < |chain|
    ensures SumMeasured(chain, n) == chain[INTERVAL * n].time - chain[0].time
  {
    if n > 0 { WindowsTelescope(chain, n - 1); }
  }
}
