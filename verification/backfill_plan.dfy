/** The choice between a warm and a cold resynchronization. */
module BackfillPlan {
  import opened Results
  import opened GatewayBars

  const TWO_63 := 0x8000_0000_0000_0000
  const TWO_64 := 0x1_0000_0000_0000_0000

  datatype Plan = Cold | Warm(from: int, gap: nat)

  /** Signed 64-bit saturating subtraction. */
  function SaturatingSub(a: int, b: int): int {
    var d := a - b;
    if d > TWO_63 - 1 then TWO_63 - 1 else if d < -TWO_63 then -TWO_63 else d
  }

  /** The cast of a signed 64-bit integer to an unsigned one. */
  function AsUnsigned(x: int): nat
    requires -TWO_63 <= x < TWO_63
  {
    if x < 0 then x + TWO_64 else x
  }

  /** Integer division as in Rust, towards zero. */
  function DivTrunc(a: int, b: int): int
    requires b > 0
  {
    if a >= 0 then a / b else -(-a / b)
  }

  function Aligned(now: int, tf: int): int
    requires tf > 0
  {
    DivTrunc(now, tf) * tf
  }

  function PaddedStart(last: int, padding: nat, tf: int): int {
    if last - padding * tf > 0 then last - padding * tf else 0
  }

  /** `from` is the earliest padded start of the symbols. */
  ghost predicate EarliestStart(symbols: seq<Symbol>, last: map<Symbol, int>, padding: nat, tf: int, from: int)
    requires forall sym :: sym in symbols ==> sym in last
  {
    && (exists sym :: sym in symbols && PaddedStart(last[sym], padding, tf) == from)
    && (forall sym :: sym in symbols ==> from <= PaddedStart(last[sym], padding, tf))
  }

  predicate AllKnown(symbols: seq<Symbol>, last: map<Symbol, int>) {
    forall sym :: sym in symbols ==> sym in last
  }

  /** The gap as the code sees it: a start in the future wraps around to a huge one. */
  function Gap(nowAligned: int, from: int): nat { AsUnsigned(SaturatingSub(nowAligned, from)) }

  method ComputeBackfillPlan(symbols: seq<Symbol>, now: int, tf: int, limit: nat, padding: nat,
                             last: map<Symbol, int>) returns (plan: Plan)
    requires tf > 0
    ensures plan.Warm? <==>
      symbols != [] && AllKnown(symbols, last)
      && exists from :: EarliestStart(symbols, last, padding, tf, from) && Gap(Aligned(now, tf), from) <= limit
    ensures plan.Warm? ==>
      EarliestStart(symbols, last, padding, tf, plan.from) && plan.gap == Gap(Aligned(now, tf), plan.from) <= limit
  {
    var nowAligned := Aligned(now, tf);
    var minFrom: Option<int> := None;
    for i := 0 to |symbols|
      invariant AllKnown(symbols[..i], last)
      invariant minFrom.None? <==> i == 0
      invariant minFrom.Some? ==> EarliestStart(symbols[..i], last, padding, tf, minFrom.value)
    {
      var sym := symbols[i];
      assert symbols[..i + 1] == symbols[..i] + [sym];
      if sym !in last {
        assert sym in symbols;
        return Cold;
      }
      var from := PaddedStart(last[sym], padding, tf);
      ghost var before := minFrom;
      minFrom := Some(if minFrom.None? || from < minFrom.value then from else minFrom.value);
      assert sym in symbols[..i + 1];
      if before.Some? && minFrom == before {
        var at :| at in symbols[..i] && PaddedStart(last[at], padding, tf) == before.value;
        assert at in symbols[..i + 1];
      }
    }
    assert symbols[..|symbols|] == symbols;
    if minFrom.None? { return Cold; }
    var gap := Gap(nowAligned, minFrom.value);
    if gap > limit {
      forall from | EarliestStart(symbols, last, padding, tf, from) ensures from == minFrom.value {
        OneEarliest(symbols, last, padding, tf, from, minFrom.value);
      }
      return Cold;
    }
    return Warm(minFrom.value, gap);
  }

  lemma OneEarliest(symbols: seq<Symbol>, last: map<Symbol, int>, padding: nat, tf: int, a: int, b: int)
    requires AllKnown(symbols, last)
    requires EarliestStart(symbols, last, padding, tf, a) && EarliestStart(symbols, last, padding, tf, b)
    ensures a == b
  {
  }

  /** The wrapped gap of a start tells the truth: it is accepted exactly when it is not in the future and the true
      gap is within the limit. */
  predicate Honest(nowAligned: int, from: int, limit: nat)
    requires -TWO_63 <= nowAligned < TWO_63 && 0 <= from < TWO_63
  {
    Gap(nowAligned, from) <= limit <==> from <= nowAligned && nowAligned - from <= limit
  }

  /** A limit below 2^63 is honest at every clock reading, and the accepted gap is the true one. */
  lemma LimitIsHonest(nowAligned: int, from: int, limit: nat)
    requires -TWO_63 <= nowAligned < TWO_63 && 0 <= from < TWO_63 && limit < TWO_63
    ensures Honest(nowAligned, from, limit)
    ensures Gap(nowAligned, from) <= limit ==> Gap(nowAligned, from) == nowAligned - from
  {
  }

  /** At a clock reading after 1970 a limit is honest for every start if and only if it does not exceed 2^63 plus
      the aligned reading; from there on some start in the future is let through. */
  lemma HonestExactly(now: int, tf: int, limit: nat)
    requires tf > 0 && 0 <= now < TWO_63 && limit < TWO_64
    ensures -TWO_63 <= Aligned(now, tf) < TWO_63
    ensures (forall from :: 0 <= from < TWO_63 ==> Honest(Aligned(now, tf), from, limit))
        <==> limit <= TWO_63 + Aligned(now, tf)
  {
    AlignedBounds(now, tf);
    if limit > TWO_63 + Aligned(now, tf) { assert !Honest(Aligned(now, tf), TWO_63 - 1, limit); }
  }

  /** The largest limit, meant to keep every resynchronization warm, accepts a start one bar in the future. */
  lemma FutureStartAccepted()
    ensures var symbols, last, now, tf, limit := [0], map[0 := 1_700_000_400], 1_700_000_000, 600, TWO_64 - 1;
            && EarliestStart(symbols, last, 0, tf, 1_700_000_400) && Gap(Aligned(now, tf), 1_700_000_400) <= limit
            && 1_700_000_400 > now
  {
    assert 0 in [0] && PaddedStart(1_700_000_400, 0, 600) == 1_700_000_400;
  }

  /** A start never lies after the last emitted bar of a symbol. */
  lemma StartsBeforeLast(last: int, padding: nat, tf: int)
    requires last >= 0 && tf > 0
    ensures 0 <= PaddedStart(last, padding, tf) <= last
  {
    assert padding * tf >= 0;
  }

  /** The padding is granted in full, unless it would reach before 1970: then the start is zero. */
  lemma PaddingExact(last: int, padding: nat, tf: int)
    ensures last >= padding * tf ==> last - PaddedStart(last, padding, tf) == padding * tf
    ensures last < padding * tf ==> PaddedStart(last, padding, tf) == 0
  {
  }

  /** So the earliest start lies the whole padding before every symbol's last emitted bar, or at zero; and for one
      symbol it lies no further back. */
  lemma EarliestPadded(symbols: seq<Symbol>, last: map<Symbol, int>, padding: nat, tf: int, from: int)
    requires tf > 0 && AllKnown(symbols, last) && EarliestStart(symbols, last, padding, tf, from)
    requires forall sym :: sym in symbols ==> last[sym] >= 0
    ensures from > 0 ==> forall sym :: sym in symbols ==> from + padding * tf <= last[sym]
    ensures exists sym ::
      sym in symbols && (from + padding * tf == last[sym] || (from == 0 && last[sym] < padding * tf))
  {
    forall sym | sym in symbols ensures from > 0 ==> from + padding * tf <= last[sym] {
      PaddingExact(last[sym], padding, tf);
    }
    var at :| at in symbols && PaddedStart(last[at], padding, tf) == from;
    PaddingExact(last[at], padding, tf);
  }

  /** Under an honest limit a warm plan starts no later than any symbol's last emitted bar and than the present, on
      the grid. */
  lemma WarmIsSafe(symbols: seq<Symbol>, now: int, tf: int, limit: nat, padding: nat, last: map<Symbol, int>, from: int)
    requires tf > 0 && AllKnown(symbols, last) && forall sym :: sym in symbols ==> 0 <= last[sym] < TWO_63
    requires -TWO_63 <= now < TWO_63 && limit < TWO_64
    requires limit < TWO_63 || (now >= 0 && limit <= TWO_63 + Aligned(now, tf))
    requires EarliestStart(symbols, last, padding, tf, from) && Gap(Aligned(now, tf), from) <= limit
    ensures forall sym :: sym in symbols ==> from <= last[sym]
    ensures from <= Aligned(now, tf) && (now >= 0 ==> Aligned(now, tf) <= now) && Aligned(now, tf) - from <= limit
        && Aligned(now, tf) % tf == 0
  {
    forall sym | sym in symbols ensures 0 <= from <= last[sym] && from < TWO_63 {
      StartsBeforeLast(last[sym], padding, tf);
      var at :| at in symbols && PaddedStart(last[at], padding, tf) == from;
    }
    AlignedBounds(now, tf);
    var at :| at in symbols && PaddedStart(last[at], padding, tf) == from;
    if limit < TWO_63 { LimitIsHonest(Aligned(now, tf), from, limit); } else { HonestExactly(now, tf, limit); }
  }

  lemma AlignedBounds(now: int, tf: int)
    requires tf > 0 && -TWO_63 <= now < TWO_63
    ensures -TWO_63 <= Aligned(now, tf) < TWO_63 && Aligned(now, tf) % tf == 0
    ensures now >= 0 ==> 0 <= Aligned(now, tf) <= now
    ensures now < 0 ==> now <= Aligned(now, tf) <= 0
  {
    Multiple(DivTrunc(now, tf), tf);
    if now >= 0 { Floor(now, tf); } else {
      Floor(-now, tf);
      assert DivTrunc(now, tf) * tf == -(-now / tf * tf);
    }
  }

  lemma Floor(n: nat, tf: int)
    requires tf > 0
    ensures 0 <= n / tf * tf <= n
  {
    assert n == n / tf * tf + n % tf;
  }

  lemma Multiple(q: int, tf: int)
    requires tf > 0
    ensures (q * tf) % tf == 0
  {
    var k, r := q * tf / tf, (q * tf) % tf;
    assert (q - k) * tf == r;
    assert q - k >= 1 ==> (q - k) * tf >= tf;
    assert q - k <= -1 ==> (q - k) * tf <= -tf;
  }
}
