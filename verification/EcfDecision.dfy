/**
 The two ECF inequalities (transport/multi/ecf_selector.go:226-304). The selector computes them in
 uint64; the documentation (transport/multi/doc.go:33-47) states them over the integers.
 */
module EcfDecision {
  import opened Prelude

  /** ecfTransportMetrics; RTTs in microseconds, windows in bytes. */
  datatype Metrics = Metrics(rtt: U64, rttvar: U64, cwnd: U64, bytesInFlight: U64, sendingAllowed: bool)

  const ECF_BETA := 4

  function Delta(f: Metrics, s: Metrics): U64 { Max(f.rttvar, s.rttvar) }

  // ---- as computed ----

  function FirstInequality(f: Metrics, s: Metrics, queue: U64, waiting: bool): bool {
    var lhs := Mul64(f.rtt, Add64(Max(queue, f.cwnd), f.cwnd));
    var rhs := Mul64(f.cwnd, Add64(s.rtt, Delta(f, s)));
    Mul64(ECF_BETA, lhs) < Add64(Mul64(ECF_BETA, rhs), if waiting then rhs else 0)
  }

  function SecondInequality(f: Metrics, s: Metrics, queue: U64): bool {
    Mul64(s.rtt, Max(queue, s.cwnd)) >= Mul64(s.cwnd, Add64(Mul64(2, f.rtt), Delta(f, s)))
  }

  /** Whether the selector waits for the fastest transport f instead of sending on s. */
  function Waits(f: Metrics, s: Metrics, queue: U64, waiting: bool): bool {
    FirstInequality(f, s, queue, waiting) && SecondInequality(f, s, queue)
  }

  // ---- as documented ----

  function Lhs(f: Metrics, queue: int): int { f.rtt * (Max(queue, f.cwnd) + f.cwnd) }

  function Rhs(f: Metrics, s: Metrics): int { f.cwnd * (s.rtt + Max(f.rttvar, s.rttvar)) }

  function LhsS(s: Metrics, queue: int): int { s.rtt * Max(queue, s.cwnd) }

  function RhsS(f: Metrics, s: Metrics): int { s.cwnd * (2 * f.rtt + Max(f.rttvar, s.rttvar)) }

  predicate DocumentedWaits(f: Metrics, s: Metrics, queue: int, waiting: bool) {
    && ECF_BETA * Lhs(f, queue) < ECF_BETA * Rhs(f, s) + (if waiting then Rhs(f, s) else 0)
    && LhsS(s, queue) >= RhsS(f, s)
  }

  // ---- what is computed are remainders ----

  /** The sides of the first inequality, over the integers. */
  function Left(f: Metrics, queue: int): int { ECF_BETA * Lhs(f, queue) }

  function Right(f: Metrics, s: Metrics, waiting: bool): int {
    ECF_BETA * Rhs(f, s) + (if waiting then Rhs(f, s) else 0)
  }

  const MODULUS := 0x1_0000_0000_0000_0000

  lemma ModMultiple(r: int, k: int)
    ensures (r + 0x1_0000_0000_0000_0000 * k) % 0x1_0000_0000_0000_0000 == r % 0x1_0000_0000_0000_0000
  {}

  lemma ModSplit(a: int)
    ensures a == a % MODULUS + 0x1_0000_0000_0000_0000 * (a / MODULUS) && 0 <= a % MODULUS < MODULUS
  {}

  /** A product of remainders has the remainder of the product. */
  lemma MulOfMod(a: int, b: int)
    ensures Mul64(a, b % MODULUS) == (a * b) % MODULUS
  {
    ModSplit(b);
    var r, k := b % MODULUS, b / MODULUS;
    assert a * b == a * r + MODULUS * (a * k);
    ModMultiple(a * r, a * k);
  }

  lemma AddOfMod(a: int, b: int)
    ensures Add64(a % MODULUS, b % MODULUS) == (a + b) % MODULUS
    ensures Add64(a % MODULUS, b) == (a + b) % MODULUS
  {
    ModSplit(a);
    ModSplit(b);
    ModMultiple(a % MODULUS + b % MODULUS, a / MODULUS + b / MODULUS);
    ModMultiple(a % MODULUS + b, a / MODULUS);
  }

  lemma LeftIsRemainder(f: Metrics, queue: U64)
    ensures Mul64(ECF_BETA, Mul64(f.rtt, Add64(Max(queue, f.cwnd), f.cwnd))) == Left(f, queue) % MODULUS
  {
    MulOfMod(f.rtt, Max(queue, f.cwnd) + f.cwnd);
    MulOfMod(ECF_BETA, Lhs(f, queue));
  }

  lemma RightIsRemainder(f: Metrics, s: Metrics, waiting: bool)
    ensures var rhs := Mul64(f.cwnd, Add64(s.rtt, Delta(f, s)));
      Add64(Mul64(ECF_BETA, rhs), if waiting then rhs else 0) == Right(f, s, waiting) % MODULUS
  {
    MulOfMod(f.cwnd, s.rtt + Delta(f, s));
    MulOfMod(ECF_BETA, Rhs(f, s));
    AddOfMod(ECF_BETA * Rhs(f, s), if waiting then Rhs(f, s) else 0);
  }

  lemma FirstComparesRemainders(f: Metrics, s: Metrics, queue: U64, waiting: bool)
    ensures FirstInequality(f, s, queue, waiting) <==>
      Left(f, queue) % MODULUS < Right(f, s, waiting) % MODULUS
  {
    LeftIsRemainder(f, queue);
    RightIsRemainder(f, s, waiting);
  }

  lemma SecondComparesRemainders(f: Metrics, s: Metrics, queue: U64)
    ensures SecondInequality(f, s, queue) <==> LhsS(s, queue) % MODULUS >= RhsS(f, s) % MODULUS
  {
    AddOfMod(2 * f.rtt, Delta(f, s));
    MulOfMod(s.cwnd, 2 * f.rtt + Delta(f, s));
  }

  // ---- when that makes no difference ----

  /** How much more often y wraps than x. */
  function ExtraWraps(x: int, y: int): int { y / MODULUS - x / MODULUS }

  /** The margin between the sides is larger than what wrapping takes off it. */
  predicate MarginSurvives(x: int, y: int) {
    var d := ExtraWraps(x, y);
    if d > 0 then y - x > d * MODULUS else if d < 0 then y - x <= d * MODULUS else true
  }

  lemma ComparisonExactIff(x: int, y: int)
    ensures (x % MODULUS < y % MODULUS <==> x < y) <==> MarginSurvives(x, y)
  {
    ModSplit(x);
    ModSplit(y);
  }

  predicate FirstHolds(f: Metrics, s: Metrics, queue: int, waiting: bool) {
    Left(f, queue) < Right(f, s, waiting)
  }

  predicate SecondHolds(f: Metrics, s: Metrics, queue: int) { LhsS(s, queue) >= RhsS(f, s) }

  /** For all metrics, the first inequality is decided as documented exactly when its margin survives
      the wrapping. */
  lemma FirstExactIff(f: Metrics, s: Metrics, queue: U64, waiting: bool)
    ensures (FirstInequality(f, s, queue, waiting) <==> FirstHolds(f, s, queue, waiting)) <==>
      MarginSurvives(Left(f, queue), Right(f, s, waiting))
  {
    FirstComparesRemainders(f, s, queue, waiting);
    ComparisonExactIff(Left(f, queue), Right(f, s, waiting));
  }

  /** And so is the second. */
  lemma SecondExactIff(f: Metrics, s: Metrics, queue: U64)
    ensures (SecondInequality(f, s, queue) <==> SecondHolds(f, s, queue)) <==>
      MarginSurvives(LhsS(s, queue), RhsS(f, s))
  {
    SecondComparesRemainders(f, s, queue);
    ComparisonExactIff(LhsS(s, queue), RhsS(f, s));
  }

  /** A documented wait is taken exactly when both margins survive. Where the documentation does not
      wait, the selector waits exactly when wrapping turns each inequality that fails and no other. */
  lemma WaitsIff(f: Metrics, s: Metrics, queue: U64, waiting: bool)
    ensures var first := MarginSurvives(Left(f, queue), Right(f, s, waiting));
      var second := MarginSurvives(LhsS(s, queue), RhsS(f, s));
      Waits(f, s, queue, waiting) <==>
        (FirstHolds(f, s, queue, waiting) <==> first) && (SecondHolds(f, s, queue) <==> second)
  {
    FirstExactIff(f, s, queue, waiting);
    SecondExactIff(f, s, queue);
  }

  /** As a caller can tell beforehand: when the two sides of each inequality wrap equally often, the
      decision is the documented one. */
  lemma ExactWithoutExtraWraps(f: Metrics, s: Metrics, queue: U64, waiting: bool)
    requires ExtraWraps(Left(f, queue), Right(f, s, waiting)) == 0
    requires ExtraWraps(LhsS(s, queue), RhsS(f, s)) == 0
    ensures Waits(f, s, queue, waiting) <==> DocumentedWaits(f, s, queue, waiting)
  {
    WaitsIff(f, s, queue, waiting);
  }

  /** When one margin is lost, the decision is still the documented one exactly when the other inequality
      does not hold anyway. */
  lemma LostMarginHarmlessIff(f: Metrics, s: Metrics, queue: U64, waiting: bool)
    requires MarginSurvives(Left(f, queue), Right(f, s, waiting)) != MarginSurvives(LhsS(s, queue), RhsS(f, s))
    ensures (Waits(f, s, queue, waiting) <==> DocumentedWaits(f, s, queue, waiting)) <==>
      if MarginSurvives(Left(f, queue), Right(f, s, waiting)) then !FirstHolds(f, s, queue, waiting)
      else !SecondHolds(f, s, queue)
  {
    WaitsIff(f, s, queue, waiting);
  }

  predicate NonNegative(m: Metrics) { 0 <= m.rtt && 0 <= m.rttvar && 0 <= m.cwnd }

  /** None of the four sides exceeds uint64. */
  predicate Fits(f: Metrics, s: Metrics, queue: int) {
    && Left(f, queue) <= MAX_UINT64 && Right(f, s, true) <= MAX_UINT64
    && LhsS(s, queue) <= MAX_UINT64 && RhsS(f, s) <= MAX_UINT64
  }

  lemma Product(a: int, b: int)
    requires 0 <= a && 0 <= b
    ensures 0 <= a * b
  {}

  lemma SmallSidesNeverWrap(x: int, y: int)
    requires 0 <= x <= MAX_UINT64 && 0 <= y <= MAX_UINT64
    ensures ExtraWraps(x, y) == 0
  {}

  lemma SidesNonNegative(f: Metrics, s: Metrics, queue: int)
    requires NonNegative(f) && NonNegative(s) && 0 <= queue
    ensures 0 <= Left(f, queue) && 0 <= Rhs(f, s) && 0 <= LhsS(s, queue) && 0 <= RhsS(f, s)
  {
    Product(f.rtt, Max(queue, f.cwnd) + f.cwnd);
    Product(f.cwnd, s.rtt + Delta(f, s));
    Product(s.rtt, Max(queue, s.cwnd));
    Product(s.cwnd, 2 * f.rtt + Delta(f, s));
  }

  /** In particular the decision is the documented one whenever none of the four sides wraps. */
  lemma ExactWhenItFits(f: Metrics, s: Metrics, queue: U64, waiting: bool)
    requires NonNegative(f) && NonNegative(s) && 0 <= queue && Fits(f, s, queue)
    ensures Waits(f, s, queue, waiting) <==> DocumentedWaits(f, s, queue, waiting)
  {
    SidesNonNegative(f, s, queue);
    SmallSidesNeverWrap(Left(f, queue), Right(f, s, waiting));
    SmallSidesNeverWrap(LhsS(s, queue), RhsS(f, s));
    ExactWithoutExtraWraps(f, s, queue, waiting);
  }

  const RTT_BOUND := 0x1_0000_0000
  const WINDOW_BOUND := 0x1000_0000

  predicate Bounded(m: Metrics) {
    0 <= m.rtt < RTT_BOUND && 0 <= m.rttvar < RTT_BOUND && 0 <= m.cwnd < WINDOW_BOUND
  }

  lemma ProductBound(a: int, b: int, x: int, y: int)
    requires 0 <= a <= x && 0 <= b <= y
    ensures 0 <= a * b <= x * y
  {
    Product(a, b);
    Product(x - a, y);
    Product(a, y - b);
    assert x * y - a * b == (x - a) * y + a * (y - b);
  }

  /** RTTs and variances under 2^32 microseconds with windows and queue under 2^28 bytes fit. */
  lemma BoundedFits(f: Metrics, s: Metrics, queue: int)
    requires Bounded(f) && Bounded(s) && 0 <= queue < WINDOW_BOUND
    ensures Fits(f, s, queue)
  {
    ProductBound(f.rtt, Max(queue, f.cwnd) + f.cwnd, RTT_BOUND, 2 * WINDOW_BOUND);
    ProductBound(f.cwnd, s.rtt + Delta(f, s), WINDOW_BOUND, 2 * RTT_BOUND);
    ProductBound(s.rtt, Max(queue, s.cwnd), RTT_BOUND, WINDOW_BOUND);
    ProductBound(s.cwnd, 2 * f.rtt + Delta(f, s), WINDOW_BOUND, 3 * RTT_BOUND);
  }

  lemma BoundedIsExact(f: Metrics, s: Metrics, queue: U64, waiting: bool)
    requires Bounded(f) && Bounded(s) && 0 <= queue < WINDOW_BOUND
    ensures Waits(f, s, queue, waiting) <==> DocumentedWaits(f, s, queue, waiting)
  {
    BoundedFits(f, s, queue);
    ExactWhenItFits(f, s, queue, waiting);
  }

  // ---- what the decision means ----

  /** Hysteresis: what is worth waiting for is still worth it while waiting. */
  lemma WaitingIsSticky(f: Metrics, s: Metrics, queue: U64)
    requires Bounded(f) && Bounded(s) && 0 <= queue < WINDOW_BOUND
    ensures Waits(f, s, queue, false) ==> Waits(f, s, queue, true)
  {
    BoundedIsExact(f, s, queue, false);
    BoundedIsExact(f, s, queue, true);
    Product(f.cwnd, s.rtt + Delta(f, s));
  }

  lemma Scale(c: int, a: int, b: int)
    requires c > 0
    ensures c * a < c * b <==> a < b
    ensures c * a <= c * b <==> a <= b
  {
    if a < b { Product(c, b - a - 1); assert c * b - c * a == c * (b - a - 1) + c; }
    if a > b { Product(c, a - b - 1); assert c * a - c * b == c * (a - b - 1) + c; }
  }

  lemma IdleLhs(f: Metrics)
    requires f.cwnd >= 0
    ensures ECF_BETA * Lhs(f, 0) == f.cwnd * (8 * f.rtt)
  {
    assert Lhs(f, 0) == f.cwnd * (2 * f.rtt);
  }

  lemma IdleRhs(c: int, r: int, waiting: bool)
    ensures ECF_BETA * (c * r) + (if waiting then c * r else 0) == c * ((if waiting then 5 else 4) * r)
  {}

  lemma IdleFirst(f: Metrics, s: Metrics, waiting: bool)
    requires Bounded(f) && Bounded(s) && f.cwnd > 0
    ensures ECF_BETA * Lhs(f, 0) < ECF_BETA * Rhs(f, s) + (if waiting then Rhs(f, s) else 0) <==>
      8 * f.rtt < (if waiting then 5 else 4) * (s.rtt + Delta(f, s))
  {
    var r := s.rtt + Delta(f, s);
    IdleLhs(f);
    IdleRhs(f.cwnd, r, waiting);
    Scale(f.cwnd, 8 * f.rtt, (if waiting then 5 else 4) * r);
  }

  lemma IdleSecond(f: Metrics, s: Metrics)
    requires Bounded(f) && Bounded(s) && s.cwnd > 0
    ensures LhsS(s, 0) >= RhsS(f, s) <==> s.rtt >= 2 * f.rtt + Delta(f, s)
  {
    assert LhsS(s, 0) == s.cwnd * s.rtt;
    Scale(s.cwnd, 2 * f.rtt + Delta(f, s), s.rtt);
  }

  /** With an empty queue and positive windows the windows cancel: the selector waits when the
      available transport is slower than two fast round trips plus the variation. Equality without
      any variation is decided by whether it was waiting already. */
  lemma IdleWaitsIff(f: Metrics, s: Metrics, waiting: bool)
    requires Bounded(f) && Bounded(s) && f.cwnd > 0 && s.cwnd > 0
    ensures Waits(f, s, 0, waiting) <==>
      var delta := Max(f.rttvar, s.rttvar);
      s.rtt >= 2 * f.rtt + delta && (delta > 0 || s.rtt > 2 * f.rtt || (waiting && s.rtt > 0))
  {
    BoundedIsExact(f, s, 0, waiting);
    IdleFirst(f, s, waiting);
    IdleSecond(f, s);
  }
}
