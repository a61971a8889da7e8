/** The slot budget of an operator (crates/op-funding/src/lib.rs): the mean share of the slots plus
    2.33 standard deviations, in checked 128-bit integer arithmetic. */
module SlotBudget {
  import opened Common

  const U128_MAX: nat := 0xFFFF_FFFF_FFFF_FFFF_FFFF_FFFF_FFFF_FFFF
  const Z_NUMERATOR: nat := 233
  const Z_DENOMINATOR: nat := 100

  /** The product as repeated addition, which keeps the reasoning about roots and quotients linear. */
  function Times(a: nat, b: nat): nat {
    if a == 0 then 0 else Times(a - 1, b) + b
  }

  lemma {:induction false} TimesIsProduct(a: nat, b: nat)
    ensures Times(a, b) == a * b
  {
    if a > 0 {
      TimesIsProduct(a - 1, b);
    }
  }

  lemma {:induction false} TimesGrows(a: nat, b: nat, d: nat)
    requires a <= b
    ensures Times(a, d) <= Times(b, d)
    decreases b
  {
    if a < b {
      TimesGrows(a, b - 1, d);
    }
  }

  lemma {:induction false} TimesGrowsRight(a: nat, d: nat, e: nat)
    requires d <= e
    ensures Times(a, d) <= Times(a, e)
  {
    if a > 0 {
      TimesGrowsRight(a - 1, d, e);
    }
  }

  lemma SquareGrows(a: nat, b: nat)
    requires a <= b
    ensures Times(a, a) <= Times(b, b)
  {
    TimesGrows(a, b, a);
    TimesGrowsRight(b, a, b);
  }

  /** The least number whose square is at least `v`. */
  predicate IsCeilSqrt(v: nat, r: nat) {
    Times(r, r) >= v && (r > 0 ==> Times(r - 1, r - 1) < v)
  }

  /** A larger number has a root at least as large; so there is only one root. */
  lemma CeilSqrtGrows(v: nat, r: nat, w: nat, t: nat)
    requires IsCeilSqrt(v, r) && IsCeilSqrt(w, t) && v <= w
    ensures r <= t
  {
    if t < r {
      SquareGrows(t, r - 1);
    }
  }

  function Saturate(n: nat): nat {
    if n <= U128_MAX then n else U128_MAX
  }

  /** `ceil_sqrt`: binary search; a square that saturates is still not below the value. */
  method CeilSqrt(value: nat) returns (r: nat)
    requires value <= U128_MAX
    ensures IsCeilSqrt(value, r)
    ensures r <= value
  {
    if value <= 1 {
      return value;
    }
    var low, high := 1, value;
    TimesGrows(1, value, value);
    while low < high
      invariant 1 <= low <= high <= value
      invariant Times(high, high) >= value && Times(low - 1, low - 1) < value
      decreases high - low
    {
      var mid := low + (high - low) / 2;
      var square := Saturate(mid * mid);
      TimesIsProduct(mid, mid);
      if square < value {
        low := mid + 1;
      } else {
        high := mid;
      }
    }
    r := low;
  }

  function CeilDiv(n: nat, d: nat): (q: nat)
    requires d > 0
    ensures q * d >= n && (q > 0 ==> (q - 1) * d < n)
  {
    (n + d - 1) / d
  }

  function AtLeastOne(n: nat): nat {
    if n == 0 then 1 else n
  }

  function CheckedMul(a: nat, b: nat): Option<nat> {
    if a * b <= U128_MAX then Some(a * b) else None
  }

  function CheckedAdd(a: nat, b: nat): Option<nat> {
    if a + b <= U128_MAX then Some(a + b) else None
  }

  /** `k` is the least number with `k * d >= n`. */
  predicate IsCeilDiv(n: nat, d: nat, k: nat) {
    Times(k, d) >= n && (k > 0 ==> Times(k - 1, d) < n)
  }

  lemma CeilDivGrows(n: nat, n': nat, d: nat, k: nat, k': nat)
    requires IsCeilDiv(n, d, k) && IsCeilDiv(n', d, k') && n <= n'
    ensures k <= k'
  {
    if k' < k {
      TimesGrows(k', k - 1, d);
    }
  }

  lemma CeilDivBound(n: nat, d: nat, k: nat, c: nat)
    requires IsCeilDiv(n, d, k) && n <= Times(c, d)
    ensures k <= c
  {
    if c < k {
      TimesGrows(c, k - 1, d);
    }
  }

  predicate BudgetWith(slots: nat, m: nat, r: nat, k: nat)
    requires m > 0
  {
    IsCeilSqrt(Times(slots, m - 1), r) && IsCeilDiv(100 * slots + 233 * r, 100 * m, k)
  }

  /** `k` is the least number of slots that covers the mean share plus 2.33 times the (rounded up)
      deviation, for a committee of at least one. */
  ghost predicate IsBudget(slots: nat, members: nat, k: nat) {
    exists r: nat :: BudgetWith(slots, AtLeastOne(members), r, k)
  }

  lemma ProductFitsU128(a: nat, b: nat)
    requires a <= U64_MAX && b <= U64_MAX
    ensures a * b <= U64_MAX * U64_MAX <= U128_MAX
  {
    assert a * b <= U64_MAX * b;
  }

  lemma RootFits(v: nat, r: nat, limit: nat)
    requires v <= limit * limit && IsCeilSqrt(v, r)
    ensures r <= limit + 1
  {
    if r > limit + 1 {
      SquareGrows(limit, r - 1);
      TimesIsProduct(limit, limit);
    }
  }

  /** The deviation term is at most the slots of the other members, but for tiny committees. */
  lemma RootIsSmall(v: nat, r: nat)
    requires IsCeilSqrt(v, r)
    ensures v >= 9 ==> 233 * r <= 100 * v
    ensures v < 9 ==> r <= 3
    ensures v == 0 ==> r == 0
  {
    if v >= 9 && r >= 4 {
      var x := r - 4;
      TimesIsProduct(r - 1, r - 1);
      assert (r - 1) * (r - 1) == x * x + 6 * x + 9;
    }
    if v < 9 && r > 3 {
      SquareGrows(3, r - 1);
    }
  }

  lemma {:induction false} Distribute(slots: nat, m: nat)
    requires m > 0
    ensures 100 * slots + 100 * Times(slots, m - 1) == Times(slots, 100 * m)
    decreases slots
  {
    if slots > 0 {
      Distribute(slots - 1, m);
    }
  }

  lemma {:induction false} OthersAtLeast(slots: nat, others: nat)
    requires others > 0
    ensures slots <= Times(slots, others)
    decreases slots
  {
    if slots > 0 {
      OthersAtLeast(slots - 1, others);
    }
  }

  lemma {:induction false} NoOthers(slots: nat)
    ensures Times(slots, 0) == 0
  {
    if slots > 0 {
      NoOthers(slots - 1);
    }
  }

  lemma BudgetFits(slots: nat, m: nat, r: nat, k: nat)
    requires slots <= U64_MAX && m > 0 && BudgetWith(slots, m, r, k)
    ensures k <= U64_MAX
  {
    hide IsCeilDiv, IsCeilSqrt;
    var v := Times(slots, m - 1);
    RootIsSmall(v, r);
    if v == 0 || v >= 9 {
      Distribute(slots, m);
      CeilDivBound(100 * slots + 233 * r, 100 * m, k, slots);
    } else {
      NoOthers(slots);
      OthersAtLeast(slots, m - 1);
      TimesIsProduct(15, 100 * m);
      CeilDivBound(100 * slots + 233 * r, 100 * m, k, 15);
    }
  }

  /** `checked_budgeted_slot_count`: for all 64-bit inputs nothing overflows and the result fits, so
      `budgeted_slot_count` never panics. */
  method CheckedBudgetedSlotCount(slots: nat, members: nat) returns (k: Option<nat>)
    requires slots <= U64_MAX && members <= U64_MAX
    ensures k.Some? && k.value <= U64_MAX && IsBudget(slots, members, k.value)
  {
    var m := AtLeastOne(members);
    if slots == 0 {
      assert BudgetWith(0, m, 0, 0);
      return Some(0);
    }
    ProductFitsU128(slots, m - 1);
    var product := CheckedMul(slots, m - 1);
    if product.None? {
      return None;
    }
    var root := CeilSqrt(product.value);
    TimesIsProduct(slots, m - 1);
    RootFits(product.value, root, U64_MAX);
    var mean := CheckedMul(slots, Z_DENOMINATOR);
    var deviation := CheckedMul(Z_NUMERATOR, root);
    if mean.None? || deviation.None? {
      return None;
    }
    var numerator := CheckedAdd(mean.value, deviation.value);
    var denominator := CheckedMul(Z_DENOMINATOR, m);
    if numerator.None? || denominator.None? {
      return None;
    }
    var budget := CeilDiv(numerator.value, denominator.value);
    TimesIsProduct(budget, denominator.value);
    if budget > 0 {
      TimesIsProduct(budget - 1, denominator.value);
    }
    assert BudgetWith(slots, m, root, budget);
    BudgetFits(slots, m, root, budget);
    if budget > U64_MAX {
      return None;
    }
    k := Some(budget);
  }

  /** All members' budgets together cover the slots, and the excess of a full committee is at least
      2.33 standard deviations, squared to stay in integers. */
  lemma BudgetCovers(slots: nat, members: nat, k: nat)
    requires IsBudget(slots, members, k)
    ensures var m := if members == 0 then 1 else members;
            && m * k >= slots
            && 10000 * ((m * k - slots) * (m * k - slots)) >= 54289 * (slots * (m - 1))
  {
    var m := AtLeastOne(members);
    var r: nat :| BudgetWith(slots, m, r, k);
    Regroup(k, m);
    TimesIsProduct(slots, m - 1);
    ExcessCovers(m * k, slots, r, slots * (m - 1));
  }

  lemma Regroup(k: nat, m: nat)
    ensures Times(k, 100 * m) == 100 * (m * k)
  {
    TimesIsProduct(k, 100 * m);
  }

  lemma ExcessCovers(total: nat, slots: nat, r: nat, v: nat)
    requires 100 * total >= 100 * slots + 233 * r && Times(r, r) >= v
    ensures total >= slots && 10000 * ((total - slots) * (total - slots)) >= 54289 * v
  {
    var excess := total - slots;
    SquareGrows(233 * r, 100 * excess);
    TimesIsProduct(r, r);
    TimesIsProduct(233 * r, 233 * r);
    TimesIsProduct(100 * excess, 100 * excess);
    assert (233 * r) * (233 * r) == 54289 * (r * r);
    assert (100 * excess) * (100 * excess) == 10000 * (excess * excess);
  }

  /** More slots never mean a smaller budget; in particular the budget is determined. */
  lemma BudgetGrows(slots: nat, more: nat, members: nat, k: nat, l: nat)
    requires slots <= more && IsBudget(slots, members, k) && IsBudget(more, members, l)
    ensures k <= l
  {
    var m := AtLeastOne(members);
    var r: nat :| BudgetWith(slots, m, r, k);
    var t: nat :| BudgetWith(more, m, t, l);
    hide IsCeilDiv, IsCeilSqrt;
    TimesGrows(slots, more, m - 1);
    CeilSqrtGrows(Times(slots, m - 1), r, Times(more, m - 1), t);
    CeilDivGrows(100 * slots + 233 * r, 100 * more + 233 * t, 100 * m, k, l);
  }

  /** The budget of one member can exceed the slots there are. */
  lemma BudgetMayExceedSlots()
    ensures IsBudget(1, 2, 2)
  {
    assert BudgetWith(1, AtLeastOne(2), 1, 2);
  }

  /** The budget is no larger than it has to be: one slot less does not reach the mean share plus 2.33
      times the deviation, and the deviation is rounded up by less than one. */
  lemma BudgetIsLeast(slots: nat, members: nat, k: nat) returns (r: nat)
    requires IsBudget(slots, members, k)
    ensures var m := if members == 0 then 1 else members;
            && r * r >= slots * (m - 1) && (r > 0 ==> (r - 1) * (r - 1) < slots * (m - 1))
            && 100 * (m * k) >= 100 * slots + 233 * r
            && (k > 0 ==> 100 * (m * (k - 1)) < 100 * slots + 233 * r)
  {
    hide IsCeilSqrt, IsCeilDiv;
    var m := AtLeastOne(members);
    r :| BudgetWith(slots, m, r, k);
    RootInPlainTerms(slots * (m - 1), r, slots, m - 1);
    QuotientInPlainTerms(100 * slots + 233 * r, m, k);
  }

  lemma RootInPlainTerms(v: nat, r: nat, a: nat, b: nat)
    requires v == a * b && IsCeilSqrt(Times(a, b), r)
    ensures r * r >= v && (r > 0 ==> (r - 1) * (r - 1) < v)
  {
    TimesIsProduct(a, b);
    TimesIsProduct(r, r);
    if r > 0 {
      TimesIsProduct(r - 1, r - 1);
    }
  }

  lemma QuotientInPlainTerms(n: nat, m: nat, k: nat)
    requires IsCeilDiv(n, 100 * m, k)
    ensures 100 * (m * k) >= n && (k > 0 ==> 100 * (m * (k - 1)) < n)
  {
    Regroup(k, m);
    if k > 0 {
      Regroup(k - 1, m);
    }
  }
}
