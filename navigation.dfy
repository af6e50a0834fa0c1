/** The view values render derives from the step index: the progress
    percentage, whether Back is disabled, and the Next button's label. */
module Navigation {

  /** Multiplying both sides by a non-negative factor keeps an ordering. */
  lemma MulLe(a: int, b: int, c: int)
    requires 0 <= c && a <= b
    ensures a * c <= b * c
  {
    assert b * c - a * c == (b - a) * c;
  }

  /** Floor division of 2x + m by 2m lands within m of 2x, on the low side
      inclusive: the half-up rounding of x / m. */
  lemma HalfUpDivision(x: int, m: int)
    requires 0 <= x && 1 <= m
    ensures var q := (2 * x + m) / (2 * m); m * (2 * q - 1) <= 2 * x < m * (2 * q + 1)
  {
    var d := 2 * m;
    var y := 2 * x + m;
    var q, r := y / d, y % d;
    assert y == q * d + r && 0 <= r < d;
    assert m * (2 * q - 1) == q * d - m;
    assert m * (2 * q + 1) == q * d + m;
  }

  /** The half-up rounding of 100·i/m for 0 <= i <= m lies in 0..100. */
  lemma HalfUpPercent(i: nat, m: nat)
    requires 1 <= m && i <= m
    ensures var q := (200 * i + m) / (2 * m);
      && m * (2 * q - 1) <= 200 * i < m * (2 * q + 1)
      && 0 <= q <= 100
  {
    var q := (200 * i + m) / (2 * m);
    HalfUpDivision(100 * i, m);
    assert 2 * (100 * i) + m == 200 * i + m;
    assert 0 <= q by {
      if q < 0 {
        MulLe(2 * q + 1, -1, m);
      }
    }
    assert q <= 100 by {
      if q > 100 {
        MulLe(201, 2 * q - 1, m);
      }
    }
  }

  /** `Math.round(i / (n - 1) * 100)`: the integer nearest to 100·i/(n-1),
      a half rounding up. */
  function Progress(i: nat, n: nat): (pct: int)
    requires 2 <= n && i < n
    ensures (n - 1) * (2 * pct - 1) <= 200 * i < (n - 1) * (2 * pct + 1)
    ensures 0 <= pct <= 100
  {
    HalfUpPercent(i, n - 1);
    (200 * i + (n - 1)) / (2 * (n - 1))
  }

  /** Rounding has one answer: an integer within a half of 100·i/(n-1), a half
      counting upward, is the progress. */
  lemma ProgressUnique(i: nat, n: nat, p: int)
    requires 2 <= n && i < n
    requires (n - 1) * (2 * p - 1) <= 200 * i < (n - 1) * (2 * p + 1)
    ensures p == Progress(i, n)
  {
    var q := Progress(i, n);
    if p < q {
      MulLe(2 * p + 1, 2 * q - 1, n - 1);
    } else if q < p {
      MulLe(2 * q + 1, 2 * p - 1, n - 1);
    }
  }

  /** The first step shows 0% and the review step 100%. */
  lemma ProgressEnds(n: nat)
    requires 2 <= n
    ensures Progress(0, n) == 0
    ensures Progress(n - 1, n) == 100
  {
    ProgressUnique(0, n, 0);
    assert (n - 1) * 199 <= 200 * (n - 1) < (n - 1) * 201;
    ProgressUnique(n - 1, n, 100);
  }

  /** Moving forward never moves the bar back. */
  lemma ProgressMonotone(i: nat, j: nat, n: nat)
    requires 2 <= n && i <= j < n
    ensures Progress(i, n) <= Progress(j, n)
  {
    var p, q := Progress(i, n), Progress(j, n);
    if q < p {
      MulLe(2 * q + 1, 2 * p - 1, n - 1);
    }
  }

  /** The Back button is disabled exactly on the first step. */
  predicate BackDisabled(i: nat) {
    i == 0
  }

  /** The label of the Next button. */
  function NextLabel(i: nat, n: nat): string {
    if i == n - 1 then "Finish" else "Next"
  }

  /** With at most 200 steps the bar reads 0% exactly where Back is disabled and
      100% exactly where the button reads "Finish". */
  lemma ProgressMatchesButtons(i: nat, n: nat)
    requires 2 <= n <= 200 && i < n
    ensures Progress(i, n) == 0 <==> BackDisabled(i)
    ensures Progress(i, n) == 100 <==> NextLabel(i, n) == "Finish"
  {
    var p := Progress(i, n);
    ProgressEnds(n);
  }
}
