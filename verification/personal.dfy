/** The personal progress view: each analyst's three completion rates,
    their rounded mean as a progress percentage, the team average on the
    banner, and the "lagging" flag on whoever has the lowest progress.
    Rates are exact fractions here; `Math.round` is round-half-up. */
module Personal {
  import opened Wrappers

  /** A `{ current, target }` pair. */
  datatype Tally = Tally(current: int, target: int)

  /** An entry of the raw roster. */
  datatype RawAnalyst = RawAnalyst(id: string, name: string, avatarColor: string,
                                   roadshows: Tally, calls: Tally, reports: Tally)

  /** A roster entry with `role` and `progress` added. */
  datatype Analyst = Analyst(id: string, name: string, avatarColor: string,
                             roadshows: Tally, calls: Tally, reports: Tally,
                             role: string, progress: int)

  const Role: string := "策略研究"

  /** An exact fraction num/den; every fraction built here has den > 0. */
  datatype Fraction = Fraction(num: int, den: int)

  // ---------------------------------------------------------------------
  // Arithmetic helpers

  lemma MulMono(a: int, b: int, c: int)
    requires a <= b && c >= 0
    ensures c * a <= c * b
  {
    assert c * b - c * a == c * (b - a);
  }

  /** `Math.round(n / d)` for d > 0: the nearest integer, halves going up. */
  function RoundHalfUp(n: int, d: int): (r: int)
    requires d > 0
    ensures d * (2 * r - 1) <= 2 * n < d * (2 * r + 1)
  {
    var r := (2 * n + d) / (2 * d);
    assert 2 * d * r <= 2 * n + d < 2 * d * r + 2 * d;
    r
  }

  /** That nearest integer is the only one within a half of n / d. */
  lemma RoundHalfUpUnique(n: int, d: int, r: int)
    requires d > 0
    requires d * (2 * r - 1) <= 2 * n < d * (2 * r + 1)
    ensures RoundHalfUp(n, d) == r
  {
    var r0 := RoundHalfUp(n, d);
    if r0 < r {
      MulMono(2 * r0 + 1, 2 * r - 1, d);
    } else if r0 > r {
      MulMono(2 * r + 1, 2 * r0 - 1, d);
    }
  }

  /** Rounding a value that lies between lo and hi gives a value between them. */
  lemma RoundHalfUpBetween(n: int, d: int, lo: int, hi: int)
    requires d > 0 && d * lo <= n <= d * hi
    ensures lo <= RoundHalfUp(n, d) <= hi
  {
    var r := RoundHalfUp(n, d);
    assert d * (2 * lo - 1) == 2 * (d * lo) - d;
    assert d * (2 * hi + 1) == 2 * (d * hi) + d;
    if r < lo {
      MulMono(2 * r + 1, 2 * lo - 1, d);
    }
    if r > hi {
      MulMono(2 * hi + 1, 2 * r - 1, d);
    }
  }

  // ---------------------------------------------------------------------
  // Rates and progress

  /** A completion rate: current/target when the target is positive, else 0.
      It is not capped at 1. */
  function Rate(t: Tally): (r: Fraction)
    ensures r.den > 0
    ensures t.target > 0 ==> r.num * t.target == t.current * r.den
    ensures t.target <= 0 ==> r.num == 0
  {
    if t.target > 0 then Fraction(t.current, t.target) else Fraction(0, 1)
  }

  function Plus(x: Fraction, y: Fraction): (s: Fraction)
    requires x.den > 0 && y.den > 0
    ensures s.den > 0
  {
    Fraction(x.num * y.den + y.num * x.den, x.den * y.den)
  }

  /** Bounds on two fractions add up: from x <= a and y <= b follows x + y <= a + b
      (and the same for >= and for =). */
  lemma PlusBounds(x: Fraction, y: Fraction, a: int, b: int)
    requires x.den > 0 && y.den > 0
    ensures x.num <= a * x.den && y.num <= b * y.den ==> Plus(x, y).num <= (a + b) * Plus(x, y).den
    ensures x.num >= a * x.den && y.num >= b * y.den ==> Plus(x, y).num >= (a + b) * Plus(x, y).den
  {
    var s := Plus(x, y);
    assert (a + b) * s.den == (a * x.den) * y.den + (b * y.den) * x.den;
    if x.num <= a * x.den && y.num <= b * y.den {
      MulMono(x.num, a * x.den, y.den);
      MulMono(y.num, b * y.den, x.den);
    }
    if x.num >= a * x.den && y.num >= b * y.den {
      MulMono(a * x.den, x.num, y.den);
      MulMono(b * y.den, y.num, x.den);
    }
  }

  function SumOfRates(a: RawAnalyst): (s: Fraction)
    ensures s.den > 0
  {
    Plus(Plus(Rate(a.roadshows), Rate(a.calls)), Rate(a.reports))
  }

  /** `progress`: 100 times the mean of the three rates, to the nearest
      integer, halves going up; that is, p is the integer within a half of
      100 * s / 3 for the exact sum s of the rates. */
  function Progress(a: RawAnalyst): (p: int)
    ensures var s := SumOfRates(a); 3 * s.den * (2 * p - 1) <= 200 * s.num < 3 * s.den * (2 * p + 1)
  {
    var s := SumOfRates(a);
    RoundHalfUp(100 * s.num, 3 * s.den)
  }

  /** A rate lies at or under 1 when its target is met at most, at or over 1
      when the target is positive and met at least, and at or over 0 for a
      non-negative count. */
  lemma RateBounds(t: Tally)
    ensures t.target > 0 && t.current <= t.target ==> Rate(t).num <= Rate(t).den
    ensures t.target <= 0 ==> Rate(t).num <= Rate(t).den
    ensures t.target > 0 && t.current >= t.target ==> Rate(t).num >= Rate(t).den
    ensures t.current >= 0 ==> Rate(t).num >= 0
  {
  }

  /** Every target reached exactly gives 100. */
  lemma ProgressFullMarks(a: RawAnalyst)
    requires a.roadshows.target > 0 && a.roadshows.current == a.roadshows.target
    requires a.calls.target > 0 && a.calls.current == a.calls.target
    requires a.reports.target > 0 && a.reports.current == a.reports.target
    ensures Progress(a) == 100
  {
    var x, y, z := Rate(a.roadshows), Rate(a.calls), Rate(a.reports);
    PlusBounds(x, y, 1, 1);
    PlusBounds(Plus(x, y), z, 2, 1);
    var s := SumOfRates(a);
    assert s.num == 3 * s.den;
    RoundHalfUpUnique(100 * s.num, 3 * s.den, 100);
  }

  /** No activity at all gives 0. */
  lemma ProgressNoActivity(a: RawAnalyst)
    requires a.roadshows.current == 0 && a.calls.current == 0 && a.reports.current == 0
    ensures Progress(a) == 0
  {
    var s := SumOfRates(a);
    assert s.num == 0;
    RoundHalfUpUnique(100 * s.num, 3 * s.den, 0);
  }

  /** Non-negative counts give a non-negative progress. */
  lemma ProgressNonNegative(a: RawAnalyst)
    requires a.roadshows.current >= 0 && a.calls.current >= 0 && a.reports.current >= 0
    ensures Progress(a) >= 0
  {
    var x, y, z := Rate(a.roadshows), Rate(a.calls), Rate(a.reports);
    PlusBounds(x, y, 0, 0);
    PlusBounds(Plus(x, y), z, 0, 0);
    var s := SumOfRates(a);
    var p := Progress(a);
    if p < 0 {
      MulMono(2 * p + 1, -1, 3 * s.den);
    }
  }

  /** With no target overshot the progress is at most 100. */
  lemma ProgressAtMostHundred(a: RawAnalyst)
    requires a.roadshows.current <= a.roadshows.target || a.roadshows.target <= 0
    requires a.calls.current <= a.calls.target || a.calls.target <= 0
    requires a.reports.current <= a.reports.target || a.reports.target <= 0
    ensures Progress(a) <= 100
  {
    var x, y, z := Rate(a.roadshows), Rate(a.calls), Rate(a.reports);
    PlusBounds(x, y, 1, 1);
    PlusBounds(Plus(x, y), z, 2, 1);
    var s := SumOfRates(a);
    var p := Progress(a);
    if p > 100 {
      MulMono(201, 2 * p - 1, 3 * s.den);
    }
  }

  /** With every positive target reached or passed the progress is at least
      100: rates are not capped, so an overshoot lifts progress past 100. */
  lemma ProgressAtLeastHundred(a: RawAnalyst)
    requires a.roadshows.target > 0 && a.roadshows.current >= a.roadshows.target
    requires a.calls.target > 0 && a.calls.current >= a.calls.target
    requires a.reports.target > 0 && a.reports.current >= a.reports.target
    ensures Progress(a) >= 100
  {
    var x, y, z := Rate(a.roadshows), Rate(a.calls), Rate(a.reports);
    PlusBounds(x, y, 1, 1);
    PlusBounds(Plus(x, y), z, 2, 1);
    var s := SumOfRates(a);
    var p := Progress(a);
    if p < 100 {
      MulMono(2 * p + 1, 199, 3 * s.den);
    }
  }

  /** 30 roadshows against 25 with the other two targets met: 107. */
  lemma ProgressOvershoot()
    ensures Progress(RawAnalyst("x", "x", "", Tally(30, 25), Tally(3, 3), Tally(2, 2))) == 107
  {
    var a := RawAnalyst("x", "x", "", Tally(30, 25), Tally(3, 3), Tally(2, 2));
    var s := SumOfRates(a);
    assert s == Fraction(480, 150);
    RoundHalfUpUnique(100 * 480, 3 * 150, 107);
  }

  // ---------------------------------------------------------------------
  // The roster

  /** `rawData.map(...)`: the roster with `role` and `progress` added. */
  function WithProgress(raw: seq<RawAnalyst>): (r: seq<Analyst>)
    ensures |r| == |raw|
    ensures forall i :: 0 <= i < |raw| ==>
      && r[i].id == raw[i].id && r[i].name == raw[i].name && r[i].avatarColor == raw[i].avatarColor
      && r[i].roadshows == raw[i].roadshows && r[i].calls == raw[i].calls && r[i].reports == raw[i].reports
      && r[i].role == Role && r[i].progress == Progress(raw[i])
  {
    seq(|raw|, i requires 0 <= i < |raw| =>
      var a := raw[i];
      Analyst(a.id, a.name, a.avatarColor, a.roadshows, a.calls, a.reports, Role, Progress(a)))
  }

  function Progresses(analysts: seq<Analyst>): (ps: seq<int>)
    ensures |ps| == |analysts| && forall i :: 0 <= i < |analysts| ==> ps[i] == analysts[i].progress
  {
    seq(|analysts|, i requires 0 <= i < |analysts| => analysts[i].progress)
  }

  /** `Math.min(...xs)`; with no arguments it is +Infinity, written None here. */
  function MinOf(xs: seq<int>): (m: Option<int>)
    ensures m.None? <==> xs == []
    ensures m.Some? ==> forall i :: 0 <= i < |xs| ==> m.value <= xs[i]
    ensures m.Some? ==> exists i :: 0 <= i < |xs| && xs[i] == m.value
  {
    if xs == [] then None
    else
      match MinOf(xs[1..])
      case None => Some(xs[0])
      case Some(v) =>
        assert forall i :: 1 <= i < |xs| ==> xs[1..][i - 1] == xs[i];
        Some(if xs[0] <= v then xs[0] else v)
  }

  function MinProgress(analysts: seq<Analyst>): (m: Option<int>)
    ensures m.None? <==> analysts == []
    ensures m.Some? ==> forall i :: 0 <= i < |analysts| ==> m.value <= analysts[i].progress
    ensures m.Some? ==> exists i :: 0 <= i < |analysts| && analysts[i].progress == m.value
  {
    MinOf(Progresses(analysts))
  }

  /** `reduce((acc, curr) => acc + curr.progress, 0)` */
  function SumProgress(analysts: seq<Analyst>): int
  {
    if analysts == [] then 0
    else SumProgress(analysts[..|analysts| - 1]) + analysts[|analysts| - 1].progress
  }

  /** The banner: `Math.round(sum / length)`; an empty roster gives NaN, written None. */
  function TeamAverage(analysts: seq<Analyst>): (a: Option<int>)
    ensures a.None? <==> analysts == []
    ensures a.Some? ==>
      |analysts| * (2 * a.value - 1) <= 2 * SumProgress(analysts) < |analysts| * (2 * a.value + 1)
  {
    if analysts == [] then None else Some(RoundHalfUp(SumProgress(analysts), |analysts|))
  }

  /** `analyst.progress === minProgress` (never true against +Infinity). */
  predicate IsWarning(a: Analyst, minProgress: Option<int>)
  {
    minProgress == Some(a.progress)
  }

  lemma {:induction false} SumProgressBounds(analysts: seq<Analyst>, lo: int, hi: int)
    requires forall i :: 0 <= i < |analysts| ==> lo <= analysts[i].progress <= hi
    ensures |analysts| * lo <= SumProgress(analysts) <= |analysts| * hi
  {
    if analysts != [] {
      SumProgressBounds(analysts[..|analysts| - 1], lo, hi);
    }
  }

  lemma {:induction false} HasMaximum(analysts: seq<Analyst>) returns (j: nat)
    requires analysts != []
    ensures j < |analysts| && forall i :: 0 <= i < |analysts| ==> analysts[i].progress <= analysts[j].progress
  {
    if |analysts| == 1 {
      j := 0;
    } else {
      var k := HasMaximum(analysts[1..]);
      j := if analysts[0].progress >= analysts[k + 1].progress then 0 else k + 1;
      assert forall i :: 1 <= i < |analysts| ==> analysts[i] == analysts[1..][i - 1];
    }
  }

  /** For a non-empty roster the team average lies between the lowest and
      the highest progress. */
  lemma TeamAverageBetween(analysts: seq<Analyst>)
    requires analysts != []
    ensures TeamAverage(analysts).Some? && MinProgress(analysts).Some?
    ensures MinProgress(analysts).value <= TeamAverage(analysts).value
    ensures exists j :: 0 <= j < |analysts| && TeamAverage(analysts).value <= analysts[j].progress
  {
    var lo := MinProgress(analysts).value;
    var j := HasMaximum(analysts);
    var hi := analysts[j].progress;
    SumProgressBounds(analysts, lo, hi);
    RoundHalfUpBetween(SumProgress(analysts), |analysts|, lo, hi);
  }

  /** The lagging flag marks exactly the analysts whose progress is the
      lowest (so all tied ones), and at least one when the roster is not empty;
      an empty roster flags nobody. */
  lemma WarningMarksLowest(analysts: seq<Analyst>)
    ensures forall i :: 0 <= i < |analysts| ==>
      (IsWarning(analysts[i], MinProgress(analysts)) <==>
       forall j :: 0 <= j < |analysts| ==> analysts[i].progress <= analysts[j].progress)
    ensures analysts != [] ==> exists i :: 0 <= i < |analysts| && IsWarning(analysts[i], MinProgress(analysts))
  {
    var m := MinProgress(analysts);
    var ps := Progresses(analysts);
    if analysts != [] {
      forall i | 0 <= i < |analysts| && forall j :: 0 <= j < |analysts| ==> analysts[i].progress <= analysts[j].progress
        ensures IsWarning(analysts[i], m)
      {
        var k :| 0 <= k < |ps| && ps[k] == m.value;
        assert analysts[i].progress <= ps[k];
      }
    }
  }

  // ---------------------------------------------------------------------
  // The shipped roster

  const RawData: seq<RawAnalyst> := [
    RawAnalyst("1", "沛东", "bg-blue-100 text-blue-700", Tally(18, 25), Tally(2, 3), Tally(1, 2)),
    RawAnalyst("2", "徐亚", "bg-indigo-100 text-indigo-700", Tally(22, 25), Tally(3, 3), Tally(2, 2)),
    RawAnalyst("3", "晓希", "bg-red-50 text-red-600", Tally(12, 25), Tally(1, 3), Tally(0, 2)),
    RawAnalyst("4", "天然", "bg-orange-50 text-orange-600", Tally(20, 25), Tally(2, 3), Tally(1, 2))
  ]

  /** On the shipped roster: progress 63, 96, 27 and 66; the banner shows 63;
      only the third analyst is flagged. */
  lemma RawDataFigures()
    ensures Progresses(WithProgress(RawData)) == [63, 96, 27, 66]
    ensures MinProgress(WithProgress(RawData)) == Some(27)
    ensures TeamAverage(WithProgress(RawData)) == Some(63)
    ensures forall i :: 0 <= i < 4 ==> (IsWarning(WithProgress(RawData)[i], Some(27)) <==> i == 2)
  {
    assert SumOfRates(RawData[0]) == Fraction(283, 150);
    RoundHalfUpUnique(100 * 283, 3 * 150, 63);
    assert SumOfRates(RawData[1]) == Fraction(432, 150);
    RoundHalfUpUnique(100 * 432, 3 * 150, 96);
    assert SumOfRates(RawData[2]) == Fraction(122, 150);
    RoundHalfUpUnique(100 * 122, 3 * 150, 27);
    assert SumOfRates(RawData[3]) == Fraction(295, 150);
    RoundHalfUpUnique(100 * 295, 3 * 150, 66);
    var ps := Progresses(WithProgress(RawData));
    assert ps == [63, 96, 27, 66];
    var roster := WithProgress(RawData);
    assert roster[..4] == roster;
    assert SumProgress(roster[..1]) == 63 by { assert roster[..1][..0] == []; }
    assert SumProgress(roster[..2]) == 159 by { assert roster[..2][..1] == roster[..1]; }
    assert SumProgress(roster[..3]) == 186 by { assert roster[..3][..2] == roster[..2]; }
    assert SumProgress(roster[..4]) == 252 by { assert roster[..4][..3] == roster[..3]; }
    RoundHalfUpUnique(252, 4, 63);
  }
}
