/** The analytics page: the month and year pickers and the seeded generator that fills the
    service-popularity chart with deterministic sample data. */
module Analytics {
  import opened JsNum
  import opened Wrappers
  import opened Seqs

  /** The month picker's entries; a month's number is its 1-based position. */
  const Months: seq<string> := ["Jan", "Feb", "Mar", "Apr", "May", "Jun",
                                "Jul", "Aug", "Sep", "Oct", "Nov", "Dec"]

  /** The five candidate service names (one of them repeated). */
  const Candidates: seq<string> := ["Manicure", "Pedicure", "Gel", "Pedicure", "Other"]

  /** One bar of the generated service chart. */
  datatype ServicePoint = ServicePoint(service: string, value: int)

  /** One point of the booking-trends chart built from the server's trend records. */
  datatype TrendPoint = TrendPoint(month: string, confirmed: int, cancelled: int)

  /** A trend record as the server sends it. */
  datatype TrendRecord = TrendRecord(month: string, totalBookings: int)

  /** `seeded(seed, mod)`: the double remainder `((seed % mod) + mod) % mod`, with
      JavaScript's truncating `%`. It is the mathematical residue of `seed` modulo `mod`. */
  function Seeded(seed: int, mod: int): (r: int)
    requires mod > 0
    ensures 0 <= r < mod
    ensures r == seed % mod
  {
    var a := Rem(seed, mod);
    RemCongruent(seed, mod);
    SeededResidue(seed, mod, a);
    Rem(a + mod, mod)
  }

  lemma SeededResidue(seed: int, mod: int, a: int)
    requires mod > 0
    requires -mod < a < mod && (seed - a) % mod == 0
    ensures Rem(a + mod, mod) == seed % mod
  {
    var k := (seed - a) / mod;
    assert seed - a == k * mod;
    var q, s := seed / mod, seed % mod;
    assert a + mod == (q - k + 1) * mod + s;
    DivModUnique(a + mod, mod, q - k + 1, s);
  }

  /** `seeded` agrees with a plain remainder on non-negative seeds, and shifting the seed by
      a multiple of `mod` does not change it. */
  lemma SeededPeriodic(seed: int, mod: int, k: int)
    requires mod > 0
    ensures Seeded(seed + k * mod, mod) == Seeded(seed, mod)
    ensures seed >= 0 ==> Seeded(seed, mod) == Rem(seed, mod)
  {
    var q, s := seed / mod, seed % mod;
    DivModUnique(seed + k * mod, mod, q + k, s);
  }

  /** `[...s.slice(offset), ...s.slice(0, offset)]`: the list rotated left by `offset`. */
  function Rotate<T>(s: seq<T>, offset: nat): (r: seq<T>)
    requires offset <= |s|
    ensures |r| == |s|
    ensures forall i :: 0 <= i < |s| - offset ==> r[i] == s[offset + i]
    ensures forall i :: |s| - offset <= i < |s| ==> r[i] == s[i - (|s| - offset)]
    ensures multiset(r) == multiset(s)
  {
    assert s == s[..offset] + s[offset..];
    s[offset..] + s[..offset]
  }

  /** The seed derived from the year and 1-based month. */
  function Seed(year: int, month: int): int {
    Rem(year, 97) * 31 + (month - 1) * 17
  }

  /** Whether "Other" is filtered out for this seed. */
  predicate DropsOther(seed: int) {
    Seeded(seed * 7, 2) == 0
  }

  /** The filter step's predicate: keep every name except "Other" when it is dropped. */
  function KeepName(drop: bool): string -> bool {
    (s: string) => !(s == "Other" && drop)
  }

  /** `s.slice(0, n)` for `n >= 0`: at most the first `n` elements. */
  function Take<T>(s: seq<T>, n: nat): (r: seq<T>)
    ensures |r| == if n <= |s| then n else |s|
    ensures forall i :: 0 <= i < |r| ==> r[i] == s[i]
  {
    if n <= |s| then s[..n] else s
  }

  /** The selection `getServiceData` makes from a candidate list `c`: rotate by
      `seeded(seed, c.length)`, filter, keep the first `2 + seeded(seed, 2)`. */
  function Pick(c: seq<string>, seed: int): seq<string>
    requires |c| > 0
  {
    var rotated := Rotate(c, Seeded(seed, |c|));
    Take(Filter(rotated, KeepName(DropsOther(seed))), 2 + Seeded(seed, 2))
  }

  /** Every picked name is a candidate that passed the filter. */
  lemma PickFiltered(c: seq<string>, seed: int, i: nat)
    requires |c| > 0 && i < |Pick(c, seed)|
    ensures Pick(c, seed)[i] in c
    ensures Pick(c, seed)[i] == "Other" ==> !DropsOther(seed)
  {
    var rotated := Rotate(c, Seeded(seed, |c|));
    var filtered := Filter(rotated, KeepName(DropsOther(seed)));
    assert Pick(c, seed)[i] == filtered[i];
    assert filtered[i] in filtered;
    assert filtered[i] in multiset(rotated);
    assert KeepName(DropsOther(seed))(filtered[i]);
  }

  /** With at most one "Other" among four or more candidates, the filter leaves enough
      names for the full count. */
  lemma {:induction false} PickLength(c: seq<string>, seed: int)
    requires |c| >= 4 && multiset(c)["Other"] <= 1
    ensures |Pick(c, seed)| == 2 + Seeded(seed, 2)
  {
    var rotated := Rotate(c, Seeded(seed, |c|));
    FilterDropsOnly(rotated, KeepName(DropsOther(seed)), "Other");
  }

  lemma CandidatesOtherOnce()
    ensures multiset(Candidates)["Other"] == 1
  {
    assert Candidates == ["Manicure", "Pedicure", "Gel", "Pedicure"] + ["Other"];
    assert "Other" !in multiset(["Manicure", "Pedicure", "Gel", "Pedicure"]);
  }

  /** The i-th bar for a seed: its value is `60 + seeded(seed * (i + 3), 140)`. */
  function Point(seed: int, i: nat, name: string): (p: ServicePoint)
    ensures p.service == name && 60 <= p.value < 200
  {
    ServicePoint(name, 60 + Seeded(seed * (i + 3), 140))
  }

  /** One bar per picked name, in order. */
  function Bars(seed: int, names: seq<string>): (points: seq<ServicePoint>)
    ensures |points| == |names|
    ensures forall i :: 0 <= i < |names| ==> points[i].service == names[i]
    ensures forall i :: 0 <= i < |names| ==> 60 <= points[i].value < 200
  {
    seq(|names|, i requires 0 <= i < |names| => Point(seed, i, names[i]))
  }

  /** The bars generated from candidate list `c` for a seed: rotate by
      `seeded(seed, c.length)`, drop "Other" when `seeded(seed * 7, 2)` is 0, keep the
      first `2 + seeded(seed, 2)` names and give the i-th one the value
      `60 + seeded(seed * (i + 3), 140)`. */
  function Generate(c: seq<string>, seed: int): (points: seq<ServicePoint>)
    requires |c| >= 4 && multiset(c)["Other"] <= 1
    ensures |points| == 2 + Seeded(seed, 2)
    ensures forall i :: 0 <= i < |points| ==> points[i].service in c
    ensures forall i :: 0 <= i < |points| ==> 60 <= points[i].value < 200
  {
    var picked := Pick(c, seed);
    PickLength(c, seed);
    forall i | 0 <= i < |picked| ensures picked[i] in c {
      PickFiltered(c, seed, i);
    }
    Bars(seed, picked)
  }

  /** "Other" appears among the bars only when the seed keeps it. */
  lemma GenerateOther(c: seq<string>, seed: int)
    requires |c| >= 4 && multiset(c)["Other"] <= 1
    ensures forall i :: 0 <= i < |Generate(c, seed)| && Generate(c, seed)[i].service == "Other" ==> !DropsOther(seed)
  {
    forall i | 0 <= i < |Generate(c, seed)|
      ensures Generate(c, seed)[i].service == "Other" ==> !DropsOther(seed)
    {
      PickFiltered(c, seed, i);
    }
  }

  /** `getServiceData(year, month)`: the bars for the candidates and the seed
      `(year % 97) * 31 + (month - 1) * 17`. */
  function ServiceData(year: int, month: int): (points: seq<ServicePoint>)
    ensures |points| == 2 + Seeded(Seed(year, month), 2)
    ensures forall i :: 0 <= i < |points| ==> points[i].service in Candidates
    ensures forall i :: 0 <= i < |points| ==> 60 <= points[i].value < 200
  {
    CandidatesOtherOnce();
    Generate(Candidates, Seed(year, month))
  }

  /** "Other" is among the generated services only when `seeded(seed * 7, 2)` is not 0. */
  lemma ServiceDataOther(year: int, month: int)
    ensures forall i :: 0 <= i < |ServiceData(year, month)| && ServiceData(year, month)[i].service == "Other" ==>
      !DropsOther(Seed(year, month))
  {
    CandidatesOtherOnce();
    GenerateOther(Candidates, Seed(year, month));
  }

  /** `months.indexOf(m) + 1`: the 1-based month number, or 0 for a name not in the list. */
  function MonthNumber(m: string): (n: int)
    ensures m in Months ==> 1 <= n <= 12 && Months[n - 1] == m
    ensures m !in Months ==> n == 0
  {
    IndexOf(Months, m) + 1
  }

  /** `s.indexOf(x)`: the first position of `x`, or -1. */
  function IndexOf<T(==)>(s: seq<T>, x: T): (i: int)
    ensures x in s ==> 0 <= i < |s| && s[i] == x && x !in s[..i]
    ensures x !in s ==> i == -1
  {
    if |s| == 0 then -1
    else if s[0] == x then 0
    else
      var j := IndexOf(s[1..], x);
      assert s[1..][..(if j < 0 then 0 else j)] == s[1..(if j < 0 then 1 else j + 1)];
      if j < 0 then -1 else j + 1
  }

  lemma MonthsDistinct()
    ensures forall j, k :: 0 <= j < k < 12 ==> Months[j] != Months[k]
  {
    forall j, k | 0 <= j < k < 12 ensures Months[j] != Months[k] {
      assert Months[j][1..] != Months[k][1..];
    }
  }

  /** The month names are distinct, so the picker's month number inverts the list. */
  lemma MonthNumberRoundTrip(i: nat)
    requires i < 12
    ensures MonthNumber(Months[i]) == i + 1
  {
    MonthsDistinct();
  }

  /** `months[current.getMonth()]`: the default month for a clock month index 0..11. */
  function DefaultMonth(clockMonth: nat): (m: string)
    requires clockMonth < 12
    ensures m in Months && MonthNumber(m) == clockMonth + 1
  {
    MonthNumberRoundTrip(clockMonth);
    Months[clockMonth]
  }

  /** The year picker: two years back through one year ahead, consecutive and increasing,
      always including the current year. */
  function YearOptions(currentYear: int): (ys: seq<int>)
    ensures |ys| == 4 && ys[2] == currentYear
    ensures forall i :: 0 <= i < 3 ==> ys[i + 1] == ys[i] + 1
  {
    [currentYear - 2, currentYear - 1, currentYear, currentYear + 1]
  }

  /** `bookingTrendsFormatted`: one point per trend record, confirmed from `totalBookings`
      and cancelled fixed at 0; no points when the response is missing. */
  function BookingTrendsFormatted(trends: Option<seq<TrendRecord>>): (points: seq<TrendPoint>)
    ensures trends.None? ==> points == []
    ensures trends.Some? ==> |points| == |trends.value|
    ensures trends.Some? ==> forall i :: 0 <= i < |points| ==>
      points[i] == TrendPoint(trends.value[i].month, trends.value[i].totalBookings, 0)
  {
    match trends
    case None => []
    case Some(records) =>
      seq(|records|, i requires 0 <= i < |records| => TrendPoint(records[i].month, records[i].totalBookings, 0))
  }

  /** `Math.max(serviceCount * 120, 300)`: 120 pixels per bar, never narrower than 300. */
  function ChartWidth(serviceCount: nat): (w: int)
    ensures w >= 300 && w >= serviceCount * 120
    ensures w == 300 || w == serviceCount * 120
  {
    if serviceCount * 120 >= 300 then serviceCount * 120 else 300
  }

  /** The generated chart has two or three bars, so its width is always the 300 minimum or
      360 pixels. */
  lemma ServiceChartWidth(year: int, month: int)
    ensures ChartWidth(|ServiceData(year, month)|) in {300, 360}
  {
    var points := ServiceData(year, month);
    var extra := Seeded(Seed(year, month), 2);
    assert |points| == 2 + extra;
    if extra == 0 {
      assert ChartWidth(2) == 300;
    } else {
      assert extra == 1;
      assert ChartWidth(3) == 360;
    }
  }
}
