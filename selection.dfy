/**
 * How `generate_image_sync` picks today's fortune: the score keys of the
 * table are split into good, normal and bad; each key is weighted by its
 * class's rate shared among the class; one key is drawn by weight and one of
 * its entries uniformly. The random generator is replaced by its two draws,
 * and seeding by a function from the seed string to those draws.
 */
module Selection {
  import opened Wrappers
  import opened Text
  import opened PyInt
  import opened FortuneTable

  // ------------------------------------------------------------ candidates

  /** `[k for k in jrys_data.keys() if not k.startswith("_")]`, in table order. */
  function CandidateKeys(keys: seq<string>): (r: seq<string>)
    ensures |r| <= |keys|
    ensures forall k :: k in r <==> k in keys && !StartsWith(k, "_")
  {
    if keys == [] then []
    else (if StartsWith(keys[0], "_") then [] else [keys[0]]) + CandidateKeys(keys[1..])
  }

  /** `[parse(k) for k in keys]`; `None` as soon as one of them raises. */
  function ParseAll<T>(keys: seq<string>, parse: string -> Option<T>): (r: Option<seq<T>>)
    ensures r.Some? ==> |r.value| == |keys|
  {
    if keys == [] then Some([])
    else
      var rest := ParseAll(keys[1..], parse);
      if parse(keys[0]).Some? && rest.Some? then Some([parse(keys[0]).value] + rest.value)
      else None
  }

  /** The list exists exactly when every key parses, and holds what each key parses to. */
  lemma {:induction false} ParseAllSpec<T>(keys: seq<string>, parse: string -> Option<T>)
    ensures ParseAll(keys, parse).Some? <==> forall i :: 0 <= i < |keys| ==> parse(keys[i]).Some?
    ensures ParseAll(keys, parse).Some? ==> forall i :: 0 <= i < |keys| ==> parse(keys[i]) == Some(ParseAll(keys, parse).value[i])
  {
    if keys != [] {
      ParseAllSpec(keys[1..], parse);
      if parse(keys[0]).Some? && !ParseAll(keys[1..], parse).Some? {
        var i :| 0 <= i < |keys[1..]| && !parse(keys[1..][i]).Some?;
        assert keys[1..][i] == keys[i + 1];
      }
      if ParseAll(keys, parse).Some? {
        forall i | 0 <= i < |keys|
          ensures parse(keys[i]) == Some(ParseAll(keys, parse).value[i])
        {
          if i > 0 {
            assert keys[1..][i - 1] == keys[i];
          }
        }
      }
    }
  }

  /** `int(k)` for every candidate in order; `None` as soon as one of them raises. */
  function Scores(keys: seq<string>): (r: Option<seq<int>>)
    ensures r.Some? ==> |r.value| == |keys|
  {
    ParseAll(keys, ParseInt)
  }

  /** The scores exist exactly when every key reads as an integer, and are those integers. */
  lemma ScoresSpec(keys: seq<string>)
    ensures Scores(keys).Some? <==> forall i :: 0 <= i < |keys| ==> ParseInt(keys[i]).Some?
    ensures Scores(keys).Some? ==> forall i :: 0 <= i < |keys| ==> ParseInt(keys[i]) == Some(Scores(keys).value[i])
  {
    ParseAllSpec(keys, ParseInt);
  }

  // --------------------------------------------------------------- classes

  datatype Class = Good | Normal | Bad

  /**
   * The class the weighting loop gives a score; it agrees with the three
   * list comprehensions that size the classes (`> 70`, `56..70`, `< 56`).
   */
  function ClassOf(score: int): (c: Class)
    ensures c == Good <==> score > 70
    ensures c == Normal <==> 56 <= score <= 70
    ensures c == Bad <==> score < 56
  {
    if score > 70 then Good else if score >= 56 then Normal else Bad
  }

  /** `len(good_keys)`, `len(normal_keys)` or `len(bad_keys)`. */
  function Count(scores: seq<int>, c: Class): nat {
    if scores == [] then 0
    else Count(scores[..|scores| - 1], c) + (if ClassOf(scores[|scores| - 1]) == c then 1 else 0)
  }

  /** Each candidate falls in exactly one class, so the three class sizes add up to the number of candidates. */
  lemma {:induction false} ClassesPartition(scores: seq<int>)
    ensures Count(scores, Good) + Count(scores, Normal) + Count(scores, Bad) == |scores|
  {
    if scores != [] {
      ClassesPartition(scores[..|scores| - 1]);
    }
  }

  // ----------------------------------------------------------------- rates

  /** A rate map from the configuration (slider values, so never negative). */
  type Rates = map<string, nat>

  /** `current_rates.get(name, default)` with the defaults 40, 40 and 20. */
  function RateFor(rates: Rates, c: Class): nat {
    match c
    case Good => if "good" in rates then rates["good"] else 40
    case Normal => if "normal" in rates then rates["normal"] else 40
    case Bad => if "bad" in rates then rates["bad"] else 20
  }

  /** The rate settings with the painter's defaults. */
  datatype SelectionConfig = SelectionConfig(holidayRatesEnabled: bool, fixedDailyFortune: bool,
                                             holidays: seq<string>, normalRates: Rates, holidayRates: Rates)

  const DefaultSelectionConfig: SelectionConfig := SelectionConfig(
    true, true, ["01-01", "02-14", "05-01", "10-01", "12-25"],
    map["good" := 40, "normal" := 40, "bad" := 20],
    map["good" := 85, "normal" := 15, "bad" := 0])

  /** The holiday rates apply exactly when they are enabled and today's "MM-DD" is listed. */
  function RatesFor(cfg: SelectionConfig, monthDay: string): Rates {
    if cfg.holidayRatesEnabled && monthDay in cfg.holidays then cfg.holidayRates else cfg.normalRates
  }

  // --------------------------------------------------------------- weights

  /** A key's weight: its class's rate divided by `max(len(class), 1)`. */
  function Share(rates: Rates, all: seq<int>, c: Class): real {
    RateFor(rates, c) as real / (if Count(all, c) > 0 then Count(all, c) else 1) as real
  }

  /** The weights the loop appends for the scores of `prefix`, classes sized over `all`. */
  function WeightsOf(prefix: seq<int>, all: seq<int>, rates: Rates): (w: seq<real>)
    ensures |w| == |prefix|
  {
    if prefix == [] then []
    else WeightsOf(prefix[..|prefix| - 1], all, rates) + [Share(rates, all, ClassOf(prefix[|prefix| - 1]))]
  }

  /** Python's `sum()` of a list of weights. */
  function Sum(w: seq<real>): real {
    if w == [] then 0.0 else Sum(w[..|w| - 1]) + w[|w| - 1]
  }

  /** The sum of the weights of one class's keys. */
  function SumWhere(w: seq<real>, scores: seq<int>, c: Class): real
    requires |w| == |scores|
  {
    if w == [] then 0.0
    else SumWhere(w[..|w| - 1], scores[..|scores| - 1], c) + (if ClassOf(scores[|scores| - 1]) == c then w[|w| - 1] else 0.0)
  }

  function Ones(n: nat): (w: seq<real>)
    ensures |w| == n && forall i :: 0 <= i < n ==> w[i] == 1.0
  {
    seq(n, _ => 1.0)
  }

  /** The weights `rng.choices` receives: `[1] * n` when the class weights sum to zero or less. */
  function Weights(scores: seq<int>, rates: Rates): (w: seq<real>)
    ensures |w| == |scores|
  {
    var w := WeightsOf(scores, scores, rates);
    if Sum(w) <= 0.0 then Ones(|scores|) else w
  }

  /** The weighting loop of `generate_image_sync`, followed by the all-zero fallback. */
  method ComputeWeights(scores: seq<int>, rates: Rates) returns (weights: seq<real>)
    ensures weights == Weights(scores, rates)
  {
    weights := [];
    var i := 0;
    while i < |scores|
      invariant 0 <= i <= |scores|
      invariant weights == WeightsOf(scores[..i], scores, rates)
    {
      var val := scores[i];
      var c: Class;
      if val > 70 {
        c := Good;
      } else if val >= 56 {
        c := Normal;
      } else {
        c := Bad;
      }
      var size := Count(scores, c);
      weights := weights + [RateFor(rates, c) as real / (if size > 0 then size else 1) as real];
      assert scores[..i + 1][..i] == scores[..i];
      i := i + 1;
    }
    assert scores[..i] == scores;
    if Sum(weights) <= 0.0 {
      weights := Ones(|scores|);
    }
  }

  /** Every weight is a share of a rate, so none is negative. */
  lemma {:induction false} WeightsNonNegative(prefix: seq<int>, all: seq<int>, rates: Rates)
    ensures forall i :: 0 <= i < |prefix| ==> WeightsOf(prefix, all, rates)[i] >= 0.0
  {
    if prefix != [] {
      WeightsNonNegative(prefix[..|prefix| - 1], all, rates);
    }
  }

  /** `s + s + ... + s`, `n` times. */
  function Times(n: nat, s: real): real {
    if n == 0 then 0.0 else Times(n - 1, s) + s
  }

  lemma {:induction false} SumWhereOfShares(prefix: seq<int>, all: seq<int>, rates: Rates, c: Class)
    ensures SumWhere(WeightsOf(prefix, all, rates), prefix, c) == Times(Count(prefix, c), Share(rates, all, c))
  {
    if prefix != [] {
      var init := prefix[..|prefix| - 1];
      assert WeightsOf(prefix, all, rates)[..|prefix| - 1] == WeightsOf(init, all, rates);
      SumWhereOfShares(init, all, rates, c);
    }
  }

  lemma {:induction false} TimesIsProduct(n: nat, s: real)
    ensures Times(n, s) == n as real * s
  {
    if n > 0 {
      TimesIsProduct(n - 1, s);
      assert (n - 1) as real * s + s == n as real * s;
    }
  }

  /** `n` equal shares of `r` add up to `r`. */
  lemma SharesAddUp(n: nat, r: real)
    requires n > 0
    ensures Times(n, r / n as real) == r
  {
    TimesIsProduct(n, r / n as real);
  }

  /** The weights of a class add up to the class's rate when it has keys, and to nothing otherwise. */
  lemma ClassWeightsSumToRate(scores: seq<int>, rates: Rates, c: Class)
    ensures SumWhere(WeightsOf(scores, scores, rates), scores, c) == if Count(scores, c) > 0 then RateFor(rates, c) as real else 0.0
  {
    SumWhereOfShares(scores, scores, rates, c);
    if Count(scores, c) > 0 {
      assert Share(rates, scores, c) == RateFor(rates, c) as real / Count(scores, c) as real;
      SharesAddUp(Count(scores, c), RateFor(rates, c) as real);
    }
  }

  lemma {:induction false} SumSplitsByClass(w: seq<real>, scores: seq<int>)
    requires |w| == |scores|
    ensures Sum(w) == SumWhere(w, scores, Good) + SumWhere(w, scores, Normal) + SumWhere(w, scores, Bad)
  {
    if w != [] {
      SumSplitsByClass(w[..|w| - 1], scores[..|scores| - 1]);
    }
  }

  /** The rate of a class that has at least one key. */
  function PresentRate(scores: seq<int>, rates: Rates, c: Class): nat {
    if Count(scores, c) > 0 then RateFor(rates, c) else 0
  }

  /** Before the fallback, the weights add up to the rates of the classes that have keys. */
  lemma WeightsSumToPresentRates(scores: seq<int>, rates: Rates)
    ensures Sum(WeightsOf(scores, scores, rates)) ==
      (PresentRate(scores, rates, Good) + PresentRate(scores, rates, Normal) + PresentRate(scores, rates, Bad)) as real
  {
    SumSplitsByClass(WeightsOf(scores, scores, rates), scores);
    ClassWeightsSumToRate(scores, rates, Good);
    ClassWeightsSumToRate(scores, rates, Normal);
    ClassWeightsSumToRate(scores, rates, Bad);
  }

  /** The uniform fallback is taken exactly when every class that has keys has rate zero. */
  lemma FallbackExactlyWhenRatesAreZero(scores: seq<int>, rates: Rates)
    ensures Sum(WeightsOf(scores, scores, rates)) <= 0.0 <==>
      forall c: Class :: Count(scores, c) > 0 ==> RateFor(rates, c) == 0
  {
    WeightsSumToPresentRates(scores, rates);
    var g, n, b := PresentRate(scores, rates, Good), PresentRate(scores, rates, Normal), PresentRate(scores, rates, Bad);
    if Sum(WeightsOf(scores, scores, rates)) <= 0.0 {
      assert g == 0 && n == 0 && b == 0;
      forall c: Class | Count(scores, c) > 0
        ensures RateFor(rates, c) == 0
      {
        assert PresentRate(scores, rates, c) == 0;
      }
    }
  }

  /** The weights handed to the draw are never negative, and add up to more than zero when there is a key. */
  lemma WeightsAreUsable(scores: seq<int>, rates: Rates)
    ensures forall i :: 0 <= i < |scores| ==> Weights(scores, rates)[i] >= 0.0
    ensures |scores| > 0 ==> Sum(Weights(scores, rates)) > 0.0
  {
    WeightsNonNegative(scores, scores, rates);
    if |scores| > 0 && Sum(WeightsOf(scores, scores, rates)) <= 0.0 {
      OnesSum(|scores|);
    }
  }

  lemma {:induction false} OnesSum(n: nat)
    ensures Sum(Ones(n)) == n as real
  {
    if n > 0 {
      assert Ones(n)[..n - 1] == Ones(n - 1);
      OnesSum(n - 1);
    }
  }

  // ------------------------------------------------------------------ draw

  /**
   * The two draws of the generator: `random()` for `choices`, and a
   * `randbelow` for `choice`.
   */
  datatype Draws = Draws(unit: real, below: nat -> nat)

  ghost predicate IsDraws(d: Draws) {
    && 0.0 <= d.unit < 1.0
    && forall n: nat :: n > 0 ==> d.below(n) < n
  }

  /** `itertools.accumulate(weights)`: entry `k` is the sum of the first `k + 1` weights. */
  function Cumulative(w: seq<real>): (c: seq<real>)
    ensures |c| == |w|
  {
    seq(|w|, k requires 0 <= k < |w| => Sum(w[..k + 1]))
  }

  /** Each running total adds one weight to the one before, and the last is the sum. */
  lemma CumulativeStep(w: seq<real>, k: nat)
    requires k < |w|
    ensures Cumulative(w)[k] == (if k == 0 then 0.0 else Cumulative(w)[k - 1]) + w[k]
    ensures k == |w| - 1 ==> Cumulative(w)[k] == Sum(w)
  {
    var c := Cumulative(w);
    assert c[k] == Sum(w[..k + 1]);
    assert w[..k + 1][..k] == w[..k];
    assert Sum(w[..k + 1]) == Sum(w[..k]) + w[k];
    if k == 0 {
      assert w[..0] == [];
    } else {
      assert c[k - 1] == Sum(w[..k]);
    }
    if k == |w| - 1 {
      assert w[..k + 1] == w;
    }
  }


  /**
   * `bisect_right(a, x, lo, hi)`: the first position in `lo..hi` whose entry
   * exceeds `x`, or `hi` (stated as a scan; the library's binary search agrees
   * on the non-decreasing running totals it is given).
   */
  function BisectRight(a: seq<real>, x: real, lo: nat, hi: nat): (i: nat)
    requires lo <= hi <= |a|
    ensures lo <= i <= hi
    ensures forall j :: lo <= j < i ==> a[j] <= x
    ensures i < hi ==> x < a[i]
    decreases hi - lo
  {
    if lo == hi then lo
    else if x < a[lo] then lo
    else BisectRight(a, x, lo + 1, hi)
  }

  /**
   * `rng.choices(population, weights=w, k=1)[0]` as an index into the
   * population: `None` where it raises (no population, or a total that is not
   * positive).
   */
  function ChoiceIndex(w: seq<real>, unit: real): (r: Option<nat>)
    ensures r.Some? ==> r.value < |w|
  {
    if w == [] then None
    else
      var cum := Cumulative(w);
      var total := cum[|w| - 1];
      if total <= 0.0 then None
      else Some(BisectRight(cum, Point(unit, total), 0, |w| - 1))
  }

  /** `choices` raises only on an empty population or a total that is not positive. */
  lemma ChoiceIndexDefined(w: seq<real>, unit: real)
    requires |w| > 0 && Sum(w) > 0.0
    ensures ChoiceIndex(w, unit).Some?
  {
    CumulativeStep(w, |w| - 1);
  }

  /** A key whose weight is zero is never drawn. */
  lemma ChosenWeightIsPositive(w: seq<real>, unit: real)
    requires forall i :: 0 <= i < |w| ==> w[i] >= 0.0
    requires 0.0 <= unit < 1.0
    requires ChoiceIndex(w, unit).Some?
    ensures w[ChoiceIndex(w, unit).value] > 0.0
  {
    var cum := Cumulative(w);
    var total := cum[|w| - 1];
    PointBelowTotal(unit, total);
    BisectLandsOnPositive(w, Point(unit, total));
  }

  /** A point below the total falls in the stretch of a positive weight. */
  lemma BisectLandsOnPositive(w: seq<real>, x: real)
    requires forall i :: 0 <= i < |w| ==> w[i] >= 0.0
    requires |w| > 0 && 0.0 <= x < Cumulative(w)[|w| - 1]
    ensures w[BisectRight(Cumulative(w), x, 0, |w| - 1)] > 0.0
  {
    var cum := Cumulative(w);
    var i := BisectRight(cum, x, 0, |w| - 1);
    CumulativeStep(w, i);
    if i < |w| - 1 {
      assert x < cum[i];
    } else {
      CumulativeStep(w, |w| - 1);
    }
    if i > 0 {
      assert cum[i - 1] <= x;
    } else {
      assert x < cum[0] || i == |w| - 1;
    }
  }

  /** `random() * total`: where the draw lands on the running totals. */
  function Point(unit: real, total: real): real {
    unit * total
  }

  lemma PointBelowTotal(unit: real, total: real)
    requires 0.0 <= unit < 1.0 && total > 0.0
    ensures 0.0 <= Point(unit, total) < total
  {
    assert total - unit * total == (1.0 - unit) * total;
  }


  // ------------------------------------------------------------------ date

  /** A calendar date as `datetime.now()` reports it. */
  datatype Date = Date(year: nat, month: nat, day: nat)

  predicate ValidDate(d: Date) {
    1000 <= d.year <= 9999 && 1 <= d.month <= 12 && 1 <= d.day <= 31
  }

  function Pad2(n: nat): (s: string)
    requires n < 100
    ensures |s| == 2
  {
    [DigitChar(n / 10), DigitChar(n % 10)]
  }

  function Pad4(n: nat): (s: string)
    requires n < 10000
    ensures |s| == 4
  {
    Pad2(n / 100) + Pad2(n % 100)
  }

  lemma Pad2Injective(a: nat, b: nat)
    requires a < 100 && b < 100 && Pad2(a) == Pad2(b)
    ensures a == b
  {
    assert DigitValue(Pad2(a)[0]) == a / 10 && DigitValue(Pad2(a)[1]) == a % 10;
    assert DigitValue(Pad2(b)[0]) == b / 10 && DigitValue(Pad2(b)[1]) == b % 10;
  }

  lemma Pad4Injective(a: nat, b: nat)
    requires a < 10000 && b < 10000 && Pad4(a) == Pad4(b)
    ensures a == b
  {
    assert Pad4(a)[..2] == Pad2(a / 100) && Pad4(a)[2..] == Pad2(a % 100);
    assert Pad4(b)[..2] == Pad2(b / 100) && Pad4(b)[2..] == Pad2(b % 100);
    Pad2Injective(a / 100, b / 100);
    Pad2Injective(a % 100, b % 100);
  }

  /** `strftime("%Y-%m-%d")` */
  function IsoDate(d: Date): (s: string)
    requires ValidDate(d)
    ensures |s| == 10
  {
    Pad4(d.year) + "-" + Pad2(d.month) + "-" + Pad2(d.day)
  }

  /** `strftime("%m-%d")`, the form the holiday list uses: the tail of the ISO date. */
  function MonthDay(d: Date): (s: string)
    requires ValidDate(d)
    ensures s == IsoDate(d)[5..]
  {
    Pad2(d.month) + "-" + Pad2(d.day)
  }

  /** `strftime("%Y/%m/%d")`, the date printed on the poster. */
  function SlashDate(d: Date): (s: string)
    requires ValidDate(d)
    ensures |s| == 10 && s[4] == '/' && s[7] == '/'
  {
    Pad4(d.year) + "/" + Pad2(d.month) + "/" + Pad2(d.day)
  }

  lemma IsoDateInjective(d1: Date, d2: Date)
    requires ValidDate(d1) && ValidDate(d2) && IsoDate(d1) == IsoDate(d2)
    ensures d1 == d2
  {
    var s1, s2 := IsoDate(d1), IsoDate(d2);
    assert s1[..4] == Pad4(d1.year) && s2[..4] == Pad4(d2.year);
    assert s1[5..7] == Pad2(d1.month) && s2[5..7] == Pad2(d2.month);
    assert s1[8..] == Pad2(d1.day) && s2[8..] == Pad2(d2.day);
    Pad4Injective(d1.year, d2.year);
    Pad2Injective(d1.month, d2.month);
    Pad2Injective(d1.day, d2.day);
  }

  /** `f"{user_id}-{today_str}"` */
  function SeedFor(userId: string, today: Date): string
    requires ValidDate(today)
  {
    userId + "-" + IsoDate(today)
  }

  /**
   * The fixed-length date makes the seed unambiguous even for user ids that
   * contain '-': two users, or two days, never share a seed.
   */
  lemma SeedSeparatesUsersAndDays(u1: string, d1: Date, u2: string, d2: Date)
    requires ValidDate(d1) && ValidDate(d2)
    requires SeedFor(u1, d1) == SeedFor(u2, d2)
    ensures u1 == u2 && d1 == d2
  {
    var s := SeedFor(u1, d1);
    assert |u1| == |u2|;
    assert s[..|u1|] == u1;
    assert SeedFor(u2, d2)[..|u2|] == u2;
    assert s[|s| - 10..] == IsoDate(d1);
    assert SeedFor(u2, d2)[|s| - 10..] == IsoDate(d2);
    IsoDateInjective(d1, d2);
  }

  /**
   * The generator `generate_image_sync` draws from: seeded with the user and
   * the day when fortunes are fixed, otherwise an unseeded one.
   */
  function DrawsFor(cfg: SelectionConfig, userId: string, today: Date, seeded: string -> Draws, unseeded: Draws): Draws
    requires ValidDate(today)
  {
    if cfg.fixedDailyFortune then seeded(SeedFor(userId, today)) else unseeded
  }

  // ------------------------------------------------------------- selection

  /** A drawn score key with the integer it spells. */
  datatype Drawn = Drawn(key: string, score: int)

  /**
   * `rng.choices(valid_keys_list, weights=weights, k=1)[0]`, after the keys
   * are read as integers; `None` where `int()` or `choices` raises. What is
   * drawn is always a non-reserved key of the table, so the "key not in
   * table" branch of the code is never taken.
   */
  function DrawKey(doc: Doc, rates: Rates, unit: real): (r: Option<Drawn>)
    requires WellFormed(doc)
    ensures r.Some? ==> r.value.key in doc.values && !StartsWith(r.value.key, "_")
  {
    var keys := CandidateKeys(doc.keys);
    var scores := Scores(keys);
    if scores.None? then None
    else
      var i := ChoiceIndex(Weights(scores.value, rates), unit);
      if i.None? then None
      else
        assert keys[i.value] in keys;
        Some(Drawn(keys[i.value], scores.value[i.value]))
  }

  /** The drawn score is what `int()` reads from the drawn key. */
  lemma DrawnScoreIsKeyValue(doc: Doc, rates: Rates, unit: real)
    requires WellFormed(doc)
    ensures var r := DrawKey(doc, rates, unit);
      r.Some? ==> ParseInt(r.value.key) == Some(r.value.score)
  {
    var keys := CandidateKeys(doc.keys);
    ScoresSpec(keys);
  }

  /** The drawn fortune: the score key, the entry index and the entry. */
  datatype Choice = Choice(key: string, index: nat, entry: FortuneEntry)

  /**
   * `rng.choice(range(len(v)))` and `v[key_2]` on the drawn key's value;
   * `None` where that raises: the value is not a non-empty list, or the
   * element drawn is not an object.
   */
  function DrawEntry(key: string, v: Value, below: nat -> nat): (r: Option<Choice>)
    requires forall n: nat :: n > 0 ==> below(n) < n
    ensures r.Some? ==>
      && r.value.key == key && v.Entries? && r.value.index < |v.entries|
      && r.value.entry == v.entries[r.value.index] && r.value.entry.Fortune?
  {
    match v
    case Entries(es) =>
      if es == [] then None
      else
        var j := below(|es|);
        if es[j].NotAnObject? then None else Some(Choice(key, j, es[j]))
    case _ => None
  }

  /**
   * The selection part of `generate_image_sync`; `None` for an empty table
   * and wherever the code raises: a candidate key that is not an integer, no
   * candidate at all, a value that is not a non-empty list, or an element that
   * is not an object.
   */
  function Select(doc: Doc, cfg: SelectionConfig, today: Date, draws: Draws): (r: Option<Choice>)
    requires WellFormed(doc) && ValidDate(today) && IsDraws(draws)
    ensures r.Some? ==>
      && r.value.key in doc.values && !StartsWith(r.value.key, "_")
      && doc.values[r.value.key].Entries?
      && r.value.index < |doc.values[r.value.key].entries|
      && r.value.entry == doc.values[r.value.key].entries[r.value.index] && r.value.entry.Fortune?
  {
    if doc.keys == [] then None
    else
      match DrawKey(doc, RatesFor(cfg, MonthDay(today)), draws.unit)
      case None => None
      case Some(d) => DrawEntry(d.key, doc.values[d.key], draws.below)
  }

  /** With some candidate and every candidate an integer, `choices` always returns a key. */
  lemma DrawKeySucceeds(doc: Doc, rates: Rates, unit: real)
    requires WellFormed(doc) && 0.0 <= unit < 1.0
    requires exists k :: k in doc.keys && !StartsWith(k, "_")
    requires Scores(CandidateKeys(doc.keys)).Some?
    ensures DrawKey(doc, rates, unit).Some?
  {
    SomeCandidate(doc.keys);
    DrawKeyOnCandidates(doc, rates, unit);
  }

  lemma SomeCandidate(keys: seq<string>)
    requires exists k :: k in keys && !StartsWith(k, "_")
    ensures CandidateKeys(keys) != []
  {
    var k :| k in keys && !StartsWith(k, "_");
    assert k in CandidateKeys(keys);
  }

  lemma DrawKeyOnCandidates(doc: Doc, rates: Rates, unit: real)
    requires WellFormed(doc) && 0.0 <= unit < 1.0
    requires CandidateKeys(doc.keys) != [] && Scores(CandidateKeys(doc.keys)).Some?
    ensures DrawKey(doc, rates, unit).Some?
  {
    WeightsYieldAChoice(Scores(CandidateKeys(doc.keys)).value, rates, unit);
  }

  /** `choices` over the weights of a non-empty list of scores always returns an index. */
  lemma WeightsYieldAChoice(scores: seq<int>, rates: Rates, unit: real)
    requires |scores| > 0
    ensures ChoiceIndex(Weights(scores, rates), unit).Some?
  {
    WeightsAreUsable(scores, rates);
    ChoiceIndexDefined(Weights(scores, rates), unit);
  }

  /** A non-empty list of objects always yields an entry. */
  lemma DrawEntrySucceeds(key: string, v: Value, below: nat -> nat)
    requires forall n: nat :: n > 0 ==> below(n) < n
    requires v.Entries? && v.entries != [] && forall e :: e in v.entries ==> e.Fortune?
    ensures DrawEntry(key, v, below).Some?
  {
    var j := below(|v.entries|);
    assert v.entries[j] in v.entries;
  }

  /**
   * A selection fails only where the code raises: with some candidate, every
   * candidate an integer and every candidate's value a non-empty list of
   * objects, something is drawn.
   */
  lemma SelectSucceedsOnGoodTables(doc: Doc, cfg: SelectionConfig, today: Date, draws: Draws)
    requires WellFormed(doc) && ValidDate(today) && IsDraws(draws)
    requires exists k :: k in doc.keys && !StartsWith(k, "_")
    requires Scores(CandidateKeys(doc.keys)).Some?
    requires forall k :: k in doc.values && !StartsWith(k, "_") ==>
      doc.values[k].Entries? && doc.values[k].entries != [] &&
      forall e :: e in doc.values[k].entries ==> e.Fortune?
    ensures Select(doc, cfg, today, draws).Some?
  {
    var rates := RatesFor(cfg, MonthDay(today));
    DrawKeySucceeds(doc, rates, draws.unit);
    var d := DrawKey(doc, rates, draws.unit).value;
    DrawEntrySucceeds(d.key, doc.values[d.key], draws.below);
  }

  /**
   * With fixed daily fortunes the choice depends only on the user, the day
   * and the table: the unseeded generator plays no part.
   */
  lemma FixedFortuneIsDeterministic(doc: Doc, cfg: SelectionConfig, userId: string, today: Date,
                                    seeded: string -> Draws, other1: Draws, other2: Draws)
    requires WellFormed(doc) && ValidDate(today) && cfg.fixedDailyFortune
    requires IsDraws(seeded(SeedFor(userId, today)))
    ensures DrawsFor(cfg, userId, today, seeded, other1) == DrawsFor(cfg, userId, today, seeded, other2)
    ensures Select(doc, cfg, today, DrawsFor(cfg, userId, today, seeded, other1))
         == Select(doc, cfg, today, seeded(SeedFor(userId, today)))
  {
  }

  /**
   * On a listed holiday with the default rates (bad = 0), a bad key is never
   * drawn as long as some candidate is good or normal.
   */
  lemma DefaultHolidayNeverDrawsBad(doc: Doc, today: Date, unit: real)
    requires WellFormed(doc) && ValidDate(today) && 0.0 <= unit < 1.0
    requires MonthDay(today) in DefaultSelectionConfig.holidays
    requires var s := Scores(CandidateKeys(doc.keys)); s.Some? && (Count(s.value, Good) > 0 || Count(s.value, Normal) > 0)
    ensures var r := DrawKey(doc, RatesFor(DefaultSelectionConfig, MonthDay(today)), unit);
      r.Some? ==> ClassOf(r.value.score) != Bad
  {
    var rates := RatesFor(DefaultSelectionConfig, MonthDay(today));
    var r := DrawKey(doc, rates, unit);
    if r.Some? {
      var keys := CandidateKeys(doc.keys);
      var scores := Scores(keys).value;
      assert rates == DefaultSelectionConfig.holidayRates;
      DefaultHolidayRates();
      WeightsSumToPresentRates(scores, rates);
      assert PresentRate(scores, rates, Good) > 0 || PresentRate(scores, rates, Normal) > 0;
      var w := Weights(scores, rates);
      assert w == WeightsOf(scores, scores, rates);
      WeightsNonNegative(scores, scores, rates);
      var i := ChoiceIndex(w, unit).value;
      ChosenWeightIsPositive(w, unit);
      assert r.value.score == scores[i];
      if ClassOf(scores[i]) == Bad {
        BadWeightIsZero(scores, scores, rates, i);
      }
    }
  }

  /** The default holiday rates: 85 good, 15 normal, 0 bad. */
  lemma DefaultHolidayRates()
    ensures RateFor(DefaultSelectionConfig.holidayRates, Good) == 85
    ensures RateFor(DefaultSelectionConfig.holidayRates, Normal) == 15
    ensures RateFor(DefaultSelectionConfig.holidayRates, Bad) == 0
  {
  }

  lemma {:induction false} BadWeightIsZero(prefix: seq<int>, all: seq<int>, rates: Rates, i: nat)
    requires RateFor(rates, Bad) == 0 && i < |prefix| && ClassOf(prefix[i]) == Bad
    ensures WeightsOf(prefix, all, rates)[i] == 0.0
  {
    if i < |prefix| - 1 {
      var init := prefix[..|prefix| - 1];
      assert init[i] == prefix[i];
      assert WeightsOf(prefix, all, rates)[..|prefix| - 1] == WeightsOf(init, all, rates);
      BadWeightIsZero(init, all, rates, i);
    }
  }
}
