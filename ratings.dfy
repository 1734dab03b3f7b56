/** Rating normalisation to a ten-point scale, the one-decimal average and
    the recommendation tiers (script.js normalizeRating,
    calculateAverageAndRecommendation and the score part of
    createAuthorBookCard). */
module Ratings {
  import opened Wrappers
  import opened JsValues

  /** `normalizeRating(rating, maxRating)`: `rating / maxRating * 10` on the
      coerced operands. */
  function NormalizeRating(rt: Runtime, rating: JsValue, maxRating: JsValue): Num {
    Mul(Div(ToNumber(rt, rating), ToNumber(rt, maxRating)), Finite(10.0))
  }

  /** On numeric operands with a non-zero scale the result is exactly the
      rating rescaled to ten points: a full score gives ten, a share of the
      scale the same share of ten, and a rating within its scale stays within [0, 10]. */
  lemma NormalizeRatingExact(rt: Runtime, rating: real, maxRating: real)
    requires maxRating != 0.0
    ensures NormalizeRating(rt, Number(Finite(rating)), Number(Finite(maxRating)))
         == Finite(rating / maxRating * 10.0)
    ensures rating == maxRating ==> NormalizeRating(rt, Number(Finite(rating)), Number(Finite(maxRating))) == Finite(10.0)
    ensures 0.0 <= rating <= maxRating ==>
      var r := NormalizeRating(rt, Number(Finite(rating)), Number(Finite(maxRating))).value;
      0.0 <= r <= 10.0
  {
    if 0.0 <= rating <= maxRating {
      ShareOfScale(rating, maxRating);
    }
  }

  /** A share of a positive scale, rescaled to ten points, lies in [0, 10]. */
  lemma ShareOfScale(rating: real, maxRating: real)
    requires 0.0 <= rating <= maxRating && maxRating != 0.0
    ensures 0.0 <= rating / maxRating * 10.0 <= 10.0
  {
    DivMonotone(rating, maxRating, maxRating);
    DivMonotone(0.0, rating, maxRating);
    assert maxRating / maxRating == 1.0;
  }

  /** What `rating.normalizedRating = normalizeRating(rating.rating, rating.maxRating)`
      does to one entry: an object gains the field, any other value is left
      as it is. Assigning a property to a primitive does nothing. An array
      does gain the property, but arrays are kept as plain lists here, and
      every reader of a score (`ScoreOf`, `RawScore`) gives NaN for an array
      entry either way. */
  function NormalizeEntry(rt: Runtime, entry: JsValue): JsValue {
    match entry
    case Obj(f) =>
      Obj(f["normalizedRating" := Number(NormalizeRating(rt, Get(f, "rating"), Get(f, "maxRating")))])
    case _ => entry
  }

  /** Reading `rating.rating` throws on a `null` or `undefined` entry. */
  predicate Nullish(v: JsValue) {
    v.Null? || v.Undefined?
  }

  /** An entry as the normalisation leaves it: not nullish, and, when it is an
      object, carrying `normalizedRating` equal to the normalisation of its
      own `rating` and `maxRating`. */
  predicate NormalizedEntry(rt: Runtime, e: JsValue) {
    && !Nullish(e)
    && (e.Obj? ==> Get(e.fields, "normalizedRating")
                   == Number(NormalizeRating(rt, Get(e.fields, "rating"), Get(e.fields, "maxRating"))))
  }

  /** `ratings.forEach(r => r.normalizedRating = normalizeRating(...))` over a
      list: `None` when an entry is nullish and the callback throws. */
  function NormalizedEntries(rt: Runtime, items: seq<JsValue>): Option<seq<JsValue>> {
    if exists i :: 0 <= i < |items| && Nullish(items[i]) then None
    else Some(NormalizeEach(rt, items))
  }

  /** Every entry passed through NormalizeEntry. */
  function NormalizeEach(rt: Runtime, items: seq<JsValue>): (out: seq<JsValue>)
    ensures |out| == |items|
    ensures forall i :: 0 <= i < |items| ==> out[i] == NormalizeEntry(rt, items[i])
  {
    seq(|items|, i requires 0 <= i < |items| => NormalizeEntry(rt, items[i]))
  }

  /** The normalisation fails exactly on a nullish entry; otherwise it keeps
      the length, the non-object entries, the other fields of each object,
      and leaves every entry normalised. */
  lemma NormalizedEntriesSpec(rt: Runtime, items: seq<JsValue>)
    ensures NormalizedEntries(rt, items).None? <==> exists i :: 0 <= i < |items| && Nullish(items[i])
    ensures NormalizedEntries(rt, items).Some? ==>
      var out := NormalizedEntries(rt, items).value;
      && |out| == |items|
      && (forall i :: 0 <= i < |out| ==> NormalizedEntry(rt, out[i]))
      && (forall i :: 0 <= i < |out| && !items[i].Obj? ==> out[i] == items[i])
      && (forall i, k :: 0 <= i < |out| && items[i].Obj? && k != "normalizedRating" && k in items[i].fields ==>
            out[i].Obj? && k in out[i].fields && out[i].fields[k] == items[i].fields[k])
      && (forall i :: 0 <= i < |out| && items[i].Obj? ==>
            out[i].Obj? && out[i].fields.Keys == items[i].fields.Keys + {"normalizedRating"})
  {
  }

  /** The same loop as an in-place walk over the list, as `forEach` runs it. */
  method NormalizeRatings(rt: Runtime, items: seq<JsValue>) returns (r: Option<seq<JsValue>>)
    ensures r == NormalizedEntries(rt, items)
  {
    var entries := items;
    var i := 0;
    while i < |entries|
      invariant 0 <= i <= |items| && |entries| == |items|
      invariant forall j :: 0 <= j < i ==> !Nullish(items[j]) && entries[j] == NormalizeEntry(rt, items[j])
      invariant entries[i..] == items[i..]
    {
      if Nullish(entries[i]) {
        assert Nullish(items[i]);
        return None;
      }
      entries := entries[i := NormalizeEntry(rt, entries[i])];
      i := i + 1;
    }
    assert entries == NormalizeEach(rt, items);
    return Some(entries);
  }

  /** calculateAverageAndRecommendation's refill: an object entry whose
      `normalizedRating` is falsy gets it computed again. */
  function FillEntry(rt: Runtime, entry: JsValue): JsValue {
    match entry
    case Obj(f) =>
      if Truthy(Get(f, "normalizedRating")) then entry
      else Obj(f["normalizedRating" := Number(NormalizeRating(rt, Get(f, "rating"), Get(f, "maxRating")))])
    case _ => entry
  }

  /** The refill never changes an entry the normalisation has already processed. */
  lemma FillNormalizedEntry(rt: Runtime, e: JsValue)
    requires NormalizedEntry(rt, e)
    ensures FillEntry(rt, e) == e
  {
    if e.Obj? && !Truthy(Get(e.fields, "normalizedRating")) {
      var f := e.fields;
      var v := Number(NormalizeRating(rt, Get(f, "rating"), Get(f, "maxRating")));
      assert "normalizedRating" in f && f["normalizedRating"] == v;
      assert f["normalizedRating" := v] == f;
    }
  }

  /** The value `sum + rating.normalizedRating` adds for one entry of a
      normalised list: a missing field reads as `undefined`, which makes NaN. */
  function ScoreOf(entry: JsValue): Num {
    match entry
    case Obj(f) => (match Get(f, "normalizedRating") case Number(n) => n case _ => NaN)
    case _ => NaN
  }

  function Scores(entries: seq<JsValue>): (r: seq<Num>)
    ensures |r| == |entries|
    ensures forall i :: 0 <= i < |entries| ==> r[i] == ScoreOf(entries[i])
  {
    seq(|entries|, i requires 0 <= i < |entries| => ScoreOf(entries[i]))
  }

  /** `reduce((sum, x) => sum + x, 0)`, folding from the left. */
  function Sum(xs: seq<Num>): Num {
    if xs == [] then Finite(0.0) else Add(Sum(xs[..|xs| - 1]), xs[|xs| - 1])
  }

  /** The running total over a longer prefix adds one more value. */
  lemma SumStep(xs: seq<Num>, i: nat)
    requires i < |xs|
    ensures Sum(xs[..i + 1]) == Add(Sum(xs[..i]), xs[i])
  {
    assert xs[..i + 1][..i] == xs[..i];
  }

  /** `total / length`. */
  function Mean(xs: seq<Num>): Num {
    Div(Sum(xs), Finite(|xs| as real))
  }

  /** Every score is a number on the ten-point scale. */
  predicate OnScale(xs: seq<Num>) {
    forall i :: 0 <= i < |xs| ==> xs[i].Finite? && 0.0 <= xs[i].value <= 10.0
  }

  lemma {:induction false} SumOnScale(xs: seq<Num>)
    requires OnScale(xs)
    ensures Sum(xs).Finite?
    ensures 0.0 <= Sum(xs).value <= 10.0 * (|xs| as real)
  {
    if xs != [] {
      var init := xs[..|xs| - 1];
      assert OnScale(init) by {
        forall i | 0 <= i < |init| ensures init[i] == xs[i] { }
      }
      SumOnScale(init);
    }
  }

  /** A NaN anywhere in the list makes the sum NaN. */
  lemma {:induction false} SumNaN(xs: seq<Num>, k: nat)
    requires k < |xs| && xs[k].NaN?
    ensures Sum(xs).NaN?
  {
    if k < |xs| - 1 {
      SumNaN(xs[..|xs| - 1], k);
    }
  }

  /** The mean of a non-empty list of scores on the ten-point scale is on that scale. */
  lemma MeanOnScale(xs: seq<Num>)
    requires |xs| > 0 && OnScale(xs)
    ensures Mean(xs).Finite? && 0.0 <= Mean(xs).value <= 10.0
  {
    SumOnScale(xs);
    QuotientOnScale(Sum(xs).value, |xs| as real);
  }

  lemma QuotientOnScale(s: real, n: real)
    requires n > 0.0 && 0.0 <= s <= 10.0 * n
    ensures 0.0 <= s / n <= 10.0
  {
    DivMonotone(s, 10.0 * n, n);
    assert (10.0 * n) / n == 10.0;
  }

  lemma DivMonotone(a: real, b: real, n: real)
    requires a <= b && n > 0.0
    ensures a / n <= b / n
  {
  }

  /** `parseFloat(x.toFixed(1))` on an exact value: the nearest multiple of
      0.1, ties rounded away from zero (toFixed rounds the magnitude and puts
      the sign back); from 10^21 on toFixed prints the number itself. */
  function Round1(x: Num): (r: Num)
    ensures r.NaN? <==> x.NaN?
  {
    match x
    case NaN => NaN
    case Finite(v) =>
      if v >= 1000000000000000000000.0 || v <= -1000000000000000000000.0 then x
      else if v >= 0.0 then Finite(((v * 10.0 + 0.5).Floor as real) / 10.0)
      else Finite(-(((-v * 10.0 + 0.5).Floor as real) / 10.0))
  }

  /** Below 10^21 in magnitude the result is a whole number of tenths, at
      most 0.05 away, with a tie going away from zero: the nearest tenth.
      From 10^21 on the value is kept. */
  lemma Round1Close(v: real)
    ensures Round1(Finite(v)).Finite?
    ensures v >= 0.0 ==> v - 0.05 < Round1(Finite(v)).value <= v + 0.05
    ensures v < 0.0 ==> v - 0.05 <= Round1(Finite(v)).value < v + 0.05
    ensures -1000000000000000000000.0 < v < 1000000000000000000000.0 ==>
      ((Round1(Finite(v)).value * 10.0).Floor as real) == Round1(Finite(v)).value * 10.0
    ensures v <= -1000000000000000000000.0 || 1000000000000000000000.0 <= v ==>
      Round1(Finite(v)).value == v
  {
    if -1000000000000000000000.0 < v < 1000000000000000000000.0 {
      if v >= 0.0 {
        var n := (v * 10.0 + 0.5).Floor;
        assert (n as real) <= v * 10.0 + 0.5 < (n as real) + 1.0;
        assert Round1(Finite(v)).value == (n as real) / 10.0;
        WholeTenths(n);
      } else {
        var n := (-v * 10.0 + 0.5).Floor;
        assert (n as real) <= -v * 10.0 + 0.5 < (n as real) + 1.0;
        assert Round1(Finite(v)).value == ((-n) as real) / 10.0;
        WholeTenths(-n);
      }
    }
  }

  lemma WholeTenths(n: int)
    ensures (((n as real) / 10.0) * 10.0).Floor as real == ((n as real) / 10.0) * 10.0
  {
    assert ((n as real) / 10.0) * 10.0 == n as real;
  }

  /** Rounding keeps the order of values. */
  lemma Round1Monotone(a: real, b: real)
    requires a <= b
    ensures Round1(Finite(a)).value <= Round1(Finite(b)).value
  {
    var big := 1000000000000000000000.0;
    RoundedInRange(a);
    RoundedInRange(b);
    if -big < a && b < big {
      if 0.0 <= a {
        FloorMonotone(a * 10.0 + 0.5, b * 10.0 + 0.5);
      } else if b < 0.0 {
        FloorMonotone(-b * 10.0 + 0.5, -a * 10.0 + 0.5);
      } else {
        assert (-a * 10.0 + 0.5).Floor >= 0;
        assert (b * 10.0 + 0.5).Floor >= 0;
      }
    }
  }

  /** A rounded value below 10^21 stays at most 10^21, and symmetrically. */
  lemma RoundedInRange(v: real)
    ensures Round1(Finite(v)).Finite?
    ensures v < 1000000000000000000000.0 ==> Round1(Finite(v)).value <= 1000000000000000000000.0
    ensures v > -1000000000000000000000.0 ==> Round1(Finite(v)).value >= -1000000000000000000000.0
    ensures v >= 0.0 ==> Round1(Finite(v)).value >= 0.0
    ensures v < 0.0 ==> Round1(Finite(v)).value <= 0.0
  {
    var big := 1000000000000000000000.0;
    if -big < v < big {
      var x := if v >= 0.0 then v * 10.0 + 0.5 else -v * 10.0 + 0.5;
      var n := x.Floor;
      assert (n as real) <= x < 10000000000000000000001.0;
      assert n <= 10000000000000000000000;
    }
  }

  lemma FloorMonotone(a: real, b: real)
    requires a <= b
    ensures a.Floor <= b.Floor
  {
  }

  /** The recommendation tiers of lines 659-667 and 902-905. */
  datatype Tier = HighlyRecommended | WorthConsidering | Marginal | NotRecommended

  /** The tier of a (rounded) average; NaN fails every comparison. */
  function TierOf(avg: Num): Tier {
    if avg.Finite? && avg.value >= 8.5 then HighlyRecommended
    else if avg.Finite? && avg.value >= 7.0 then WorthConsidering
    else if avg.Finite? && avg.value >= 6.0 then Marginal
    else NotRecommended
  }

  /** The text the script stores for a tier. */
  function Label(t: Tier): string {
    match t
    case HighlyRecommended => "非常推薦"
    case WorthConsidering => "可考慮閱讀"
    case Marginal => "勉強一讀"
    case NotRecommended => "不推薦"
  }

  function Rank(t: Tier): nat {
    match t
    case NotRecommended => 0
    case Marginal => 1
    case WorthConsidering => 2
    case HighlyRecommended => 3
  }

  /** A higher average never gets a lower tier, before or after rounding. */
  lemma TierMonotone(a: real, b: real)
    requires a <= b
    ensures Rank(TierOf(Finite(a))) <= Rank(TierOf(Finite(b)))
    ensures Rank(TierOf(Round1(Finite(a)))) <= Rank(TierOf(Round1(Finite(b))))
  {
    Round1Monotone(a, b);
    RoundedInRange(a);
    RoundedInRange(b);
  }

  /** The average of entries scored on the ten-point scale lies in [0, 10]. */
  lemma AverageWithinScale(entries: seq<JsValue>)
    requires |entries| > 0 && OnScale(Scores(entries))
    ensures var avg := Round1(Mean(Scores(entries)));
      avg.Finite? && 0.0 <= avg.value <= 10.0
  {
    MeanOnScale(Scores(entries));
    var m := Mean(Scores(entries)).value;
    Round1Monotone(0.0, m);
    Round1Monotone(m, 10.0);
    assert Round1(Finite(0.0)) == Finite(0.0);
    assert Round1(Finite(10.0)) == Finite(10.0);
  }

  /** A book card's score: no score for an empty list, otherwise the rounded
      average and its tier. */
  datatype CardScore = Unrated | Rated(average: Num, tier: Tier)

  /** The value `(rating.rating / rating.maxRating) * 10` createAuthorBookCard
      adds for one entry; `None` when the entry is nullish and the read throws. */
  function RawScore(rt: Runtime, entry: JsValue): Option<Num> {
    match entry
    case Undefined => None
    case Null => None
    case Obj(f) => Some(NormalizeRating(rt, Get(f, "rating"), Get(f, "maxRating")))
    case _ => Some(NaN)
  }

  /** The raw score of an entry is the score of its normalised form, and
      there is none exactly for a nullish entry. */
  lemma RawScoreIsScore(rt: Runtime, e: JsValue)
    ensures RawScore(rt, e).None? <==> Nullish(e)
    ensures !Nullish(e) ==> RawScore(rt, e) == Some(ScoreOf(NormalizeEntry(rt, e)))
  {
    if e.Obj? {
      var v := Number(NormalizeRating(rt, Get(e.fields, "rating"), Get(e.fields, "maxRating")));
      assert Get(e.fields["normalizedRating" := v], "normalizedRating") == v;
    }
  }

  /** createAuthorBookCard's loop, lines 887-894: the sum of
      `(rating.rating / rating.maxRating) * 10` over the list, which is the
      sum of the normalised scores; `None` when an entry is nullish and the
      read throws. */
  method TotalRawScore(rt: Runtime, items: seq<JsValue>) returns (total: Option<Num>)
    ensures total.None? <==> NormalizedEntries(rt, items).None?
    ensures total.Some? ==> total.value == Sum(Scores(NormalizedEntries(rt, items).value))
  {
    ghost var normalized := NormalizeEach(rt, items);
    ghost var scores := Scores(normalized);
    var totalScore := Finite(0.0);
    var validRatings := 0;
    while validRatings < |items|
      invariant 0 <= validRatings <= |items|
      invariant forall j :: 0 <= j < validRatings ==> !Nullish(items[j])
      invariant totalScore == Sum(scores[..validRatings])
    {
      var raw := RawScore(rt, items[validRatings]);
      RawScoreIsScore(rt, items[validRatings]);
      if raw.None? {
        return None;
      }
      assert !Nullish(items[validRatings]);
      assert raw.value == scores[validRatings];
      SumStep(scores, validRatings);
      totalScore := Add(totalScore, raw.value);
      validRatings := validRatings + 1;
    }
    assert scores[..validRatings] == scores;
    assert NormalizedEntries(rt, items) == Some(normalized);
    return Some(totalScore);
  }

  /** createAuthorBookCard's score, lines 886-906: `None` when the card
      would throw (`book.ratings` is not a list, or a list entry is
      nullish). The per-book score is the single-book average and tier
      applied to the normalised list: both screens grade a list the same
      way. */
  method ScoreAuthorBook(rt: Runtime, ratings: JsValue) returns (score: Option<CardScore>)
    ensures ratings.Arr? && NormalizedEntries(rt, ratings.items).Some? ==>
      var scores := Scores(NormalizedEntries(rt, ratings.items).value);
      score == Some(if |scores| == 0 then Unrated
                    else Rated(Round1(Mean(scores)), TierOf(Round1(Mean(scores)))))
    ensures !(ratings.Arr? && NormalizedEntries(rt, ratings.items).Some?) ==> score.None?
  {
    if !ratings.Arr? {
      return None;
    }
    var total := TotalRawScore(rt, ratings.items);
    if total.None? {
      return None;
    }
    var validRatings := |ratings.items|;
    if validRatings == 0 {
      return Some(Unrated);
    }
    var avg := Round1(Div(total.value, Finite(validRatings as real)));
    return Some(Rated(avg, TierOf(avg)));
  }
}
