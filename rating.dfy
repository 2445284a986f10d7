/** The rating part of the `Item` presenter: the average of a product's
    feedback ratings and the row of five star icons drawn from it. The
    average is kept as an exact fraction, so `Math.round` is computed on
    integers. */
module Rating {
  import opened Catalog

  type Positive = n: int | n > 0 witness 1

  /** The rational number `num / den`. */
  datatype Ratio = Ratio(num: int, den: Positive)

  /** The ratings of a feedback list, in order. */
  function Ratings(fbs: seq<Feedback>): seq<int> {
    seq(|fbs|, i requires 0 <= i < |fbs| => fbs[i].rating)
  }

  /** The total of the ratings, zero for none. */
  function Sum(rs: seq<int>): int {
    if rs == [] then 0 else rs[0] + Sum(rs[1..])
  }

  function Min(rs: seq<int>): int
    requires |rs| > 0
  {
    if |rs| == 1 then rs[0] else var m := Min(rs[1..]); if rs[0] <= m then rs[0] else m
  }

  function Max(rs: seq<int>): int
    requires |rs| > 0
  {
    if |rs| == 1 then rs[0] else var m := Max(rs[1..]); if rs[0] >= m then rs[0] else m
  }

  /** The mean rating of a product, or zero when it has no feedback. */
  function AverageRating(item: Product): (avg: Ratio)
    ensures |item.feedbacks| == 0 ==> avg.num == 0
    ensures |item.feedbacks| > 0 ==>
      avg.num * |item.feedbacks| == Sum(Ratings(item.feedbacks)) * avg.den
  {
    var rs := Ratings(item.feedbacks);
    if |rs| > 0 then Ratio(Sum(rs), |rs|) else Ratio(0, 1)
  }

  lemma {:induction false} SumBounds(rs: seq<int>)
    requires |rs| > 0
    ensures Min(rs) * |rs| <= Sum(rs) <= Max(rs) * |rs|
  {
    if |rs| > 1 {
      var tail, n := rs[1..], |rs| - 1;
      SumBounds(tail);
      var lo, hi := Min(rs), Max(rs);
      assert Sum(rs) == rs[0] + Sum(tail);
      assert lo <= rs[0] <= hi && lo <= Min(tail) && Max(tail) <= hi;
      MultiplyMonotone(n, lo, Min(tail));
      MultiplyMonotone(n, Max(tail), hi);
      MultiplySucc(lo, n);
      MultiplySucc(hi, n);
    }
  }

  lemma MultiplySucc(a: int, n: nat)
    ensures a * (n + 1) == a * n + a
  {
  }

  /** A product with feedback has an average between its lowest and its
      highest rating. */
  lemma AverageWithinRatings(item: Product)
    requires |item.feedbacks| > 0
    ensures var rs, avg := Ratings(item.feedbacks), AverageRating(item);
      Min(rs) * avg.den <= avg.num <= Max(rs) * avg.den
  {
    SumBounds(Ratings(item.feedbacks));
  }

  /** `Math.round(x)`: the integer nearest to `x`, halves rounded up,
      that is, `r - 1/2 <= x < r + 1/2`. */
  function Round(x: Ratio): (r: int)
    ensures x.den * (2 * r - 1) <= 2 * x.num < x.den * (2 * r + 1)
  {
    var q := (2 * x.num + x.den) / (2 * x.den);
    var m := (2 * x.num + x.den) % (2 * x.den);
    assert 2 * x.num + x.den == 2 * x.den * q + m && 0 <= m < 2 * x.den;
    assert x.den * (2 * q - 1) == 2 * x.den * q - x.den;
    assert x.den * (2 * q + 1) == 2 * x.den * q + x.den;
    q
  }

  /** Rounding a value between two integers stays between them. */
  lemma RoundWithin(x: Ratio, lo: int, hi: int)
    requires lo * x.den <= x.num <= hi * x.den
    ensures lo <= Round(x) <= hi
  {
    NearestWithin(x.den, x.num, Round(x), lo, hi);
  }

  /** An integer within half of `n / d` lies between any integer bounds
      of `n / d`. */
  lemma NearestWithin(d: Positive, n: int, r: int, lo: int, hi: int)
    requires d * (2 * r - 1) <= 2 * n < d * (2 * r + 1)
    requires lo * d <= n <= hi * d
    ensures lo <= r <= hi
  {
    Distribute(d, r);
    Distribute(d, hi);
    Distribute(d, lo);
    // With A = d*r: 2A - d <= 2n <= 2 hi*d, so d*r < d*(hi + 1).
    CancelPositive(d, r, hi);
    // And 2 lo*d <= 2n < 2A + d, so d*lo < d*(r + 1).
    CancelPositive(d, lo, r);
  }

  lemma Distribute(d: int, a: int)
    ensures d * (2 * a - 1) == 2 * (d * a) - d
    ensures d * (2 * a + 1) == 2 * (d * a) + d
    ensures d * (a + 1) == d * a + d
    ensures a * d == d * a
  {
  }

  /** Dividing both sides by a positive factor. */
  lemma CancelPositive(d: Positive, a: int, b: int)
    requires d * a < d * (b + 1)
    ensures a <= b
  {
    if a > b {
      assert false;
    }
  }

  lemma MultiplyMonotone(d: nat, a: int, b: int)
    requires a <= b
    ensures d * a <= d * b && a * d <= b * d
  {
    assert d * b - d * a == d * (b - a);
  }

  function Clamp(x: int, lo: int, hi: int): (r: int)
    requires lo <= hi
    ensures lo <= r <= hi
    ensures lo <= x <= hi ==> r == x
  {
    if x < lo then lo else if x > hi then hi else x
  }

  /** The Ionicons element drawn for one star; its size and margin are
      layout only. */
  datatype Icon = Icon(key: int, name: string, color: string)

  /** Star `i` of a row drawn for `roundedRating`. */
  function StarIcon(i: int, roundedRating: int): (icon: Icon)
    ensures icon.key == i
    ensures i <= roundedRating <==> icon.name == "star"
  {
    if i <= roundedRating then Icon(i, "star", "gold") else Icon(i, "star-outline", "black")
  }

  predicate IsFilled(icon: Icon) {
    icon.name == "star"
  }

  function CountFilled(stars: seq<Icon>): nat {
    if stars == [] then 0
    else CountFilled(stars[..|stars| - 1]) + if IsFilled(stars[|stars| - 1]) then 1 else 0
  }

  lemma {:induction false} FilledCountIsClamped(stars: seq<Icon>, roundedRating: int)
    requires forall k :: 0 <= k < |stars| ==> stars[k] == StarIcon(k + 1, roundedRating)
    ensures CountFilled(stars) == Clamp(roundedRating, 0, |stars|)
  {
    if stars != [] {
      FilledCountIsClamped(stars[..|stars| - 1], roundedRating);
    }
  }

  /** `renderRatingStars`: five stars keyed 1 to 5; star `i` is filled
      exactly when `i <= Math.round(averageRating)`, so the number of
      filled stars is the rounded average clamped to 0..5. */
  method RenderRatingStars(averageRating: Ratio) returns (stars: seq<Icon>)
    ensures |stars| == 5
    ensures forall k :: 0 <= k < 5 ==> stars[k] == StarIcon(k + 1, Round(averageRating))
    ensures forall k :: 0 <= k < 5 ==> (IsFilled(stars[k]) <==> k + 1 <= Round(averageRating))
    ensures CountFilled(stars) == Clamp(Round(averageRating), 0, 5)
  {
    stars := [];
    var roundedRating := Round(averageRating);
    for i := 1 to 6
      invariant |stars| == i - 1
      invariant forall k :: 0 <= k < |stars| ==> stars[k] == StarIcon(k + 1, roundedRating)
    {
      stars := stars + [StarIcon(i, roundedRating)];
    }
    FilledCountIsClamped(stars, roundedRating);
  }

  /** For ratings on the usual 1..5 scale, the number of filled stars is
      the rounded average itself; with no feedback no star is filled. */
  lemma FilledStarsOfItem(item: Product, stars: seq<Icon>)
    requires forall f :: f in item.feedbacks ==> 1 <= f.rating <= 5
    requires |stars| == 5
    requires forall k :: 0 <= k < 5 ==> stars[k] == StarIcon(k + 1, Round(AverageRating(item)))
    ensures |item.feedbacks| == 0 ==> CountFilled(stars) == 0
    ensures |item.feedbacks| > 0 ==> CountFilled(stars) == Round(AverageRating(item))
    ensures 0 <= Round(AverageRating(item)) <= 5
  {
    var avg := AverageRating(item);
    FilledCountIsClamped(stars, Round(avg));
    if |item.feedbacks| > 0 {
      var rs := Ratings(item.feedbacks);
      RatingsInScale(item.feedbacks);
      AverageWithinRatings(item);
      RoundWithin(avg, Min(rs), Max(rs));
    } else {
      RoundWithin(avg, 0, 0);
    }
  }

  lemma {:induction false} RatingsInScale(fbs: seq<Feedback>)
    requires |fbs| > 0
    requires forall f :: f in fbs ==> 1 <= f.rating <= 5
    ensures 1 <= Min(Ratings(fbs)) && Max(Ratings(fbs)) <= 5
  {
    var rs := Ratings(fbs);
    assert fbs[0] in fbs;
    if |fbs| > 1 {
      RatingsInScale(fbs[1..]);
      assert Ratings(fbs[1..]) == rs[1..];
    }
  }

  /** Ratings 4 and 5 average to 4.5, which rounds up to five filled
      stars; a product without feedback gets none. */
  method RatingWalkthrough() {
    var aqua := Product(1, "Aqua", "Dior", 80, "", [Feedback(4), Feedback(5)]);
    var sauvage := Product(2, "Sauvage", "Dior", 120, "", []);
    assert Ratings(aqua.feedbacks) == [4, 5];
    assert AverageRating(aqua) == Ratio(9, 2);
    var stars := RenderRatingStars(AverageRating(aqua));
    assert CountFilled(stars) == 5;
    stars := RenderRatingStars(AverageRating(sauvage));
    assert CountFilled(stars) == 0;
  }
}
