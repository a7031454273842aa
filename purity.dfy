/** The purity calculator of the game scene: enantiomeric excess (%ee) of a group of
    crystals, the bowl-weight-weighted average of the two bowls, and the final score. */
module Purity {
  import opened Crystals

  function Abs(x: real): (r: real)
    ensures r >= 0.0 && (r == x || r == -x)
  {
    if x < 0.0 then -x else x
  }

  /** The crystals of enantiomer `e`, in list order. */
  function OfEnantiomer(cs: seq<Crystal>, e: Enantiomer): (r: seq<Crystal>)
    ensures |r| <= |cs|
    ensures forall c :: c in r ==> c in cs && c.enantiomer == e
  {
    if cs == [] then []
    else if cs[0].enantiomer == e then [cs[0]] + OfEnantiomer(cs[1..], e)
    else OfEnantiomer(cs[1..], e)
  }

  /** The sum of the weights, accumulated from 0: nothing for an empty group, the one weight
      for a single crystal. */
  function TotalWeight(cs: seq<Crystal>): (r: real)
    ensures cs == [] ==> r == 0.0
    ensures |cs| == 1 ==> r == cs[0].weight
  {
    if cs == [] then 0.0 else cs[0].weight + TotalWeight(cs[1..])
  }

  /** %ee of a group: |Wr - Ws| / (Wr + Ws) * 100, and 0 where that quotient is undefined
      (the source replaces the NaN of 0/0 by 0). With positive weights the sum is 0 exactly
      when the group is empty. */
  function EE(cs: seq<Crystal>): (r: real)
    ensures TotalWeight(OfEnantiomer(cs, R)) == TotalWeight(OfEnantiomer(cs, S)) ==> r == 0.0
  {
    ExcessPercent(TotalWeight(OfEnantiomer(cs, R)), TotalWeight(OfEnantiomer(cs, S)))
  }

  /** |wr - ws| / (wr + ws) * 100 for the two weight sums, 0 when the sum is 0: a racemic
      group scores 0, a group of one enantiomer only scores 100, and any other group of
      nonnegative weights lies in between. */
  function ExcessPercent(wr: real, ws: real): (r: real)
    ensures wr + ws == 0.0 ==> r == 0.0
    ensures wr == ws ==> r == 0.0
    ensures (wr > 0.0 && ws == 0.0) || (wr == 0.0 && ws > 0.0) ==> r == 100.0
    ensures wr >= 0.0 && ws >= 0.0 ==> 0.0 <= r <= 100.0
  {
    if wr + ws == 0.0 then 0.0 else Abs(wr - ws) / (wr + ws) * 100.0
  }

  /** The weighted mean of the two bowls' %ee values, weighted by total bowl weight, and 0
      when both bowls are empty. `eeLeft` and `eeRight` are the values the scene has just
      stored for the same two groups. */
  function AverageEE(left: seq<Crystal>, right: seq<Crystal>, eeLeft: real, eeRight: real): (r: real)
    ensures TotalWeight(left) + TotalWeight(right) == 0.0 ==> r == 0.0
    ensures TotalWeight(left) + TotalWeight(right) != 0.0 ==>
      r * (TotalWeight(left) + TotalWeight(right)) == eeLeft * TotalWeight(left) + eeRight * TotalWeight(right)
  {
    WeightedMean(eeLeft, eeRight, TotalWeight(left), TotalWeight(right))
  }

  /** (a * wa + b * wb) / (wa + wb), and 0 where that quotient is undefined. */
  function WeightedMean(a: real, b: real, wa: real, wb: real): (m: real)
    ensures wa + wb == 0.0 ==> m == 0.0
    ensures wa + wb != 0.0 ==> m * (wa + wb) == a * wa + b * wb
  {
    if wa + wb == 0.0 then 0.0 else (a * wa + b * wb) / (wa + wb)
  }

  /** The average %ee of two bowls computed as the scene computes it, from their own %ee. */
  function BowlsAverageEE(left: seq<Crystal>, right: seq<Crystal>): real {
    AverageEE(left, right, EE(left), EE(right))
  }

  /** The final score: average %ee scaled by par time over elapsed time (elapsed time in
      milliseconds, par time in seconds) and by the score multiplier. */
  function Score(averageEE: real, elapsedMs: real, parTime: real, multiplier: real): (s: real)
    requires elapsedMs > 0.0
    ensures averageEE == 0.0 || parTime == 0.0 || multiplier == 0.0 ==> s == 0.0
    ensures averageEE > 0.0 && parTime > 0.0 && multiplier > 0.0 ==> s > 0.0
  {
    averageEE * (parTime / (elapsedMs / 1000.0)) * multiplier
  }

  predicate Positive(cs: seq<Crystal>) {
    forall i :: 0 <= i < |cs| ==> cs[i].weight > 0.0
  }

  // ---------------------------------------------------------------------------------
  // Total weight
  // ---------------------------------------------------------------------------------

  lemma {:induction false} TotalWeightAppend(a: seq<Crystal>, b: seq<Crystal>)
    ensures TotalWeight(a + b) == TotalWeight(a) + TotalWeight(b)
  {
    if a == [] {
      assert a + b == b;
    } else {
      assert (a + b)[1..] == a[1..] + b;
      TotalWeightAppend(a[1..], b);
    }
  }

  /** For crystals drawn from the weight range the total lies between the count times the
      least and the count times the greatest weight. */
  lemma {:induction false} TotalWeightBounds(cs: seq<Crystal>)
    requires ValidCrystals(cs)
    ensures WeightMin * |cs| as real <= TotalWeight(cs) <= WeightMax * |cs| as real
  {
    if cs != [] {
      assert ValidCrystals(cs[1..]) by {
        forall i | 0 <= i < |cs[1..]| ensures InWeightRange(cs[1..][i].weight) {
          assert cs[1..][i] == cs[i + 1];
        }
      }
      TotalWeightBounds(cs[1..]);
    }
  }

  /** With positive weights the total is positive exactly when the group is nonempty. */
  lemma {:induction false} TotalWeightSign(cs: seq<Crystal>)
    requires Positive(cs)
    ensures TotalWeight(cs) >= 0.0
    ensures TotalWeight(cs) == 0.0 <==> cs == []
  {
    if cs != [] {
      TotalWeightSign(cs[1..]);
    }
  }

  /** The total weight depends only on which crystals there are, not on their order. */
  lemma {:induction false} TotalWeightPermutation(a: seq<Crystal>, b: seq<Crystal>)
    requires multiset(a) == multiset(b)
    ensures TotalWeight(a) == TotalWeight(b)
    decreases |a|
  {
    if a == [] {
      assert |b| == |multiset(b)| == 0;
    } else {
      var x := a[0];
      assert x in multiset(b);
      var j :| 0 <= j < |b| && b[j] == x;
      var rest := b[..j] + b[j + 1..];
      assert b == b[..j] + [x] + b[j + 1..];
      assert a == [x] + a[1..];
      assert multiset(b) == multiset(b[..j]) + multiset([x]) + multiset(b[j + 1..]);
      assert multiset(rest) == multiset(b[..j]) + multiset(b[j + 1..]);
      assert multiset(rest) == multiset(b) - multiset([x]);
      assert multiset(a[1..]) == multiset(a) - multiset([x]);
      TotalWeightPermutation(a[1..], rest);
      TotalWeightAppend(b[..j] + [x], b[j + 1..]);
      TotalWeightAppend(b[..j], [x]);
      TotalWeightAppend(b[..j], b[j + 1..]);
    }
  }

  // ---------------------------------------------------------------------------------
  // Filter by enantiomer
  // ---------------------------------------------------------------------------------

  /** How often each crystal occurs in the filtered group. */
  lemma {:induction false} OfEnantiomerCount(cs: seq<Crystal>, e: Enantiomer, c: Crystal)
    ensures multiset(OfEnantiomer(cs, e))[c] == if c.enantiomer == e then multiset(cs)[c] else 0
  {
    if cs != [] {
      assert cs == [cs[0]] + cs[1..];
      OfEnantiomerCount(cs[1..], e, c);
    }
  }

  lemma OfEnantiomerPermutation(a: seq<Crystal>, b: seq<Crystal>, e: Enantiomer)
    requires multiset(a) == multiset(b)
    ensures multiset(OfEnantiomer(a, e)) == multiset(OfEnantiomer(b, e))
  {
    forall c ensures multiset(OfEnantiomer(a, e))[c] == multiset(OfEnantiomer(b, e))[c] {
      OfEnantiomerCount(a, e, c);
      OfEnantiomerCount(b, e, c);
    }
  }

  lemma {:induction false} OfEnantiomerPositive(cs: seq<Crystal>, e: Enantiomer)
    requires Positive(cs)
    ensures Positive(OfEnantiomer(cs, e))
  {
    if cs != [] {
      OfEnantiomerPositive(cs[1..], e);
    }
  }

  /** A group whose crystals are all of enantiomer `e` has nothing of the other one, and
      filtering on `e` keeps all of it. */
  lemma {:induction false} OfEnantiomerUniform(cs: seq<Crystal>, e: Enantiomer, other: Enantiomer)
    requires e != other
    requires forall i :: 0 <= i < |cs| ==> cs[i].enantiomer == e
    ensures OfEnantiomer(cs, e) == cs
    ensures OfEnantiomer(cs, other) == []
  {
    if cs != [] {
      OfEnantiomerUniform(cs[1..], e, other);
    }
  }

  lemma ValidIsPositive(cs: seq<Crystal>)
    requires ValidCrystals(cs)
    ensures Positive(cs)
  {
  }

  // ---------------------------------------------------------------------------------
  // %ee
  // ---------------------------------------------------------------------------------

  lemma DivSelf(w: real)
    requires w > 0.0
    ensures w / w == 1.0
  {
  }

  lemma MulDivCancel(x: real, w: real)
    requires w > 0.0
    ensures x * w / w == x
  {
  }

  lemma CancelPositive(m: real, c: real, s: real)
    requires s > 0.0
    ensures m * s >= c * s ==> m >= c
    ensures m * s <= c * s ==> m <= c
  {
  }

  lemma ScaleLe(x: real, y: real, w: real)
    requires x <= y && w >= 0.0
    ensures x * w <= y * w
  {
  }

  lemma RatioAtMostOne(a: real, s: real)
    requires 0.0 <= a <= s && s > 0.0
    ensures 0.0 <= a / s * 100.0 <= 100.0
  {
    assert a / s <= 1.0 by {
      assert a / s * s == a;
    }
  }

  /** %ee of crystals with positive weights lies in [0, 100], and is 0 for an empty group. */
  lemma EERange(cs: seq<Crystal>)
    requires Positive(cs)
    ensures 0.0 <= EE(cs) <= 100.0
    ensures cs == [] ==> EE(cs) == 0.0
  {
    var wr := TotalWeight(OfEnantiomer(cs, R));
    var ws := TotalWeight(OfEnantiomer(cs, S));
    OfEnantiomerPositive(cs, R);
    OfEnantiomerPositive(cs, S);
    TotalWeightSign(OfEnantiomer(cs, R));
    TotalWeightSign(OfEnantiomer(cs, S));
    if wr + ws != 0.0 {
      RatioAtMostOne(Abs(wr - ws), wr + ws);
    }
  }

  /** A nonempty group of a single enantiomer is pure: 100 %ee. */
  lemma EEPure(cs: seq<Crystal>, e: Enantiomer)
    requires Positive(cs) && cs != []
    requires forall i :: 0 <= i < |cs| ==> cs[i].enantiomer == e
    ensures EE(cs) == 100.0
  {
    var other := if e == R then S else R;
    OfEnantiomerUniform(cs, e, other);
    TotalWeightSign(cs);
    var w := TotalWeight(cs);
    DivSelf(w);
    assert Abs(w - 0.0) == w && Abs(0.0 - w) == w;
  }

  /** Equal R and S weight sums give a racemic group: 0 %ee. */
  lemma EERacemic(cs: seq<Crystal>)
    requires TotalWeight(OfEnantiomer(cs, R)) == TotalWeight(OfEnantiomer(cs, S))
    ensures EE(cs) == 0.0
  {
  }

  /** %ee does not depend on the order of the crystals. */
  lemma EEPermutation(a: seq<Crystal>, b: seq<Crystal>)
    requires multiset(a) == multiset(b)
    ensures EE(a) == EE(b)
  {
    OfEnantiomerPermutation(a, b, R);
    OfEnantiomerPermutation(a, b, S);
    TotalWeightPermutation(OfEnantiomer(a, R), OfEnantiomer(b, R));
    TotalWeightPermutation(OfEnantiomer(a, S), OfEnantiomer(b, S));
  }

  /** One R crystal of weight 1 gives 100 %ee; one R and one S of weight 1 give 0 %ee. */
  lemma EEScenarios(x: real, y: real)
    ensures EE([Crystal(1.0, R, BowlLeft, x, y, false)]) == 100.0
    ensures EE([Crystal(1.0, R, BowlLeft, x, y, false), Crystal(1.0, S, BowlLeft, x, y, false)]) == 0.0
  {
    var c := Crystal(1.0, R, BowlLeft, x, y, false);
    var d := Crystal(1.0, S, BowlLeft, x, y, false);
    assert OfEnantiomer([c], R) == [c];
    assert OfEnantiomer([c, d], R) == [c] by { assert [c, d][1..] == [d]; }
    assert OfEnantiomer([c, d], S) == [d] by { assert [c, d][1..] == [d]; }
  }

  // ---------------------------------------------------------------------------------
  // Average %ee
  // ---------------------------------------------------------------------------------

  function Min(a: real, b: real): real { if a <= b then a else b }
  function Max(a: real, b: real): real { if a <= b then b else a }

  /** A weighted sum of two values lies between the bounds scaled by the total weight. */
  lemma WeightedSumBetween(lo: real, hi: real, a: real, b: real, wa: real, wb: real)
    requires wa >= 0.0 && wb >= 0.0
    requires lo <= a <= hi && lo <= b <= hi
    ensures lo * (wa + wb) <= a * wa + b * wb
    ensures a * wa + b * wb <= hi * (wa + wb)
  {
    WeightedSumAbove(lo, a, b, wa, wb);
    WeightedSumAbove(-hi, -a, -b, wa, wb);
    assert -hi * (wa + wb) == -(hi * (wa + wb));
    assert -a * wa + -b * wb == -(a * wa + b * wb);
  }

  lemma WeightedSumAbove(lo: real, a: real, b: real, wa: real, wb: real)
    requires wa >= 0.0 && wb >= 0.0 && lo <= a && lo <= b
    ensures lo * (wa + wb) <= a * wa + b * wb
  {
    ScaleLe(lo, a, wa);
    ScaleLe(lo, b, wb);
    SumLe(lo * wa, a * wa, lo * wb, b * wb);
    Distribute(lo, wa, wb);
  }

  lemma SumLe(x1: real, y1: real, x2: real, y2: real)
    requires x1 <= y1 && x2 <= y2
    ensures x1 + x2 <= y1 + y2
  {
  }

  lemma Distribute(x: real, wa: real, wb: real)
    ensures x * (wa + wb) == x * wa + x * wb
  {
  }

  /** With positive total weight the mean lies between the two values. */
  lemma WeightedMeanBetween(a: real, b: real, wa: real, wb: real)
    requires wa >= 0.0 && wb >= 0.0 && wa + wb > 0.0
    ensures Min(a, b) <= WeightedMean(a, b, wa, wb) <= Max(a, b)
  {
    var s, lo, hi := wa + wb, Min(a, b), Max(a, b);
    var num := a * wa + b * wb;
    var m := num / s;
    assert m * s == num;
    WeightedSumBetween(lo, hi, a, b, wa, wb);
    CancelPositive(m, lo, s);
    CancelPositive(m, hi, s);
  }

  /** With one weight zero and the other positive the mean is the weighted value. */
  lemma WeightedMeanOneSide(a: real, b: real, wa: real, wb: real)
    requires wa > 0.0 && wb == 0.0
    ensures WeightedMean(a, b, wa, wb) == a
    ensures WeightedMean(b, a, wb, wa) == a
  {
    assert a * wa + b * wb == a * wa;
    assert b * wb + a * wa == a * wa;
    MulDivCancel(a, wa);
  }

  /** With both bowls empty the average is 0; otherwise it lies between the two bowls'
      values (for positive weights). */
  lemma AverageEEBetween(left: seq<Crystal>, right: seq<Crystal>, eeLeft: real, eeRight: real)
    requires Positive(left) && Positive(right)
    ensures left == [] && right == [] ==> AverageEE(left, right, eeLeft, eeRight) == 0.0
    ensures left != [] || right != [] ==>
      Min(eeLeft, eeRight) <= AverageEE(left, right, eeLeft, eeRight) <= Max(eeLeft, eeRight)
  {
    TotalWeightSign(left);
    TotalWeightSign(right);
    if left != [] || right != [] {
      WeightedMeanBetween(eeLeft, eeRight, TotalWeight(left), TotalWeight(right));
    }
  }

  /** With one bowl empty the average is the other bowl's value. */
  lemma AverageEEOneBowl(left: seq<Crystal>, right: seq<Crystal>, eeLeft: real, eeRight: real)
    requires Positive(left) && Positive(right)
    ensures left != [] && right == [] ==> AverageEE(left, right, eeLeft, eeRight) == eeLeft
    ensures left == [] && right != [] ==> AverageEE(left, right, eeLeft, eeRight) == eeRight
  {
    TotalWeightSign(left);
    TotalWeightSign(right);
    if left != [] && right == [] {
      WeightedMeanOneSide(eeLeft, eeRight, TotalWeight(left), TotalWeight(right));
    }
    if left == [] && right != [] {
      WeightedMeanOneSide(eeRight, eeLeft, TotalWeight(right), TotalWeight(left));
    }
  }

  /** Swapping the two bowls together with their values does not change the average. */
  lemma AverageEESymmetric(left: seq<Crystal>, right: seq<Crystal>, eeLeft: real, eeRight: real)
    ensures AverageEE(left, right, eeLeft, eeRight) == AverageEE(right, left, eeRight, eeLeft)
  {
  }

  /** The average of the bowls' own %ee values lies in [0, 100]. */
  lemma BowlsAverageEERange(left: seq<Crystal>, right: seq<Crystal>)
    requires Positive(left) && Positive(right)
    ensures 0.0 <= BowlsAverageEE(left, right) <= 100.0
  {
    EERange(left);
    EERange(right);
    AverageEEBetween(left, right, EE(left), EE(right));
  }

  // ---------------------------------------------------------------------------------
  // Score
  // ---------------------------------------------------------------------------------

  /** Finishing exactly at par time scores the average %ee times the multiplier. */
  lemma ScoreAtPar(averageEE: real, parTime: real, multiplier: real)
    requires parTime > 0.0
    ensures Score(averageEE, parTime * 1000.0, parTime, multiplier) == averageEE * multiplier
  {
    assert parTime * 1000.0 / 1000.0 == parTime;
    assert parTime / parTime == 1.0;
  }

  /** For a positive average, par time and multiplier, a faster finish scores strictly more. */
  lemma ScoreFasterIsHigher(averageEE: real, t1: real, t2: real, parTime: real, multiplier: real)
    requires averageEE > 0.0 && parTime > 0.0 && multiplier > 0.0
    requires 0.0 < t1 < t2
    ensures Score(averageEE, t1, parTime, multiplier) > Score(averageEE, t2, parTime, multiplier)
  {
    var q1 := parTime / (t1 / 1000.0);
    var q2 := parTime / (t2 / 1000.0);
    assert q1 == parTime * 1000.0 / t1;
    assert q2 == parTime * 1000.0 / t2;
    var p := parTime * 1000.0;
    assert p / t1 > p / t2 by {
      assert p / t1 * t1 == p;
      assert p / t2 * t2 == p;
      assert p / t2 * t1 < p;
    }
    var k := averageEE * multiplier;
    assert k > 0.0;
    assert averageEE * q1 * multiplier == k * q1;
    assert averageEE * q2 * multiplier == k * q2;
  }

  /** 80 %ee after 15 s with a par time of 30 s and multiplier 1000 scores 160000. */
  lemma ScoreScenario()
    ensures Score(80.0, 15000.0, 30.0, 1000.0) == 160000.0
  {
  }
}
