/** The order in which the block assembler prefers packages: by fee rate, ties by transaction hash. */
module Scores {
  import opened Numbers

  datatype Score = Score(fee: int, size: int, hash: nat)

  /** The lower of a transaction's own fee rate and that of its package. */
  function ScoreOf(fee: int, size: int, packageFee: int, packageSize: int, hash: nat): Score {
    if fee * packageSize > packageFee * size then Score(packageFee, packageSize, hash) else Score(fee, size, hash)
  }

  /** `CompareTxMemPoolEntryByAncestorFee`, with exact products. */
  predicate Higher(a: Score, b: Score) {
    if a.fee * b.size == a.size * b.fee then a.hash < b.hash else a.fee * b.size > a.size * b.fee
  }

  /** A fraction compared with a second, and that with a third. */
  lemma CrossMultiply(f: int, s: int, g: int, t: int, h: int, u: int)
    requires s > 0 && t > 0 && u > 0 && f * t <= s * g && g * u <= t * h
    ensures f * u <= s * h && (f * t < s * g || g * u < t * h ==> f * u < s * h)
  {
    Scaled(f * t, s * g, u);
    Scaled(g * u, t * h, s);
    Reorder(f, t, u);
    Reorder(s, g, u);
    Reorder(t, h, s);
    Unscaled(f * u, s * h, t);
  }

  lemma Reorder(x: int, y: int, z: int)
    ensures x * y * z == x * z * y && x * y * z == y * z * x
  {}

  lemma Scaled(x: int, y: int, k: int)
    requires k > 0 && x <= y
    ensures x * k <= y * k && (x < y ==> x * k < y * k)
  {
    Multiple(k, y - x);
    Spread(x, y, k);
  }

  lemma Spread(x: int, y: int, k: int)
    ensures (y - x) * k == y * k - x * k
  {}

  lemma Unscaled(x: int, y: int, k: int)
    requires k > 0 && x * k <= y * k
    ensures x <= y && (x * k < y * k ==> x < y)
  {
    if x > y { Scaled(y, x, k); }
  }

  /** "No higher than" is transitive, so the order is a strict weak order. */
  lemma NotHigher(a: Score, b: Score, c: Score)
    requires a.size > 0 && b.size > 0 && c.size > 0 && !Higher(a, b) && !Higher(b, c)
    ensures !Higher(a, c)
  {
    CrossMultiply(a.fee, a.size, b.fee, b.size, c.fee, c.size);
  }

  /** The score is never above the package's rate, */
  lemma ScoreBelowPackage(fee: int, size: int, packageFee: int, packageSize: int, hash: nat)
    requires size > 0 && packageSize > 0
    ensures var a := ScoreOf(fee, size, packageFee, packageSize, hash);
      a.size > 0 && a.fee * packageSize <= a.size * packageFee
  {}

  predicate BelowRate(fee: int, size: int, rate: int) { 1000 * fee < rate * size }

  /** A score no higher than one below the rate is below it too. */
  lemma RateCarries(a: Score, b: Score, rate: int)
    requires a.size > 0 && b.size > 0 && !Higher(a, b) && BelowRate(b.fee, b.size, rate)
    ensures BelowRate(a.fee, a.size, rate)
  {
    assert b.fee * 1000 < b.size * rate;
    CrossMultiply(a.fee, a.size, b.fee, b.size, rate, 1000);
  }

  lemma ScoreBelowRate(fee: int, size: int, packageFee: int, packageSize: int, hash: nat, rate: int)
    requires size > 0 && packageSize > 0 && BelowRate(packageFee, packageSize, rate)
    ensures var a := ScoreOf(fee, size, packageFee, packageSize, hash); a.size > 0 && BelowRate(a.fee, a.size, rate)
  {
    var a := ScoreOf(fee, size, packageFee, packageSize, hash);
    ScoreBelowPackage(fee, size, packageFee, packageSize, hash);
    assert packageFee * 1000 < packageSize * rate;
    CrossMultiply(a.fee, a.size, packageFee, packageSize, rate, 1000);
  }

  lemma Asymmetric(a: Score, b: Score)
    requires Higher(a, b)
    ensures !Higher(b, a)
  {
    assert a.fee * b.size == b.size * a.fee && a.size * b.fee == b.fee * a.size;
  }

  /** Among finitely many there is one that none is higher than. */
  lemma {:induction false} BestExists(scores: map<nat, Score>) returns (best: nat)
    requires scores.Keys != {} && forall i :: i in scores ==> scores[i].size > 0
    ensures best in scores && forall i :: i in scores ==> !Higher(scores[i], scores[best])
    decreases |scores.Keys|
  {
    var i :| i in scores;
    var rest := scores - {i};
    assert rest.Keys == scores.Keys - {i};
    if rest.Keys == {} {
      best := i;
      forall j | j in scores ensures !Higher(scores[j], scores[best]) { assert j == i by { assert j !in rest; } }
    } else {
      var b := BestExists(rest);
      best := if Higher(scores[i], scores[b]) then i else b;
      forall j | j in scores ensures !Higher(scores[j], scores[best]) {
        if j != i {
          assert j in rest;
          if best == i {
            Asymmetric(scores[i], scores[b]);
            NotHigher(scores[j], scores[b], scores[i]);
          }
        } else if best == i {
          assert scores[i].fee * scores[i].size == scores[i].size * scores[i].fee;
        }
      }
    }
  }
}
