/** GetScoreRatio over the reals: how much better a client is treated for what it has sent us. */
module ScoreRatio {
  import opened IdentModel

  const MINIMUM: nat := 1000000
  const MEGABYTE: real := 1048576.0

  /** `root` is the square root of the megabytes downloaded plus 2. */
  predicate IsRoot(root: real, downloaded: nat) {
    root >= 0.0 && root * root == downloaded as real / MEGABYTE + 2.0
  }

  function Clamped(x: real): real { if x < 1.0 then 1.0 else if x > 10.0 then 10.0 else x }

  function Ratio(downloaded: nat, uploaded: nat, root: real): real {
    if downloaded < MINIMUM then 1.0
    else
      var result := if uploaded == 0 then 10.0 else downloaded as real * 2.0 / uploaded as real;
      Clamped(if result > root then root else result)
  }

  /** A client that should have identified itself and has not gets no credit for anything. */
  function GetScoreRatio(c: Credits, ip: uint32, crypto: bool, root: real): real {
    if !Counts(c, ip, crypto) then 1.0 else Ratio(c.downloaded, c.uploaded, root)
  }

  lemma ProductGrows(s: real, t: real, p: real, q: real)
    requires 0.0 <= s < t && 0.0 < q <= p
    ensures s * q < t * p
  {
    var x, y := t - s, p - q;
    assert x * q > 0.0;
    assert t * y >= 0.0;
    assert t * p == s * q + x * q + t * y by {
      assert t * p == t * q + t * y;
      assert t * q == s * q + x * q;
    }
  }

  lemma RootMonotone(a: real, b: real, m: nat, n: nat)
    requires IsRoot(a, m) && IsRoot(b, n) && m <= n
    ensures a <= b
  {
    assert b * b >= 2.0 && b > 0.0;
    if a > b {
      ProductGrows(b, a, a, b);
    }
  }

  lemma QuotientMonotone(x: real, y: real, p: real, q: real)
    requires 0.0 <= x <= y && 0.0 < q <= p
    ensures x / p <= y / q
  {
    assert x / p * p == x && y / q * q == y && y / q >= 0.0;
    if x / p > y / q {
      ProductGrows(y / q, x / p, p, q);
    }
  }

  /** Between 1 and 10; more for sending us more, less for taking more, at equal standing. */
  lemma RatioMonotone(c: Credits, d: Credits, ip: uint32, crypto: bool, r: real, s: real)
    requires IsRoot(r, c.downloaded) && IsRoot(s, d.downloaded)
    requires c.downloaded <= d.downloaded && c.uploaded >= d.uploaded && Counts(c, ip, crypto) == Counts(d, ip, crypto)
    ensures 1.0 <= GetScoreRatio(c, ip, crypto, r) <= GetScoreRatio(d, ip, crypto, s) <= 10.0
  {
    RootMonotone(r, s, c.downloaded, d.downloaded);
    if d.uploaded > 0 {
      QuotientMonotone(c.downloaded as real * 2.0, d.downloaded as real * 2.0, c.uploaded as real, d.uploaded as real);
    }
  }

  /**
   * Which of its bounds the ratio is, for a client whose bytes count and who has sent at least a million: twice the
   * quotient if that is the least and not below 1, the root if that is; 10 for a client that has taken nothing and
   * whose root is above that; and 1 for anyone who has sent less, or taken more than twice as much.
   */
  lemma RatioExactly(c: Credits, ip: uint32, crypto: bool, root: real)
    requires IsRoot(root, c.downloaded)
    ensures var r := GetScoreRatio(c, ip, crypto, root);
            if !Counts(c, ip, crypto) || c.downloaded < 1000000 then r == 1.0
            else if c.uploaded == 0 then r == if root < 10.0 then root else 10.0
            else
              var twice, up := 2.0 * c.downloaded as real, c.uploaded as real;
              && (twice < up ==> r == 1.0)
              && (up <= twice <= root * up && twice <= 10.0 * up ==> r * up == twice)
              && (root * up < twice && root <= 10.0 ==> r == root)
              && (10.0 * up < twice && 10.0 < root ==> r == 10.0)
  {
    AboveOne(root);
    if c.uploaded > 0 {
      Least(c.downloaded as real * 2.0, c.uploaded as real, root);
    }
  }

  lemma AboveOne(root: real)
    requires root >= 0.0 && root * root >= 2.0
    ensures root > 1.0
  {
    if root <= 1.0 {
      SmallSquare(root);
    }
  }

  lemma SmallSquare(r: real)
    requires 0.0 <= r <= 1.0
    ensures r * r <= 1.0
  {
    var x, y := 1.0 - r, 1.0 + r;
    if x > 0.0 {
      assert x * y > 0.0;
    }
    assert x * y == 1.0 - r * r;
  }

  lemma Least(twice: real, up: real, root: real)
    requires up > 0.0 && root > 1.0
    ensures var r := Clamped(if twice / up > root then root else twice / up);
            && (twice < up ==> r == 1.0)
            && (up <= twice <= root * up && twice <= 10.0 * up ==> r * up == twice)
            && (root * up < twice && root <= 10.0 ==> r == root)
            && (10.0 * up < twice && 10.0 < root ==> r == 10.0)
  {
    var q := twice / up;
    assert q * up == twice;
    Ordered(q, 1.0, up);
    Ordered(q, root, up);
    Ordered(q, 10.0, up);
    Between(q, root);
  }

  lemma Between(q: real, root: real)
    requires root > 1.0
    ensures var r := Clamped(if q > root then root else q);
            && (q < 1.0 ==> r == 1.0) && (1.0 <= q <= root && q <= 10.0 ==> r == q)
            && (root < q && root <= 10.0 ==> r == root) && (10.0 < q && 10.0 < root ==> r == 10.0)
  {
  }

  lemma Ordered(a: real, b: real, up: real)
    requires up > 0.0
    ensures a < b <==> a * up < b * up
    ensures a == b <==> a * up == b * up
  {
    if a < b {
      assert (b - a) * up > 0.0;
      assert b * up - a * up == (b - a) * up;
    } else if b < a {
      assert (a - b) * up > 0.0;
      assert a * up - b * up == (a - b) * up;
    }
  }
}
