/**
 * Values shared by every part of the PCA tool model: genotype calls, the
 * fatal conditions that end a run, result wrappers, sums over reals and the
 * one standardisation rule used both when the matrix is built and when
 * samples are projected.
 */
module Common {

  datatype Option<T> = None | Some(value: T)

  /** Every condition on which the tool prints a diagnostic and exits with status 1. */
  datatype Fatal =
    | NoSamples
    | BadGenotypes(line: nat)
    | FixPloidy(line: nat, sample: nat)
    | NoIntersectingSites
    | NoAlleleFrequency(site: nat)
    | DosageOutOfRange(site: nat, sample: nat)
    | NoWeights(site: nat)
    | NotANumber(site: nat, sample: nat)
    | LowOverlap
    | NoSiteFilter
    | NoInput
    | RegionsTwice
    | RegionsAndTargets

  datatype Result<T> = Ok(value: T) | Fail(error: Fatal)

  /**
   * One entry of a genotype vector, one allele of one sample.  `Missing` is
   * the missing-allele code; `Allele(i)` carries the allele index (0 = REF);
   * `EndOfVector` stands for the negative sentinels the genotype decoder
   * puts after the last allele of a sample with fewer than two alleles.
   */
  datatype Gt = Missing | Allele(index: nat) | EndOfVector

  /**
   * The allele index the decoder extracts from an entry: `(code >> 1) - 1`.
   * Both negative sentinels decode to -1073741825.
   */
  const SentinelAllele: int := -1073741825

  function AlleleValue(g: Gt): (v: int)
    ensures g.Allele? ==> v == g.index && v >= 0
    ensures g.EndOfVector? ==> v < 0
  {
    match g
    case Allele(i) => i
    case EndOfVector => SentinelAllele
    case Missing => 0
  }

  /** Sum of a sequence, accumulated from the front as the loops of the tool do. */
  function Sum(s: seq<real>): real
  {
    if |s| == 0 then 0.0 else Sum(s[..|s| - 1]) + s[|s| - 1]
  }

  /** Every element shifted by `-c`. */
  function Centred(s: seq<real>, c: real): (r: seq<real>)
    ensures |r| == |s|
    ensures forall j :: 0 <= j < |s| ==> r[j] == s[j] - c
  {
    seq(|s|, j requires 0 <= j < |s| => s[j] - c)
  }

  /** Subtracting a constant from every entry lowers the sum by the count times that constant. */
  lemma {:induction false} CentredSum(s: seq<real>, c: real)
    ensures Sum(Centred(s, c)) == Sum(s) - (|s| as real) * c
  {
    if |s| > 0 {
      var p := s[..|s| - 1];
      CentredSum(p, c);
      assert Centred(s, c)[..|s| - 1] == Centred(p, c);
    }
  }

  /** Centring on the arithmetic mean leaves a column whose entries sum to zero. */
  lemma CentredOnMeanSumsToZero(s: seq<real>)
    requires |s| > 0
    ensures Sum(Centred(s, Sum(s) / (|s| as real))) == 0.0
  {
    CentredSum(s, Sum(s) / (|s| as real));
  }

  /** Every element multiplied by `c`. */
  function Scaled(s: seq<real>, c: real): (r: seq<real>)
    ensures |r| == |s|
    ensures forall j :: 0 <= j < |s| ==> r[j] == s[j] * c
  {
    seq(|s|, j requires 0 <= j < |s| => s[j] * c)
  }

  /** Scaling every entry scales the sum. */
  lemma {:induction false} ScaledSum(s: seq<real>, c: real)
    ensures Sum(Scaled(s, c)) == Sum(s) * c
  {
    if |s| > 0 {
      var p := s[..|s| - 1];
      ScaledSum(p, c);
      assert forall j :: 0 <= j < |p| ==> Scaled(s, c)[j] == Scaled(p, c)[j];
      assert Scaled(s, c)[..|s| - 1] == Scaled(p, c);
    }
  }

  function Min(a: int, b: int): int { if a <= b then a else b }

  /** A product bound used for column-major index arithmetic. */
  lemma IndexBound(i: nat, j: nat, n: nat, m: nat)
    requires i < m && j < n
    ensures i * n + j < n * m
    ensures i * n + n <= n * m
  {
    MulMonotone(i + 1, m, n);
    assert (i + 1) * n == i * n + n;
    assert m * n == n * m;
  }

  /** One more factor adds one more `n`. */
  lemma MulSucc(n: nat, k: nat)
    ensures n * (k + 1) == n * k + n
  {
  }

  lemma {:induction false} MulMonotone(a: nat, b: nat, n: nat)
    requires a <= b
    ensures a * n <= b * n
    decreases b - a
  {
    if a < b {
      MulMonotone(a, b - 1, n);
      assert b * n == (b - 1) * n + n;
    }
  }

  /** Column `c` of a flat column-major buffer with `n` rows: entries `c*n .. c*n+n-1`. */
  function ColumnSlice(G: seq<real>, c: nat, n: nat): (r: seq<real>)
    requires c * n + n <= |G|
    ensures |r| == n
  {
    G[c * n .. c * n + n]
  }

  /** Entry (row `j`, column `i`) of a flat column-major buffer with `n` rows and `m` columns. */
  function At(G: seq<real>, n: nat, m: nat, i: nat, j: nat): real
    requires i < m && j < n && n * m <= |G|
  {
    IndexBound(i, j, n, m);
    G[i * n + j]
  }

  /** Appending to a flat buffer leaves its existing columns as they were. */
  lemma SliceOfAppend(G: seq<real>, H: seq<real>, c: nat, n: nat)
    requires c * n + n <= |G|
    ensures ColumnSlice(G + H, c, n) == ColumnSlice(G, c, n)
  {
  }

  /** Appending a column of `n` entries to a buffer of `c` columns makes it column `c`. */
  lemma SliceOfLast(G: seq<real>, H: seq<real>, c: nat, n: nat)
    requires |G| == n * c && |H| == n
    ensures c * n + n <= |G + H|
    ensures ColumnSlice(G + H, c, n) == H
  {
    assert c * n == |G|;
  }

  /**
   * The standardisation shared by matrix construction and projection: the
   * dosage `g` centred on its expectation `2p` and divided by sqrt(2p(1-p)).
   * The reciprocal square root is a parameter: neither its value nor IEEE
   * behaviour at 0 is modelled.
   */
  function Standardize(g: real, p: real, invSqrt: real -> real): real
  {
    (g - 2.0 * p) * InvSd(invSqrt, p)
  }

  /** `1 / sqrt(2p(1-p))`, the reciprocal of the binomial standard deviation of a dosage at frequency `p`. */
  function InvSd(invSqrt: real -> real, p: real): real
  {
    invSqrt(2.0 * p * (1.0 - p))
  }

  /** The expected dosage standardises to exactly zero, whatever the square root. */
  lemma ExpectedDosageStandardizesToZero(p: real, invSqrt: real -> real)
    ensures Standardize(2.0 * p, p, invSqrt) == 0.0
  {
  }
}
