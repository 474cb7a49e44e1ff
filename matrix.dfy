/**
 * The two ways `calcpca` turns the flat column-major dosage buffer `G`
 * (N entries per kept site) and the column means `AF` into the matrix that
 * is decomposed: `DatatoMatrix` writes the N x M matrix of centred (and for
 * covn == 1 standardised) dosages, `DatatoSymmMatrix` the symmetric N x N
 * matrix of bias-corrected cross-products.
 */
module MatrixFill {
  import opened Common
  import SiteSelection

  // ------------------------------------------------------- centred matrix

  /**
   * The value `DatatoMatrix` leaves at row `j`, column `i`: the dosage
   * `G[i*N + j]` minus the column mean, and for covn == 1 divided by
   * sqrt(2p(1-p)) with p = AF[i]/2.
   */
  function CentredEntry(G: seq<real>, AF: seq<real>, N: nat, M: nat, i: nat, j: nat, covn: int, invSqrt: real -> real): real
    requires i < M <= |AF| && j < N && N * M <= |G|
  {
    var x := At(G, N, M, i, j) - AF[i];
    if covn == 1 then
      x * InvSd(invSqrt, 0.5 * AF[i])
    else x
  }

  /** The entries of column `i`, top to bottom. */
  function CentredColumn(G: seq<real>, AF: seq<real>, N: nat, M: nat, i: nat, covn: int, invSqrt: real -> real): (r: seq<real>)
    requires i < M <= |AF| && N * M <= |G|
    ensures |r| == N
  {
    seq(N, j requires 0 <= j < N => CentredEntry(G, AF, N, M, i, j, covn, invSqrt))
  }

  /**
   * Fill `A` (rows = samples, columns = sites) as `DatatoMatrix` does: a
   * running cursor `ct` copies the buffer column by column, then each
   * column is centred and, for covn == 1, scaled.
   */
  method FillCentred(A: array2<real>, G: seq<real>, AF: seq<real>, N: nat, M: nat, covn: int, invSqrt: real -> real)
    requires A.Length0 == N && A.Length1 == M
    requires N * M <= |G| && M <= |AF|
    modifies A
    ensures forall j, i :: 0 <= j < N && 0 <= i < M ==>
      A[j, i] == CentredEntry(G, AF, N, M, i, j, covn, invSqrt)
  {
    for i := 0 to M
      invariant forall j', i' :: 0 <= j' < N && 0 <= i' < i ==>
        A[j', i'] == CentredEntry(G, AF, N, M, i', j', covn, invSqrt)
    {
      FillColumn(A, G, AF, N, M, i, covn, invSqrt);
    }
  }

  /** One iteration of the outer loop of `DatatoMatrix`: column `i` only; the cursor `ct` is `i*N` on entry. */
  method FillColumn(A: array2<real>, G: seq<real>, AF: seq<real>, N: nat, M: nat, i: nat, covn: int, invSqrt: real -> real)
    requires A.Length0 == N && A.Length1 == M && i < M
    requires N * M <= |G| && M <= |AF|
    modifies A
    ensures forall j :: 0 <= j < N ==>
      A[j, i] == CentredEntry(G, AF, N, M, i, j, covn, invSqrt)
    ensures forall j, i' :: 0 <= j < N && 0 <= i' < M && i' != i ==> A[j, i'] == old(A[j, i'])
  {
    CopyColumn(A, G, N, M, i);
    CentreColumn(A, G, AF, N, M, i, covn, invSqrt);
  }

  /** The first inner loop: `A(j,i) = G[ct++]`. */
  method CopyColumn(A: array2<real>, G: seq<real>, N: nat, M: nat, i: nat)
    requires A.Length0 == N && A.Length1 == M && i < M && N * M <= |G|
    modifies A
    ensures forall j :: 0 <= j < N ==> A[j, i] == At(G, N, M, i, j)
    ensures forall j, i' :: 0 <= j < N && 0 <= i' < M && i' != i ==> A[j, i'] == old(A[j, i'])
  {
    var ct := i * N;
    for j := 0 to N
      invariant ct == i * N + j
      invariant forall j' :: 0 <= j' < j ==> A[j', i] == At(G, N, M, i, j')
      invariant forall j', i' :: 0 <= j' < N && 0 <= i' < M && i' != i ==> A[j', i'] == old(A[j', i'])
    {
      IndexBound(i, j, N, M);
      A[j, i] := G[ct];
      ct := ct + 1;
    }
  }

  /** The second inner loop: subtract the mean and, for covn == 1, divide by sqrt(2p(1-p)). */
  method CentreColumn(A: array2<real>, G: seq<real>, AF: seq<real>, N: nat, M: nat, i: nat, covn: int, invSqrt: real -> real)
    requires A.Length0 == N && A.Length1 == M && i < M
    requires N * M <= |G| && M <= |AF|
    requires forall j :: 0 <= j < N ==> A[j, i] == At(G, N, M, i, j)
    modifies A
    ensures forall j :: 0 <= j < N ==>
      A[j, i] == CentredEntry(G, AF, N, M, i, j, covn, invSqrt)
    ensures forall j, i' :: 0 <= j < N && 0 <= i' < M && i' != i ==> A[j, i'] == old(A[j, i'])
  {
    for j := 0 to N
      invariant forall j' :: 0 <= j' < j ==>
        A[j', i] == CentredEntry(G, AF, N, M, i, j', covn, invSqrt)
      invariant forall j' :: j <= j' < N ==> A[j', i] == At(G, N, M, i, j')
      invariant forall j', i' :: 0 <= j' < N && 0 <= i' < M && i' != i ==> A[j', i'] == old(A[j', i'])
    {
      A[j, i] := A[j, i] - AF[i];
      if covn == 1 {
        var p := 0.5 * AF[i];
        A[j, i] := A[j, i] * InvSd(invSqrt, p);
      }
    }
  }

  /** Without scaling, column `i` of the matrix is column `i` of the buffer shifted by `AF[i]`. */
  lemma CentredColumnIsShifted(G: seq<real>, AF: seq<real>, N: nat, M: nat, i: nat, covn: int, invSqrt: real -> real)
    requires covn != 1 && i < M <= |AF| && N * M <= |G|
    ensures i * N + N <= |G|
    ensures CentredColumn(G, AF, N, M, i, covn, invSqrt) == Centred(ColumnSlice(G, i, N), AF[i])
  {
    if N > 0 {
      IndexBound(i, 0, N, M);
    }
  }

  /** With covn == 1, column `i` of the matrix is the shifted buffer column times 1/sqrt(2p(1-p)). */
  lemma CentredColumnIsScaled(G: seq<real>, AF: seq<real>, N: nat, M: nat, i: nat, invSqrt: real -> real)
    requires i < M <= |AF| && N * M <= |G|
    ensures i * N + N <= |G|
    ensures CentredColumn(G, AF, N, M, i, 1, invSqrt) ==
      Scaled(Centred(ColumnSlice(G, i, N), AF[i]), InvSd(invSqrt, 0.5 * AF[i]))
  {
    if N > 0 {
      IndexBound(i, 0, N, M);
      var col := ColumnSlice(G, i, N);
      forall j | 0 <= j < N
        ensures CentredColumn(G, AF, N, M, i, 1, invSqrt)[j] == Scaled(Centred(col, AF[i]), InvSd(invSqrt, 0.5 * AF[i]))[j]
      {
        IndexBound(i, j, N, M);
        assert col[j] == At(G, N, M, i, j);
      }
    }
  }

  /**
   * A column whose `AF` entry is the mean of its buffer column sums to zero
   * over the samples, centred only or also scaled (covn == 1).
   */
  lemma CentredColumnSumsToZero(G: seq<real>, AF: seq<real>, N: nat, M: nat, i: nat, covn: int, invSqrt: real -> real)
    requires N >= 1 && i < M <= |AF| && N * M <= |G|
    requires i * N + N <= |G| && AF[i] == Sum(ColumnSlice(G, i, N)) / (N as real)
    ensures Sum(CentredColumn(G, AF, N, M, i, covn, invSqrt)) == 0.0
  {
    var col := ColumnSlice(G, i, N);
    CentredOnMeanSumsToZero(col);
    if covn == 1 {
      CentredColumnIsScaled(G, AF, N, M, i, invSqrt);
      ScaledSum(Centred(col, AF[i]), InvSd(invSqrt, 0.5 * AF[i]));
    } else {
      CentredColumnIsShifted(G, AF, N, M, i, covn, invSqrt);
    }
  }

  /**
   * Three samples with dosages (0, 1, 2) at one site and (2, 1, 0) at the
   * other, both with mean dosage 1: after standardisation the two columns
   * are exact negatives of each other.
   */
  lemma MirroredSitesStandardizeOpposite(invSqrt: real -> real)
    ensures var G, AF := [0.0, 1.0, 2.0, 2.0, 1.0, 0.0], [1.0, 1.0];
      forall j :: 0 <= j < 3 ==> CentredEntry(G, AF, 3, 2, 0, j, 1, invSqrt) == -CentredEntry(G, AF, 3, 2, 1, j, 1, invSqrt)
  {
    var G, AF := [0.0, 1.0, 2.0, 2.0, 1.0, 0.0], [1.0, 1.0];
    forall j | 0 <= j < 3
      ensures CentredEntry(G, AF, 3, 2, 0, j, 1, invSqrt) == -CentredEntry(G, AF, 3, 2, 1, j, 1, invSqrt)
    {
      assert At(G, 3, 2, 0, j) == G[j] && At(G, 3, 2, 1, j) == G[3 + j];
      assert G[j] - 1.0 == -(G[3 + j] - 1.0);
    }
  }

  /**
   * The matrix built from a successful selection pass: centred or
   * standardised, every one of its columns sums to zero, because `AF` holds
   * the mean of each staged column.
   */
  lemma SelectedColumnsSumToZero(cfg: SiteSelection.Config, rs: seq<SiteSelection.Line>, i: nat, covn: int, invSqrt: real -> real)
    requires SiteSelection.WellFormed(cfg, rs) && cfg.N >= 1 && SiteSelection.Scanned(cfg, rs).Ok?
    requires i < SiteSelection.Scanned(cfg, rs).value.nkept
    ensures var s := SiteSelection.Scanned(cfg, rs).value;
      cfg.N * s.nkept <= |s.G| && s.nkept <= |s.AF| &&
      Sum(CentredColumn(s.G, s.AF, cfg.N, s.nkept, i, covn, invSqrt)) == 0.0
  {
    var s := SiteSelection.Scanned(cfg, rs).value;
    SiteSelection.ScanCounters(cfg, rs);
    SiteSelection.ColumnsAreKeptDosages(cfg, rs);
    assert SiteSelection.KeptColumn(cfg, rs, s, i);
    CentredColumnSumsToZero(s.G, s.AF, cfg.N, s.nkept, i, covn, invSqrt);
  }

  /**
   * For covn == 1 every entry is the shared standardisation of its dosage
   * at the frequency AF[i]/2 -- the frequency written to the loadings file
   * and later used by projection.
   */
  lemma ScaledEntryIsStandardized(G: seq<real>, AF: seq<real>, N: nat, M: nat, i: nat, j: nat, invSqrt: real -> real)
    requires i < M <= |AF| && j < N && N * M <= |G|
    ensures CentredEntry(G, AF, N, M, i, j, 1, invSqrt) == Standardize(At(G, N, M, i, j), 0.5 * AF[i], invSqrt)
  {
    assert 2.0 * (0.5 * AF[i]) == AF[i];
  }

  // -------------------------------------------------- relationship matrix

  /** `norm` before the division by 4: the sum over the sites of p(1-p) with p = AF[i]/2, accumulated as `0.5*AF[i]*(1 - 0.5*AF[i])`. */
  function HetSum(AF: seq<real>): real
  {
    if |AF| == 0 then 0.0
    else HetSum(AF[..|AF| - 1]) + 0.5 * AF[|AF| - 1] * (1.0 - AF[|AF| - 1] * 0.5)
  }

  /**
   * The contribution of site `i` to entry (j1, j2): the product of the two
   * samples' centred dosages, and on the diagonal minus the correction
   * g(2-g).
   */
  function CrossTerm(G: seq<real>, AF: seq<real>, N: nat, M: nat, i: nat, j1: nat, j2: nat): real
    requires i < M <= |AF| && j1 < N && j2 < N && N * M <= |G|
  {
    if j1 == j2 then DiagTerm(At(G, N, M, i, j1), AF[i])
    else OffTerm(At(G, N, M, i, j1), At(G, N, M, i, j2), AF[i])
  }

  /** A diagonal contribution: the squared centred dosage less the correction g(2-g). */
  function DiagTerm(g: real, mu: real): real
  {
    (g - mu) * (g - mu) - g * (2.0 - g)
  }

  /** An off-diagonal contribution: the product of two centred dosages. */
  function OffTerm(g1: real, g2: real, mu: real): real
  {
    (g1 - mu) * (g2 - mu)
  }

  /** The sum of `CrossTerm` over the first `m` of `M` sites. */
  function CrossSum(G: seq<real>, AF: seq<real>, N: nat, M: nat, m: nat, j1: nat, j2: nat): real
    requires m <= M <= |AF| && j1 < N && j2 < N && N * M <= |G|
  {
    if m == 0 then 0.0
    else CrossSum(G, AF, N, M, m - 1, j1, j2) + CrossTerm(G, AF, N, M, m - 1, j1, j2)
  }

  /** Cross-products are symmetric in the two samples. */
  lemma {:induction false} CrossSumSymmetric(G: seq<real>, AF: seq<real>, N: nat, M: nat, m: nat, j1: nat, j2: nat)
    requires m <= M <= |AF| && j1 < N && j2 < N && N * M <= |G|
    ensures CrossSum(G, AF, N, M, m, j1, j2) == CrossSum(G, AF, N, M, m, j2, j1)
  {
    if m > 0 {
      CrossSumSymmetric(G, AF, N, M, m - 1, j1, j2);
    }
  }

  /** The relationship entry for the pair (j1, j2): the cross-product sum over all M sites divided by `norm`. */
  function Relationship(G: seq<real>, AF: seq<real>, N: nat, M: nat, j1: nat, j2: nat): real
    requires M <= |AF| && j1 < N && j2 < N && N * M <= |G|
    requires HetSum(AF[..M]) != 0.0
  {
    CrossSum(G, AF, N, M, M, j1, j2) / (HetSum(AF[..M]) / 4.0)
  }

  /**
   * Fill `A` as `DatatoSymmMatrix` does: accumulate `norm`, then for every
   * pair j1 <= j2 sum the cross terms into A(j1, j2), divide by `norm` and
   * mirror the value into A(j2, j1).
   */
  method FillRelationship(A: array2<real>, G: seq<real>, AF: seq<real>, N: nat, M: nat)
    requires A.Length0 == N && A.Length1 == N
    requires N * M <= |G| && M <= |AF|
    requires HetSum(AF[..M]) != 0.0
    modifies A
    ensures forall j1, j2 :: 0 <= j1 < N && 0 <= j2 < N ==> A[j1, j2] == Relationship(G, AF, N, M, j1, j2)
    ensures forall j1, j2 :: 0 <= j1 < N && 0 <= j2 < N ==> A[j1, j2] == A[j2, j1]
  {
    var norm := NormOf(AF, M);
    for j1 := 0 to N
      invariant forall a, b :: 0 <= a < j1 && a <= b < N ==>
        A[a, b] == Relationship(G, AF, N, M, a, b) && A[b, a] == Relationship(G, AF, N, M, a, b)
    {
      for j2 := j1 to N
        invariant forall a, b :: 0 <= a < j1 && a <= b < N ==>
          A[a, b] == Relationship(G, AF, N, M, a, b) && A[b, a] == Relationship(G, AF, N, M, a, b)
        invariant forall b :: j1 <= b < j2 ==>
          A[j1, b] == Relationship(G, AF, N, M, j1, b) && A[b, j1] == Relationship(G, AF, N, M, j1, b)
      {
        FillPair(A, G, AF, N, M, j1, j2, norm);
      }
    }
    forall j1, j2 | 0 <= j1 < N && 0 <= j2 < N
      ensures A[j1, j2] == Relationship(G, AF, N, M, j1, j2)
    {
      if j2 < j1 {
        CrossSumSymmetric(G, AF, N, M, M, j1, j2);
      }
    }
  }

  /** The first loop of `DatatoSymmMatrix`: `norm` is the accumulated sum divided by 4. */
  method NormOf(AF: seq<real>, M: nat) returns (norm: real)
    requires M <= |AF|
    ensures norm == HetSum(AF[..M]) / 4.0
  {
    norm := 0.0;
    for i := 0 to M
      invariant norm == HetSum(AF[..i])
    {
      assert AF[..i + 1][..i] == AF[..i];
      norm := norm + 0.5 * AF[i] * (1.0 - AF[i] * 0.5);
    }
    norm := norm / 4.0;
  }

  /** The body of the pair loop: entry (j1, j2) is accumulated in place, divided and mirrored. */
  method FillPair(A: array2<real>, G: seq<real>, AF: seq<real>, N: nat, M: nat, j1: nat, j2: nat, norm: real)
    requires A.Length0 == N && A.Length1 == N && j1 <= j2 < N
    requires N * M <= |G| && M <= |AF|
    requires HetSum(AF[..M]) != 0.0 && norm == HetSum(AF[..M]) / 4.0
    modifies A
    ensures A[j1, j2] == Relationship(G, AF, N, M, j1, j2) && A[j2, j1] == Relationship(G, AF, N, M, j1, j2)
    ensures forall a, b :: 0 <= a < N && 0 <= b < N && !(a == j1 && b == j2) && !(a == j2 && b == j1) ==>
      A[a, b] == old(A[a, b])
  {
    AccumulatePair(A, G, AF, N, M, j1, j2);
    A[j1, j2] := A[j1, j2] / norm;
    A[j2, j1] := A[j1, j2];
  }

  /** The site loop for one pair: A(j1, j2) is reset and the cross terms are added into it. */
  method AccumulatePair(A: array2<real>, G: seq<real>, AF: seq<real>, N: nat, M: nat, j1: nat, j2: nat)
    requires A.Length0 == N && A.Length1 == N && j1 < N && j2 < N
    requires N * M <= |G| && M <= |AF|
    modifies A
    ensures A[j1, j2] == CrossSum(G, AF, N, M, M, j1, j2)
    ensures forall a, b :: 0 <= a < N && 0 <= b < N && !(a == j1 && b == j2) ==> A[a, b] == old(A[a, b])
  {
    A[j1, j2] := 0.0;
    if j1 == j2 {
      AccumulateDiagonal(A, G, AF, N, M, j1);
    } else {
      AccumulateOffDiagonal(A, G, AF, N, M, j1, j2);
    }
  }

  /** Lines 349-352: the diagonal sum, added onto A(j, j). */
  method AccumulateDiagonal(A: array2<real>, G: seq<real>, AF: seq<real>, N: nat, M: nat, j: nat)
    requires A.Length0 == N && A.Length1 == N && j < N
    requires N * M <= |G| && M <= |AF|
    modifies A
    ensures A[j, j] == old(A[j, j]) + CrossSum(G, AF, N, M, M, j, j)
    ensures forall a, b :: 0 <= a < N && 0 <= b < N && !(a == j && b == j) ==> A[a, b] == old(A[a, b])
  {
    for i := 0 to M
      invariant A[j, j] == old(A[j, j]) + CrossSum(G, AF, N, M, i, j, j)
      invariant forall a, b :: 0 <= a < N && 0 <= b < N && !(a == j && b == j) ==> A[a, b] == old(A[a, b])
    {
      IndexBound(i, j, N, M);
      A[j, j] := A[j, j] + DiagTerm(G[i * N + j], AF[i]);
    }
  }

  /** Lines 356-359: the off-diagonal sum, added onto A(j1, j2). */
  method AccumulateOffDiagonal(A: array2<real>, G: seq<real>, AF: seq<real>, N: nat, M: nat, j1: nat, j2: nat)
    requires A.Length0 == N && A.Length1 == N && j1 < N && j2 < N && j1 != j2
    requires N * M <= |G| && M <= |AF|
    modifies A
    ensures A[j1, j2] == old(A[j1, j2]) + CrossSum(G, AF, N, M, M, j1, j2)
    ensures forall a, b :: 0 <= a < N && 0 <= b < N && !(a == j1 && b == j2) ==> A[a, b] == old(A[a, b])
  {
    for i := 0 to M
      invariant A[j1, j2] == old(A[j1, j2]) + CrossSum(G, AF, N, M, i, j1, j2)
      invariant forall a, b :: 0 <= a < N && 0 <= b < N && !(a == j1 && b == j2) ==> A[a, b] == old(A[a, b])
    {
      IndexBound(i, j1, N, M);
      IndexBound(i, j2, N, M);
      A[j1, j2] := A[j1, j2] + OffTerm(G[i * N + j1], G[i * N + j2], AF[i]);
    }
  }

  // ------------------------------------------------------ allocation

  /**
   * Lines 556-561 as written: `vsize` starts at M, A is allocated with it,
   * and only then does the relationship case set `vsize` to N -- the value
   * the fill, the decomposition and the V matrix go on to use.
   */
  method AllocateAsWritten(N: nat, M: nat, covn: int) returns (A: array2<real>, vsize: nat)
    ensures fresh(A) && A.Length0 == N && A.Length1 == M
    ensures vsize == MatrixColumns(N, M, covn)
    ensures covn >= 2 && M != N ==> A.Length1 != vsize
  {
    vsize := M;
    A := new real[N, vsize];
    if covn >= 2 {
      vsize := N;
    }
  }

  /** The number of columns each fill needs: N for the relationship matrix, M otherwise. */
  function MatrixColumns(N: nat, M: nat, covn: int): (c: nat)
    ensures covn >= 2 ==> c == N
    ensures covn < 2 ==> c == M
  {
    if covn >= 2 then N else M
  }

  /**
   * The matrix construction of `calcpca` with the shape each fill needs:
   * covn >= 2 gives the N x N relationship matrix, otherwise the N x M
   * centred (covn == 1: standardised) matrix.
   */
  method BuildMatrix(G: seq<real>, AF: seq<real>, N: nat, M: nat, covn: int, invSqrt: real -> real)
    returns (A: array2<real>)
    requires N * M <= |G| && M <= |AF|
    requires covn >= 2 ==> HetSum(AF[..M]) != 0.0
    ensures fresh(A)
    ensures A.Length0 == N && A.Length1 == MatrixColumns(N, M, covn)
    ensures covn >= 2 ==> forall j1, j2 :: 0 <= j1 < N && 0 <= j2 < N ==>
      A[j1, j2] == Relationship(G, AF, N, M, j1, j2) && A[j1, j2] == A[j2, j1]
    ensures covn < 2 ==> forall j, i :: 0 <= j < N && 0 <= i < M ==>
      A[j, i] == CentredEntry(G, AF, N, M, i, j, covn, invSqrt)
  {
    var vsize := M;
    if covn >= 2 {
      vsize := N;
    }
    A := new real[N, vsize];
    if covn >= 2 {
      FillRelationship(A, G, AF, N, M);
    } else {
      FillCentred(A, G, AF, N, M, covn, invSqrt);
    }
  }

  /**
   * Three samples, two kept sites and `-C 2`: the buffer allocated as
   * written has two columns while `vsize` -- the width the relationship
   * fill, the decomposition and V go on to use -- is three, so it does not
   * have the shape the fill requires; the corrected construction's buffer
   * does, and holds every relationship entry.
   */
  method AllocationCounterexample(G: seq<real>, AF: seq<real>, invSqrt: real -> real)
    returns (A: array2<real>, vsize: nat, B: array2<real>)
    requires |G| >= 6 && |AF| >= 2 && HetSum(AF[..2]) != 0.0
    ensures A.Length0 == 3 && A.Length1 == 2 && vsize == 3
    ensures B.Length0 == 3 && B.Length1 == 3
    ensures forall j1, j2 :: 0 <= j1 < 3 && 0 <= j2 < 3 ==> B[j1, j2] == Relationship(G, AF, 3, 2, j1, j2)
  {
    A, vsize := AllocateAsWritten(3, 2, 2);
    B := BuildMatrix(G, AF, 3, 2, 2, invSqrt);
  }
}
