/**
 * Projection of samples onto precomputed loadings (`pca`): for every site
 * of the weights file the genotypes are decoded into the dosage buffer
 * `gs`, range-checked, standardised with the site's allele frequency and
 * accumulated into each sample's score vector `PC[n]`; the number of
 * components `nPC` is fixed at the first site with a usable leading weight,
 * and the overlap counters `n0`/`n1` decide at the end whether the run is
 * trusted.
 */
module Projection {
  import opened Common

  /**
   * One record of the synced reader over the sample file (reader 0) and the
   * weights file (reader 1): whether each has a line here, the genotype
   * vector of reader 0 (None when there is no GT field), the INFO/AF values
   * and the INFO/WEIGHT values of reader 1, a NaN weight being None.
   */
  datatype PanelSite = PanelSite(inSample: bool, inPanel: bool, calls: Option<seq<Gt>>,
                                 af: seq<real>, weights: seq<Option<real>>)

  /** `N` samples; `-N` given (`don`) with value `maxn`; `--assume-homref`. */
  datatype PConfig = PConfig(N: nat, don: bool, maxn: int, homref: bool)

  /** The state the read loop updates: dosages, scores, component count and the two line counters. */
  datatype PState = PState(gs: seq<real>, PC: seq<seq<real>>, nPC: nat, n0: nat, n1: nat)

  /**
   * What the source relies on without checking: every weight vector whose
   * leading entry is a number has the same length `width` and no NaN entry.
   */
  predicate Sane(sites: seq<PanelSite>, width: nat)
  {
    forall t :: 0 <= t < |sites| && HasLead(sites[t].weights) ==> Usable(sites[t].weights, width)
  }

  predicate HasLead(w: seq<Option<real>>)
  {
    |w| > 0 && w[0].Some?
  }

  predicate Usable(w: seq<Option<real>>, width: nat)
  {
    |w| == width && forall i :: 0 <= i < |w| ==> w[i].Some?
  }

  // ------------------------------------------------------------- pure rules

  /**
   * The component count chosen at the first usable site: `min(maxn, nwts)`
   * when `-N` was given with a positive value, otherwise `nwts`.
   */
  function ChooseComponents(don: bool, maxn: int, nwts: nat): (r: nat)
    ensures r <= nwts
    ensures don && maxn > 0 ==> r <= maxn
    ensures r == nwts || (don && maxn > 0 && r == maxn)
    ensures nwts >= 1 ==> r >= 1
  {
    if don then (if maxn > 0 then Min(maxn, nwts) else nwts) else nwts
  }

  /**
   * The checks after the loop, with the intended exact test: fewer than 90%
   * of the weight sites present in the sample file (n0/n1 < 0.9, which
   * never holds when n1 == 0 since the quotient is then infinite or NaN),
   * unless `--assume-homref`; then no sample-file line at all. The source's
   * float quotient also rejects exactly 90% (`OverlapVerdictAsWritten`).
   */
  function OverlapVerdict(n0: nat, n1: nat, homref: bool): (r: Option<Fatal>)
    ensures r.None? <==> n0 > 0 && (homref || n1 == 0 || 10 * n0 >= 9 * n1)
    ensures r == Some(LowOverlap) <==> !homref && n1 > 0 && 10 * n0 < 9 * n1
  {
    RatioBelow(n0, n1);
    if !homref && n1 > 0 && (n0 as real) / (n1 as real) < 0.9 then Some(LowOverlap)
    else if n0 == 0 then Some(NoIntersectingSites)
    else None
  }

  /** Over the reals, the quotient test of the overlap check is an integer comparison. */
  lemma RatioBelow(a: nat, b: nat)
    ensures b > 0 ==> ((a as real) / (b as real) < 0.9 <==> 10 * a < 9 * b)
  {
    if b > 0 {
      var q := (a as real) / (b as real);
      QuotientTimes(a as real, b as real);
      ScaleLess(q, 0.9, b as real);
    }
  }

  lemma QuotientTimes(x: real, y: real)
    requires y != 0.0
    ensures (x / y) * y == x
  {
  }

  lemma ScaleLess(q: real, c: real, y: real)
    requires y > 0.0
    ensures q < c <==> q * y < c * y
  {
  }

  // ---------------------------------------------- the overlap test as written

  /** Single-precision floats in [0.5, 1) are the multiples of 1/2^24. */
  const FloatScale: nat := 0x100_0000

  /**
   * The source's test `(float)n0/n1 < 0.9`: the quotient rounded to single
   * precision (to nearest, ties to even) and compared with 0.9. A quotient
   * below 0.5 stays below 0.5 and one of at least 1 stays at least 1; in
   * between the float is m/2^24 for the integer m nearest to n0*2^24/n1, and
   * m/2^24 < 0.9 exactly when m <= 15099494, that is when n0*2^24/n1 is at
   * most 15099494.5. When n1 == 0 the quotient is infinite or NaN and the
   * test fails.
   */
  predicate FloatQuotientBelow(n0: nat, n1: nat)
  {
    n1 > 0 && (2 * n0 < n1 || (n0 < n1 && 2 * FloatScale * n0 <= 30198989 * n1))
  }

  /** While there are fewer than 2^24 weight lines the float test is `10*n0 <= 9*n1`: it also fires at exactly 90%. */
  lemma FloatQuotientBelowExact(n0: nat, n1: nat)
    ensures n1 < FloatScale ==> (FloatQuotientBelow(n0, n1) <==> n1 > 0 && 10 * n0 <= 9 * n1)
  {
  }

  /**
   * The checks after the loop as the source writes them, with the float
   * quotient in place of the exact one.
   */
  function OverlapVerdictAsWritten(n0: nat, n1: nat, homref: bool): (r: Option<Fatal>)
    ensures n1 < FloatScale ==> (r == Some(LowOverlap) <==> !homref && n1 > 0 && 10 * n0 <= 9 * n1)
    ensures r.None? <==> n0 > 0 && (homref || !FloatQuotientBelow(n0, n1))
  {
    FloatQuotientBelowExact(n0, n1);
    if !homref && FloatQuotientBelow(n0, n1) then Some(LowOverlap)
    else if n0 == 0 then Some(NoIntersectingSites)
    else None
  }

  /** While there are fewer than 2^24 weight lines, the float test and the exact one disagree only at exactly 90%. */
  lemma AsWrittenDiffersOnlyAtNinetyPercent(n0: nat, n1: nat, homref: bool)
    requires n1 < FloatScale
    ensures OverlapVerdictAsWritten(n0, n1, homref) != OverlapVerdict(n0, n1, homref)
      <==> !homref && n1 > 0 && 10 * n0 == 9 * n1
  {
  }

  /** 9 of 10 weight lines present: `(float)9/10` is 0.9f, just below 0.9, so the source rejects the run. */
  lemma ExactlyNinetyPercentRejected()
    ensures OverlapVerdictAsWritten(9, 10, false) == Some(LowOverlap)
    ensures OverlapVerdict(9, 10, false) == None
  {
  }

  // ---------------------------------------------------------------- decoding

  /** Every call in the vector is missing or names the reference or the first alternate allele. */
  predicate TwoAlleles(c: seq<Gt>)
  {
    forall k :: 0 <= k < |c| ==> c[k] in {Missing, Allele(0), Allele(1)}
  }

  /** `ngt`: 2N when the sample file has no line here, otherwise the length of the decoded vector (-1 if none). */
  function Ngt(cfg: PConfig, r: PanelSite): int
  {
    if !r.inSample then 2 * cfg.N
    else match r.calls
      case None => -1
      case Some(c) => |c|
  }

  /**
   * The dosage decoded for sample `i`: the sum of its two allele indices
   * when the sample file has the line and both are called, otherwise 0
   * under `--assume-homref` and the expected dosage `2*af` without it.
   */
  function DecodedDosage(cfg: PConfig, r: PanelSite, af: real, i: nat): real
    requires i < cfg.N && Ngt(cfg, r) == 2 * cfg.N
  {
    if r.inSample && r.calls.value[2 * i] != Missing && r.calls.value[2 * i + 1] != Missing then
      (AlleleValue(r.calls.value[2 * i]) + AlleleValue(r.calls.value[2 * i + 1])) as real
    else if cfg.homref then 0.0
    else 2.0 * af
  }

  /**
   * `gs` after decoding: rewritten for a diploid vector, otherwise left as
   * the previous site left it. With a frequency in [0, 1] and calls that
   * only ever name allele 0 or 1, every rewritten dosage lies in [0, 2], so
   * the range check of the sample loop does not fire.
   */
  function Decoded(cfg: PConfig, r: PanelSite, af: real, gs: seq<real>): (d: seq<real>)
    requires |gs| == cfg.N
    ensures |d| == cfg.N
    ensures Ngt(cfg, r) != 2 * cfg.N ==> d == gs
    ensures Ngt(cfg, r) == 2 * cfg.N && 0.0 <= af <= 1.0 && (r.inSample ==> TwoAlleles(r.calls.value)) ==>
      forall i :: 0 <= i < cfg.N ==> 0.0 <= d[i] <= 2.0
  {
    if Ngt(cfg, r) == 2 * cfg.N then seq(cfg.N, i requires 0 <= i < cfg.N => DecodedDosage(cfg, r, af, i))
    else gs
  }

  // -------------------------------------------------------------- one sample

  /** `2p(1-p)`, the variance whose square root divides the centred dosage. */
  function Variance(p: real): real
  {
    2.0 * p * (1.0 - p)
  }

  /** `PC[n]` before the update: kept when it already has `k` entries, else `k` zeros. */
  function RowBase(row: seq<real>, k: nat): (b: seq<real>)
    ensures |b| == k
  {
    if |row| != k then seq(k, _ => 0.0) else row
  }

  /** The row after `PC[n][i] += wts[i]*z` for every i < k. */
  function Accumulated(base: seq<real>, w: seq<Option<real>>, z: real): (r: seq<real>)
    requires |base| <= |w| && forall i :: 0 <= i < |base| ==> w[i].Some?
    ensures |r| == |base|
  {
    seq(|base|, i requires 0 <= i < |base| => base[i] + w[i].value * z)
  }

  /** The component count in force after a usable sample: the current one, or the choice if none yet. */
  function NextComponents(cfg: PConfig, nPC: nat, nwts: nat): nat
  {
    if nPC == 0 then ChooseComponents(cfg.don, cfg.maxn, nwts) else nPC
  }

  /**
   * The body of the sample loop for sample `n` at site `t` with frequency
   * `af` and weights `w` (lines 192-244): range check, weight presence,
   * the NaN lead skip, standardisation, the one-time choice of `nPC`, the
   * row reset and accumulation, and the NaN abort -- which, over reals, is
   * taken exactly when `2af(1-af)` is not positive.
   */
  function SampleStep(cfg: PConfig, t: nat, af: real, w: seq<Option<real>>, st: PState, n: nat, invSqrt: real -> real): (r: Result<PState>)
    requires n < cfg.N && |st.gs| == cfg.N && |st.PC| == cfg.N
    requires HasLead(w) ==> Usable(w, |w|) && (st.nPC == 0 || st.nPC == ChooseComponents(cfg.don, cfg.maxn, |w|))
    ensures r.Fail? <==> !(0.0 <= st.gs[n] <= 2.0) || |w| == 0 || (w[0].Some? && Variance(af) <= 0.0)
    ensures r.Fail? ==> r.error in {DosageOutOfRange(t, n), NoWeights(t), NotANumber(t, n)}
    ensures !(0.0 <= st.gs[n] <= 2.0) ==> r == Fail(DosageOutOfRange(t, n))
    ensures 0.0 <= st.gs[n] <= 2.0 && |w| == 0 ==> r == Fail(NoWeights(t))
    ensures 0.0 <= st.gs[n] <= 2.0 && |w| > 0 && w[0].None? ==> r == Ok(st)
    ensures 0.0 <= st.gs[n] <= 2.0 && HasLead(w) && Variance(af) <= 0.0 ==> r == Fail(NotANumber(t, n))
    ensures r.Ok? ==> |r.value.gs| == cfg.N && |r.value.PC| == cfg.N && r.value.n0 == st.n0 && r.value.n1 == st.n1
    ensures r.Ok? ==> forall m :: 0 <= m < cfg.N && m != n ==> r.value.gs[m] == st.gs[m] && r.value.PC[m] == st.PC[m]
    ensures r.Ok? && HasLead(w) ==> r.value.nPC >= 1 && |r.value.PC[n]| == r.value.nPC
  {
    var g := st.gs[n];
    if !(0.0 <= g && g <= 2.0) then Fail(DosageOutOfRange(t, n))
    else if |w| == 0 then Fail(NoWeights(t))
    else if w[0].None? then Ok(st)
    else
      var z := Standardize(g, af, invSqrt);
      var k := NextComponents(cfg, st.nPC, |w|);
      var row := Accumulated(RowBase(st.PC[n], k), w, z);
      if Variance(af) <= 0.0 then Fail(NotANumber(t, n))
      else Ok(st.(gs := st.gs[n := z], PC := st.PC[n := row], nPC := k))
  }

  /** The sample loop over samples `0..n-1`. */
  function Samples(cfg: PConfig, t: nat, af: real, w: seq<Option<real>>, st: PState, n: nat, invSqrt: real -> real): (r: Result<PState>)
    requires n <= cfg.N && |st.gs| == cfg.N && |st.PC| == cfg.N
    requires HasLead(w) ==> Usable(w, |w|) && (st.nPC == 0 || st.nPC == ChooseComponents(cfg.don, cfg.maxn, |w|))
    ensures r.Ok? ==> |r.value.gs| == cfg.N && |r.value.PC| == cfg.N
    ensures r.Ok? && HasLead(w) ==> r.value.nPC == 0 || r.value.nPC == ChooseComponents(cfg.don, cfg.maxn, |w|)
    ensures r.Ok? && !HasLead(w) ==> r.value.nPC == st.nPC
    ensures r.Ok? ==> r.value.n0 == st.n0 && r.value.n1 == st.n1
    ensures r.Fail? ==> r.error.DosageOutOfRange? || r.error.NoWeights? || r.error.NotANumber?
  {
    if n == 0 then Ok(st)
    else match Samples(cfg, t, af, w, st, n - 1, invSqrt)
      case Fail(e) => Fail(e)
      case Ok(s) => SampleStep(cfg, t, af, w, s, n - 1, invSqrt)
  }

  // ---------------------------------------------------------------- one site

  /**
   * One iteration of the read loop (lines 132-248): count the line in each
   * file; for a weights-file line, read AF (fatal when absent), decode the
   * genotypes, and when there is exactly one AF value run the sample loop.
   */
  function SiteStep(cfg: PConfig, st: PState, t: nat, r: PanelSite, invSqrt: real -> real): (res: Result<PState>)
    requires |st.gs| == cfg.N && |st.PC| == cfg.N
    requires HasLead(r.weights) ==>
      Usable(r.weights, |r.weights|) && (st.nPC == 0 || st.nPC == ChooseComponents(cfg.don, cfg.maxn, |r.weights|))
    ensures res.Ok? ==> |res.value.gs| == cfg.N && |res.value.PC| == cfg.N
    ensures res.Ok? ==> res.value.n0 == st.n0 + (if r.inSample then 1 else 0)
    ensures res.Ok? ==> res.value.n1 == st.n1 + (if r.inPanel then 1 else 0)
    ensures !r.inPanel || |r.af| > 1 ==> res.Ok? && res.value.PC == st.PC && res.value.nPC == st.nPC
    ensures r.inPanel && |r.af| == 0 <==> res == Fail(NoAlleleFrequency(t))
  {
    var st1 := st.(n1 := st.n1 + (if r.inPanel then 1 else 0), n0 := st.n0 + (if r.inSample then 1 else 0));
    if !r.inPanel then Ok(st1)
    else if |r.af| == 0 then Fail(NoAlleleFrequency(t))
    else
      var st2 := st1.(gs := Decoded(cfg, r, r.af[0], st.gs));
      if |r.af| != 1 then Ok(st2)
      else Samples(cfg, t, r.af[0], r.weights, st2, cfg.N, invSqrt)
  }

  /** The state before the first record: `gs` all 0 and every row empty. */
  function Initial(N: nat): (st: PState)
    ensures |st.gs| == N && |st.PC| == N && st.nPC == 0
  {
    PState(seq(N, _ => 0.0), seq(N, _ => []), 0, 0, 0)
  }

  /** The state after the records `sites`, or the first fatal condition. */
  function Projected(cfg: PConfig, sites: seq<PanelSite>, width: nat, invSqrt: real -> real): (r: Result<PState>)
    requires Sane(sites, width)
    ensures r.Ok? ==> |r.value.gs| == cfg.N && |r.value.PC| == cfg.N
    ensures r.Ok? ==> r.value.nPC == 0 || r.value.nPC == ChooseComponents(cfg.don, cfg.maxn, width)
  {
    if |sites| == 0 then Ok(Initial(cfg.N))
    else
      var pre := sites[..|sites| - 1];
      assert Sane(pre, width) by {
        assert forall t :: 0 <= t < |pre| ==> pre[t] == sites[t];
      }
      match Projected(cfg, pre, width, invSqrt)
      case Fail(e) => Fail(e)
      case Ok(s) => SiteStep(cfg, s, |sites| - 1, sites[|sites| - 1], invSqrt)
  }

  /** The whole projection: no samples, the loop, then the overlap checks; the result is the score rows. */
  function Outcome(cfg: PConfig, sites: seq<PanelSite>, width: nat, invSqrt: real -> real): (res: Result<seq<seq<real>>>)
    requires Sane(sites, width)
    ensures cfg.N == 0 ==> res == Fail(NoSamples)
    ensures res.Ok? ==> |res.value| == cfg.N
  {
    if cfg.N == 0 then Fail(NoSamples)
    else match Projected(cfg, sites, width, invSqrt)
      case Fail(e) => Fail(e)
      case Ok(s) =>
        match OverlapVerdict(s.n0, s.n1, cfg.homref)
        case Some(e) => Fail(e)
        case None => Ok(s.PC)
  }

  // ----------------------------------------------------------------- methods

  /** Decodes the genotypes of record `r` into `gs` (lines 156-183). */
  method DecodeSite(cfg: PConfig, r: PanelSite, af: real, gs: array<real>)
    requires gs.Length == cfg.N
    modifies gs
    ensures gs[..] == Decoded(cfg, r, af, old(gs[..]))
  {
    var ngt := 2 * cfg.N;
    if r.inSample {
      ngt := match r.calls case None => -1 case Some(c) => |c|;
    }
    if ngt == 2 * cfg.N {
      var i := 0;
      while i < 2 * cfg.N
        invariant i % 2 == 0 && 0 <= i <= 2 * cfg.N
        invariant forall k :: 0 <= k < i / 2 ==> gs[k] == DecodedDosage(cfg, r, af, k)
        invariant forall k :: i / 2 <= k < cfg.N ==> gs[k] == old(gs[k])
      {
        var d;
        if r.inSample && r.calls.value[i] != Missing && r.calls.value[i + 1] != Missing {
          d := (AlleleValue(r.calls.value[i]) + AlleleValue(r.calls.value[i + 1])) as real;
        } else if cfg.homref {
          d := 0.0;
        } else {
          d := 2.0 * af;
        }
        gs[i / 2] := d;
        i := i + 2;
      }
    }
  }

  /** `PC[n][i] += wts[i]*z` for every `i` below the length of row `n` (lines 241-244). */
  method AddWeighted(PC: array<seq<real>>, n: nat, w: seq<Option<real>>, z: real)
    requires n < PC.Length && |PC[n]| <= |w| && forall i :: 0 <= i < |PC[n]| ==> w[i].Some?
    modifies PC
    ensures PC[..] == old(PC[..])[n := Accumulated(old(PC[n]), w, z)]
  {
    ghost var base := PC[n];
    var i := 0;
    while i < |PC[n]|
      invariant 0 <= i <= |PC[n]| == |base|
      invariant forall j :: 0 <= j < i ==> PC[n][j] == base[j] + w[j].value * z
      invariant forall j :: i <= j < |base| ==> PC[n][j] == base[j]
      invariant forall m :: 0 <= m < PC.Length && m != n ==> PC[m] == old(PC[m])
    {
      PC[n] := PC[n][i := PC[n][i] + w[i].value * z];
      i := i + 1;
    }
    assert forall j :: 0 <= j < |base| ==> PC[n][j] == Accumulated(base, w, z)[j];
    assert PC[n] == Accumulated(base, w, z);
    assert PC[..] == old(PC[..])[n := Accumulated(base, w, z)];
  }

  /** One pass of the sample loop (lines 194-249) for sample `n`; `k` is the component count afterwards. */
  method ProjectSample(cfg: PConfig, t: nat, af: real, w: seq<Option<real>>, gs: array<real>, PC: array<seq<real>>,
                       nPC: nat, ghost n0: nat, ghost n1: nat, n: nat, invSqrt: real -> real)
    returns (err: Option<Fatal>, k: nat)
    requires n < cfg.N && gs.Length == cfg.N && PC.Length == cfg.N
    requires HasLead(w) ==> Usable(w, |w|) && (nPC == 0 || nPC == ChooseComponents(cfg.don, cfg.maxn, |w|))
    modifies gs, PC
    ensures SampleStep(cfg, t, af, w, PState(old(gs[..]), old(PC[..]), nPC, n0, n1), n, invSqrt)
      == if err.Some? then Fail(err.value) else Ok(PState(gs[..], PC[..], k, n0, n1))
  {
    k := nPC;
    if !(0.0 <= gs[n] && gs[n] <= 2.0) {
      return Some(DosageOutOfRange(t, n)), k;
    }
    if |w| == 0 {
      return Some(NoWeights(t)), k;
    }
    if w[0].None? {
      return None, k;
    }
    ghost var st := PState(old(gs[..]), old(PC[..]), nPC, n0, n1);
    gs[n] := gs[n] - 2.0 * af;
    gs[n] := gs[n] * InvSd(invSqrt, af);
    ghost var z := Standardize(st.gs[n], af, invSqrt);
    assert gs[n] == z;
    assert forall j :: 0 <= j < gs.Length ==> gs[..][j] == st.gs[n := z][j];
    assert gs[..] == st.gs[n := z];
    k := NextComponents(cfg, k, |w|);
    if |PC[n]| != k {
      PC[n] := seq(k, _ => 0.0);
    }
    assert PC[n] == RowBase(st.PC[n], k);
    AddWeighted(PC, n, w, gs[n]);
    assert PC[..] == st.PC[n := Accumulated(RowBase(st.PC[n], k), w, z)];
    if Variance(af) <= 0.0 {
      return Some(NotANumber(t, n)), k;
    }
    return None, k;
  }

  /** Once a sample fails, the sample loop fails with the same condition. */
  lemma {:induction false} SamplesFailSticks(cfg: PConfig, t: nat, af: real, w: seq<Option<real>>, st: PState, m: nat, n: nat, invSqrt: real -> real)
    requires m <= n <= cfg.N && |st.gs| == cfg.N && |st.PC| == cfg.N
    requires HasLead(w) ==> Usable(w, |w|) && (st.nPC == 0 || st.nPC == ChooseComponents(cfg.don, cfg.maxn, |w|))
    requires Samples(cfg, t, af, w, st, m, invSqrt).Fail?
    ensures Samples(cfg, t, af, w, st, n, invSqrt) == Samples(cfg, t, af, w, st, m, invSqrt)
    decreases n - m
  {
    if m < n {
      SamplesFailSticks(cfg, t, af, w, st, m + 1, n, invSqrt);
    }
  }

  /** The sample loop of one site (lines 191-251). */
  method ProjectSamples(cfg: PConfig, t: nat, af: real, w: seq<Option<real>>, gs: array<real>, PC: array<seq<real>>,
                        nPC: nat, ghost n0: nat, ghost n1: nat, invSqrt: real -> real)
    returns (err: Option<Fatal>, k: nat)
    requires gs.Length == cfg.N && PC.Length == cfg.N
    requires HasLead(w) ==> Usable(w, |w|) && (nPC == 0 || nPC == ChooseComponents(cfg.don, cfg.maxn, |w|))
    modifies gs, PC
    ensures Samples(cfg, t, af, w, PState(old(gs[..]), old(PC[..]), nPC, n0, n1), cfg.N, invSqrt)
      == if err.Some? then Fail(err.value) else Ok(PState(gs[..], PC[..], k, n0, n1))
  {
    ghost var st := PState(gs[..], PC[..], nPC, n0, n1);
    k := nPC;
    var n := 0;
    while n < cfg.N
      invariant 0 <= n <= cfg.N
      invariant Samples(cfg, t, af, w, st, n, invSqrt) == Ok(PState(gs[..], PC[..], k, n0, n1))
    {
      var e;
      e, k := ProjectSample(cfg, t, af, w, gs, PC, k, n0, n1, n, invSqrt);
      if e.Some? {
        SamplesFailSticks(cfg, t, af, w, st, n + 1, cfg.N, invSqrt);
        return e, k;
      }
      n := n + 1;
    }
    return None, k;
  }

  /** One record of the read loop (lines 135-253). */
  method ProjectSite(cfg: PConfig, t: nat, r: PanelSite, gs: array<real>, PC: array<seq<real>>,
                     nPC: nat, n0: nat, n1: nat, invSqrt: real -> real)
    returns (err: Option<Fatal>, k: nat, c0: nat, c1: nat)
    requires gs.Length == cfg.N && PC.Length == cfg.N
    requires HasLead(r.weights) ==>
      Usable(r.weights, |r.weights|) && (nPC == 0 || nPC == ChooseComponents(cfg.don, cfg.maxn, |r.weights|))
    modifies gs, PC
    ensures SiteStep(cfg, PState(old(gs[..]), old(PC[..]), nPC, n0, n1), t, r, invSqrt)
      == if err.Some? then Fail(err.value) else Ok(PState(gs[..], PC[..], k, c0, c1))
  {
    k, c0, c1 := nPC, n0, n1;
    if r.inPanel {
      c1 := c1 + 1;
    }
    if r.inSample {
      c0 := c0 + 1;
    }
    if !r.inPanel {
      return None, k, c0, c1;
    }
    if |r.af| == 0 {
      return Some(NoAlleleFrequency(t)), k, c0, c1;
    }
    var af := r.af[0];
    DecodeSite(cfg, r, af, gs);
    if |r.af| != 1 {
      return None, k, c0, c1;
    }
    err, k := ProjectSamples(cfg, t, af, r.weights, gs, PC, k, c0, c1, invSqrt);
  }

  /** Once a record fails, the read loop fails with the same condition. */
  lemma {:induction false} ProjectedFailSticks(cfg: PConfig, sites: seq<PanelSite>, width: nat, m: nat, invSqrt: real -> real)
    requires m <= |sites| && Sane(sites, width) && Sane(sites[..m], width)
    requires Projected(cfg, sites[..m], width, invSqrt).Fail?
    ensures Projected(cfg, sites, width, invSqrt) == Projected(cfg, sites[..m], width, invSqrt)
    decreases |sites| - m
  {
    if m < |sites| {
      var pre := sites[..m + 1];
      assert pre[..m] == sites[..m];
      assert Sane(pre, width) by {
        assert forall t :: 0 <= t < |pre| ==> pre[t] == sites[t];
      }
      ProjectedFailSticks(cfg, sites, width, m + 1, invSqrt);
    } else {
      assert sites[..m] == sites;
    }
  }

  /**
   * The projection (lines 111-268): the sample count check, the read loop
   * over `sites`, then the two overlap checks; the result is `PC`.
   */
  method Project(cfg: PConfig, sites: seq<PanelSite>, ghost width: nat, invSqrt: real -> real)
    returns (res: Result<seq<seq<real>>>)
    requires Sane(sites, width)
    ensures res == Outcome(cfg, sites, width, invSqrt)
  {
    if cfg.N == 0 {
      return Fail(NoSamples);
    }
    var gs := new real[cfg.N](_ => 0.0);
    var PC := new seq<real>[cfg.N](_ => []);
    var nPC, n0, n1 := 0, 0, 0;
    assert gs[..] == Initial(cfg.N).gs && PC[..] == Initial(cfg.N).PC;
    var t := 0;
    while t < |sites|
      invariant 0 <= t <= |sites| && Sane(sites[..t], width)
      invariant Projected(cfg, sites[..t], width, invSqrt) == Ok(PState(gs[..], PC[..], nPC, n0, n1))
    {
      var e;
      assert HasLead(sites[t].weights) ==> Usable(sites[t].weights, width);
      e, nPC, n0, n1 := ProjectSite(cfg, t, sites[t], gs, PC, nPC, n0, n1, invSqrt);
      assert sites[..t + 1][..t] == sites[..t];
      assert Sane(sites[..t + 1], width) by {
        assert forall u :: 0 <= u < t + 1 ==> sites[..t + 1][u] == sites[u];
      }
      if e.Some? {
        ProjectedFailSticks(cfg, sites, width, t + 1, invSqrt);
        return Fail(e.value);
      }
      t := t + 1;
    }
    assert sites[..t] == sites;
    if !cfg.homref && n1 > 0 && (n0 as real) / (n1 as real) < 0.9 {
      return Fail(LowOverlap);
    }
    if n0 == 0 {
      return Fail(NoIntersectingSites);
    }
    return Ok(PC[..]);
  }

  // ------------------------------------------------------------- properties

  /** A record on which `sites`' weights are projected: a weights-file line with one AF value and a numeric lead weight. */
  predicate Contributes(r: PanelSite)
  {
    r.inPanel && |r.af| == 1 && HasLead(r.weights)
  }

  /** The number of records with a sample-file line (`n0`) and with a weights-file line (`n1`). */
  function SampleFileLines(sites: seq<PanelSite>): nat
  {
    if |sites| == 0 then 0 else SampleFileLines(sites[..|sites| - 1]) + (if sites[|sites| - 1].inSample then 1 else 0)
  }

  function WeightFileLines(sites: seq<PanelSite>): nat
  {
    if |sites| == 0 then 0 else WeightFileLines(sites[..|sites| - 1]) + (if sites[|sites| - 1].inPanel then 1 else 0)
  }

  /**
   * A sample loop over weights without a numeric lead changes nothing, and
   * can only pass a sample when weights are present; every sample it passes
   * had a dosage in [0, 2].
   */
  lemma {:induction false} SamplesWithoutLead(cfg: PConfig, t: nat, af: real, w: seq<Option<real>>, st: PState, m: nat, invSqrt: real -> real)
    requires m <= cfg.N && |st.gs| == cfg.N && |st.PC| == cfg.N && !HasLead(w)
    requires Samples(cfg, t, af, w, st, m, invSqrt).Ok?
    ensures Samples(cfg, t, af, w, st, m, invSqrt).value == st
    ensures m == 0 || |w| > 0
    ensures forall j :: 0 <= j < m ==> 0.0 <= st.gs[j] <= 2.0
  {
    if m > 0 {
      SamplesWithoutLead(cfg, t, af, w, st, m - 1, invSqrt);
    }
  }

  /**
   * What the sample loop over the first `m` samples does when the lead
   * weight is a number: each of those samples had a dosage in [0, 2], its
   * dosage is replaced by the standardised one, and its row becomes the
   * (possibly reset) row plus the weights times that standardised dosage;
   * the other samples are untouched, and `nPC` is fixed once.
   */
  lemma {:induction false} SamplesWithLead(cfg: PConfig, t: nat, af: real, w: seq<Option<real>>, st: PState, m: nat, invSqrt: real -> real)
    requires m <= cfg.N && |st.gs| == cfg.N && |st.PC| == cfg.N
    requires HasLead(w) && Usable(w, |w|) && (st.nPC == 0 || st.nPC == ChooseComponents(cfg.don, cfg.maxn, |w|))
    requires Samples(cfg, t, af, w, st, m, invSqrt).Ok?
    ensures var s := Samples(cfg, t, af, w, st, m, invSqrt).value;
      (m == 0 ==> s.nPC == st.nPC) &&
      (m > 0 ==> s.nPC == NextComponents(cfg, st.nPC, |w|) && Variance(af) > 0.0)
    ensures var s := Samples(cfg, t, af, w, st, m, invSqrt).value;
      var k := NextComponents(cfg, st.nPC, |w|);
      forall j :: 0 <= j < m ==>
        0.0 <= st.gs[j] <= 2.0 &&
        s.gs[j] == Standardize(st.gs[j], af, invSqrt) &&
        s.PC[j] == Accumulated(RowBase(st.PC[j], k), w, Standardize(st.gs[j], af, invSqrt))
    ensures var s := Samples(cfg, t, af, w, st, m, invSqrt).value;
      forall j :: m <= j < cfg.N ==> s.gs[j] == st.gs[j] && s.PC[j] == st.PC[j]
  {
    if m > 0 {
      SamplesWithLead(cfg, t, af, w, st, m - 1, invSqrt);
      var k := NextComponents(cfg, st.nPC, |w|);
      var p := Samples(cfg, t, af, w, st, m - 1, invSqrt).value;
      assert NextComponents(cfg, p.nPC, |w|) == k;
      var z := Standardize(p.gs[m - 1], af, invSqrt);
      var s := Samples(cfg, t, af, w, st, m, invSqrt).value;
      assert s == p.(gs := p.gs[m - 1 := z], PC := p.PC[m - 1 := Accumulated(RowBase(p.PC[m - 1], k), w, z)], nPC := k);
      forall j | 0 <= j < m
        ensures 0.0 <= st.gs[j] <= 2.0 && s.gs[j] == Standardize(st.gs[j], af, invSqrt)
        ensures s.PC[j] == Accumulated(RowBase(st.PC[j], k), w, Standardize(st.gs[j], af, invSqrt))
      {
        if j < m - 1 {
          assert s.gs[j] == p.gs[j] && s.PC[j] == p.PC[j];
        } else {
          assert p.gs[j] == st.gs[j] && p.PC[j] == st.PC[j];
        }
      }
    }
  }

  /**
   * Score row `row` is `before` (or zeros, when no component count was set
   * yet) plus the weights times the standardised dosage `z`, over `k`
   * components.
   */
  predicate ScoreUpdated(before: seq<real>, nPC: nat, k: nat, w: seq<Option<real>>, z: real, row: seq<real>)
    requires k <= |w| && forall j :: 0 <= j < k ==> w[j].Some?
    requires nPC != 0 ==> |before| == k
  {
    |row| == k && forall i :: 0 <= i < k ==> row[i] == (if nPC == 0 then 0.0 else before[i]) + w[i].value * z
  }

  /**
   * A contributing record adds to every sample's score `i` the weight `i`
   * times the sample's standardised decoded dosage -- onto the previous
   * score, or onto zero at the first contributing record -- after checking
   * that every decoded dosage lies in [0, 2]; `nPC` is then fixed.
   */
  lemma {:induction false} ContributingSiteProjects(cfg: PConfig, st: PState, t: nat, r: PanelSite, invSqrt: real -> real)
    requires |st.gs| == cfg.N && |st.PC| == cfg.N && cfg.N > 0 && Contributes(r)
    requires Usable(r.weights, |r.weights|) && (st.nPC == 0 || st.nPC == ChooseComponents(cfg.don, cfg.maxn, |r.weights|))
    requires forall n :: 0 <= n < cfg.N ==> |st.PC[n]| == st.nPC
    requires SiteStep(cfg, st, t, r, invSqrt).Ok?
    ensures var s := SiteStep(cfg, st, t, r, invSqrt).value;
      s.nPC == NextComponents(cfg, st.nPC, |r.weights|) && s.nPC >= 1
    ensures var s := SiteStep(cfg, st, t, r, invSqrt).value;
      var d := Decoded(cfg, r, r.af[0], st.gs);
      forall n :: 0 <= n < cfg.N ==>
        ScoreUpdated(st.PC[n], st.nPC, s.nPC, r.weights, Standardize(d[n], r.af[0], invSqrt), s.PC[n])
    ensures var d := Decoded(cfg, r, r.af[0], st.gs);
      forall n :: 0 <= n < cfg.N ==> 0.0 <= d[n] <= 2.0
  {
    var af := r.af[0];
    var d := Decoded(cfg, r, af, st.gs);
    var st2 := st.(n1 := st.n1 + 1, n0 := st.n0 + (if r.inSample then 1 else 0), gs := d);
    assert SiteStep(cfg, st, t, r, invSqrt) == Samples(cfg, t, af, r.weights, st2, cfg.N, invSqrt);
    SamplesWithLead(cfg, t, af, r.weights, st2, cfg.N, invSqrt);
    var s := Samples(cfg, t, af, r.weights, st2, cfg.N, invSqrt).value;
    var k := NextComponents(cfg, st.nPC, |r.weights|);
    assert s.nPC == k >= 1;
    forall n | 0 <= n < cfg.N
      ensures ScoreUpdated(st.PC[n], st.nPC, k, r.weights, Standardize(d[n], af, invSqrt), s.PC[n])
    {
      assert st2.PC[n] == st.PC[n] && st2.gs[n] == d[n];
      RowUpdate(st.PC[n], st.nPC, k, r.weights, Standardize(d[n], af, invSqrt), s.PC[n]);
    }
  }

  /** Accumulating a possibly reset row gives the updated score row. */
  lemma RowUpdate(before: seq<real>, nPC: nat, k: nat, w: seq<Option<real>>, z: real, row: seq<real>)
    requires |before| == nPC && k >= 1 && (nPC == 0 || nPC == k)
    requires k <= |w| && forall j :: 0 <= j < k ==> w[j].Some?
    requires row == Accumulated(RowBase(before, k), w, z)
    ensures ScoreUpdated(before, nPC, k, w, z, row)
  {
  }

  /** A weights-file record that does not contribute leaves the scores and `nPC` as they were. */
  lemma SkippedSiteKeepsScores(cfg: PConfig, st: PState, t: nat, r: PanelSite, invSqrt: real -> real)
    requires |st.gs| == cfg.N && |st.PC| == cfg.N && !Contributes(r)
    requires HasLead(r.weights) ==>
      Usable(r.weights, |r.weights|) && (st.nPC == 0 || st.nPC == ChooseComponents(cfg.don, cfg.maxn, |r.weights|))
    requires SiteStep(cfg, st, t, r, invSqrt).Ok?
    ensures SiteStep(cfg, st, t, r, invSqrt).value.PC == st.PC
    ensures SiteStep(cfg, st, t, r, invSqrt).value.nPC == st.nPC
    ensures !r.inPanel ==> SiteStep(cfg, st, t, r, invSqrt).value.gs == st.gs
  {
    if r.inPanel && |r.af| == 1 {
      var st2 := st.(n1 := st.n1 + 1, n0 := st.n0 + (if r.inSample then 1 else 0), gs := Decoded(cfg, r, r.af[0], st.gs));
      SamplesWithoutLead(cfg, t, r.af[0], r.weights, st2, cfg.N, invSqrt);
    }
  }

  /**
   * Without `--assume-homref`, a sample with no call at a contributing
   * record (or with the record absent from the sample file) is imputed at
   * its expected dosage and so adds nothing to any of its scores.
   */
  lemma MissingSampleScoresZero(cfg: PConfig, st: PState, t: nat, r: PanelSite, n: nat, invSqrt: real -> real)
    requires |st.gs| == cfg.N && |st.PC| == cfg.N && Contributes(r) && !cfg.homref
    requires Usable(r.weights, |r.weights|) && st.nPC == ChooseComponents(cfg.don, cfg.maxn, |r.weights|)
    requires forall j :: 0 <= j < cfg.N ==> |st.PC[j]| == st.nPC
    requires n < cfg.N && Ngt(cfg, r) == 2 * cfg.N
    requires !(r.inSample && r.calls.value[2 * n] != Missing && r.calls.value[2 * n + 1] != Missing)
    requires SiteStep(cfg, st, t, r, invSqrt).Ok?
    ensures SiteStep(cfg, st, t, r, invSqrt).value.PC[n] == st.PC[n]
  {
    ContributingSiteProjects(cfg, st, t, r, invSqrt);
    var d := Decoded(cfg, r, r.af[0], st.gs);
    assert d[n] == 2.0 * r.af[0];
    ExpectedDosageStandardizesToZero(r.af[0], invSqrt);
    var s := SiteStep(cfg, st, t, r, invSqrt).value;
    assert ScoreUpdated(st.PC[n], st.nPC, s.nPC, r.weights, 0.0, s.PC[n]);
    assert s.PC[n] == st.PC[n];
  }

  /**
   * After the read loop the counters hold the line counts of each file,
   * every score row has `nPC` entries, and `nPC` is 0 exactly when no
   * record contributed.
   */
  lemma {:induction false} ProjectedShape(cfg: PConfig, sites: seq<PanelSite>, width: nat, invSqrt: real -> real)
    requires Sane(sites, width) && Projected(cfg, sites, width, invSqrt).Ok?
    ensures var s := Projected(cfg, sites, width, invSqrt).value;
      s.n0 == SampleFileLines(sites) && s.n1 == WeightFileLines(sites)
    ensures var s := Projected(cfg, sites, width, invSqrt).value;
      forall n :: 0 <= n < cfg.N ==> |s.PC[n]| == s.nPC
    ensures cfg.N > 0 ==>
      (Projected(cfg, sites, width, invSqrt).value.nPC == 0 <==> forall t :: 0 <= t < |sites| ==> !Contributes(sites[t]))
  {
    if |sites| > 0 {
      var pre := sites[..|sites| - 1];
      var r := sites[|sites| - 1];
      assert Sane(pre, width) by {
        assert forall t :: 0 <= t < |pre| ==> pre[t] == sites[t];
      }
      ProjectedShape(cfg, pre, width, invSqrt);
      var p := Projected(cfg, pre, width, invSqrt).value;
      ShapeStep(cfg, p, |sites| - 1, r, invSqrt);
      assert forall t :: 0 <= t < |pre| ==> pre[t] == sites[t];
    }
  }

  /** One record keeps every row `nPC` wide, and leaves `nPC` at 0 exactly when it was 0 and the record does not contribute. */
  lemma ShapeStep(cfg: PConfig, p: PState, t: nat, r: PanelSite, invSqrt: real -> real)
    requires |p.gs| == cfg.N && |p.PC| == cfg.N
    requires HasLead(r.weights) ==>
      Usable(r.weights, |r.weights|) && (p.nPC == 0 || p.nPC == ChooseComponents(cfg.don, cfg.maxn, |r.weights|))
    requires forall n :: 0 <= n < cfg.N ==> |p.PC[n]| == p.nPC
    requires SiteStep(cfg, p, t, r, invSqrt).Ok?
    ensures var s := SiteStep(cfg, p, t, r, invSqrt).value;
      forall n :: 0 <= n < cfg.N ==> |s.PC[n]| == s.nPC
    ensures cfg.N > 0 ==> (SiteStep(cfg, p, t, r, invSqrt).value.nPC == 0 <==> p.nPC == 0 && !Contributes(r))
  {
    if Contributes(r) {
      if cfg.N > 0 {
        ContributingSiteProjects(cfg, p, t, r, invSqrt);
      }
    } else {
      SkippedSiteKeepsScores(cfg, p, t, r, invSqrt);
    }
  }

  /** With no samples, a contributing record changes no score. */
  lemma SampleLoopOfNoSamples(cfg: PConfig, st: PState, t: nat, r: PanelSite, invSqrt: real -> real)
    requires |st.gs| == cfg.N && |st.PC| == cfg.N && cfg.N == 0 && Contributes(r)
    requires Usable(r.weights, |r.weights|) && (st.nPC == 0 || st.nPC == ChooseComponents(cfg.don, cfg.maxn, |r.weights|))
    requires SiteStep(cfg, st, t, r, invSqrt).Ok?
    ensures SiteStep(cfg, st, t, r, invSqrt).value.PC == st.PC
    ensures SiteStep(cfg, st, t, r, invSqrt).value.nPC == st.nPC
  {
  }

  /**
   * A completed read loop is accepted exactly when some record was in the
   * sample file and, unless `--assume-homref`, at least 90% of the
   * weights-file records were; it is then rejected for low overlap exactly
   * when that 90% fails.  An accepted run yields one score row per sample,
   * every row with the same number of components, that number being 0
   * exactly when no record contributed.
   */
  lemma AcceptedRun(cfg: PConfig, sites: seq<PanelSite>, width: nat, invSqrt: real -> real)
    requires Sane(sites, width) && cfg.N > 0 && Projected(cfg, sites, width, invSqrt).Ok?
    ensures var n0, n1 := SampleFileLines(sites), WeightFileLines(sites);
      Outcome(cfg, sites, width, invSqrt).Ok? <==> n0 > 0 && (cfg.homref || n1 == 0 || 10 * n0 >= 9 * n1)
    ensures var n0, n1 := SampleFileLines(sites), WeightFileLines(sites);
      Outcome(cfg, sites, width, invSqrt) == Fail(LowOverlap) <==> !cfg.homref && n1 > 0 && 10 * n0 < 9 * n1
    ensures Outcome(cfg, sites, width, invSqrt).Ok? ==>
      var rows := Outcome(cfg, sites, width, invSqrt).value;
      |rows| == cfg.N &&
      (forall n :: 0 <= n < cfg.N ==> |rows[n]| == |rows[0]|) &&
      (|rows[0]| == 0 <==> forall t :: 0 <= t < |sites| ==> !Contributes(sites[t])) &&
      (|rows[0]| == 0 || |rows[0]| == ChooseComponents(cfg.don, cfg.maxn, width))
  {
    ProjectedShape(cfg, sites, width, invSqrt);
  }

  /** A record with a diploid genotype vector overwrites every dosage: what earlier records left in `gs` plays no part. */
  lemma DiploidSiteIgnoresHistory(cfg: PConfig, r: PanelSite, af: real, gs1: seq<real>, gs2: seq<real>)
    requires |gs1| == cfg.N && |gs2| == cfg.N && Ngt(cfg, r) == 2 * cfg.N
    ensures Decoded(cfg, r, af, gs1) == Decoded(cfg, r, af, gs2)
  {
  }

  /** For a called sample with REF/ALT alleles the decoded dosage is its number of ALT alleles. */
  lemma DosageCountsAltAlleles(cfg: PConfig, r: PanelSite, af: real, gs: seq<real>, i: nat)
    requires |gs| == cfg.N && i < cfg.N && r.inSample && Ngt(cfg, r) == 2 * cfg.N
    requires r.calls.value[2 * i] in {Allele(0), Allele(1)} && r.calls.value[2 * i + 1] in {Allele(0), Allele(1)}
    ensures Decoded(cfg, r, af, gs)[i] ==
      (if r.calls.value[2 * i] == Allele(1) then 1.0 else 0.0) + (if r.calls.value[2 * i + 1] == Allele(1) then 1.0 else 0.0)
  {
  }

  /** With `--assume-homref`, an uncalled sample is decoded as homozygous reference. */
  lemma HomrefImputesZero(cfg: PConfig, r: PanelSite, af: real, gs: seq<real>, i: nat)
    requires |gs| == cfg.N && i < cfg.N && cfg.homref && Ngt(cfg, r) == 2 * cfg.N
    requires !(r.inSample && r.calls.value[2 * i] != Missing && r.calls.value[2 * i + 1] != Missing)
    ensures Decoded(cfg, r, af, gs)[i] == 0.0
  {
  }

  /** A single-AF weights-file record without WEIGHT values is fatal as soon as there is a sample. */
  lemma MissingWeightsAreFatal(cfg: PConfig, st: PState, t: nat, r: PanelSite, invSqrt: real -> real)
    requires |st.gs| == cfg.N && |st.PC| == cfg.N && cfg.N > 0
    requires r.inPanel && |r.af| == 1 && |r.weights| == 0
    ensures SiteStep(cfg, st, t, r, invSqrt).Fail?
  {
    var st2 := st.(n1 := st.n1 + 1, n0 := st.n0 + (if r.inSample then 1 else 0), gs := Decoded(cfg, r, r.af[0], st.gs));
    if Samples(cfg, t, r.af[0], r.weights, st2, cfg.N, invSqrt).Ok? {
      SamplesWithoutLead(cfg, t, r.af[0], r.weights, st2, cfg.N, invSqrt);
    }
  }
}
