/**
 * Site selection and matrix staging of `calcpca`: one pass over the records
 * of the synced reader that counts alleles, applies the minor-allele filter
 * and the count-then-modulo thinning rule, and appends the dosages of every
 * kept site to the flat column-major buffer `G`, its mean to `AF` and its
 * line number to `sites`.
 */
module SiteSelection {
  import opened Common

  /**
   * One record of the synced reader: whether the sample file (reader 0) and
   * the sites file (reader 1) have a line at this position, and the genotype
   * vector of reader 0 (None when it cannot be decoded).  The vector holds
   * two entries per sample, sample `i` at `2i` and `2i+1`.
   */
  datatype Line = Line(inSample: bool, inPanel: bool, calls: Option<seq<Gt>>)

  /**
   * `N` samples, MAF threshold `maf`, thinning stride `thin`, and whether a
   * sites file was given (`-R`/`-T`), which restricts reading to positions
   * present in both files.
   */
  datatype Config = Config(N: nat, maf: real, thin: nat, usePanel: bool)

  /** The counters and buffers the read loop updates. */
  datatype Scan = Scan(count: nat, nline: nat, nkept: nat, npanel: nat,
                       G: seq<real>, AF: seq<real>, sites: seq<nat>)

  /** A record is used when no sites file is given, or when both files have it. */
  predicate Read(cfg: Config, r: Line)
  {
    !cfg.usePanel || (r.inSample && r.inPanel)
  }

  /**
   * What the reader guarantees: a positive stride, a single reader yields
   * only lines of the sample file, and decoded vectors are diploid (2N entries).
   */
  predicate WellFormed(cfg: Config, rs: seq<Line>)
  {
    && cfg.thin >= 1
    && (forall t :: 0 <= t < |rs| ==> cfg.usePanel || rs[t].inSample)
    && (forall t :: 0 <= t < |rs| && Read(cfg, rs[t]) && rs[t].calls.Some? ==>
          |rs[t].calls.value| == 2 * cfg.N)
  }

  // ---------------------------------------------------------------- counting

  /** `mac` before folding: the sum of the allele indices of all non-missing entries. */
  function AlleleSum(c: seq<Gt>): int
  {
    if |c| == 0 then 0
    else AlleleSum(c[..|c| - 1]) + (if c[|c| - 1].Missing? then 0 else AlleleValue(c[|c| - 1]))
  }

  /** `nmiss`: the number of missing entries. */
  function MissingCount(c: seq<Gt>): (r: nat)
    ensures r <= |c|
  {
    if |c| == 0 then 0
    else MissingCount(c[..|c| - 1]) + (if c[|c| - 1].Missing? then 1 else 0)
  }

  /** `2N - nmiss`, the number of called alleles. */
  function Called(c: seq<Gt>): nat
  {
    |c| - MissingCount(c)
  }

  /** A vector that contains no call has an allele sum of zero. */
  lemma {:induction false} NoCallsNoAlleles(c: seq<Gt>)
    requires MissingCount(c) == |c|
    ensures AlleleSum(c) == 0
  {
    if |c| > 0 {
      NoCallsNoAlleles(c[..|c| - 1]);
    }
  }

  predicate Biallelic(c: seq<Gt>)
  {
    forall i :: 0 <= i < |c| ==> c[i] == Missing || c[i] == Allele(0) || c[i] == Allele(1)
  }

  /** At a biallelic site the allele sum counts ALT alleles, so it lies between 0 and the called alleles. */
  lemma {:induction false} BiallelicAlleleSum(c: seq<Gt>)
    requires Biallelic(c)
    ensures 0 <= AlleleSum(c) <= Called(c)
  {
    if |c| > 0 {
      BiallelicAlleleSum(c[..|c| - 1]);
    }
  }

  /** Line 497: fold the allele count onto the minor allele. */
  function FoldMinor(mac: int, called: nat): (r: int)
    ensures r == Min(mac, called - mac)
    ensures r <= called / 2
    ensures 0 <= mac <= called ==> 0 <= r
  {
    if mac > called / 2 then called - mac else mac
  }

  /** At a biallelic site the folded count lies in [0, (2N - nmiss) / 2]. */
  lemma BiallelicMinorBounds(c: seq<Gt>)
    requires Biallelic(c)
    ensures 0 <= FoldMinor(AlleleSum(c), Called(c)) <= Called(c) / 2
  {
    BiallelicAlleleSum(c);
  }

  /** The MAF test `mac > (2N - nmiss) * m`, over reals. */
  predicate PassesMaf(minor: int, called: nat, maf: real)
  {
    minor as real > (called as real) * maf
  }

  /** `frq`, the ALT frequency among called alleles (never used when no allele is called). */
  function Frq(c: seq<Gt>): real
  {
    if Called(c) > 0 then AlleleSum(c) as real / Called(c) as real else 0.0
  }

  /** The allele counts of one record decide whether it passes the MAF filter. */
  predicate Passes(cfg: Config, r: Line)
  {
    Read(cfg, r) && r.calls.Some? &&
    var c := r.calls.value;
    PassesMaf(FoldMinor(AlleleSum(c), Called(c)), Called(c), cfg.maf)
  }

  /** A record that passes the filter has at least one called allele, so `frq` is defined. */
  lemma PassingSiteHasCalls(cfg: Config, r: Line)
    requires Passes(cfg, r)
    ensures Called(r.calls.value) > 0
  {
    var c := r.calls.value;
    if Called(c) == 0 {
      NoCallsNoAlleles(c);
    }
  }

  // ------------------------------------------------------------ one column

  /** Line 509: a sample whose entries include a negative sentinel is not diploid. */
  predicate Haploid(c: seq<Gt>, i: nat)
    requires 2 * i + 1 < |c|
  {
    c[2 * i].EndOfVector? || c[2 * i + 1].EndOfVector?
  }

  /** The first of the samples `0..n-1` that is not diploid. */
  function FirstHaploid(c: seq<Gt>, n: nat): (r: Option<nat>)
    requires 2 * n <= |c|
    ensures r.None? <==> forall i :: 0 <= i < n ==> !Haploid(c, i)
    ensures r.Some? ==> r.value < n && Haploid(c, r.value) &&
                        forall i :: 0 <= i < r.value ==> !Haploid(c, i)
  {
    if n == 0 then None
    else match FirstHaploid(c, n - 1)
      case Some(i) => Some(i)
      case None => if Haploid(c, n - 1) then Some(n - 1) else None
  }

  /** The dosage pushed for one sample: the sum of its allele indices, or `2*frq` when either allele is missing. */
  function Dose(a: Gt, b: Gt, frq: real): real
  {
    if a != Missing && b != Missing then (AlleleValue(a) + AlleleValue(b)) as real else 2.0 * frq
  }

  /** The dosages of samples `0..n-1` in the order they are pushed onto `G`. */
  function Column(c: seq<Gt>, frq: real, n: nat): (r: seq<real>)
    requires 2 * n <= |c|
    ensures |r| == n
  {
    if n == 0 then [] else Column(c, frq, n - 1) + [Dose(c[2 * n - 2], c[2 * n - 1], frq)]
  }

  /** Entry `i` of a column is the dosage of sample `i`. */
  lemma {:induction false} ColumnAt(c: seq<Gt>, frq: real, n: nat, i: nat)
    requires 2 * n <= |c| && i < n
    ensures Column(c, frq, n)[i] == Dose(c[2 * i], c[2 * i + 1], frq)
  {
    if i < n - 1 {
      ColumnAt(c, frq, n - 1, i);
    }
  }

  // ------------------------------------------------------------- the pass

  /** The counters that move for every record, kept or not (lines 528-535). */
  function Advance(cfg: Config, s: Scan, r: Line): Scan
  {
    s.(nline := s.nline + (if r.inSample then 1 else 0),
       npanel := s.npanel + (if cfg.usePanel && r.inPanel then 1 else 0))
  }

  /** One iteration of the read loop (lines 471-535). */
  function Step(cfg: Config, s: Scan, r: Line): (res: Result<Scan>)
    requires cfg.thin >= 1 && cfg.N >= 1
    requires Read(cfg, r) && r.calls.Some? ==> |r.calls.value| == 2 * cfg.N
    ensures res.Fail? ==> res.error.BadGenotypes? || res.error.FixPloidy?
    ensures res == Fail(BadGenotypes(s.nline)) <==> Read(cfg, r) && r.calls.None?
    ensures res.Fail? && res.error.FixPloidy? <==>
      Passes(cfg, r) && (s.count + 1) % cfg.thin == 0 && FirstHaploid(r.calls.value, cfg.N).Some?
    ensures res.Fail? && res.error.FixPloidy? ==> res == Fail(FixPloidy(s.nline, FirstHaploid(r.calls.value, cfg.N).value))
  {
    if !Read(cfg, r) then Ok(Advance(cfg, s, r))
    else match r.calls
      case None => Fail(BadGenotypes(s.nline))
      case Some(c) =>
        var pass := PassesMaf(FoldMinor(AlleleSum(c), Called(c)), Called(c), cfg.maf);
        var count := if pass then s.count + 1 else s.count;
        if count % cfg.thin == 0 && pass then
          match FirstHaploid(c, cfg.N)
          case Some(i) => Fail(FixPloidy(s.nline, i))
          case None =>
            var col := Column(c, Frq(c), cfg.N);
            Ok(Advance(cfg, Scan(count, s.nline, s.nkept + 1, s.npanel, s.G + col,
                                 s.AF + [Sum(col) / (cfg.N as real)], s.sites + [s.nline]), r))
        else Ok(Advance(cfg, s.(count := count), r))
  }

  /** The state after the records `rs`, or the first fatal condition met. */
  function Scanned(cfg: Config, rs: seq<Line>): (res: Result<Scan>)
    requires WellFormed(cfg, rs) && cfg.N >= 1
    ensures res.Fail? ==> res.error.BadGenotypes? || res.error.FixPloidy?
  {
    if |rs| == 0 then Ok(Scan(0, 0, 0, 0, [], [], []))
    else match Scanned(cfg, rs[..|rs| - 1])
      case Fail(e) => Fail(e)
      case Ok(s) => Step(cfg, s, rs[|rs| - 1])
  }

  /** The whole staging phase, with the checks before and after the loop (lines 445-553). */
  function Select(cfg: Config, rs: seq<Line>): (res: Result<Scan>)
    requires WellFormed(cfg, rs)
    ensures res == Fail(NoSamples) <==> cfg.N == 0
    ensures res == Fail(NoIntersectingSites) <==> cfg.N >= 1 && Scanned(cfg, rs).Ok? && Scanned(cfg, rs).value.nkept == 0
    ensures res.Ok? ==> cfg.N >= 1 && res == Scanned(cfg, rs) && res.value.nkept >= 1
  {
    if cfg.N == 0 then Fail(NoSamples)
    else match Scanned(cfg, rs)
      case Fail(e) => Fail(e)
      case Ok(s) => if s.nkept == 0 then Fail(NoIntersectingSites) else Ok(s)
  }

  lemma {:induction false} FailSticks(cfg: Config, rs: seq<Line>, t: nat)
    requires WellFormed(cfg, rs) && cfg.N >= 1 && t <= |rs|
    requires Scanned(cfg, rs[..t]).Fail?
    ensures Scanned(cfg, rs) == Scanned(cfg, rs[..t])
    decreases |rs| - t
  {
    if t < |rs| {
      assert rs[..t + 1][..t] == rs[..t];
      FailSticks(cfg, rs, t + 1);
    } else {
      assert rs[..t] == rs;
    }
  }

  /**
   * A failed pass stops at its first fatal record: the records before
   * position `t` all step successfully, and the pass ends with what `Step`
   * reports for record `t`.
   */
  lemma {:induction false} FailureIsFirstFatalRecord(cfg: Config, rs: seq<Line>) returns (t: nat)
    requires WellFormed(cfg, rs) && cfg.N >= 1 && Scanned(cfg, rs).Fail?
    ensures t < |rs| && WellFormed(cfg, rs[..t]) && Scanned(cfg, rs[..t]).Ok?
    ensures Scanned(cfg, rs) == Step(cfg, Scanned(cfg, rs[..t]).value, rs[t])
  {
    var pre := rs[..|rs| - 1];
    PrefixWellFormed(cfg, rs, |rs| - 1);
    if Scanned(cfg, pre).Fail? {
      t := FailureIsFirstFatalRecord(cfg, pre);
      assert pre[..t] == rs[..t] && pre[t] == rs[t];
    } else {
      t := |rs| - 1;
    }
  }

  /** Every entry is missing, REF, the first ALT, or a negative sentinel. */
  predicate SmallAlleles(c: seq<Gt>)
  {
    forall k :: 0 <= k < |c| ==> c[k] in {Missing, Allele(0), Allele(1), EndOfVector}
  }

  /** Each entry adds at most 1 to `mac`, and a sentinel adds its large negative value. */
  lemma {:induction false} SentinelSumBound(c: seq<Gt>)
    requires SmallAlleles(c)
    ensures AlleleSum(c) <= |c|
    ensures EndOfVector in c ==> AlleleSum(c) <= |c| + SentinelAllele
  {
    if |c| > 0 {
      var p := c[..|c| - 1];
      assert forall k :: 0 <= k < |p| ==> p[k] == c[k];
      SentinelSumBound(p);
      if EndOfVector in c && c[|c| - 1] != EndOfVector {
        assert EndOfVector in p;
      }
    }
  }

  /**
   * Lines 487 and 497-512 with an unbounded `mac`: the sentinel of a
   * non-diploid sample is summed into `mac`, which makes the folded count
   * negative, so such a record fails every non-negative MAF bound and is
   * dropped without the Fix Ploidy diagnostic (for fewer than 2^29 samples
   * whose calls name allele 0 or 1).  The 32-bit `mac` of the source agrees
   * while the sum does not wrap; `WrappedCount` says what happens when it does.
   */
  lemma NonDiploidRecordIsDropped(cfg: Config, s: Scan, r: Line)
    requires cfg.thin >= 1 && 1 <= cfg.N < 0x2000_0000 && cfg.maf >= 0.0
    requires r.calls.Some? && |r.calls.value| == 2 * cfg.N && SmallAlleles(r.calls.value)
    requires FirstHaploid(r.calls.value, cfg.N).Some?
    ensures !Passes(cfg, r)
    ensures !(Step(cfg, s, r).Fail? && Step(cfg, s, r).error.FixPloidy?)
  {
    var c := r.calls.value;
    var i := FirstHaploid(c, cfg.N).value;
    assert c[2 * i] == EndOfVector || c[2 * i + 1] == EndOfVector;
    assert EndOfVector in c;
    SentinelSumBound(c);
    var mac, called := AlleleSum(c), Called(c);
    assert mac < 0;
    var minor := FoldMinor(mac, called);
    assert minor <= mac;
    NonNegativeProduct(called as real, cfg.maf);
    assert !PassesMaf(minor, called, cfg.maf);
  }

  lemma NonNegativeProduct(x: real, y: real)
    requires x >= 0.0 && y >= 0.0
    ensures x * y >= 0.0
  {
  }

  // ------------------------------------------------ the 32-bit allele count

  /** The value a 32-bit two's-complement `int` holds for `x`: `mac` (line 482) is one. */
  function Int32(x: int): (r: int)
    ensures -0x8000_0000 <= r < 0x8000_0000
  {
    var m := x % 0x1_0000_0000;
    if m >= 0x8000_0000 then m - 0x1_0000_0000 else m
  }

  /** Any in-range value congruent to `x` modulo 2^32 is `Int32(x)`. */
  lemma Int32Unique(x: int, k: int, r: int)
    requires -0x8000_0000 <= r < 0x8000_0000 && x == r + k * 0x1_0000_0000
    ensures Int32(x) == r
  {
    if r >= 0 {
      DivUnique(x, 0x1_0000_0000, k, r);
    } else {
      assert x == (k - 1) * 0x1_0000_0000 + (r + 0x1_0000_0000);
      DivUnique(x, 0x1_0000_0000, k - 1, r + 0x1_0000_0000);
    }
  }

  /** `x` is `Int32(x)` plus a multiple of 2^32. */
  lemma Int32Decompose(x: int) returns (k: int)
    ensures x == Int32(x) + k * 0x1_0000_0000
  {
    k := x / 0x1_0000_0000;
    if x % 0x1_0000_0000 >= 0x8000_0000 {
      k := k + 1;
    }
  }

  /** Wrapping after every addition gives what wrapping once at the end gives. */
  lemma Int32Add(a: int, b: int)
    ensures Int32(Int32(a) + b) == Int32(a + b)
  {
    var k := Int32Decompose(a);
    var j := Int32Decompose(Int32(a) + b);
    Int32Unique(a + b, k + j, Int32(Int32(a) + b));
  }

  /** Line 487 as executed: every addition to the 32-bit `mac` wraps. */
  function WrappedSum(c: seq<Gt>): int
  {
    if |c| == 0 then 0
    else Int32(WrappedSum(c[..|c| - 1]) + (if c[|c| - 1].Missing? then 0 else AlleleValue(c[|c| - 1])))
  }

  /** The wrapped running sum is the unbounded allele sum reduced to 32 bits. */
  lemma {:induction false} WrappedSumIsInt32(c: seq<Gt>)
    ensures WrappedSum(c) == Int32(AlleleSum(c))
  {
    if |c| == 0 {
      Int32Unique(0, 0, 0);
    } else {
      var p := c[..|c| - 1];
      WrappedSumIsInt32(p);
      Int32Add(AlleleSum(p), if c[|c| - 1].Missing? then 0 else AlleleValue(c[|c| - 1]));
    }
  }

  /** Lines 482-501 as executed: the MAF test applied to the wrapped `mac`. */
  predicate PassesAsWritten(cfg: Config, r: Line)
  {
    Read(cfg, r) && r.calls.Some? &&
    var c := r.calls.value;
    PassesMaf(FoldMinor(WrappedSum(c), Called(c)), Called(c), cfg.maf)
  }

  /** The number of vector-end markers. */
  function EndCount(c: seq<Gt>): nat
  {
    if |c| == 0 then 0
    else EndCount(c[..|c| - 1]) + (if c[|c| - 1].EndOfVector? then 1 else 0)
  }

  /** The sum of the allele indices of the calls, markers left out. */
  function IndexSum(c: seq<Gt>): nat
  {
    if |c| == 0 then 0
    else IndexSum(c[..|c| - 1]) + (if c[|c| - 1].Allele? then c[|c| - 1].index else 0)
  }

  /** The allele sum is the index sum plus one sentinel value per marker. */
  lemma {:induction false} SentinelSplit(c: seq<Gt>)
    ensures AlleleSum(c) == IndexSum(c) + EndCount(c) * SentinelAllele
  {
    if |c| > 0 {
      SentinelSplit(c[..|c| - 1]);
    }
  }

  /** With REF/ALT calls only, the index sum and the markers together are at most the called entries. */
  lemma {:induction false} IndexSumBound(c: seq<Gt>)
    requires SmallAlleles(c)
    ensures IndexSum(c) + EndCount(c) <= Called(c)
  {
    if |c| > 0 {
      var p := c[..|c| - 1];
      assert forall k :: 0 <= k < |p| ==> p[k] == c[k];
      IndexSumBound(p);
    }
  }

  /**
   * Lines 482-501 as executed, for fewer than 2^28 samples whose calls name
   * allele 0 or 1: each marker adds -2^30 - 1, so modulo 2^32 `e` markers
   * subtract `e` and `(e mod 4) * 2^30`.  When `e` is not a multiple of four
   * the folded count is negative and the record fails every non-negative
   * MAF threshold; when it is one, `mac` is the index sum less `e`, and a
   * record without markers passes exactly as in the unbounded model.
   */
  lemma WrappedCount(cfg: Config, r: Line)
    requires cfg.N < 0x1000_0000 && cfg.maf >= 0.0
    requires r.calls.Some? && |r.calls.value| == 2 * cfg.N && SmallAlleles(r.calls.value)
    ensures EndCount(r.calls.value) % 4 != 0 ==> !PassesAsWritten(cfg, r)
    ensures EndCount(r.calls.value) % 4 == 0 ==>
              WrappedSum(r.calls.value) == IndexSum(r.calls.value) - EndCount(r.calls.value)
    ensures EndCount(r.calls.value) == 0 ==> (PassesAsWritten(cfg, r) <==> Passes(cfg, r))
  {
    var c := r.calls.value;
    WrappedValue(c);
    if EndCount(c) % 4 != 0 {
      NonNegativeProduct(Called(c) as real, cfg.maf);
    }
  }

  /** The wrapped `mac` of a vector of REF/ALT calls and markers, from its marker count. */
  lemma WrappedValue(c: seq<Gt>)
    requires |c| < 0x2000_0000 && SmallAlleles(c)
    ensures EndCount(c) % 4 != 0 ==> FoldMinor(WrappedSum(c), Called(c)) < 0
    ensures EndCount(c) % 4 == 0 ==> WrappedSum(c) == IndexSum(c) - EndCount(c)
    ensures EndCount(c) == 0 ==> WrappedSum(c) == AlleleSum(c)
  {
    SentinelSplit(c);
    IndexSumBound(c);
    WrappedSumIsInt32(c);
    WrappedAt(AlleleSum(c), IndexSum(c), EndCount(c), Called(c));
  }

  /**
   * The arithmetic of `WrappedCount`: `e` markers and index sum `a`, with
   * `a + e` at most `called` and `called` below 2^29.
   */
  lemma WrappedAt(sum: int, a: int, e: int, called: nat)
    requires sum == a + e * SentinelAllele && 0 <= a && 0 <= e && a + e <= called < 0x2000_0000
    ensures e % 4 != 0 ==> FoldMinor(Int32(sum), called) < 0
    ensures e % 4 == 0 ==> Int32(sum) == a - e
  {
    var q, t := e / 4, e % 4;
    assert sum == a - e - t * 0x4000_0000 - q * 0x1_0000_0000;
    if t == 0 {
      Int32Unique(sum, -q, a - e);
    } else if t == 1 {
      Int32Unique(sum, -q, a - e - 0x4000_0000);
    } else if t == 2 && a >= e {
      Int32Unique(sum, -q, a - e - 0x8000_0000);
    } else if t == 2 {
      Int32Unique(sum, -q - 1, a - e + 0x8000_0000);
    } else {
      Int32Unique(sum, -q - 1, a - e + 0x4000_0000);
    }
  }

  /**
   * Five samples, the first four with one ALT call and a vector-end marker,
   * the fifth heterozygous, no MAF threshold and no thinning: the four
   * markers wrap `mac` round to 1 of 10 called alleles, so the record passes
   * lines 497-501 as written and the ploidy check of lines 506-512 reports
   * sample 0, while the unbounded model drops the record and reads on.
   */
  lemma WrappedMarkersReachFixPloidy(s: Scan)
    ensures var h, d := [Allele(1), EndOfVector], [Allele(0), Allele(1)];
            var cfg := Config(5, 0.0, 1, false);
            var r := Line(true, false, Some(h + h + h + h + d));
            && PassesAsWritten(cfg, r)
            && FirstHaploid(r.calls.value, cfg.N) == Some(0)
            && !Passes(cfg, r)
            && Step(cfg, s, r).Ok?
  {
    var h, d := [Allele(1), EndOfVector], [Allele(0), Allele(1)];
    assert h[..1] == [Allele(1)] && d[..1] == [Allele(0)] && [Allele(1)][..0] == [Allele(0)][..0] == [];
    assert IndexSum(h) == 1 && EndCount(h) == 1 && MissingCount(h) == 0 && SmallAlleles(h);
    assert IndexSum(d) == 1 && EndCount(d) == 0 && MissingCount(d) == 0 && SmallAlleles(d);
    CountsAppend(h, h);
    CountsAppend(h + h, h);
    CountsAppend(h + h + h, h);
    CountsAppend(h + h + h + h, d);
    var c := h + h + h + h + d;
    assert c[1] == EndOfVector;
    FourMarkersPass(Config(5, 0.0, 1, false), s, Line(true, false, Some(c)));
  }

  /** The counterexample's record, described by its counts only. */
  lemma FourMarkersPass(cfg: Config, s: Scan, r: Line)
    requires cfg == Config(5, 0.0, 1, false) && r.inSample && r.calls.Some?
    requires var c := r.calls.value;
             |c| == 10 && SmallAlleles(c) && c[1] == EndOfVector &&
             IndexSum(c) == 5 && EndCount(c) == 4 && MissingCount(c) == 0
    ensures PassesAsWritten(cfg, r)
    ensures FirstHaploid(r.calls.value, cfg.N) == Some(0)
    ensures !Passes(cfg, r)
    ensures Step(cfg, s, r).Ok?
  {
    var c := r.calls.value;
    assert Haploid(c, 0);
    WrappedCount(cfg, r);
    assert WrappedSum(c) == 1 && Called(c) == 10;
    assert FoldMinor(1, 10) == 1 && PassesMaf(1, 10, 0.0);
    NonDiploidRecordIsDropped(cfg, s, r);
  }

  /** The marker and index counts of a concatenation add up, and REF/ALT-only vectors stay so. */
  lemma {:induction false} CountsAppend(x: seq<Gt>, y: seq<Gt>)
    ensures IndexSum(x + y) == IndexSum(x) + IndexSum(y)
    ensures EndCount(x + y) == EndCount(x) + EndCount(y)
    ensures MissingCount(x + y) == MissingCount(x) + MissingCount(y)
    ensures SmallAlleles(x) && SmallAlleles(y) ==> SmallAlleles(x + y)
  {
    if |y| > 0 {
      var y' := y[..|y| - 1];
      assert (x + y)[..|x + y| - 1] == x + y';
      CountsAppend(x, y');
    } else {
      assert x + y == x;
    }
  }

  /** Lines 482-493: the allele count `mac` and the missing count `nmiss` of one genotype vector. */
  method CountAlleles(c: seq<Gt>) returns (mac: int, nmiss: nat)
    ensures mac == AlleleSum(c) && nmiss == MissingCount(c)
  {
    mac, nmiss := 0, 0;
    for i := 0 to |c|
      invariant mac == AlleleSum(c[..i]) && nmiss == MissingCount(c[..i])
    {
      assert c[..i + 1][..i] == c[..i];
      if c[i] != Missing {
        mac := mac + AlleleValue(c[i]);
      } else {
        nmiss := nmiss + 1;
      }
    }
    assert c[..|c|] == c;
  }

  /**
   * Lines 507-523: the dosages of one kept site, in sample order, and their
   * sum `mu`; stops at the first sample that is not diploid.
   */
  method StageColumn(c: seq<Gt>, frq: real, N: nat) returns (bad: Option<nat>, col: seq<real>, mu: real)
    requires |c| == 2 * N
    ensures bad == FirstHaploid(c, N)
    ensures bad.None? ==> col == Column(c, frq, N) && mu == Sum(col)
  {
    col, mu := [], 0.0;
    for i := 0 to N
      invariant col == Column(c, frq, i) && mu == Sum(col)
      invariant FirstHaploid(c, i).None?
    {
      if c[2 * i].EndOfVector? || c[2 * i + 1].EndOfVector? {
        assert FirstHaploid(c, i + 1) == Some(i);
        FirstHaploidSticks(c, i + 1, N);
        return Some(i), col, mu;
      }
      var d;
      if c[2 * i] != Missing && c[2 * i + 1] != Missing {
        d := (AlleleValue(c[2 * i]) + AlleleValue(c[2 * i + 1])) as real;
      } else {
        d := 2.0 * frq;
      }
      assert (col + [d])[..i] == col;
      col := col + [d];
      mu := mu + d;
    }
    bad := None;
  }

  lemma {:induction false} FirstHaploidSticks(c: seq<Gt>, i: nat, n: nat)
    requires i <= n && 2 * n <= |c| && FirstHaploid(c, i).Some?
    ensures FirstHaploid(c, n) == FirstHaploid(c, i)
    decreases n - i
  {
    if i < n {
      FirstHaploidSticks(c, i, n - 1);
    }
  }

  /**
   * Lines 482-498: `frq` and whether the folded allele count passes the MAF
   * test `mac > (2N - nmiss) * m`.
   */
  method MinorAlleleTest(c: seq<Gt>, maf: real) returns (pass: bool, frq: real)
    ensures pass == PassesMaf(FoldMinor(AlleleSum(c), Called(c)), Called(c), maf)
    ensures frq == Frq(c)
  {
    var mac, nmiss := CountAlleles(c);
    var called := |c| - nmiss;
    frq := if called > 0 then mac as real / called as real else 0.0;
    var minor := mac;
    if minor > called / 2 {
      minor := called - minor;
    }
    pass := minor as real > (called as real) * maf;
  }

  /** One iteration of the read loop of `calcpca` (lines 471-535). */
  method ScanLine(cfg: Config, s: Scan, r: Line) returns (res: Result<Scan>)
    requires cfg.thin >= 1 && cfg.N >= 1
    requires Read(cfg, r) && r.calls.Some? ==> |r.calls.value| == 2 * cfg.N
    ensures res == Step(cfg, s, r)
  {
    var N := cfg.N;
    var count, nline, nkept, npanel, G, AF, sites := s.count, s.nline, s.nkept, s.npanel, s.G, s.AF, s.sites;
    if Read(cfg, r) {
      if r.calls.None? {
        return Fail(BadGenotypes(nline));
      }
      var c := r.calls.value;
      var pass, frq := MinorAlleleTest(c, cfg.maf);
      if pass {
        count := count + 1;
      }
      if count % cfg.thin == 0 && pass {
        sites := sites + [nline];
        var bad, col, mu := StageColumn(c, frq, N);
        if bad.Some? {
          return Fail(FixPloidy(nline, bad.value));
        }
        G := G + col;
        AF := AF + [mu / (N as real)];
        nkept := nkept + 1;
      }
    }
    ghost var kept := Scan(count, nline, nkept, npanel, G, AF, sites);
    assert Step(cfg, s, r) == Ok(Advance(cfg, kept, r));
    if r.inSample {
      nline := nline + 1;
    }
    if cfg.usePanel && r.inPanel {
      npanel := npanel + 1;
    }
    return Ok(Scan(count, nline, nkept, npanel, G, AF, sites));
  }

  /** The read loop of `calcpca` and the checks around it (lines 445-553). */
  method SelectSites(cfg: Config, rs: seq<Line>) returns (res: Result<Scan>)
    requires WellFormed(cfg, rs)
    ensures res == Select(cfg, rs)
  {
    if cfg.N == 0 {
      return Fail(NoSamples);
    }
    var s := Scan(0, 0, 0, 0, [], [], []);
    var t := 0;
    while t < |rs|
      invariant 0 <= t <= |rs|
      invariant Scanned(cfg, rs[..t]) == Ok(s)
    {
      assert rs[..t + 1][..t] == rs[..t];
      var next := ScanLine(cfg, s, rs[t]);
      if next.Fail? {
        FailSticks(cfg, rs, t + 1);
        return next;
      }
      s := next.value;
      t := t + 1;
    }
    assert rs[..|rs|] == rs;
    if s.nkept == 0 {
      return Fail(NoIntersectingSites);
    }
    return Ok(s);
  }

  // ------------------------------------------------------ reference view

  /** The number of sample-file lines among `rs`: the line counter `nline` after them. */
  function Lines(rs: seq<Line>): nat
  {
    if |rs| == 0 then 0 else Lines(rs[..|rs| - 1]) + (if rs[|rs| - 1].inSample then 1 else 0)
  }

  /** The number of sites-file lines among `rs` when a sites file is used: `npanel`. */
  function PanelLines(cfg: Config, rs: seq<Line>): nat
  {
    if |rs| == 0 then 0
    else PanelLines(cfg, rs[..|rs| - 1]) + (if cfg.usePanel && rs[|rs| - 1].inPanel then 1 else 0)
  }

  /** Indices of the records that pass the MAF filter, in stream order. */
  function Passers(cfg: Config, rs: seq<Line>): (p: seq<nat>)
    ensures forall j :: 0 <= j < |p| ==> p[j] < |rs| && Passes(cfg, rs[p[j]])
    ensures forall a, b :: 0 <= a < b < |p| ==> p[a] < p[b]
  {
    if |rs| == 0 then []
    else
      var pre := rs[..|rs| - 1];
      assert forall j :: 0 <= j < |pre| ==> pre[j] == rs[j];
      Passers(cfg, pre) + (if Passes(cfg, rs[|rs| - 1]) then [|rs| - 1] else [])
  }

  /** Every passing record is among the passers. */
  lemma {:induction false} PassersComplete(cfg: Config, rs: seq<Line>)
    ensures forall j :: 0 <= j < |rs| && Passes(cfg, rs[j]) ==> j in Passers(cfg, rs)
  {
    if |rs| > 0 {
      var pre := rs[..|rs| - 1];
      PassersComplete(cfg, pre);
      assert forall j :: 0 <= j < |pre| ==> pre[j] == rs[j];
    }
  }

  /** Indices of the records kept: a passing record whose passer count is then a multiple of the stride. */
  function KeptRecords(cfg: Config, rs: seq<Line>): (k: seq<nat>)
    requires cfg.thin >= 1
    ensures forall j :: 0 <= j < |k| ==> k[j] < |rs| && Passes(cfg, rs[k[j]])
    ensures forall a, b :: 0 <= a < b < |k| ==> k[a] < k[b]
  {
    if |rs| == 0 then []
    else KeptRecords(cfg, rs[..|rs| - 1]) +
         (if Passes(cfg, rs[|rs| - 1]) && |Passers(cfg, rs)| % cfg.thin == 0 then [|rs| - 1] else [])
  }

  /** Every passing record whose passer count is then a multiple of the stride is kept. */
  lemma {:induction false} KeptRecordsComplete(cfg: Config, rs: seq<Line>)
    requires cfg.thin >= 1
    ensures forall j :: 0 <= j < |rs| && Passes(cfg, rs[j]) && |Passers(cfg, rs[..j + 1])| % cfg.thin == 0 ==>
      j in KeptRecords(cfg, rs)
  {
    if |rs| > 0 {
      var pre := rs[..|rs| - 1];
      KeptRecordsComplete(cfg, pre);
      var K, last := KeptRecords(cfg, pre), |rs| - 1;
      assert KeptRecords(cfg, rs) == K + (if Passes(cfg, rs[last]) && |Passers(cfg, rs)| % cfg.thin == 0 then [last] else []);
      forall j | 0 <= j < |rs| && Passes(cfg, rs[j]) && |Passers(cfg, rs[..j + 1])| % cfg.thin == 0
        ensures j in KeptRecords(cfg, rs)
      {
        if j < |pre| {
          assert pre[j] == rs[j] && pre[..j + 1] == rs[..j + 1];
          assert j in K;
        } else {
          assert rs[..j + 1] == rs;
        }
      }
    }
  }

  /** Two decompositions `a*k + b` with remainders in `0..k-1` have the same quotient. */
  lemma {:induction false} QuotientUnique(k: int, a: int, b: int, a': int, b': int)
    requires k >= 1 && a * k + b == a' * k + b' && 0 <= b < k && 0 <= b' < k
    ensures a == a'
  {
    if a > a' {
      ProductAtLeast(a - a', k);
      assert false;
    } else if a < a' {
      ProductAtLeast(a' - a, k);
      assert false;
    }
  }

  lemma ProductAtLeast(d: int, k: int)
    requires d >= 1 && k >= 1
    ensures d * k >= k
  {
    assert d * k == (d - 1) * k + k;
    assert (d - 1) * k >= 0;
  }

  /** Quotient and remainder are determined by any decomposition with a remainder in range. */
  lemma DivUnique(x: int, k: int, a: int, b: int)
    requires k >= 1 && x == a * k + b && 0 <= b < k
    ensures x / k == a && x % k == b
  {
    QuotientUnique(k, a, b, x / k, x % k);
  }

  /** Arithmetic of count-then-modulo: one more passer adds a kept site exactly when the new count is a multiple of k. */
  lemma DivisionStep(p: nat, k: nat)
    requires k >= 1
    ensures (p + 1) % k == 0 ==> (p + 1) / k == p / k + 1 && KthIndex(p / k, k) == p
    ensures (p + 1) % k != 0 ==> (p + 1) / k == p / k
  {
    var q, r := p / k, p % k;
    if r == k - 1 {
      assert (q + 1) * k == q * k + k;
      DivUnique(p + 1, k, q + 1, 0);
    } else {
      DivUnique(p + 1, k, q, r + 1);
    }
  }

  /** The 0-based position of passer number `(j+1)*k`. */
  function KthIndex(j: nat, k: nat): int
  {
    (j + 1) * k - 1
  }

  /** `K[j]` is passer number `(j+1)*k` (1-based) of `P`, for every j. */
  predicate EveryKth(K: seq<nat>, P: seq<nat>, k: nat)
  {
    forall j :: 0 <= j < |K| ==> 0 <= KthIndex(j, k) < |P| && K[j] == P[KthIndex(j, k)]
  }

  lemma EveryKthExtend(K: seq<nat>, P: seq<nat>, x: nat, k: nat)
    requires EveryKth(K, P, k)
    ensures EveryKth(K, P + [x], k)
  {
  }

  lemma EveryKthAppend(K: seq<nat>, P: seq<nat>, x: nat, k: nat)
    requires EveryKth(K, P, k) && KthIndex(|K|, k) == |P|
    ensures EveryKth(K + [x], P + [x], k)
  {
    forall j | 0 <= j < |K| + 1
      ensures 0 <= KthIndex(j, k) < |P + [x]| && (K + [x])[j] == (P + [x])[KthIndex(j, k)]
    {
      if j < |K| {
        assert (K + [x])[j] == K[j];
      }
    }
  }

  /**
   * The thinning rule: the kept records are the passers numbered k, 2k, 3k, ...
   * (1-based), so there are floor(passers / k) of them and, for k > 1, the
   * first passer is not kept.
   */
  lemma {:induction false} KeptAreEveryKthPasser(cfg: Config, rs: seq<Line>)
    requires cfg.thin >= 1
    ensures |KeptRecords(cfg, rs)| == |Passers(cfg, rs)| / cfg.thin
    ensures EveryKth(KeptRecords(cfg, rs), Passers(cfg, rs), cfg.thin)
  {
    if |rs| > 0 {
      var pre := rs[..|rs| - 1];
      KeptAreEveryKthPasser(cfg, pre);
      var P0, P, K0, K := Passers(cfg, pre), Passers(cfg, rs), KeptRecords(cfg, pre), KeptRecords(cfg, rs);
      var k, x := cfg.thin, |rs| - 1;
      if Passes(cfg, rs[x]) {
        assert P == P0 + [x];
        DivisionStep(|P0|, k);
        if |P| % k == 0 {
          assert K == K0 + [x];
          EveryKthAppend(K0, P0, x, k);
        } else {
          assert K == K0;
          EveryKthExtend(K0, P0, x, k);
        }
      } else {
        assert P == P0 && K == K0;
      }
    }
  }

  /** With stride 1 every site that passes the MAF filter is kept. */
  lemma StrideOneKeepsEveryPasser(cfg: Config, rs: seq<Line>)
    requires cfg.thin == 1
    ensures KeptRecords(cfg, rs) == Passers(cfg, rs)
  {
    KeptAreEveryKthPasser(cfg, rs);
  }

  /** With a stride k > 1 the first kept site is the k-th passer, not the first. */
  lemma FirstKeptIsKthPasser(cfg: Config, rs: seq<Line>)
    requires cfg.thin >= 1
    requires |Passers(cfg, rs)| >= cfg.thin
    ensures |KeptRecords(cfg, rs)| >= 1
    ensures KeptRecords(cfg, rs)[0] == Passers(cfg, rs)[cfg.thin - 1]
    ensures cfg.thin > 1 ==> KeptRecords(cfg, rs)[0] != Passers(cfg, rs)[0]
  {
    KeptAreEveryKthPasser(cfg, rs);
    QuotientAtLeastOne(|Passers(cfg, rs)|, cfg.thin);
    assert KthIndex(0, cfg.thin) == cfg.thin - 1;
  }

  lemma QuotientAtLeastOne(p: nat, k: nat)
    requires 1 <= k <= p
    ensures p / k >= 1
  {
  }

  /** Every prefix of a well-formed record stream is well formed. */
  lemma PrefixWellFormed(cfg: Config, rs: seq<Line>, t: nat)
    requires WellFormed(cfg, rs) && t <= |rs|
    ensures WellFormed(cfg, rs[..t])
  {
    assert forall u :: 0 <= u < t ==> rs[..t][u] == rs[u];
  }

  /** What one successful step does to each counter and buffer. */
  lemma StepEffect(cfg: Config, s: Scan, r: Line)
    requires cfg.thin >= 1 && cfg.N >= 1
    requires Read(cfg, r) && r.calls.Some? ==> |r.calls.value| == 2 * cfg.N
    requires Step(cfg, s, r).Ok?
    ensures var t := Step(cfg, s, r).value;
      && t.count == s.count + (if Passes(cfg, r) then 1 else 0)
      && t.nline == s.nline + (if r.inSample then 1 else 0)
      && t.npanel == s.npanel + (if cfg.usePanel && r.inPanel then 1 else 0)
      && (if Passes(cfg, r) && t.count % cfg.thin == 0 then
            var c := r.calls.value;
            && t.nkept == s.nkept + 1
            && t.G == s.G + Column(c, Frq(c), cfg.N)
            && t.AF == s.AF + [Sum(Column(c, Frq(c), cfg.N)) / (cfg.N as real)]
            && t.sites == s.sites + [s.nline]
          else
            t.nkept == s.nkept && t.G == s.G && t.AF == s.AF && t.sites == s.sites)
  {
  }

  /**
   * A successful pass agrees with the reference view: `count` is the number
   * of passers, `nline` and `npanel` count lines, and each kept record
   * contributes one entry to `sites` and `AF` and N entries to `G`.
   */
  lemma {:induction false} ScanCounters(cfg: Config, rs: seq<Line>)
    requires WellFormed(cfg, rs) && cfg.N >= 1 && Scanned(cfg, rs).Ok?
    ensures Scanned(cfg, rs).value.count == |Passers(cfg, rs)|
    ensures Scanned(cfg, rs).value.nline == Lines(rs)
    ensures Scanned(cfg, rs).value.npanel == PanelLines(cfg, rs)
    ensures Scanned(cfg, rs).value.nkept == |KeptRecords(cfg, rs)|
    ensures |Scanned(cfg, rs).value.AF| == |Scanned(cfg, rs).value.sites| == Scanned(cfg, rs).value.nkept
    ensures |Scanned(cfg, rs).value.G| == cfg.N * Scanned(cfg, rs).value.nkept
  {
    if |rs| > 0 {
      var pre := rs[..|rs| - 1];
      PrefixWellFormed(cfg, rs, |rs| - 1);
      ScanCounters(cfg, pre);
      var s0, r := Scanned(cfg, pre).value, rs[|rs| - 1];
      assert Scanned(cfg, rs) == Step(cfg, s0, r);
      StepEffect(cfg, s0, r);
      var t := Scanned(cfg, rs).value;
      assert |Passers(cfg, rs)| == |Passers(cfg, pre)| + (if Passes(cfg, r) then 1 else 0);
      assert Lines(rs) == Lines(pre) + (if r.inSample then 1 else 0);
      assert PanelLines(cfg, rs) == PanelLines(cfg, pre) + (if cfg.usePanel && r.inPanel then 1 else 0);
      assert |KeptRecords(cfg, rs)| == |KeptRecords(cfg, pre)| +
        (if Passes(cfg, r) && |Passers(cfg, rs)| % cfg.thin == 0 then 1 else 0);
      if t.nkept != s0.nkept {
        assert |t.G| == |s0.G| + cfg.N;
        MulSucc(cfg.N, s0.nkept);
      }
    }
  }

  /** The line numbers in `sites` are strictly increasing and all below the final `nline`. */
  lemma {:induction false} SitesIncrease(cfg: Config, rs: seq<Line>)
    requires WellFormed(cfg, rs) && cfg.N >= 1 && Scanned(cfg, rs).Ok?
    ensures var s := Scanned(cfg, rs).value;
      (forall a, b :: 0 <= a < b < |s.sites| ==> s.sites[a] < s.sites[b]) &&
      (forall a :: 0 <= a < |s.sites| ==> s.sites[a] < s.nline)
  {
    if |rs| > 0 {
      var pre := rs[..|rs| - 1];
      PrefixWellFormed(cfg, rs, |rs| - 1);
      SitesIncrease(cfg, pre);
      StepEffect(cfg, Scanned(cfg, pre).value, rs[|rs| - 1]);
    }
  }

  /** Each entry of `sites` is the line number of the matching kept record. */
  lemma {:induction false} SitesAreKeptLines(cfg: Config, rs: seq<Line>)
    requires WellFormed(cfg, rs) && cfg.N >= 1 && Scanned(cfg, rs).Ok?
    ensures |Scanned(cfg, rs).value.sites| == |KeptRecords(cfg, rs)|
    ensures forall c :: 0 <= c < |KeptRecords(cfg, rs)| ==>
      Scanned(cfg, rs).value.sites[c] == Lines(rs[..KeptRecords(cfg, rs)[c]])
  {
    ScanCounters(cfg, rs);
    if |rs| > 0 {
      var pre := rs[..|rs| - 1];
      PrefixWellFormed(cfg, rs, |rs| - 1);
      SitesAreKeptLines(cfg, pre);
      ScanCounters(cfg, pre);
      var s0, s := Scanned(cfg, pre).value, Scanned(cfg, rs).value;
      StepEffect(cfg, s0, rs[|rs| - 1]);
      var K0, K := KeptRecords(cfg, pre), KeptRecords(cfg, rs);
      forall c | 0 <= c < |K|
        ensures s.sites[c] == Lines(rs[..K[c]])
      {
        if c < |K0| {
          assert K[c] == K0[c] && s.sites[c] == s0.sites[c];
          assert pre[..K0[c]] == rs[..K[c]];
        } else {
          assert K[c] == |rs| - 1 && s.sites[c] == s0.nline;
        }
      }
    }
  }

  /**
   * Column `c` of the flat buffer, `G[c*N .. c*N+N]`, holds the dosages of
   * the c-th kept record, and `AF[c]` is their arithmetic mean.
   */
  lemma {:induction false} ColumnsAreKeptDosages(cfg: Config, rs: seq<Line>)
    requires WellFormed(cfg, rs) && cfg.N >= 1 && Scanned(cfg, rs).Ok?
    ensures forall c :: 0 <= c < |KeptRecords(cfg, rs)| ==>
      KeptColumn(cfg, rs, Scanned(cfg, rs).value, c)
  {
    if |rs| > 0 {
      PrefixWellFormed(cfg, rs, |rs| - 1);
      ColumnsAreKeptDosages(cfg, rs[..|rs| - 1]);
      forall c | 0 <= c < |KeptRecords(cfg, rs)|
        ensures KeptColumn(cfg, rs, Scanned(cfg, rs).value, c)
      {
        ColumnStep(cfg, rs, c);
      }
    }
  }

  /** One step of the induction above: column `c` after the last record. */
  lemma {:induction false} ColumnStep(cfg: Config, rs: seq<Line>, c: nat)
    requires |rs| > 0 && WellFormed(cfg, rs) && WellFormed(cfg, rs[..|rs| - 1]) && cfg.N >= 1
    requires Scanned(cfg, rs).Ok? && c < |KeptRecords(cfg, rs)|
    requires c < |KeptRecords(cfg, rs[..|rs| - 1])| ==>
      KeptColumn(cfg, rs[..|rs| - 1], Scanned(cfg, rs[..|rs| - 1]).value, c)
    ensures KeptColumn(cfg, rs, Scanned(cfg, rs).value, c)
  {
    var pre := rs[..|rs| - 1];
    ScanCounters(cfg, pre);
    var s0, s := Scanned(cfg, pre).value, Scanned(cfg, rs).value;
    StepEffect(cfg, s0, rs[|rs| - 1]);
    var x := |rs| - 1;
    assert |Passers(cfg, rs)| == s.count;
    var kept := Passes(cfg, rs[x]) && s.count % cfg.thin == 0;
    assert KeptRecords(cfg, rs) == if kept then KeptRecords(cfg, pre) + [x] else KeptRecords(cfg, pre);
    if c < |KeptRecords(cfg, pre)| {
      OldColumnStays(cfg, rs, s0, s, c);
    } else {
      assert kept && c == s0.nkept;
      var r := rs[x].calls.value;
      SliceOfLast(s0.G, Column(r, Frq(r), cfg.N), c, cfg.N);
    }
  }

  lemma OldColumnStays(cfg: Config, rs: seq<Line>, s0: Scan, s: Scan, c: nat)
    requires |rs| > 0 && cfg.thin >= 1
    requires c < |KeptRecords(cfg, rs[..|rs| - 1])| && c < |KeptRecords(cfg, rs)|
    requires KeptRecords(cfg, rs)[c] == KeptRecords(cfg, rs[..|rs| - 1])[c]
    requires |s0.G| == cfg.N * |KeptRecords(cfg, rs[..|rs| - 1])|
    requires s0.G <= s.G && s0.AF <= s.AF
    requires KeptColumn(cfg, rs[..|rs| - 1], s0, c)
    ensures KeptColumn(cfg, rs, s, c)
  {
    var N := cfg.N;
    IndexBound(c, 0, N, |KeptRecords(cfg, rs[..|rs| - 1])|);
    SliceOfAppend(s0.G, s.G[|s0.G|..], c, N);
    assert s.G == s0.G + s.G[|s0.G|..];
  }

  /** Column `c` of `s`, and `AF[c]`, are the dosages and their mean of the c-th kept record of `rs`. */
  predicate KeptColumn(cfg: Config, rs: seq<Line>, s: Scan, c: nat)
    requires cfg.thin >= 1 && c < |KeptRecords(cfg, rs)|
  {
    var r, N := rs[KeptRecords(cfg, rs)[c]], cfg.N;
    && r.calls.Some? && |r.calls.value| == 2 * N
    && c * N + N <= |s.G| && c < |s.AF|
    && var col := Column(r.calls.value, Frq(r.calls.value), N);
       ColumnSlice(s.G, c, N) == col && s.AF[c] == Sum(col) / (N as real)
  }

  // ------------------------------------------------- imputation and mean

  /** No sample has exactly one of its two alleles missing. */
  predicate WholeCalls(c: seq<Gt>, n: nat)
    requires 2 * n <= |c|
  {
    forall i :: 0 <= i < n ==> (c[2 * i] == Missing <==> c[2 * i + 1] == Missing)
  }

  predicate NoSentinel(c: seq<Gt>)
  {
    forall i :: 0 <= i < |c| ==> !c[i].EndOfVector?
  }

  /** The number of samples among `0..n-1` whose genotype is missing. */
  function MissingSamples(c: seq<Gt>, n: nat): nat
    requires 2 * n <= |c|
  {
    if n == 0 then 0 else MissingSamples(c, n - 1) + (if c[2 * n - 2] == Missing then 1 else 0)
  }

  /** The allele sum and missing count of the first n samples, one sample at a time. */
  lemma PairStep(c: seq<Gt>, n: nat)
    requires 1 <= n && 2 * n <= |c|
    ensures AlleleSum(c[..2 * n]) == AlleleSum(c[..2 * n - 2]) +
      (if c[2 * n - 2].Missing? then 0 else AlleleValue(c[2 * n - 2])) +
      (if c[2 * n - 1].Missing? then 0 else AlleleValue(c[2 * n - 1]))
    ensures MissingCount(c[..2 * n]) == MissingCount(c[..2 * n - 2]) +
      (if c[2 * n - 2].Missing? then 1 else 0) + (if c[2 * n - 1].Missing? then 1 else 0)
  {
    assert c[..2 * n][..2 * n - 1] == c[..2 * n - 1];
    assert c[..2 * n - 1][..2 * n - 2] == c[..2 * n - 2];
  }

  /** `k` imputed dosages of `2f` each, added one at a time. */
  function Imputed(f: real, k: nat): real
  {
    if k == 0 then 0.0 else Imputed(f, k - 1) + 2.0 * f
  }

  lemma {:induction false} ImputedTotal(f: real, k: nat)
    ensures Imputed(f, k) == 2.0 * f * (k as real)
  {
    if k > 0 {
      ImputedTotal(f, k - 1);
    }
  }

  /** The column total is the sum of the called alleles plus `2f` for each missing sample. */
  lemma {:induction false} ColumnSum(c: seq<Gt>, f: real, n: nat)
    requires 2 * n <= |c| && WholeCalls(c, n) && NoSentinel(c)
    ensures Sum(Column(c, f, n)) == AlleleSum(c[..2 * n]) as real + Imputed(f, MissingSamples(c, n))
  {
    if n > 0 {
      assert WholeCalls(c, n - 1);
      ColumnSum(c, f, n - 1);
      PairStep(c, n);
      var col := Column(c, f, n);
      var a, b := c[2 * n - 2], c[2 * n - 1];
      assert col[..n - 1] == Column(c, f, n - 1) && col[n - 1] == Dose(a, b, f);
      assert Sum(col) == Sum(Column(c, f, n - 1)) + Dose(a, b, f);
      assert c[2 * (n - 1)] == a && c[2 * (n - 1) + 1] == b;
      assert a == Missing <==> b == Missing;
    }
  }

  /** Wholly called or wholly missing samples leave two missing entries per missing sample. */
  lemma {:induction false} MissingPairs(c: seq<Gt>, n: nat)
    requires 2 * n <= |c| && WholeCalls(c, n)
    ensures MissingCount(c[..2 * n]) == 2 * MissingSamples(c, n)
  {
    if n > 0 {
      assert WholeCalls(c, n - 1);
      MissingPairs(c, n - 1);
      PairStep(c, n);
      var a, b := c[2 * n - 2], c[2 * n - 1];
      assert c[2 * (n - 1)] == a && c[2 * (n - 1) + 1] == b;
      assert a == Missing <==> b == Missing;
    }
  }

  /** Real arithmetic of the mean: a total of `S + 2fk`, with `S = 2f(n-k)`, averages to `2f` over `n`. */
  lemma MeanOfImputed(T: real, S: real, f: real, k: nat, n: nat)
    requires k < n && T == S + Imputed(f, k) && S == Imputed(f, n - k)
    ensures T / (n as real) == 2.0 * f
  {
    ImputedTotal(f, k);
    ImputedTotal(f, n - k);
    assert T == 2.0 * f * (n as real);
  }

  /**
   * When every sample is either fully called or fully missing, the mean of
   * a kept column, imputed values included, equals the expected dosage 2*frq.
   */
  lemma {:induction false} ImputedMeanIsExpectedDosage(c: seq<Gt>, N: nat)
    requires N >= 1 && |c| == 2 * N && WholeCalls(c, N) && NoSentinel(c) && Called(c) > 0
    ensures Sum(Column(c, Frq(c), N)) / (N as real) == 2.0 * Frq(c)
  {
    ColumnTotal(c, Frq(c), N);
    FrqOfWholeCalls(c, N);
    MeanOfImputed(Sum(Column(c, Frq(c), N)), AlleleSum(c) as real, Frq(c), MissingSamples(c, N), N);
  }

  /** The called alleles sum to `2 frq` per called sample. */
  lemma FrqOfWholeCalls(c: seq<Gt>, N: nat)
    requires |c| == 2 * N && WholeCalls(c, N) && NoSentinel(c) && Called(c) > 0
    ensures MissingSamples(c, N) < N
    ensures AlleleSum(c) as real == Imputed(Frq(c), N - MissingSamples(c, N))
  {
    WholeCallsCount(c, N);
    FrqTimesCalled(c);
    ImputedTotal(Frq(c), N - MissingSamples(c, N));
  }

  /** `frq` times the number of called alleles is the allele sum. */
  lemma FrqTimesCalled(c: seq<Gt>)
    requires Called(c) > 0
    ensures Frq(c) * (Called(c) as real) == AlleleSum(c) as real
  {
    QuotientTimesDivisor(AlleleSum(c) as real, Called(c) as real);
  }

  /** The whole column's total: the record's allele sum plus `2f` for each missing sample. */
  lemma ColumnTotal(c: seq<Gt>, f: real, N: nat)
    requires |c| == 2 * N && WholeCalls(c, N) && NoSentinel(c)
    ensures Sum(Column(c, f, N)) == AlleleSum(c) as real + Imputed(f, MissingSamples(c, N))
  {
    ColumnSum(c, f, N);
    assert c[..2 * N] == c;
  }

  /** A site whose samples are wholly called or wholly missing has two called alleles per called sample. */
  lemma WholeCallsCount(c: seq<Gt>, N: nat)
    requires |c| == 2 * N && WholeCalls(c, N) && NoSentinel(c)
    ensures Called(c) == 2 * (N - MissingSamples(c, N))
  {
    MissingPairs(c, N);
    assert c[..2 * N] == c;
  }

  /** A quotient times its non-zero divisor gives back the dividend. */
  lemma QuotientTimesDivisor(x: real, d: real)
    requires d != 0.0
    ensures (x / d) * d == x
  {
  }

  /** Under the same conditions a missing sample's centred dosage is exactly zero. */
  lemma {:induction false} MissingSampleCentresToZero(c: seq<Gt>, N: nat, i: nat)
    requires N >= 1 && |c| == 2 * N && WholeCalls(c, N) && NoSentinel(c) && Called(c) > 0
    requires i < N && c[2 * i] == Missing
    ensures Column(c, Frq(c), N)[i] - Sum(Column(c, Frq(c), N)) / (N as real) == 0.0
  {
    ImputedMeanIsExpectedDosage(c, N);
    ColumnAt(c, Frq(c), N, i);
  }
}
