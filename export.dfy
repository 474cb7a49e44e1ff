/**
 * Writing the loadings file of `calcpca -o`: a second pass over the same
 * record stream that copies every site used in the matrix, tagging it with
 * half the mean dosage as INFO/AF and the site's row of the right singular
 * vectors V as INFO/WEIGHT.  A site is recognised by its sample-file line
 * number, kept in `sites` by the first pass, and a cursor `idx` walks
 * `sites` in step with the stream.
 */
module LoadingExport {
  import opened Common
  import opened SiteSelection

  /** One output record: the sample-file line it copies, its AF and its WEIGHT values. */
  datatype ExportRow = ExportRow(line: nat, af: real, weights: seq<real>)

  /** The loop state: the cursor into `sites`, the line counter and the records written. */
  datatype Cursor = Cursor(idx: nat, nline: nat, out: seq<ExportRow>)

  /** What the first pass and the decomposition supply: one AF value and one row of at least `npca` loadings per site. */
  predicate Loadings(sites: seq<nat>, AF: seq<real>, V: seq<seq<real>>, npca: nat)
  {
    |AF| >= |sites| && |V| >= |sites| && forall c :: 0 <= c < |sites| ==> |V[c]| >= npca
  }

  /** The row written for the `idx`-th site: AF halved into an allele frequency, and the first `npca` loadings. */
  function RowFor(line: nat, idx: nat, AF: seq<real>, V: seq<seq<real>>, npca: nat): ExportRow
    requires idx < |AF| && idx < |V| && |V[idx]| >= npca
  {
    ExportRow(line, AF[idx] * 0.5, V[idx][..npca])
  }

  /** Whether record `r` is written: it is read, and it is the line the cursor waits for. */
  predicate Writes(cfg: Config, c: Cursor, r: Line, sites: seq<nat>)
  {
    Read(cfg, r) && c.idx < |sites| && sites[c.idx] == c.nline
  }

  /**
   * One iteration of the export loop (lines 660-695): at most one record is
   * appended, the one for the site under the cursor, and only when the
   * record is read and its line is that site's; the line counter moves on
   * every sample-file record, written or not.
   */
  function ExportStep(cfg: Config, c: Cursor, r: Line, sites: seq<nat>, AF: seq<real>, V: seq<seq<real>>, npca: nat): (c': Cursor)
    requires Loadings(sites, AF, V, npca)
    ensures c'.nline == c.nline + (if r.inSample then 1 else 0)
    ensures c.out <= c'.out && c.idx <= c'.idx <= c.idx + 1 && |c'.out| - |c.out| == c'.idx - c.idx
    ensures c'.idx == c.idx + 1 <==> Read(cfg, r) && c.idx < |sites| && sites[c.idx] == c.nline
    ensures c'.idx == c.idx + 1 ==> c'.out[|c.out|] == RowFor(c.nline, c.idx, AF, V, npca)
  {
    var c1 := if Writes(cfg, c, r, sites)
      then c.(idx := c.idx + 1, out := c.out + [RowFor(c.nline, c.idx, AF, V, npca)])
      else c;
    c1.(nline := c1.nline + (if r.inSample then 1 else 0))
  }

  /** The cursor after the records `rs`. */
  function Exported(cfg: Config, rs: seq<Line>, sites: seq<nat>, AF: seq<real>, V: seq<seq<real>>, npca: nat): (c: Cursor)
    requires Loadings(sites, AF, V, npca)
    ensures c.idx <= |sites| && |c.out| == c.idx
  {
    if |rs| == 0 then Cursor(0, 0, [])
    else ExportStep(cfg, Exported(cfg, rs[..|rs| - 1], sites, AF, V, npca), rs[|rs| - 1], sites, AF, V, npca)
  }

  // ----------------------------------------------------------------- methods

  /** Fills the WEIGHT buffer from row `idx` of V (lines 682-685). */
  method CopyWeights(V: seq<seq<real>>, idx: nat, weights: array<real>)
    requires idx < |V| && |V[idx]| >= weights.Length
    modifies weights
    ensures weights[..] == V[idx][..weights.Length]
  {
    var i := 0;
    while i < weights.Length
      invariant 0 <= i <= weights.Length
      invariant forall j :: 0 <= j < i ==> weights[j] == V[idx][j]
    {
      weights[i] := V[idx][i];
      i := i + 1;
    }
  }

  /** The export loop (lines 656-695): returns the records written, in order. */
  method ExportLoadings(cfg: Config, rs: seq<Line>, sites: seq<nat>, AF: seq<real>, V: seq<seq<real>>, npca: nat)
    returns (out: seq<ExportRow>)
    requires Loadings(sites, AF, V, npca)
    ensures out == Exported(cfg, rs, sites, AF, V, npca).out
  {
    var idx, nline := 0, 0;
    var weights := new real[npca];
    out := [];
    var t := 0;
    while t < |rs|
      invariant 0 <= t <= |rs|
      invariant Exported(cfg, rs[..t], sites, AF, V, npca) == Cursor(idx, nline, out)
    {
      assert rs[..t + 1][..t] == rs[..t];
      var r := rs[t];
      var read := !cfg.usePanel || (r.inSample && r.inPanel);
      if read && idx < |sites| && sites[idx] == nline {
        CopyWeights(V, idx, weights);
        out := out + [ExportRow(nline, AF[idx] * 0.5, weights[..])];
        idx := idx + 1;
      }
      if r.inSample {
        nline := nline + 1;
      }
      t := t + 1;
    }
    assert rs[..t] == rs;
  }

  // ------------------------------------------------------------- properties

  /** A read record is a sample-file record (WellFormed rules out the other case when no sites file is given). */
  predicate ReadIsSampleLine(cfg: Config, rs: seq<Line>)
  {
    forall t :: 0 <= t < |rs| && Read(cfg, rs[t]) ==> rs[t].inSample
  }

  /** `sites` names the sample-file line numbers of the records at the strictly increasing, read positions `K`. */
  predicate KeptPositions(cfg: Config, rs: seq<Line>, K: seq<nat>, sites: seq<nat>)
  {
    && |K| == |sites|
    && (forall c :: 0 <= c < |K| ==> K[c] < |rs| && Read(cfg, rs[K[c]]) && sites[c] == Lines(rs[..K[c]]))
    && (forall a, b :: 0 <= a < b < |K| ==> K[a] < K[b])
  }

  /** The line counter does not go down along the stream, and steps up at each sample-file record. */
  lemma {:induction false} LinesMonotone(rs: seq<Line>, a: nat, b: nat)
    requires a <= b <= |rs|
    ensures Lines(rs[..a]) <= Lines(rs[..b])
    ensures a < b && rs[a].inSample ==> Lines(rs[..a]) < Lines(rs[..b])
    decreases b - a
  {
    if a < b {
      LinesMonotone(rs, a, b - 1);
      assert rs[..b][..b - 1] == rs[..b - 1];
    }
  }

  /**
   * With `sites` naming the lines of the records at positions `K`, the export
   * pass writes exactly the records at `K`, in order, each with its own AF
   * value and loadings: after `t` records the cursor has passed exactly the
   * positions below `t`.
   */
  lemma {:induction false} ExportFollowsPositions(cfg: Config, rs: seq<Line>, K: seq<nat>, sites: seq<nat>,
                                                  AF: seq<real>, V: seq<seq<real>>, npca: nat, t: nat)
    requires Loadings(sites, AF, V, npca) && ReadIsSampleLine(cfg, rs) && KeptPositions(cfg, rs, K, sites)
    requires t <= |rs|
    ensures var c := Exported(cfg, rs[..t], sites, AF, V, npca);
      && c.nline == Lines(rs[..t])
      && (forall j :: 0 <= j < c.idx ==> K[j] < t)
      && (c.idx < |K| ==> K[c.idx] >= t)
      && (forall j :: 0 <= j < c.idx ==> c.out[j] == RowFor(sites[j], j, AF, V, npca))
  {
    if t > 0 {
      ExportFollowsPositions(cfg, rs, K, sites, AF, V, npca, t - 1);
      var pre := rs[..t][..t - 1];
      assert pre == rs[..t - 1];
      var c0 := Exported(cfg, rs[..t - 1], sites, AF, V, npca);
      var r := rs[t - 1];
      assert rs[..t][t - 1] == r;
      if Writes(cfg, c0, r, sites) {
        if K[c0.idx] != t - 1 {
          LinesMonotone(rs, t - 1, K[c0.idx]);
          assert false;
        }
      } else if c0.idx < |K| && K[c0.idx] == t - 1 {
        assert false;
      }
      assert Lines(rs[..t]) == Lines(rs[..t - 1]) + (if r.inSample then 1 else 0);
    }
  }

  /** The whole export pass writes one record per position of `K`, the `c`-th with line `sites[c]`. */
  lemma ExportWritesPositions(cfg: Config, rs: seq<Line>, K: seq<nat>, sites: seq<nat>,
                              AF: seq<real>, V: seq<seq<real>>, npca: nat)
    requires Loadings(sites, AF, V, npca) && ReadIsSampleLine(cfg, rs) && KeptPositions(cfg, rs, K, sites)
    ensures Exported(cfg, rs, sites, AF, V, npca).out == seq(|sites|, c requires 0 <= c < |sites| => RowFor(sites[c], c, AF, V, npca))
  {
    ExportFollowsPositions(cfg, rs, K, sites, AF, V, npca, |rs|);
    assert rs[..|rs|] == rs;
  }

  /**
   * Run over the stream the selection pass read, the export writes exactly
   * the kept sites in order: record `c` copies the line of the c-th kept
   * record and carries `AF[c]/2` and the first `npca` loadings of row `c`.
   */
  lemma ExportWritesKeptSites(cfg: Config, rs: seq<Line>, V: seq<seq<real>>, npca: nat)
    requires WellFormed(cfg, rs) && cfg.N >= 1 && Scanned(cfg, rs).Ok?
    requires Loadings(Scanned(cfg, rs).value.sites, Scanned(cfg, rs).value.AF, V, npca)
    ensures var s := Scanned(cfg, rs).value;
      var out := Exported(cfg, rs, s.sites, s.AF, V, npca).out;
      && |out| == |KeptRecords(cfg, rs)|
      && forall c :: 0 <= c < |out| ==>
           out[c] == ExportRow(Lines(rs[..KeptRecords(cfg, rs)[c]]), s.AF[c] * 0.5, V[c][..npca])
  {
    var s := Scanned(cfg, rs).value;
    var K := KeptRecords(cfg, rs);
    SitesAreKeptLines(cfg, rs);
    assert KeptPositions(cfg, rs, K, s.sites);
    ExportWritesPositions(cfg, rs, K, s.sites, s.AF, V, npca);
  }

  /** The positions whose flag is set, in increasing order, and all of them. */
  function Flagged(tg: seq<bool>): (p: seq<nat>)
    ensures forall k :: 0 <= k < |p| ==> p[k] < |tg| && tg[p[k]]
    ensures forall a, b :: 0 <= a < b < |p| ==> p[a] < p[b]
    ensures forall j :: 0 <= j < |tg| && tg[j] ==> j in p
  {
    if |tg| == 0 then []
    else Flagged(tg[..|tg| - 1]) + (if tg[|tg| - 1] then [|tg| - 1] else [])
  }

  /**
   * The records of `all` that a target list lets through, `tg` holding one
   * flag per record: the records at the flagged positions, in stream order.
   */
  function Targeted(all: seq<Line>, tg: seq<bool>): (rs: seq<Line>)
    requires |tg| == |all|
    ensures |rs| == |Flagged(tg)|
    ensures forall k :: 0 <= k < |rs| ==> rs[k] == all[Flagged(tg)[k]]
  {
    if |all| == 0 then []
    else
      var pre := Targeted(all[..|all| - 1], tg[..|tg| - 1]);
      pre + (if tg[|tg| - 1] then [all[|all| - 1]] else [])
  }

  /**
   * The second pass sets the regions again but not the targets, so under
   * `-t`/`-T` it numbers the lines of a longer stream than the one the
   * selection read. Here one sample, no MAF bound and stride 1; the target
   * list drops the first of two sample-file records, the homozygous-REF `a`.
   * The selection keeps the heterozygous `b`, which it numbers line 0, and
   * the export over both records writes that site's row, with the
   * selection's own AF, while it is at `a`, and nothing at `b`.
   */
  lemma UntargetedExportCounterexample(cfg: Config, a: Line, b: Line, V: seq<seq<real>>)
    requires cfg == Config(1, 0.0, 1, false)
    requires a == Line(true, false, Some([Allele(0), Allele(0)])) && b == Line(true, false, Some([Allele(0), Allele(1)]))
    requires |V| >= 1 && |V[0]| >= 1
    ensures Targeted([a, b], [false, true]) == [b]
    ensures WellFormed(cfg, [b]) && Scanned(cfg, [b]).Ok? && KeptRecords(cfg, [b]) == [0]
    ensures var s := Scanned(cfg, [b]).value;
      && s.sites == [0] && Loadings(s.sites, s.AF, V, 1)
      && Exported(cfg, [a], s.sites, s.AF, V, 1).out == [RowFor(0, 0, s.AF, V, 1)]
      && Exported(cfg, [a, b], s.sites, s.AF, V, 1).out == [RowFor(0, 0, s.AF, V, 1)]
  {
    TargetsDropFirst(a, b);
    HeterozygousSiteKept(cfg, b);
    var s := Scanned(cfg, [b]).value;
    FirstRecordWritten(cfg, a, b, s.AF, V);
  }

  lemma TargetsDropFirst(a: Line, b: Line)
    ensures Targeted([a, b], [false, true]) == [b]
  {
    assert [a, b][..1] == [a] && [false, true][..1] == [false];
    assert [a][..0] == [] && [false][..0] == [];
  }

  /** A lone single-sample heterozygous record is kept, as line 0, with one AF value. */
  lemma HeterozygousSiteKept(cfg: Config, b: Line)
    requires cfg == Config(1, 0.0, 1, false) && b == Line(true, false, Some([Allele(0), Allele(1)]))
    ensures WellFormed(cfg, [b]) && Scanned(cfg, [b]).Ok? && Scanned(cfg, [b]).value.sites == [0]
    ensures |Scanned(cfg, [b]).value.AF| == 1
    ensures KeptRecords(cfg, [b]) == [0]
  {
    var c := [Allele(0), Allele(1)];
    assert c[..1] == [Allele(0)] && [Allele(0)][..0] == [];
    assert AlleleSum(c) == 1 && MissingCount(c) == 0;
    assert FoldMinor(AlleleSum(c), Called(c)) == 1;
    assert FirstHaploid(c, 1).None?;
    assert [b][..0] == [];
    var s0 := Scan(0, 0, 0, 0, [], [], []);
    assert Scanned(cfg, [b]) == Step(cfg, s0, b);
    assert Passes(cfg, b);
    StepEffect(cfg, s0, b);
  }

  /**
   * Waiting for line 0 of a one-site list, the export writes that site's
   * row at the first sample-file record it reads, and nothing after it.
   */
  lemma FirstRecordWritten(cfg: Config, a: Line, b: Line, AF: seq<real>, V: seq<seq<real>>)
    requires !cfg.usePanel && a.inSample && Loadings([0], AF, V, 1)
    ensures Exported(cfg, [a], [0], AF, V, 1).out == [RowFor(0, 0, AF, V, 1)]
    ensures Exported(cfg, [a, b], [0], AF, V, 1).out == [RowFor(0, 0, AF, V, 1)]
  {
    assert [a][..0] == [] && [a, b][..1] == [a];
  }

  /**
   * The exported INFO/AF of a kept site whose samples are each wholly called
   * or wholly missing is the ALT allele frequency among its called alleles,
   * so the projection standardises a dosage there with the frequency the
   * matrix was built with.
   */
  lemma ExportedFrequencyIsAltFrequency(cfg: Config, rs: seq<Line>, c: nat)
    requires WellFormed(cfg, rs) && cfg.N >= 1 && Scanned(cfg, rs).Ok?
    requires c < |KeptRecords(cfg, rs)|
    requires var calls := rs[KeptRecords(cfg, rs)[c]].calls.value;
      WholeCalls(calls, cfg.N) && NoSentinel(calls)
    ensures c < |Scanned(cfg, rs).value.AF|
    ensures Scanned(cfg, rs).value.AF[c] * 0.5 == Frq(rs[KeptRecords(cfg, rs)[c]].calls.value)
  {
    var K := KeptRecords(cfg, rs);
    ColumnsAreKeptDosages(cfg, rs);
    assert KeptColumn(cfg, rs, Scanned(cfg, rs).value, c);
    PassingSiteHasCalls(cfg, rs[K[c]]);
    ImputedMeanIsExpectedDosage(rs[K[c]].calls.value, cfg.N);
  }
}
