/**
 * The checks `pca_main` applies to its parsed options before choosing
 * between projection (`-W`) and computing a new decomposition, the sites
 * file `calcpca` derives from them, and the clip of the randomised
 * decomposition's oversampling.
 */
module Options {
  import opened Common
  import SiteSelection

  /**
   * The option values after parsing: `--force`, the `-t/-T` and `-r/-R`
   * strings, whether `-r` and `-R` were used, whether `-R` or `-T` made the
   * list a file, whether `-W` was used and its file, `-N` (given, value),
   * `-H`, `-a`, `-C`, `-e`, and the operands left after the options (the
   * subcommand word, then the input).
   */
  datatype Opts = Opts(force: bool, targets: string, regions: string, usedR: bool, usedRFile: bool,
                       listIsFile: bool, usedW: bool, weightFile: string, don: bool, npca: int, homref: bool,
                       jacobi: bool, covn: int, extra: int, operands: seq<string>)

  /** What runs after the checks. */
  datatype Mode =
    | Project(input: string, weightFile: string, don: bool, maxn: int, homref: bool)
    | Compute(input: string, maf: real, thin: nat, npca: int, extra: int, jacobi: bool, covn: int)

  /**
   * The checks of lines 792-810, in order: some site filter or `-W` unless
   * `--force`; at least two operands; not both `-r` and `-R`; not both a
   * target list and a region list.
   */
  function CheckOptions(o: Opts): (r: Option<Fatal>)
    ensures r.None? <==>
      (o.force || o.targets != "" || o.regions != "" || o.weightFile != "") &&
      |o.operands| >= 2 && !(o.usedR && o.usedRFile) && !(o.targets != "" && o.regions != "")
    ensures r == Some(NoSiteFilter) <==> !o.force && o.targets == "" && o.regions == "" && o.weightFile == ""
  {
    if !o.force && o.targets == "" && o.regions == "" && o.weightFile == "" then Some(NoSiteFilter)
    else if |o.operands| <= 1 then Some(NoInput)
    else if o.usedR && o.usedRFile then Some(RegionsTwice)
    else if o.targets != "" && o.regions != "" then Some(RegionsAndTargets)
    else None
  }

  /**
   * Lines 812-824: the input is the second operand; `-W` selects projection
   * (whatever its argument; the check above only looks at the file name),
   * otherwise a new decomposition with the MAF bound 0 and stride 1 that
   * `pca_main` never changes (no option sets them).
   */
  function Dispatch(o: Opts): (r: Result<Mode>)
    ensures r.Ok? <==> CheckOptions(o).None?
    ensures r.Ok? ==> r.value.input == o.operands[1]
    ensures r.Ok? ==> (r.value.Project? <==> o.usedW)
    ensures r.Ok? && r.value.Project? ==> r.value.weightFile == o.weightFile && r.value.maxn == o.npca
    ensures r.Ok? && r.value.Project? ==> r.value.don == o.don && r.value.homref == o.homref
    ensures r.Ok? && r.value.Compute? ==> r.value.maf == 0.0 && r.value.thin == 1
    ensures r.Ok? && r.value.Compute? ==>
      r.value.npca == o.npca && r.value.extra == o.extra && r.value.jacobi == o.jacobi && r.value.covn == o.covn
  {
    match CheckOptions(o)
    case Some(e) => Fail(e)
    case None =>
      var input := o.operands[1];
      if o.usedW then Ok(Project(input, o.weightFile, o.don, o.npca, o.homref))
      else Ok(Compute(input, 0.0, 1, o.npca, o.extra, o.jacobi, o.covn))
  }

  /**
   * The sites file of `calcpca` (lines 397-422): the region list, then the
   * target list, when it names a file; a plain list restricts positions
   * without adding a second reader.
   */
  function SitesFile(o: Opts): (r: string)
    ensures r != "" ==> o.listIsFile && (r == o.regions || r == o.targets)
    ensures o.listIsFile && o.targets != "" ==> r == o.targets
    ensures o.listIsFile && o.targets == "" ==> r == o.regions
  {
    var p := if o.regions != "" && o.listIsFile then o.regions else "";
    if o.targets != "" && o.listIsFile then o.targets else p
  }

  /** Once the checks pass, the sites file is the single list given, and only when it is a file. */
  lemma SitesFileIsTheListGiven(o: Opts)
    requires CheckOptions(o).None?
    ensures SitesFile(o) != "" <==> o.listIsFile && (o.regions != "" || o.targets != "")
    ensures SitesFile(o) != "" ==> SitesFile(o) == o.regions || SitesFile(o) == o.targets
    ensures o.regions != "" ==> SitesFile(o) == (if o.listIsFile then o.regions else "")
  {
  }

  /**
   * The site selection of a decomposition run over `N` samples: the MAF
   * bound and stride chosen by `Dispatch`, and a record is read only where
   * the sites file has a line too exactly when there is a sites file
   * (line 471).
   */
  function SelectionConfig(o: Opts, N: nat): (cfg: SiteSelection.Config)
    requires Dispatch(o).Ok? && Dispatch(o).value.Compute?
    ensures cfg.N == N && cfg.maf == Dispatch(o).value.maf && cfg.thin == Dispatch(o).value.thin
    ensures cfg.usePanel <==> o.listIsFile && (o.regions != "" || o.targets != "")
  {
    SitesFileIsTheListGiven(o);
    SiteSelection.Config(N, Dispatch(o).value.maf, Dispatch(o).value.thin, SitesFile(o) != "")
  }

  /** A decomposition run keeps every record whose folded minor allele count is positive, one in one. */
  lemma ComputeKeepsEveryPolymorphicSite(o: Opts, cfg: SiteSelection.Config, rs: seq<SiteSelection.Line>)
    requires Dispatch(o).Ok? && Dispatch(o).value.Compute?
    requires cfg.maf == Dispatch(o).value.maf && cfg.thin == Dispatch(o).value.thin
    ensures SiteSelection.KeptRecords(cfg, rs) == SiteSelection.Passers(cfg, rs)
    ensures forall minor: int, called: nat :: SiteSelection.PassesMaf(minor, called, cfg.maf) <==> minor > 0
  {
    SiteSelection.StrideOneKeepsEveryPasser(cfg, rs);
  }

  /**
   * Line 596: the oversampling of the randomised decomposition, clipped so
   * that `npca + e` never exceeds the smaller matrix dimension.
   */
  function Oversampling(N: int, vsize: int, npca: int, extra: int): (e: int)
    ensures npca + e <= Min(N, vsize)
    ensures e <= extra
    ensures e == extra || npca + e == Min(N, vsize)
    ensures 0 <= npca <= Min(N, vsize) && extra >= 0 ==> e >= 0
  {
    Min(Min(N, vsize) - npca, extra)
  }
}
