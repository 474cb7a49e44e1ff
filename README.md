# A verified model of `akt pca`

`akt pca` (the file `vcfpca.cpp`) has two modes.

- **Computing a decomposition** (`calcpca`). One pass over a VCF/BCF record stream selects sites and stages them:
  - it counts alternate alleles and missing alleles;
  - it applies a minor-allele filter and keeps every `k`-th passing site;
  - for each kept site it appends the per-sample dosages to a flat column-major buffer `G`, their mean to `AF` and the site's sample-file line number to `sites`.
  
  The buffer then becomes a matrix in one of two ways. `DatatoMatrix` centres each column on its mean, and with `-C 1` also divides it by sqrt(2p(1-p)). `DatatoSymmMatrix` instead builds a bias-corrected N x N relationship matrix. An SVD of that matrix gives the loadings. A second pass over the stream writes every kept site to the loadings file, with INFO/AF = AF/2 and INFO/WEIGHT = its row of V.
- **Projecting samples onto existing loadings** (`pca`, selected by `-W`). For each record of the weights file it:
  - decodes the sample dosages;
  - range-checks them;
  - standardises them with the file's allele frequency;
  - adds weight times standardised dosage into each sample's score vector.
  
  The number of components is fixed at the first record with a numeric leading weight. After the loop, an overlap check on the two line counters decides whether the scores are trusted.

The model has six modules:

- `Common` (`common.dfy`): the shared datatypes (genotype entries, the fatal conditions, results), sums over reals, column-major indexing, and the standardisation rule both modes use.
- `SiteSelection` (`selection.dfy`): the selection pass.
  - The loop's methods are `ScanLine` and `SelectSites`. They are proved equal to the step functions `Step`, `Scanned` and `Select`.
  - A reference view, made of `Passers`, `KeptRecords` and `Lines`, states the outcome independently of the loop: which records are kept, their line numbers, their columns and their means.
- `MatrixFill` (`matrix.dfy`): both matrix fills, as methods over `array2<real>`, and the matrix allocation of `calcpca`.
- `Projection` (`projection.dfy`): projection onto existing loadings.
  - The array methods are `DecodeSite`, `AddWeighted`, `ProjectSample`, `ProjectSamples`, `ProjectSite` and `Project`. They are proved equal to the step functions `SiteStep`, `Samples`, `Projected` and `Outcome`.
  - The lemmas state what a completed run yields.
- `LoadingExport` (`export.dfy`): the export pass that writes the loadings file, and its agreement with the kept sites of the selection pass.
- `Options` (`options.dfy`): the option checks and dispatch of `pca_main`, the sites file, and the oversampling clip.

External inputs appear as parameters:

- The record stream of the synced reader is a sequence of records. Each record says which files have a line at that position, and carries the decoded genotype vector and INFO values.
- The reciprocal square root is a function parameter `invSqrt`.
- The SVD result `V` is a parameter of the export.

## Model

| member | source | states |
|---|---|---|
| SiteSelection.FoldMinor | vcfpca.cpp:497 | the folded count is min(mac, called - mac), never more than half the called alleles, and not negative when mac lies in [0, called] |
| SiteSelection.BiallelicMinorBounds | vcfpca.cpp:482-497 | at a site whose calls are REF/ALT or missing, the folded minor count lies in [0, (2N - nmiss)/2] |
| SiteSelection.PassingSiteHasCalls | vcfpca.cpp:494-498 | a site that passes the filter has at least one called allele, so `frq` has a nonzero divisor |
| SiteSelection.FirstHaploid | vcfpca.cpp:507-512 | the sample reported for Fix Ploidy is the first one with a sentinel allele; none is reported exactly when every sample is diploid |
| SiteSelection.CountAlleles | vcfpca.cpp:482-493 | `mac` is the allele-index sum of the non-missing entries and `nmiss` the number of missing entries |
| SiteSelection.MinorAlleleTest | vcfpca.cpp:482-498 | `frq` is the ALT frequency among called alleles, and `pass` is exactly the test folded mac > (2N - nmiss) * m |
| SiteSelection.StageColumn | vcfpca.cpp:504-523 | on failure it returns the first non-diploid sample; otherwise the column is each sample's allele sum, or 2*frq for a missing sample, and `mu` is the column total |
| SiteSelection.Step | vcfpca.cpp:471-535 | one record fails only with Bad genotypes or Fix Ploidy; Bad genotypes exactly when a record of the input has no GT, and Fix Ploidy exactly when a record passes the filters, is picked by the thinning, and has a non-diploid sample, reported with the record's line number and the first such sample |
| SiteSelection.Scanned | vcfpca.cpp:469-535 | the loop fails only with Bad genotypes or Fix Ploidy |
| SiteSelection.FailureIsFirstFatalRecord | vcfpca.cpp:469-535 | a failed loop ends with the verdict of one record on the state the records before it leave, and those earlier records all succeed |
| SiteSelection.Select | vcfpca.cpp:445-553 | no samples is reported exactly when there are none; no intersecting sites exactly when there are samples and the loop succeeds but keeps nothing; a success is the loop's own final state, with at least one site kept |
| SiteSelection.SentinelSumBound | vcfpca.cpp:487 | for REF/ALT calls, missing entries and vector-end markers, the summed alleles are at most the entry count, and a vector-end marker takes the sum below zero by the marker's value |
| SiteSelection.NonDiploidRecordIsDropped | vcfpca.cpp:483-512 | with an unbounded allele count, a record with REF/ALT calls and a non-diploid sample never passes a non-negative MAF threshold (fewer than 2^29 samples), so the model never reports Fix Ploidy for it |
| SiteSelection.Int32 | vcfpca.cpp:482 | the value a 32-bit `int` holds lies in [-2^31, 2^31) |
| SiteSelection.WrappedSumIsInt32 | vcfpca.cpp:482-489 | the 32-bit running `mac` is the unbounded allele sum reduced to 32 bits |
| SiteSelection.SentinelSplit | vcfpca.cpp:487 | the allele sum is the sum of the call indices plus the sentinel value once per vector-end marker |
| SiteSelection.IndexSumBound | vcfpca.cpp:482-492 | with REF/ALT calls, the index sum plus the marker count is at most the number of called entries |
| SiteSelection.WrappedAt | vcfpca.cpp:487-497 | with e markers below 2^29 called entries, the 32-bit sum folds to a negative count unless 4 divides e, and is the index sum less e when it does |
| SiteSelection.WrappedValue | vcfpca.cpp:482-497 | the same for a genotype vector: a negative folded `mac` unless the marker count is a multiple of four, the index sum less the markers when it is, and the unbounded sum when there are no markers |
| SiteSelection.WrappedCount | vcfpca.cpp:482-501 | for fewer than 2^28 samples with REF/ALT calls, as executed: a record whose marker count is not a multiple of four fails every non-negative MAF threshold; with a multiple of four, `mac` is the index sum less the markers; a record without markers passes exactly when the unbounded model says it does |
| SiteSelection.WrappedMarkersReachFixPloidy | vcfpca.cpp:482-512 | five samples, four of them `1` plus a vector-end marker and one `0/1`, with no MAF threshold and stride 1: the record passes as executed and its first non-diploid sample is 0, so the source reports Fix Ploidy, while the unbounded model drops it and continues |
| SiteSelection.FourMarkersPass | vcfpca.cpp:482-512 | the same for any record of ten entries with four markers, index sum 5 and no missing entry, marker at entry 1 |
| SiteSelection.StepEffect | vcfpca.cpp:471-535 | a completed record moves `count` exactly for a passer and the line counters for lines of each file, and it is kept (column, mean and line number appended) exactly when it passes and the new count is a multiple of the stride |
| SiteSelection.FailSticks | vcfpca.cpp:471-535 | once a record is fatal, the pass over the whole stream ends with that same condition |
| SiteSelection.ScanLine | vcfpca.cpp:471-535 | one iteration equals the step function: Bad genotypes and Fix Ploidy, count-then-modulo keeping, and the `nline`/`npanel` counters |
| SiteSelection.SelectSites | vcfpca.cpp:445-553 | the whole pass equals `Select`: no samples, then the loop, then no intersecting sites when nothing was kept |
| SiteSelection.Passers | vcfpca.cpp:494-498 | the passers are positions, in increasing order, of records that are read, have genotypes and pass the MAF test |
| SiteSelection.PassersComplete | vcfpca.cpp:494-498 | every record that is read, has genotypes and passes the MAF test is among the passers |
| SiteSelection.KeptRecords | vcfpca.cpp:498-501 | the kept records are positions, in increasing order, of passing records |
| SiteSelection.KeptRecordsComplete | vcfpca.cpp:498-504 | every passing record whose running pass count is a multiple of the stride is kept |
| SiteSelection.KeptAreEveryKthPasser | vcfpca.cpp:498-501 | the kept records are exactly the passers numbered k, 2k, 3k, ... so there are floor(passers / k) of them |
| SiteSelection.StrideOneKeepsEveryPasser | vcfpca.cpp:498-501 | with k = 1 every passing record is kept |
| SiteSelection.FirstKeptIsKthPasser | vcfpca.cpp:498-502 | with at least k passers, the first kept record is the k-th passer, and for k > 1 it is not the first passer |
| SiteSelection.ScanCounters | vcfpca.cpp:498-535 | after a successful pass, `count` is the number of passers, `nline` and `npanel` are the line counts, `nkept` is the number of kept records, and `G` holds N * nkept values |
| SiteSelection.SitesIncrease | vcfpca.cpp:505-531 | the recorded `sites` line numbers strictly increase and lie below the final `nline` |
| SiteSelection.SitesAreKeptLines | vcfpca.cpp:505-531 | `sites[c]` is the number of sample-file lines before the c-th kept record |
| SiteSelection.ColumnsAreKeptDosages | vcfpca.cpp:504-524 | column c of `G` holds the dosages of the c-th kept record, and `AF[c]` is their mean |
| SiteSelection.ImputedMeanIsExpectedDosage | vcfpca.cpp:494-524 | when each sample is wholly called or wholly missing, `AF` of a kept site, imputed values included, equals 2*frq |
| SiteSelection.MissingSampleCentresToZero | vcfpca.cpp:518-524 | in that case a missing sample's dosage centres to exactly zero |
| MatrixFill.FillCentred | vcfpca.cpp:298-317 | every entry A(j,i) is the buffer value G[i*N+j] minus AF[i], and for covn == 1 also times 1/sqrt(2p(1-p)) with p = AF[i]/2 |
| MatrixFill.FillColumn | vcfpca.cpp:301-316 | one outer iteration sets every entry of column i to its centred (for covn == 1 standardised) buffer value and leaves the other columns alone |
| MatrixFill.CopyColumn | vcfpca.cpp:303-306 | the cursor `ct` copies column i of the buffer into column i of A, leaving the other columns alone |
| MatrixFill.CentreColumn | vcfpca.cpp:307-315 | column i is centred (and for covn == 1 scaled) in place, leaving the other columns alone |
| MatrixFill.CentredColumnIsShifted | vcfpca.cpp:309 | without scaling, matrix column i is buffer column i shifted by AF[i] |
| MatrixFill.CentredColumnIsScaled | vcfpca.cpp:309-314 | with covn == 1, matrix column i is the shifted buffer column times 1/sqrt(2p(1-p)) |
| MatrixFill.CentredColumnSumsToZero | vcfpca.cpp:298-317 | a column centred on its own mean sums to zero over the samples, scaled or not |
| MatrixFill.SelectedColumnsSumToZero | vcfpca.cpp:554-567 | every column of the centred (or, with covn == 1, standardised) matrix built from a successful selection pass sums to zero |
| MatrixFill.MirroredSitesStandardizeOpposite | vcfpca.cpp:309-314 | for three samples with dosages (0,1,2) and (2,1,0) at two sites, the two standardised columns are exact negatives |
| MatrixFill.ScaledEntryIsStandardized | vcfpca.cpp:310-314 | a covn == 1 entry is the same standardisation projection applies, at frequency AF[i]/2 |
| MatrixFill.NormOf | vcfpca.cpp:335-340 | `norm` is the sum over sites of 0.5*AF[i]*(1 - 0.5*AF[i]), divided by 4 |
| MatrixFill.AccumulatePair | vcfpca.cpp:346-360 | A(j1,j2) becomes the sum over sites of the centred cross-product, with the correction -g(2-g) on the diagonal, and no other entry changes |
| MatrixFill.AccumulateDiagonal | vcfpca.cpp:349-352 | A(j,j) gains the sum over sites of (g - AF[i])^2 - g(2 - g), and no other entry changes |
| MatrixFill.AccumulateOffDiagonal | vcfpca.cpp:356-359 | A(j1,j2) gains the sum over sites of (g1 - AF[i])(g2 - AF[i]), and no other entry changes |
| MatrixFill.FillPair | vcfpca.cpp:346-363 | entry (j1,j2) and its mirror both receive the relationship value; every other entry is unchanged |
| MatrixFill.CrossSumSymmetric | vcfpca.cpp:356-359 | the cross-product sum is symmetric in the two samples |
| MatrixFill.FillRelationship | vcfpca.cpp:332-367 | every entry of the N x N matrix is its relationship value, and the matrix is symmetric |
| MatrixFill.BuildMatrix | vcfpca.cpp:556-567 | the corrected allocation: N x N for covn >= 2, filled symmetric, otherwise N x M filled centred |
| MatrixFill.MatrixColumns | vcfpca.cpp:556-561 | the width each fill needs, the final `vsize`: N for covn >= 2, M otherwise |
| MatrixFill.AllocateAsWritten | vcfpca.cpp:556-561 | as written, A gets M columns while `vsize` ends at N for covn >= 2, so the two differ whenever M != N |
| MatrixFill.AllocationCounterexample | vcfpca.cpp:556-567 | with N = 3, M = 2 and `-C 2`, the buffer allocated as written is 3 x 2 while `vsize` is 3, so it lacks the N columns the relationship fill requires; the corrected construction gives a 3 x 3 buffer holding every relationship entry |
| Common.ExpectedDosageStandardizesToZero | vcfpca.cpp:211-212 | the expected dosage 2p standardises to zero whatever the square root |
| Projection.ChooseComponents | vcfpca.cpp:213-229 | the component count never exceeds the weights available or, with a positive `-N`, its value; it is one of the two; and it is at least 1 when there is one weight |
| Projection.OverlapVerdict | vcfpca.cpp:261-268 | the intended exact test: the run is accepted exactly when n0 > 0 and (homref or n1 == 0 or n0/n1 >= 0.9), and low overlap is reported exactly when !homref, n1 > 0 and n0/n1 < 0.9 |
| Projection.FloatQuotientBelowExact | vcfpca.cpp:261 | with fewer than 2^24 weight lines, the single-precision test `(float)n0/n1 < 0.9` holds exactly when n1 > 0 and 10*n0 <= 9*n1, so it also fires at exactly 90% |
| Projection.OverlapVerdictAsWritten | vcfpca.cpp:261-268 | the checks as written: with fewer than 2^24 weight lines low overlap is reported exactly when !homref, n1 > 0 and 10*n0 <= 9*n1; the run is accepted exactly when n0 > 0 and (homref or the float test fails) |
| Projection.AsWrittenDiffersOnlyAtNinetyPercent | vcfpca.cpp:261-264 | with fewer than 2^24 weight lines the float test and the exact one disagree exactly when !homref, n1 > 0 and n0 is exactly 90% of n1 |
| Projection.ExactlyNinetyPercentRejected | vcfpca.cpp:261-264 | with 9 of 10 weight lines present and no --assume-homref, the source reports low overlap while the exact test accepts |
| Projection.Decoded | vcfpca.cpp:156-183 | a non-diploid vector leaves `gs` as it was; a diploid one with a frequency in [0,1] and only REF/ALT/missing calls gives every sample a dosage in [0,2] |
| Projection.SampleStep | vcfpca.cpp:194-249 | the sample pass fails exactly when the dosage is outside [0,2], the weights are absent, or the lead is numeric and 2af(1-af) <= 0: a dosage out of range gives the range diagnostic for this site and sample (lines 194-198), an in-range dosage with no weights gives the missing-weights diagnostic for the site (lines 200-206), and an in-range dosage with a numeric lead and 2af(1-af) <= 0 gives the NaN diagnostic (lines 245-249), while a NaN lead leaves the state as it was (line 208); otherwise only sample n's dosage and row change, the counters stay, and with a numeric lead the row has `nPC` >= 1 entries |
| Projection.SiteStep | vcfpca.cpp:135-252 | a completed record adds one to `n0` exactly when the sample file has a line and to `n1` exactly when the weights file has one; with no weights line or several AF values the scores and `nPC` stay; missing AF on a weights line is exactly the fatal case that names this record |
| Projection.Outcome | vcfpca.cpp:111-268 | no samples is fatal, and an accepted run has one score row per sample |
| Projection.DecodeSite | vcfpca.cpp:156-183 | `gs` becomes the decoded dosages for a diploid vector, and is otherwise left as it was |
| Projection.AddWeighted | vcfpca.cpp:241-244 | only row n changes, each entry i gaining wts[i]*z |
| Projection.ProjectSample | vcfpca.cpp:194-249 | one sample pass equals `SampleStep`: range check, missing weights, NaN lead skip, standardisation, choice of `nPC`, row reset, accumulation, NaN abort |
| Projection.ProjectSamples | vcfpca.cpp:191-251 | the sample loop equals `Samples`, the fold of `SampleStep` over the samples |
| Projection.ProjectSite | vcfpca.cpp:135-252 | one record equals `SiteStep`: line counters, missing AF, decoding, single-AF check, sample loop |
| Projection.Project | vcfpca.cpp:111-268 | the whole projection equals `Outcome`: no samples, the read loop, the overlap checks |
| Projection.Samples | vcfpca.cpp:191-251 | the sample loop keeps one dosage and one row per sample, keeps both counters, and leaves `nPC` at 0 or the chosen count |
| Projection.Projected | vcfpca.cpp:132-255 | after any prefix of records, `nPC` is 0 or the count chosen from the weight width |
| Projection.SamplesWithoutLead | vcfpca.cpp:194-209 | a sample loop whose leading weight is NaN changes nothing, and it passes a sample only when that dosage is in [0,2] and weights are present |
| Projection.SamplesWithLead | vcfpca.cpp:194-249 | with a numeric lead, each passed sample gets its standardised dosage and its row reset-then-accumulated; later samples are untouched; and 2af(1-af) > 0 |
| Projection.SamplesFailSticks | vcfpca.cpp:191-251 | once a sample is fatal, the sample loop ends with that same condition |
| Projection.ProjectedFailSticks | vcfpca.cpp:132-255 | once a record is fatal, the read loop ends with that same condition |
| Projection.SampleLoopOfNoSamples | vcfpca.cpp:191-251 | with no samples, a contributing record changes neither the scores nor `nPC` |
| Projection.ContributingSiteProjects | vcfpca.cpp:145-252 | a contributing record adds weight i times each sample's standardised dosage to score i, onto zeros at the first such record, after every dosage passed the [0,2] check |
| Projection.SkippedSiteKeepsScores | vcfpca.cpp:145-209 | a record without one AF value or a numeric lead weight leaves scores and `nPC` unchanged, and one absent from the weights file also leaves `gs` unchanged |
| Projection.MissingSampleScoresZero | vcfpca.cpp:171-212 | without --assume-homref, a missing sample's scores do not move at a contributing record |
| Projection.ProjectedShape | vcfpca.cpp:132-255 | after the loop, `n0`/`n1` are the line counts of each file, every row has `nPC` entries, and `nPC` is 0 exactly when no record contributed |
| Projection.AcceptedRun | vcfpca.cpp:132-268 | the run is accepted exactly under the overlap condition on the two line counts, and low overlap is reported exactly when it fails; an accepted run has one row per sample, all of one length, which is 0 exactly when nothing contributed and otherwise the chosen count |
| Projection.DiploidSiteIgnoresHistory | vcfpca.cpp:163-183 | a diploid vector overwrites every dosage, whatever the previous records left |
| Projection.DosageCountsAltAlleles | vcfpca.cpp:167-170 | a called REF/ALT sample decodes to its number of ALT alleles |
| Projection.HomrefImputesZero | vcfpca.cpp:171-176 | with --assume-homref an uncalled sample decodes to 0 |
| Projection.MissingWeightsAreFatal | vcfpca.cpp:200-206 | a single-AF weights record with no WEIGHT values is fatal when there is a sample |
| LoadingExport.ExportStep | vcfpca.cpp:660-695 | one record appends at most one output record, the row for the site under the cursor, and exactly when the record is read and its line is that site's; the line counter moves on every sample-file record |
| LoadingExport.Exported | vcfpca.cpp:656-695 | the cursor never passes the end of `sites`, and it has written exactly as many records as it advanced |
| LoadingExport.CopyWeights | vcfpca.cpp:682-685 | the WEIGHT buffer holds the first `npca` entries of row `idx` of V |
| LoadingExport.ExportLoadings | vcfpca.cpp:656-695 | the loop writes exactly the records of the cursor function, in order |
| LoadingExport.LinesMonotone | vcfpca.cpp:694 | the line counter never goes down, and strictly increases past a sample-file record |
| LoadingExport.ExportFollowsPositions | vcfpca.cpp:660-695 | after t records, the cursor has passed exactly the kept positions below t, with `nline` in step and each record correctly tagged |
| LoadingExport.ExportWritesPositions | vcfpca.cpp:656-695 | the export writes one record per entry of `sites`, the c-th with line `sites[c]`, AF[c]/2 and row c of V |
| LoadingExport.ExportWritesKeptSites | vcfpca.cpp:656-695 | over the stream the selection pass read, the export writes exactly the kept records, in order, each with its own AF and loadings |
| LoadingExport.Flagged | vcfpca.cpp:411-422 | the positions a target list lets through: increasing, all flagged, and every flagged position among them |
| LoadingExport.Targeted | vcfpca.cpp:411-422 | the stream a target list lets through is exactly the flagged records, in stream order |
| LoadingExport.HeterozygousSiteKept | vcfpca.cpp:471-531 | a lone heterozygous record of a one-sample file is kept, as line 0, with one AF value |
| LoadingExport.FirstRecordWritten | vcfpca.cpp:660-690 | with kept line 0, the export writes its row at the first sample-file record it reads, whichever record that is |
| LoadingExport.UntargetedExportCounterexample | vcfpca.cpp:618-627 | a hom-REF record followed by a heterozygous one, with a target list that drops the first: the selection keeps the second as line 0, and the export over both records, with the selection's own AF and loadings, writes that row at the first record |
| LoadingExport.ExportedFrequencyIsAltFrequency | vcfpca.cpp:679-680 | the exported INFO/AF of a kept site is the ALT frequency among its called alleles when each sample is wholly called or missing |
| Options.CheckOptions | vcfpca.cpp:792-810 | the checks pass exactly when some site filter or `-W` (or --force) was given, an input operand exists, `-r`/`-R` are not both used and `-t`/`-r` lists are not both given; it reports the missing-filter error exactly in that case |
| Options.Dispatch | vcfpca.cpp:812-824 | a mode is chosen exactly when the checks pass; the input is the second operand; projection runs exactly when `-W` was used, with its file, `-N` (given flag and value) and --assume-homref; a decomposition uses MAF 0 and stride 1 and passes on `-N`, `-e`, `-a` and `-C` unchanged |
| Options.SitesFile | vcfpca.cpp:397-422 | the sites file is empty unless the list is a file, and is then the region or the target list; the target list takes precedence |
| Options.SelectionConfig | vcfpca.cpp:397-471 | a decomposition's selection reads a record only where the sites file has a line exactly when a region or target list was given as a file |
| Options.SitesFileIsTheListGiven | vcfpca.cpp:397-422 | once the checks pass, the sites file is the one list given, and is set only when that list is a file |
| Options.ComputeKeepsEveryPolymorphicSite | vcfpca.cpp:743-744 | a decomposition keeps every read record whose folded minor count is positive |
| Options.Oversampling | vcfpca.cpp:596 | npca + e never exceeds min(N, vsize); e never exceeds `extra`; one of the two bounds is met; e is nonnegative when npca fits and `extra` >= 0 |

## Left out

- Reading and writing VCF/BCF through htslib are not modelled. This covers the synced reader, index and region lookups, headers, sample subsetting (`-s/-S`), and the copying of ID/REF/ALT/QUAL (lines 669-677). The reader's output is a parameter: the record sequence.
- The SVD (Jacobi or randomised), the singular-value file and the printed scores are not modelled; only the clip of the oversampling on line 596 is.
- Floating point is not modelled. Arithmetic is over exact reals.
  - Single-precision rounding is ignored, except in the overlap test on line 261 (see Findings).
  - Division by zero and `sqrt` of negative numbers are absent; the reciprocal square root is the parameter `invSqrt`.
  - `isnan` is absent: a NaN weight is `None`.
- Projection.SampleStep: the NaN abort on line 245 is modelled as "2af(1-af) <= 0". In IEEE arithmetic the source aborts only when component 0 of a score actually becomes NaN, which differs in three ways.
  - At a site with variance 0, the standardised dosage is 0/0 = NaN when the dosage equals 2af, and the source aborts; otherwise it is infinite. An infinite value aborts when `wts[0]` is 0 (0 times infinity is NaN). With any other `wts[0]` the score becomes infinite and the run goes on.
  - An infinite score component 0 becomes NaN at a later site that adds an infinity of the opposite sign, and the run aborts there, not at the zero-variance site.
  - Only component 0 is tested. A NaN in component i > 0, from 0 times infinity with `wts[i]` = 0, never aborts.
- getopt parsing and `usage()` are not modelled. `Options` starts from the parsed values.
- Integer widths are not modelled. Counters and allele indices are unbounded.
- SiteSelection.WellFormed: the selection pass assumes every decoded genotype vector has exactly 2N entries. The source sizes by the largest ploidy in the record, so a haploid-only or a polyploid record is not modelled.
- MatrixFill.FillRelationship: it requires `norm` to be nonzero. With all kept AF values at 0 or 2 the source divides by zero.
- Projection.Sane: projection assumes every weight vector with a numeric lead has one fixed length and no NaN beyond its lead. It also assumes the `nwts` that htslib reports (the buffer size) is that length. The source reads `wts[i]` for i < nPC without checking any of these.
- LoadingExport.ExportWritesKeptSites: it assumes the export pass reads the same record stream as the selection pass, the corrected behaviour of a Findings row. The source's second reader is given the regions only (lines 618-627), not the targets. `UntargetedExportCounterexample` shows what that does when `-t/-T` was used.
- LoadingExport.Loadings: it assumes V has a row for every kept site. That holds for covn < 2, where `V` is M x npca. With `-C 2`, `V` is allocated with `vsize` = N rows (lines 561 and 570), while the export reads `V(idx, i)` for every idx < M (line 684). The premise therefore fails when M > N, and the model does not capture the resulting reads past the last row.
- Projection.OverlapVerdict: it uses the intended exact test n0/n1 < 0.9, which accepts exactly 90%. The source's float test also rejects exactly 90%. That test is `OverlapVerdictAsWritten`, described in a Findings row.
- Projection.Outcome: it uses `OverlapVerdict`, so it accepts a run with exactly 90% of the weight lines present, which the source rejects.
- Projection.Project: its final test is the exact `n0/n1 < 0.9` over reals, so it accepts exactly 90%, which the source rejects.
- Projection.AcceptedRun: its condition on the counts is the intended `10*n0 >= 9*n1`. The source also rejects `10*n0 == 9*n1`.
- Projection.FloatQuotientBelow: it models the float quotient for counts below 2^24. Beyond that, converting the counts to float rounds them, and this is not modelled. At such counts `FloatQuotientBelowExact` says nothing.
- The "No principle components" branch (lines 230-233) is not modelled as a step, and `Fatal` has no constructor for its diagnostic. It can only be reached with nwts == 0, and the weight check on line 201 has already failed then.
- MatrixFill.NormOf: this follows the code, where `norm` is the sum over sites of p(1-p), divided by 4. It is not the mean of 2p(1-p) that a description of the method gives.
- The MAF bound `m` and the stride `thin` of `pca_main` are fixed at 0 and 1, because no option sets them. The selection pass still takes both as parameters.
- The sites file of `calcpca` is modelled for the choice of `pfilename` and for the `read` test it controls (`SelectionConfig`). Failures of `bcf_sr_set_regions`/`bcf_sr_set_targets` belong to the reader and are not modelled.
- SiteSelection.Step: its ensures states both fatal conditions in full, but not the counters it moves. `ScanCounters` and `StepEffect` state those.
- SiteSelection.NonDiploidRecordIsDropped: it is about the model's unbounded allele count, for REF/ALT calls and fewer than 2^29 samples. Because the vector-end marker is summed into the allele count (line 487), such a record fails the MAF test (lines 497-501) before the ploidy check (lines 506-512) is reached, and is dropped silently. The source agrees only while its 32-bit `mac` does not wrap.
- SiteSelection.Passes: the model's allele count is unbounded, while `mac` is a 32-bit `int` (line 482) that wraps on the usual two's-complement targets (signed overflow is undefined in C++). Each vector-end marker adds -2^30 - 1, so with a multiple of four markers the wrapped `mac` can pass: the source then reports Fix Ploidy where the model drops the record. `PassesAsWritten`, `WrappedCount` and `WrappedMarkersReachFixPloidy` state the executed behaviour, and the two agree on every record without markers. The rest of the model keeps the unbounded count.

## Findings

| source | as written | input that shows it | evidently intended | confidence | as-written member | corrected member |
|---|---|---|---|---|---|---|
| vcfpca.cpp:556-562 | `MatrixXf A(N, vsize)` is allocated while `vsize` is still M; `vsize = N` is assigned only afterwards, and `DatatoSymmMatrix` then fills N x N entries | `-C 2` with N = 3 samples and M = 2 kept sites: the fill writes A(0,2), which is outside the N x 2 matrix (with M > N, columns N..M-1 are left unset instead) | allocate N x N for the relationship matrix and N x M otherwise | not executed | MatrixFill.AllocateAsWritten | MatrixFill.BuildMatrix |
| vcfpca.cpp:261-264 | `(float)n0/n1 < 0.9` compares a single-precision quotient with the double 0.9; 9/10 rounds to 0.9f = 0.8999999762 | 9 of 10 weight lines present in the sample file, without --assume-homref: the run dies with "less that 90% of sites" | reject only below 90%, as the message says: exactly `10*n0 < 9*n1` | not executed | Projection.ExactlyNinetyPercentRejected | Projection.OverlapVerdict |
| vcfpca.cpp:618-627 | the export pass's reader gets the regions but not the targets, yet matches records by the sample-file line numbers the targeted selection pass recorded | `-t` with a list that drops the first of two sample-file records of a one-sample file, the second heterozygous: the selection keeps line 0 (the second record), and the export writes that site's row for the first record | give the export pass the same targets, so that it reads the stream the selection read | not executed | LoadingExport.UntargetedExportCounterexample | LoadingExport.ExportWritesKeptSites |
