# ChemClipse peak core, modelled in Dafny

This project models parts of Eclipse ChemClipse, a chromatography and mass
spectrometry workbench. The model covers these parts:

- **The CSV peak converter** (`CsvPeakConverter`). The export writes one
  row per peak under the nine-column header `Name, RT (min), RRT (min), RI,
  Area, S/N, CAS, m/z, intensities`. The import reads such rows back into
  peaks, and the format check recognises a file by its name and header row.
  Two cells pack a list of `key:value` records separated by single spaces:
  the mass spectrum (ion mass to abundance) and the intensity curve
  (retention time to abundance).
- **The Java text routines the converter depends on** (`JavaText`).
  These are `Integer.toString` and `Integer.parseInt`, the shape of
  `Float.toString` and `Double.toString`, the set of strings
  `Float.parseFloat` accepts, `Pattern.splitAsStream`, `Pattern.split(s, 2)`
  and ASCII lower-casing.
- **Two peak filters** (`AsymmetryFilter` and
  `AsymmetricalPeakShapeFilter`). Each walks the peaks a create-read-update-
  delete listener hands it (`PeakFilterModel`). It selects peaks by
  asymmetry factor (tailing over leading), or by leading or tailing width.
  It then enables, deactivates, keeps or deletes them and reports every
  peak it deletes or updates to the listener.
- **A WSD chromatogram peak** (`ChromatogramPeakWsd`). The model covers
  its width in scans, its purity, its cached signal-to-noise ratio, its scan
  at the maximum, and its `equals` and `hashCode`.
- **The default content comparison of process methods** (`ProcessMethods`).

Objects the Java code updates in place are Dafny classes:

- peaks and their "active for analysis" flag;
- the listener's lists of deleted and updated peaks;
- the cached signal-to-noise ratio.

Everything else is modelled as values. Java `int` values are modelled as
`Int32`, with wrap-around written out where the code can overflow.

Every import runs in one of two variants (`Variant`):

- `AsWritten` reads the files exactly as the code does.
- `Corrected` reads them as the code evidently intends.

The two defects behind this split are listed under Findings.

## Model

| member | source | states |
|---|---|---|
| JavaText.ParseInt | chemclipse/plugins/org.eclipse.chemclipse.msd.converter.supplier.csv/src/org/eclipse/chemclipse/msd/converter/supplier/csv/io/core/CSVPeakConverter.java:200 | a parsed `int` comes from an optional sign followed by ASCII digits and lies in the `int` range |
| JavaText.IntTextRoundTrip | chemclipse/plugins/org.eclipse.chemclipse.msd.converter.supplier.csv/src/org/eclipse/chemclipse/msd/converter/supplier/csv/io/core/CSVPeakConverter.java:217 | `Integer.parseInt` reads back every `int` exactly as `Integer.toString` wrote it |
| JavaText.ParseIntRejects | chemclipse/plugins/org.eclipse.chemclipse.msd.converter.supplier.csv/src/org/eclipse/chemclipse/msd/converter/supplier/csv/io/core/CSVPeakConverter.java:200 | a text holding any character that is neither a digit nor a sign is refused, so a decimal point never passes |
| JavaText.RenderedIsNotInt | chemclipse/plugins/org.eclipse.chemclipse.msd.converter.supplier.csv/src/org/eclipse/chemclipse/msd/converter/supplier/csv/io/core/CSVPeakConverter.java:148 | no text that `Double.toString` or `Float.toString` writes is accepted by `Integer.parseInt` |
| JavaText.RenderedFloatParses | chemclipse/plugins/org.eclipse.chemclipse.msd.converter.supplier.csv/src/org/eclipse/chemclipse/msd/converter/supplier/csv/io/core/CSVPeakConverter.java:218 | every text that `Float.toString` writes is accepted by `Float.parseFloat` |
| JavaText.RenderedIsPlain | chemclipse/plugins/org.eclipse.chemclipse.msd.converter.supplier.csv/src/org/eclipse/chemclipse/msd/converter/supplier/csv/io/core/CSVPeakConverter.java:150 | a written float text is non-empty and holds no space and no colon, so it cannot break a record |
| JavaText.IntTextIsPlain | chemclipse/plugins/org.eclipse.chemclipse.msd.converter.supplier.csv/src/org/eclipse/chemclipse/msd/converter/supplier/csv/io/core/CSVPeakConverter.java:132 | a written `int` text is non-empty and holds no space and no colon |
| JavaText.SplitFirst | chemclipse/plugins/org.eclipse.chemclipse.msd.converter.supplier.csv/src/org/eclipse/chemclipse/msd/converter/supplier/csv/io/core/CSVPeakConverter.java:216 | `split(record, 2)` gives one piece exactly when there is no colon, and otherwise a colon-free first piece and a rest that rebuild the record around one colon |
| JavaText.SplitJoin | chemclipse/plugins/org.eclipse.chemclipse.msd.converter.supplier.csv/src/org/eclipse/chemclipse/msd/converter/supplier/csv/io/core/CSVPeakConverter.java:198 | splitting on spaces gives back any non-empty list of non-empty, space-free pieces joined by single spaces |
| JavaText.SplitFirstRecord | chemclipse/plugins/org.eclipse.chemclipse.msd.converter.supplier.csv/src/org/eclipse/chemclipse/msd/converter/supplier/csv/io/core/CSVPeakConverter.java:199 | a record `key:value` whose key holds no colon splits into exactly that key and value |
| CsvPeakConverter.WriteIntensities | chemclipse/plugins/org.eclipse.chemclipse.msd.converter.supplier.csv/src/org/eclipse/chemclipse/msd/converter/supplier/csv/io/core/CSVPeakConverter.java:123-138 | the builder ends as the cell text: empty for a null peak model, otherwise one `rt:abundance` record per retention time, in order, separated by single spaces |
| CsvPeakConverter.WriteMassSpectrum | chemclipse/plugins/org.eclipse.chemclipse.msd.converter.supplier.csv/src/org/eclipse/chemclipse/msd/converter/supplier/csv/io/core/CSVPeakConverter.java:140-154 | the builder ends as the cell text: empty for a null provider, otherwise one `mass:abundance` record per ion, in order, separated by single spaces |
| CsvPeakConverter.IntensityRecordShape | chemclipse/plugins/org.eclipse.chemclipse.msd.converter.supplier.csv/src/org/eclipse/chemclipse/msd/converter/supplier/csv/io/core/CSVPeakConverter.java:132-134 | each intensity record is non-empty and space-free, and splits at its first colon into the retention-time text and the abundance text |
| CsvPeakConverter.IonRecordShape | chemclipse/plugins/org.eclipse.chemclipse.msd.converter.supplier.csv/src/org/eclipse/chemclipse/msd/converter/supplier/csv/io/core/CSVPeakConverter.java:148-150 | each ion record is non-empty and space-free, and splits at its first colon into the mass text and the abundance text |
| CsvPeakConverter.WrittenCellsSplitIntoRecords | chemclipse/plugins/org.eclipse.chemclipse.msd.converter.supplier.csv/src/org/eclipse/chemclipse/msd/converter/supplier/csv/io/core/CSVPeakConverter.java:129-134 | splitting a written non-empty cell on spaces gives back exactly the records the writer appended |
| CsvPeakConverter.ParseAll | chemclipse/plugins/org.eclipse.chemclipse.msd.converter.supplier.csv/src/org/eclipse/chemclipse/msd/converter/supplier/csv/io/core/CSVPeakConverter.java:198 | a run that succeeds yields one value per record |
| CsvPeakConverter.ParseAllStopsAtError | chemclipse/plugins/org.eclipse.chemclipse.msd.converter.supplier.csv/src/org/eclipse/chemclipse/msd/converter/supplier/csv/io/core/CSVPeakConverter.java:198-208 | the first exception ends the run: once a prefix fails, the whole run fails with that exception |
| CsvPeakConverter.ParseAllSucceeds | chemclipse/plugins/org.eclipse.chemclipse.msd.converter.supplier.csv/src/org/eclipse/chemclipse/msd/converter/supplier/csv/io/core/CSVPeakConverter.java:215-220 | when every record parses, the run yields every value, in order |
| CsvPeakConverter.ParseAllFailsAtHead | chemclipse/plugins/org.eclipse.chemclipse.msd.converter.supplier.csv/src/org/eclipse/chemclipse/msd/converter/supplier/csv/io/core/CSVPeakConverter.java:215-220 | when the first record fails, the run fails with its exception |
| CsvPeakConverter.ParseIntensityRecord | chemclipse/plugins/org.eclipse.chemclipse.msd.converter.supplier.csv/src/org/eclipse/chemclipse/msd/converter/supplier/csv/io/core/CSVPeakConverter.java:216-219 | an accepted record is `key:abundance` with an `int` key and an abundance accepted by `Float.parseFloat` |
| CsvPeakConverter.ParseIntensityRecordOf | chemclipse/plugins/org.eclipse.chemclipse.msd.converter.supplier.csv/src/org/eclipse/chemclipse/msd/converter/supplier/csv/io/core/CSVPeakConverter.java:216-218 | for a colon-free key, the record is accepted exactly when the key parses as an `int` and the value as a float; otherwise it fails with `NumberFormatException` naming the text at fault |
| CsvPeakConverter.ParseIonMass | chemclipse/plugins/org.eclipse.chemclipse.msd.converter.supplier.csv/src/org/eclipse/chemclipse/msd/converter/supplier/csv/io/core/CSVPeakConverter.java:200 | as written, a mass is accepted exactly when `Integer.parseInt` accepts it; corrected, exactly when `Float.parseFloat` does |
| CsvPeakConverter.ParseIonRecord | chemclipse/plugins/org.eclipse.chemclipse.msd.converter.supplier.csv/src/org/eclipse/chemclipse/msd/converter/supplier/csv/io/core/CSVPeakConverter.java:199-201 | an accepted ion record is its mass text, a colon and an abundance accepted by `Float.parseFloat`, with the mass as the variant reads it; a mass the variant refuses is the record's exception |
| CsvPeakConverter.ParseIntensityValues | chemclipse/plugins/org.eclipse.chemclipse.msd.converter.supplier.csv/src/org/eclipse/chemclipse/msd/converter/supplier/csv/io/core/CSVPeakConverter.java:212-223 | the loop adds one value per record, in order, and stops at the first record that fails |
| CsvPeakConverter.ParseMassSpectrum | chemclipse/plugins/org.eclipse.chemclipse.msd.converter.supplier.csv/src/org/eclipse/chemclipse/msd/converter/supplier/csv/io/core/CSVPeakConverter.java:195-210 | the loop adds one ion per record, in order, and stops at the first record that fails |
| CsvPeakConverter.IntensityRecordRoundTrip | chemclipse/plugins/org.eclipse.chemclipse.msd.converter.supplier.csv/src/org/eclipse/chemclipse/msd/converter/supplier/csv/io/core/CSVPeakConverter.java:217-219 | a written intensity record reads back as its retention time and abundance text |
| CsvPeakConverter.IonRecordRoundTrip | chemclipse/plugins/org.eclipse.chemclipse.msd.converter.supplier.csv/src/org/eclipse/chemclipse/msd/converter/supplier/csv/io/core/CSVPeakConverter.java:199-201 | a written ion record reads back, corrected, as its mass and abundance text |
| CsvPeakConverter.IntensitiesRoundTrip | chemclipse/plugins/org.eclipse.chemclipse.msd.converter.supplier.csv/src/org/eclipse/chemclipse/msd/converter/supplier/csv/io/core/CSVPeakConverter.java:215-220 | the intensity parser reads back every point of a non-empty curve the writer wrote, in order |
| CsvPeakConverter.IntensityKeysRoundTrip | chemclipse/plugins/org.eclipse.chemclipse.msd.converter.supplier.csv/src/org/eclipse/chemclipse/msd/converter/supplier/csv/io/core/CSVPeakConverter.java:215-221 | the retention times read back are exactly the curve's retention times |
| CsvPeakConverter.MassSpectrumRoundTrip | chemclipse/plugins/org.eclipse.chemclipse.msd.converter.supplier.csv/src/org/eclipse/chemclipse/msd/converter/supplier/csv/io/core/CSVPeakConverter.java:198-203 | the corrected parser reads back every ion of a non-empty spectrum the writer wrote, in order |
| CsvPeakConverter.WrittenMassSpectrumIsRejected | chemclipse/plugins/org.eclipse.chemclipse.msd.converter.supplier.csv/src/org/eclipse/chemclipse/msd/converter/supplier/csv/io/core/CSVPeakConverter.java:200 | as written, the parser refuses every non-empty spectrum the writer wrote, with `NumberFormatException` on the first mass text |
| CsvPeakConverter.EmptyCellIsRejected | chemclipse/plugins/org.eclipse.chemclipse.msd.converter.supplier.csv/src/org/eclipse/chemclipse/msd/converter/supplier/csv/io/core/CSVPeakConverter.java:215-218 | an empty cell, which the writers produce for an empty curve or spectrum, makes both parsers fail with `NumberFormatException` on the empty text |
| CsvPeakConverter.HeaderNameIsNotAMassSpectrum | chemclipse/plugins/org.eclipse.chemclipse.msd.converter.supplier.csv/src/org/eclipse/chemclipse/msd/converter/supplier/csv/io/core/CSVPeakConverter.java:177 | the header name `m/z`, read as a mass spectrum, fails with `NumberFormatException` |
| CsvPeakConverter.LibInfo | chemclipse/plugins/org.eclipse.chemclipse.msd.converter.supplier.csv/src/org/eclipse/chemclipse/msd/converter/supplier/csv/io/core/CSVPeakConverter.java:156-163 | null without a target; otherwise the chosen field of the target's library information |
| CsvPeakConverter.ExportRow | chemclipse/plugins/org.eclipse.chemclipse.msd.converter.supplier.csv/src/org/eclipse/chemclipse/msd/converter/supplier/csv/io/core/CSVPeakConverter.java:87-112 | nine cells in header order: RT, RRT, RI and Area are the peak's formatted texts; Name and CAS are empty without a target; S/N is the ratio for a chromatogram peak and `-` otherwise; the m/z and intensities cells are what the writers produce |
| CsvPeakConverter.PeakRows | chemclipse/plugins/org.eclipse.chemclipse.msd.converter.supplier.csv/src/org/eclipse/chemclipse/msd/converter/supplier/csv/io/core/CSVPeakConverter.java:87-113 | one row per peak, the i-th row being the i-th peak's |
| CsvPeakConverter.ExportConvert | chemclipse/plugins/org.eclipse.chemclipse.msd.converter.supplier.csv/src/org/eclipse/chemclipse/msd/converter/supplier/csv/io/core/CSVPeakConverter.java:76-121 | the header row unless appending, then one row per peak in order |
| CsvPeakConverter.PrintPeak | chemclipse/plugins/org.eclipse.chemclipse.msd.converter.supplier.csv/src/org/eclipse/chemclipse/msd/converter/supplier/csv/io/core/CSVPeakConverter.java:88-112 | the cells printed for one peak are its export row |
| CsvPeakConverter.PeakRowsAppend | chemclipse/plugins/org.eclipse.chemclipse.msd.converter.supplier.csv/src/org/eclipse/chemclipse/msd/converter/supplier/csv/io/core/CSVPeakConverter.java:87-113 | the rows of two runs of peaks are the rows of each, one after the other |
| CsvPeakConverter.Cell | chemclipse/plugins/org.eclipse.chemclipse.msd.converter.supplier.csv/src/org/eclipse/chemclipse/msd/converter/supplier/csv/io/core/CSVPeakConverter.java:177-183 | a record yields the cell of a header exactly when it is long enough, and otherwise fails as inconsistent |
| CsvPeakConverter.ImportOne | chemclipse/plugins/org.eclipse.chemclipse.msd.converter.supplier.csv/src/org/eclipse/chemclipse/msd/converter/supplier/csv/io/core/CSVPeakConverter.java:177-184 | one data record becomes a peak, with the exceptions in the order the code meets them |
| CsvPeakConverter.ImportRecords | chemclipse/plugins/org.eclipse.chemclipse.msd.converter.supplier.csv/src/org/eclipse/chemclipse/msd/converter/supplier/csv/io/core/CSVPeakConverter.java:176-185 | the import loop builds one peak per data record, in order, and stops at the first exception |
| CsvPeakConverter.ImportConvert | chemclipse/plugins/org.eclipse.chemclipse.msd.converter.supplier.csv/src/org/eclipse/chemclipse/msd/converter/supplier/csv/io/core/CSVPeakConverter.java:167-193 | as written, a file with only its header yields no peaks, and a file with any data record fails with `NumberFormatException` on `m/z` |
| CsvPeakConverter.AsWrittenImportFails | chemclipse/plugins/org.eclipse.chemclipse.msd.converter.supplier.csv/src/org/eclipse/chemclipse/msd/converter/supplier/csv/io/core/CSVPeakConverter.java:177 | as written, every data record fails the same way, so no peak is ever imported |
| CsvPeakConverter.ImportConvertCorrected | chemclipse/plugins/org.eclipse.chemclipse.msd.converter.supplier.csv/src/org/eclipse/chemclipse/msd/converter/supplier/csv/io/core/CSVPeakConverter.java:167-193 | the corrected import builds one peak per data record from its own cells |
| CsvPeakConverter.RowRoundTrip | chemclipse/plugins/org.eclipse.chemclipse.msd.converter.supplier.csv/src/org/eclipse/chemclipse/msd/converter/supplier/csv/io/core/CSVPeakConverter.java:177-183 | the corrected import reads the row exported for a peak back as that peak's spectrum, curve, retention time, relative retention time, retention index and area |
| CsvPeakConverter.ExportImportRoundTrip | chemclipse/plugins/org.eclipse.chemclipse.msd.converter.supplier.csv/src/org/eclipse/chemclipse/msd/converter/supplier/csv/io/core/CSVPeakConverter.java:76-121 | exporting peaks with non-empty spectra and curves and importing the data rows, corrected, gives back every peak, in order |
| CsvPeakConverter.MatchHeader | chemclipse/plugins/org.eclipse.chemclipse.msd.converter.supplier.csv/src/org/eclipse/chemclipse/msd/converter/supplier/csv/io/core/CSVPeakConverter.java:232-242 | true exactly when the file's first record is, in order, the nine header names |
| CsvPeakConverter.CheckFileFormat | chemclipse/plugins/org.eclipse.chemclipse.msd.converter.supplier.csv/src/org/eclipse/chemclipse/msd/converter/supplier/csv/io/core/CSVPeakConverter.java:227-230 | true exactly when the lower-cased name ends with `.csv` and the header matches |
| CsvPeakConverter.ExportedFileIsRecognised | chemclipse/plugins/org.eclipse.chemclipse.msd.converter.supplier.csv/src/org/eclipse/chemclipse/msd/converter/supplier/csv/io/core/CSVPeakConverter.java:229 | a file the export wrote without appending is recognised under any spelling of the `.csv` extension |
| PeakFilterModel.Peak.SetActiveForAnalysis | chemclipse/plugins/org.eclipse.chemclipse.xxd.model/src/org/eclipse/chemclipse/xxd/model/filter/peaks/AsymmetryFilter.java:115 | the flag takes the given value |
| PeakFilterModel.CrudListener.Delete | chemclipse/plugins/org.eclipse.chemclipse.xxd.model/src/org/eclipse/chemclipse/xxd/model/filter/peaks/AsymmetryFilter.java:127 | the peak is appended to the deleted peaks and nothing else changes |
| PeakFilterModel.CrudListener.Updated | chemclipse/plugins/org.eclipse.chemclipse.xxd.model/src/org/eclipse/chemclipse/xxd/model/filter/peaks/AsymmetryFilter.java:116 | the peak is appended to the updated peaks and nothing else changes |
| PeakFilterModel.ActiveAfterIdempotent | chemclipse/plugins/org.eclipse.chemclipse.xxd.model/src/org/eclipse/chemclipse/xxd/model/filter/peaks/AsymmetryFilter.java:113-124 | setting the flag twice leaves it as setting it once |
| PeakFilterModel.Apply | chemclipse/plugins/org.eclipse.chemclipse.xxd.model/src/org/eclipse/chemclipse/xxd/model/filter/peaks/AsymmetryFilter.java:113-132 | a flag change sets the flag and reports the peak updated; a deletion reports it deleted; nothing else changes |
| PeakFilterModel.DeletedExactly | chemclipse/plugins/org.eclipse.chemclipse.xxd.model/src/org/eclipse/chemclipse/xxd/model/filter/peaks/AsymmetryFilter.java:125-132 | a peak is reported deleted exactly when it is in the collection and its decision is to delete it |
| PeakFilterModel.UpdatedExactly | chemclipse/plugins/org.eclipse.chemclipse.xxd.model/src/org/eclipse/chemclipse/xxd/model/filter/peaks/AsymmetryFilter.java:113-124 | a peak is reported updated exactly when it is in the collection and its decision sets its flag |
| PeakFilterModel.ReportsAreDisjoint | chemclipse/plugins/org.eclipse.chemclipse.xxd.model/src/org/eclipse/chemclipse/xxd/model/filter/peaks/AsymmetryFilter.java:112-135 | no peak is reported both deleted and updated, nor more often than the collection holds it |
| PeakFilterModel.DeletedSplit | chemclipse/plugins/org.eclipse.chemclipse.xxd.model/src/org/eclipse/chemclipse/xxd/model/filter/peaks/AsymmetryFilter.java:125-132 | when, for every peak, exactly one of two decisions deletes it, the two runs' deleted peaks together are the collection |
| AsymmetryFilter.Compare | chemclipse/plugins/org.eclipse.chemclipse.xxd.model/src/org/eclipse/chemclipse/xxd/model/filter/peaks/AsymmetryFilter.java:31-32 | both comparators are strict: a factor equal to the limit matches neither |
| AsymmetryFilter.BiPredicate.Test | chemclipse/plugins/org.eclipse.chemclipse.xxd.model/src/org/eclipse/chemclipse/xxd/model/filter/peaks/AsymmetryFilter.java:31-32 | a predicate answers as its base comparator, inverted once per negation around it |
| AsymmetryFilter.FactorPredicate.Test | chemclipse/plugins/org.eclipse.chemclipse.xxd.model/src/org/eclipse/chemclipse/xxd/model/filter/peaks/AsymmetryFilter.java:51-55 | the bound limit is compared with the factor: a plain comparator answers as the comparator, a negated one inverts per negation |
| AsymmetryFilter.FactorPredicate.Negate | chemclipse/plugins/org.eclipse.chemclipse.xxd.model/src/org/eclipse/chemclipse/xxd/model/filter/peaks/AsymmetryFilter.java:46-49 | the negated predicate keeps the limit and answers the opposite for every factor |
| AsymmetryFilter.GetPredicate | chemclipse/plugins/org.eclipse.chemclipse.xxd.model/src/org/eclipse/chemclipse/xxd/model/filter/peaks/AsymmetryFilter.java:97-107 | a predicate with the configured limit for each supported criterion; `IllegalArgumentException` with its message for any other |
| AsymmetryFilter.Factor | chemclipse/plugins/org.eclipse.chemclipse.xxd.model/src/org/eclipse/chemclipse/xxd/model/filter/peaks/AsymmetryFilter.java:111 | the factor times the leading width is the tailing width |
| AsymmetryFilter.ProcessPeak | chemclipse/plugins/org.eclipse.chemclipse.xxd.model/src/org/eclipse/chemclipse/xxd/model/filter/peaks/AsymmetryFilter.java:109-136 | enabling and deactivating set the flag on a matching peak; keeping deletes a non-matching peak and deleting a matching one; any other treatment throws |
| AsymmetryFilter.FilterIPeaks | chemclipse/plugins/org.eclipse.chemclipse.xxd.model/src/org/eclipse/chemclipse/xxd/model/filter/peaks/AsymmetryFilter.java:83-95 | an unsupported setting fails at the first peak and changes nothing; otherwise each peak's flag and the listener's reports follow its decision, in collection order |
| AsymmetryFilter.EnableAndDeactivateRule | chemclipse/plugins/org.eclipse.chemclipse.xxd.model/src/org/eclipse/chemclipse/xxd/model/filter/peaks/AsymmetryFilter.java:113-124 | a peak's flag is set to true or false exactly when its factor matches |
| AsymmetryFilter.KeepAndDeleteRule | chemclipse/plugins/org.eclipse.chemclipse.xxd.model/src/org/eclipse/chemclipse/xxd/model/filter/peaks/AsymmetryFilter.java:125-132 | keeping deletes exactly the non-matching peaks and deleting exactly the matching ones |
| AsymmetryFilter.ReportedPeaks | chemclipse/plugins/org.eclipse.chemclipse.xxd.model/src/org/eclipse/chemclipse/xxd/model/filter/peaks/AsymmetryFilter.java:113-132 | over a run, the deleted and updated peaks are exactly those the treatment and the match call for |
| AsymmetryFilter.FactorAtLimit | chemclipse/plugins/org.eclipse.chemclipse.xxd.model/src/org/eclipse/chemclipse/xxd/model/filter/peaks/AsymmetryFilter.java:125-132 | a peak whose factor equals the limit is deleted when keeping and kept when deleting |
| AsymmetryFilter.KeepAndDeletePartition | chemclipse/plugins/org.eclipse.chemclipse.xxd.model/src/org/eclipse/chemclipse/xxd/model/filter/peaks/AsymmetryFilter.java:125-132 | for one criterion and limit, keeping and deleting split the collection between them |
| AsymmetryFilter.TreatmentsStayInTheirLane | chemclipse/plugins/org.eclipse.chemclipse.xxd.model/src/org/eclipse/chemclipse/xxd/model/filter/peaks/AsymmetryFilter.java:113-132 | enabling and deactivating never delete; keeping and deleting never report an update |
| AsymmetricalPeakShapeFilter.DeleteOrDisablePeak | chemclipse/plugins/org.eclipse.chemclipse.xxd.model/src/org/eclipse/chemclipse/xxd/model/filter/peaks/ProcessPeaksByAsymmetricalPeakShapeFilter.java:93-106 | deleting reports the peak deleted; disabling clears its flag; any other treatment throws with its message |
| AsymmetricalPeakShapeFilter.Selected | chemclipse/plugins/org.eclipse.chemclipse.xxd.model/src/org/eclipse/chemclipse/xxd/model/filter/peaks/ProcessPeaksByAsymmetricalPeakShapeFilter.java:72-87 | under the asymmetry-factor criterion, a peak with positive leading width is selected exactly when its tailing exceeds the limit times its leading width, and with negative leading width exactly when it falls below |
| AsymmetricalPeakShapeFilter.ApplySelectedOptions | chemclipse/plugins/org.eclipse.chemclipse.xxd.model/src/org/eclipse/chemclipse/xxd/model/filter/peaks/ProcessPeaksByAsymmetricalPeakShapeFilter.java:69-91 | a selected peak gets the treatment and any other is left alone; an unknown criterion always throws, an unknown treatment only for a selected peak |
| AsymmetricalPeakShapeFilter.FilterIPeaks | chemclipse/plugins/org.eclipse.chemclipse.xxd.model/src/org/eclipse/chemclipse/xxd/model/filter/peaks/ProcessPeaksByAsymmetricalPeakShapeFilter.java:55-67 | the run fails exactly when the criterion is unknown and there is a peak, or the treatment is unknown and some peak is selected, and then it changes nothing; otherwise the flags and reports follow each peak's decision |
| AsymmetricalPeakShapeFilter.SelectionRule | chemclipse/plugins/org.eclipse.chemclipse.xxd.model/src/org/eclipse/chemclipse/xxd/model/filter/peaks/ProcessPeaksByAsymmetricalPeakShapeFilter.java:72-87 | each criterion selects a peak exactly when its measure is strictly greater than its own limit |
| AsymmetricalPeakShapeFilter.TreatmentRule | chemclipse/plugins/org.eclipse.chemclipse.xxd.model/src/org/eclipse/chemclipse/xxd/model/filter/peaks/ProcessPeaksByAsymmetricalPeakShapeFilter.java:95-102 | over a run, deleting reports exactly the selected peaks deleted and updates none; disabling reports exactly the selected peaks updated, deletes none and never enables |
| AsymmetricalPeakShapeFilter.UnselectedUntouched | chemclipse/plugins/org.eclipse.chemclipse.xxd.model/src/org/eclipse/chemclipse/xxd/model/filter/peaks/ProcessPeaksByAsymmetricalPeakShapeFilter.java:69-91 | a peak the criterion does not select is neither deleted nor updated and keeps its flag |
| ChromatogramPeakWsd.Wrap32 | chemclipse/plugins/org.eclipse.chemclipse.wsd.model/src/org/eclipse/chemclipse/wsd/model/core/AbstractChromatogramPeakWSD.java:79 | `int` arithmetic: congruent to the exact value modulo 2^32, and equal to it within range |
| ChromatogramPeakWsd.ChromatogramPeakWsd.constructor | chemclipse/plugins/org.eclipse.chemclipse.wsd.model/src/org/eclipse/chemclipse/wsd/model/core/AbstractChromatogramPeakWSD.java:19-21 | a new peak holds the "not yet known" signal-to-noise value |
| ChromatogramPeakWsd.ChromatogramPeakWsd.ScanMax | chemclipse/plugins/org.eclipse.chemclipse.wsd.model/src/org/eclipse/chemclipse/wsd/model/core/AbstractChromatogramPeakWSD.java:47-52 | the chromatogram's scan number at the retention time of the peak maximum |
| ChromatogramPeakWsd.ChromatogramPeakWsd.WidthBaselineTotalInScans | chemclipse/plugins/org.eclipse.chemclipse.wsd.model/src/org/eclipse/chemclipse/wsd/model/core/AbstractChromatogramPeakWSD.java:68-80 | zero when the start or the stop scan number is zero; otherwise stop minus start plus one, wrapped to `int` |
| ChromatogramPeakWsd.WidthCountsScans | chemclipse/plugins/org.eclipse.chemclipse.wsd.model/src/org/eclipse/chemclipse/wsd/model/core/AbstractChromatogramPeakWSD.java:79 | for positive start and stop scans in order, the width is the number of scans from start to stop inclusive |
| ChromatogramPeakWsd.ScanMaxWithinWidth | chemclipse/plugins/org.eclipse.chemclipse.wsd.model/src/org/eclipse/chemclipse/wsd/model/core/AbstractChromatogramPeakWSD.java:47-52 | when scan numbers grow with retention time, the scan at the maximum is among the scans the width counts |
| ChromatogramPeakWsd.ChromatogramPeakWsd.Purity | chemclipse/plugins/org.eclipse.chemclipse.wsd.model/src/org/eclipse/chemclipse/wsd/model/core/AbstractChromatogramPeakWSD.java:82-101 | never negative; non-zero only for a WSD peak scan with a chromatogram scan at the maximum that has a non-zero signal count; then the peak's signals over the chromatogram scan's signals |
| ChromatogramPeakWsd.PurityIsAFraction | chemclipse/plugins/org.eclipse.chemclipse.wsd.model/src/org/eclipse/chemclipse/wsd/model/core/AbstractChromatogramPeakWSD.java:94-96 | at most one when the peak scan has no more signals than the chromatogram's, and exactly one when both have the same positive number |
| ChromatogramPeakWsd.ChromatogramPeakWsd.GetSignalToNoiseRatio | chemclipse/plugins/org.eclipse.chemclipse.wsd.model/src/org/eclipse/chemclipse/wsd/model/core/AbstractChromatogramPeakWSD.java:55-66 | the first call asks the chromatogram for the ratio of the peak abundance and stores it; later calls return the stored value |
| ChromatogramPeakWsd.ChromatogramPeakWsd.Equals | chemclipse/plugins/org.eclipse.chemclipse.wsd.model/src/org/eclipse/chemclipse/wsd/model/core/AbstractChromatogramPeakWSD.java:109-123 | true for the same object; false for null or another class; otherwise equal peak models and the very same chromatogram |
| ChromatogramPeakWsd.ChromatogramPeakWsd.HashCode | chemclipse/plugins/org.eclipse.chemclipse.wsd.model/src/org/eclipse/chemclipse/wsd/model/core/AbstractChromatogramPeakWSD.java:125-129 | seven times the model's hash plus eleven times the chromatogram's, modulo 2^32 |
| ChromatogramPeakWsd.EqualPeaksHashAlike | chemclipse/plugins/org.eclipse.chemclipse.wsd.model/src/org/eclipse/chemclipse/wsd/model/core/AbstractChromatogramPeakWSD.java:122-128 | equal peaks hash alike whenever the peak model's hash agrees with its `equals` |
| ChromatogramPeakWsd.EqualsIsSymmetric | chemclipse/plugins/org.eclipse.chemclipse.wsd.model/src/org/eclipse/chemclipse/wsd/model/core/AbstractChromatogramPeakWSD.java:109-123 | `equals` is symmetric whenever the peak model's `equals` is |
| ProcessMethods.ProcessMethod.ContentEquals | chemclipse/plugins/org.eclipse.chemclipse.processing/src/org/eclipse/chemclipse/processing/methods/IProcessMethod.java:65-92 | false for null, true for the method itself, and otherwise true only when every checked property agrees and the container comparison accepts |
| ProcessMethods.DifferingPropertyGivesFalse | chemclipse/plugins/org.eclipse.chemclipse.processing/src/org/eclipse/chemclipse/processing/methods/IProcessMethod.java:73-90 | a differing final flag, name, category, description, operator or entry count gives false, whatever the container would answer |
| ProcessMethods.ContainerDecides | chemclipse/plugins/org.eclipse.chemclipse.processing/src/org/eclipse/chemclipse/processing/methods/IProcessMethod.java:88-91 | for two distinct methods that agree on every checked property, the answer is the container's, in each direction |
| ProcessMethods.SymmetryComesFromTheContainer | chemclipse/plugins/org.eclipse.chemclipse.processing/src/org/eclipse/chemclipse/processing/methods/IProcessMethod.java:57-64 | the comparison is symmetric whenever the container's is, and can be asymmetric exactly as the documentation allows |

## Left out

- File access and the Commons CSV library are not modelled. A file is the list of its records, each a list of cell texts. Quoting, escaping and the null-as-empty rule of the printer are left out; a null cell is written as the empty text.
- The `0.000` number format is not modelled. It covers the retention time, relative retention time, retention index, area and S/N cells. These cells stay text on both export and import. The minute conversion, the `(int)` truncation and the `ParseException` that `nf.parse` can throw are left out.
- `PeakIntensityValues.normalize` is left out, because the model keeps the abundance texts as read. So are the construction of `PeakModelMSD` and `PeakMSD` and the `ProcessingInfo` wrapping.
- The `RuntimeException` from `addIon` when an ion or abundance limit is exceeded is left out. Those limits belong to `PeakMassSpectrum`, which is not part of this model.
- `CsvPeakConverter.ImportConvert`: three exceptions escape `convert` unchecked, because the catch at line 188 covers only parse and I/O exceptions. They are `NumberFormatException`, `IndexOutOfBounds`, and the `IllegalArgumentException` that `record.get` throws on a record shorter than the header (`InconsistentRecord` in the model). The model reports every exception as an `Err` without telling the two routes apart.
- `CsvPeakConverter.MatchHeader`: a duplicated header name in the file makes Commons CSV throw rather than return false. An empty file is modelled as an empty header row.
- `JavaText.Render` models only the shape of `Float.toString` and `Double.toString` output, not which digits they choose. That is why the round trips compare texts rather than floating-point values.
- `JavaText.SplitAsStream` follows `Pattern.splitAsStream` as in Java 9 and later, where an empty input gives a stream holding the empty text. Java 8 gives an empty stream there. `EmptyCellIsRejected` and the non-empty requirement of `IntensitiesRoundTrip`, `MassSpectrumRoundTrip` and `ExportImportRoundTrip` rest on this.
- `CsvPeakConverter.ParseIntensityValues` and `CsvPeakConverter.ParseMassSpectrum` return the parsed points and ions as lists in record order. The keyed containers behind `PeakIntensityValues.addIntensityValue` and `PeakMassSpectrum.addIon` are not part of this model. They may merge records with the same retention time or mass, or order them differently; the round trips say nothing about that.
- `JavaText.ParseInt` accepts only ASCII digits. `Integer.parseInt` also accepts other Unicode decimal digits.
- `JavaText.ParsesAsFloat` leaves out the hexadecimal floating-point forms that `Float.parseFloat` also accepts.
- `JavaText.ToLowerAscii` lower-cases only ASCII letters. `String.toLowerCase` is Unicode- and locale-aware.
- Floating point is modelled as `real`. NaN, infinities, rounding and the ordering `Double.compare` puts on `-0.0` and NaN are left out. This covers the factor, the widths, the limits, the purity and the signal-to-noise ratio.
- `AsymmetryFilter.FilterIPeaks` requires every peak's leading width to be non-zero. In Java a zero leading width makes the factor an infinity or NaN and the run goes on; with `real` there is no such value.
- `AsymmetricalPeakShapeFilter.FilterIPeaks` makes the same requirement under the asymmetry-factor criterion, for the same reason.
- A null configuration is not modelled. The filters would then build one with `createConfiguration`, which is not part of this model. The progress monitor and the message consumer are left out too.
- The settings enums are not part of this model. `OtherCriterion` and `OtherTreatment` stand for any value the filters have no case for. A null criterion or treatment fails on a null dereference, which is left out.
- `ChromatogramPeakWsd.ChromatogramPeakWsd.GetSignalToNoiseRatio`: the sentinel test is `float` equality, so a chromatogram answering exactly -1 is asked again on every call. The model has the same behaviour, over `real`.
- The chromatogram's scan lookup, signal-to-noise computation, supplier scan and identity hash are parameters of the model. So are the peak model's `equals` and `hashCode`.
- The validation the WSD peak constructor performs is left out, because `validateChromatogram` and `validateRetentionTimes` are not part of this model. So is `toString`.
- `ProcessMethods.ProcessMethod.ContentEquals`: the entry container's own `contentEquals` is a parameter. A null name, category, description or operator fails on a null dereference, which is left out.
- The getters of `IProcessMethod` are fields.

## Findings

| source | as written | input that shows it | evidently intended | confidence | as-written member | corrected member |
|---|---|---|---|---|---|---|
| chemclipse/plugins/org.eclipse.chemclipse.msd.converter.supplier.csv/src/org/eclipse/chemclipse/msd/converter/supplier/csv/io/core/CSVPeakConverter.java:177 | the import passes the constant `HEADER_MZ` (the text `m/z`) to the mass spectrum parser instead of the record's `m/z` cell | any file with one data row, e.g. one exported from a single peak | `parseMassSpectrum(record.get(HEADER_MZ))`, so that exported peaks are read back | not executed | CsvPeakConverter.AsWrittenImportFails | CsvPeakConverter.ExportImportRoundTrip |
| chemclipse/plugins/org.eclipse.chemclipse.msd.converter.supplier.csv/src/org/eclipse/chemclipse/msd/converter/supplier/csv/io/core/CSVPeakConverter.java:200 | the mass is read with `Integer.parseInt`, but the writer at line 148 appends the `double` mass, which always has a decimal point | an ion of mass 43 written as the record `43.0:100.0` | read the mass with `Double.parseDouble` (or `Float.parseFloat`), so that written spectra are read back | not executed | CsvPeakConverter.WrittenMassSpectrumIsRejected | CsvPeakConverter.MassSpectrumRoundTrip |
