/** The CSV peak converter: it exports the peaks of a mass-spectrometry
    chromatogram as one CSV row per peak under a nine-column header, imports
    such a file back into peaks, and recognises the format by the file name
    and the header row. Two cells pack a list of records `key:value`
    separated by single spaces: the mass spectrum (`m/z`, ion mass to
    abundance) and the intensity curve (`intensities`, retention time to
    abundance). */
module CsvPeakConverter {
  import opened Results
  import opened JavaText

  const HEADER_AREA: string := "Area"
  const HEADER_RRT: string := "RRT (min)"
  const HEADER_RI: string := "RI"
  const HEADER_INTENSITIES: string := "intensities"
  const HEADER_MZ: string := "m/z"
  const HEADER_RT: string := "RT (min)"
  const SEPARATOR_VALUE: char := ':'
  const SEPARATOR_RECORD: char := ' '

  /** The header row, in the order the cells of every row are printed. */
  const HEADERS: seq<string> :=
    ["Name", HEADER_RT, HEADER_RRT, HEADER_RI, HEADER_AREA, "S/N", "CAS", HEADER_MZ, HEADER_INTENSITIES]

  // ---------------------------------------------------------------------
  // The peaks the converter reads and writes

  /** The library entry of a peak's best identification target; either
      field may be null. */
  datatype LibraryInformation = LibraryInformation(name: Option<string>, casNumber: Option<string>)

  /** An ion of a peak mass spectrum: its mass (a `double`) and abundance (a
      `float`), each as the text its `toString` writes. */
  datatype Ion = Ion(mass: FloatText, abundance: FloatText)

  /** A point of the peak model's intensity curve: one of the integer
      retention times and the abundance the model gives for it. */
  datatype IntensityPoint = IntensityPoint(retentionTime: Int32, abundance: FloatText)

  /** The peak model: its intensity curve and its mass spectrum, which may be
      null. */
  datatype PeakModel = PeakModel(intensities: seq<IntensityPoint>, massSpectrum: Option<seq<Ion>>)

  /** A peak to export. The retention time, relative retention time,
      retention index and area are the texts the `0.000` number format
      writes; `signalToNoise` is that text for a chromatogram peak and absent
      for any other peak. */
  datatype Peak = Peak(
    bestTarget: Option<LibraryInformation>,
    peakModel: PeakModel,
    retentionTime: string,
    relativeRetentionTime: string,
    retentionIndex: string,
    area: string,
    signalToNoise: Option<string>)

  // ---------------------------------------------------------------------
  // Writing the packed cells

  /** `f` applied to every item, in order. */
  function MapAll<A, B>(xs: seq<A>, f: A -> B): (ys: seq<B>)
    ensures |ys| == |xs| && forall i :: 0 <= i < |xs| ==> ys[i] == f(xs[i])
  {
    seq(|xs|, i requires 0 <= i < |xs| => f(xs[i]))
  }

  lemma MapAllAppend<A, B>(a: seq<A>, b: seq<A>, f: A -> B)
    ensures MapAll(a + b, f) == MapAll(a, f) + MapAll(b, f)
  {
    var l := MapAll(a + b, f);
    var r := MapAll(a, f) + MapAll(b, f);
    forall k | 0 <= k < |l| ensures l[k] == r[k] {
      if k < |a| {
        assert (a + b)[k] == a[k];
      } else {
        assert (a + b)[k] == b[k - |a|];
      }
    }
  }

  lemma MapAllSnoc<A, B>(xs: seq<A>, i: nat, f: A -> B)
    requires i < |xs|
    ensures MapAll(xs[..i + 1], f) == MapAll(xs[..i], f) + [f(xs[i])]
  {
    assert xs[..i + 1] == xs[..i] + [xs[i]];
    MapAllAppend(xs[..i], [xs[i]], f);
  }

  function IntensityRecord(point: IntensityPoint): string {
    IntText(point.retentionTime) + [SEPARATOR_VALUE] + Render(point.abundance)
  }

  function IonRecord(ion: Ion): string {
    Render(ion.mass) + [SEPARATOR_VALUE] + Render(ion.abundance)
  }

  function IntensityRecords(points: seq<IntensityPoint>): (records: seq<string>)
    ensures |records| == |points|
    ensures forall i :: 0 <= i < |points| ==> records[i] == IntensityRecord(points[i])
  {
    MapAll(points, IntensityRecord)
  }

  function IonRecords(ions: seq<Ion>): (records: seq<string>)
    ensures |records| == |ions|
    ensures forall i :: 0 <= i < |ions| ==> records[i] == IonRecord(ions[i])
  {
    MapAll(ions, IonRecord)
  }

  /** The `intensities` cell: empty for a null peak model, otherwise every
      point's record, in the model's order, joined by single spaces. */
  function IntensitiesText(peakModel: Option<PeakModel>): string {
    match peakModel
    case None => ""
    case Some(model) => Join(IntensityRecords(model.intensities), SEPARATOR_RECORD)
  }

  /** The `m/z` cell: empty for a null ion provider, otherwise every ion's
      record joined by single spaces. */
  function MassSpectrumText(provider: Option<seq<Ion>>): string {
    match provider
    case None => ""
    case Some(ions) => Join(IonRecords(ions), SEPARATOR_RECORD)
  }

  lemma JoinSnoc(pieces: seq<string>, piece: string, sep: char)
    ensures Join(pieces + [piece], sep) == if pieces == [] then piece else Join(pieces, sep) + [sep] + piece
  {
    assert (pieces + [piece])[..|pieces|] == pieces;
  }

  /** One step of a writer loop: a separator unless nothing was written
      yet, then the next piece, gives the join of one more piece. */
  lemma JoinStep(pieces: seq<string>, piece: string, sep: char, before: string, prefix: string)
    requires before == Join(pieces, sep) && (before == "" <==> pieces == [])
    requires prefix == if |before| > 0 then before + [sep] else before
    ensures prefix + piece == Join(pieces + [piece], sep)
  {
    JoinSnoc(pieces, piece, sep);
  }

  /** One pass of the intensity writer's loop body. */
  lemma WriteIntensityStep(points: seq<IntensityPoint>, i: nat, before: string, prefix: string)
    requires i < |points|
    requires before == Join(IntensityRecords(points[..i]), SEPARATOR_RECORD) && (before == "" <==> i == 0)
    requires prefix == if |before| > 0 then before + [SEPARATOR_RECORD] else before
    ensures prefix + IntText(points[i].retentionTime) + [SEPARATOR_VALUE] + Render(points[i].abundance)
         == Join(IntensityRecords(points[..i + 1]), SEPARATOR_RECORD)
    ensures prefix + IntText(points[i].retentionTime) + [SEPARATOR_VALUE] + Render(points[i].abundance) != ""
  {
    var record := IntensityRecord(points[i]);
    var pieces := IntensityRecords(points[..i]);
    assert prefix + IntText(points[i].retentionTime) + [SEPARATOR_VALUE] + Render(points[i].abundance) == prefix + record;
    assert Join(IntensityRecords(points[..i + 1]), SEPARATOR_RECORD) == prefix + record by {
      IntensityRecordsSnoc(points, i);
      assert |pieces| == i;
      JoinStep(pieces, record, SEPARATOR_RECORD, before, prefix);
    }
  }

  /** One pass of the mass spectrum writer's loop body. */
  lemma WriteIonStep(ions: seq<Ion>, i: nat, before: string, prefix: string)
    requires i < |ions|
    requires before == Join(IonRecords(ions[..i]), SEPARATOR_RECORD) && (before == "" <==> i == 0)
    requires prefix == if |before| > 0 then before + [SEPARATOR_RECORD] else before
    ensures prefix + Render(ions[i].mass) + [SEPARATOR_VALUE] + Render(ions[i].abundance)
         == Join(IonRecords(ions[..i + 1]), SEPARATOR_RECORD)
    ensures prefix + Render(ions[i].mass) + [SEPARATOR_VALUE] + Render(ions[i].abundance) != ""
  {
    var record := IonRecord(ions[i]);
    var pieces := IonRecords(ions[..i]);
    assert prefix + Render(ions[i].mass) + [SEPARATOR_VALUE] + Render(ions[i].abundance) == prefix + record;
    assert Join(IonRecords(ions[..i + 1]), SEPARATOR_RECORD) == prefix + record by {
      IonRecordsSnoc(ions, i);
      assert |pieces| == i;
      JoinStep(pieces, record, SEPARATOR_RECORD, before, prefix);
    }
  }

  lemma IntensityRecordsSnoc(points: seq<IntensityPoint>, i: nat)
    requires i < |points|
    ensures IntensityRecords(points[..i + 1]) == IntensityRecords(points[..i]) + [IntensityRecord(points[i])]
  {
    MapAllSnoc(points, i, IntensityRecord);
  }

  lemma IonRecordsSnoc(ions: seq<Ion>, i: nat)
    requires i < |ions|
    ensures IonRecords(ions[..i + 1]) == IonRecords(ions[..i]) + [IonRecord(ions[i])]
  {
    MapAllSnoc(ions, i, IonRecord);
  }

  /** The intensity writer: a `StringBuilder` that gets a space before every
      record but the first (it tests for a non-empty builder), then the
      retention time, a colon and the abundance. */
  method WriteIntensities(peakModel: Option<PeakModel>) returns (sb: string)
    ensures sb == IntensitiesText(peakModel)
  {
    sb := "";
    if peakModel.Some? {
      var points := peakModel.value.intensities;
      for i := 0 to |points|
        invariant sb == Join(IntensityRecords(points[..i]), SEPARATOR_RECORD)
        invariant sb == "" <==> i == 0
      {
        ghost var before := sb;
        if |sb| > 0 {
          sb := sb + [SEPARATOR_RECORD];
        }
        WriteIntensityStep(points, i, before, sb);
        sb := sb + IntText(points[i].retentionTime);
        sb := sb + [SEPARATOR_VALUE];
        sb := sb + Render(points[i].abundance);
      }
      assert points[..|points|] == points;
    }
  }

  /** The mass spectrum writer, built the same way from each ion's mass and
      abundance. */
  method WriteMassSpectrum(provider: Option<seq<Ion>>) returns (sb: string)
    ensures sb == MassSpectrumText(provider)
  {
    sb := "";
    if provider.Some? {
      var ions := provider.value;
      for i := 0 to |ions|
        invariant sb == Join(IonRecords(ions[..i]), SEPARATOR_RECORD)
        invariant sb == "" <==> i == 0
      {
        ghost var before := sb;
        if |sb| > 0 {
          sb := sb + [SEPARATOR_RECORD];
        }
        WriteIonStep(ions, i, before, sb);
        sb := sb + Render(ions[i].mass);
        sb := sb + [SEPARATOR_VALUE];
        sb := sb + Render(ions[i].abundance);
      }
      assert ions[..|ions|] == ions;
    }
  }

  lemma IntensityRecordShape(point: IntensityPoint)
    ensures IntensityRecord(point) != "" && Free(IntensityRecord(point), SEPARATOR_RECORD)
    ensures SplitFirst(IntensityRecord(point), SEPARATOR_VALUE) == [IntText(point.retentionTime), Render(point.abundance)]
  {
    IntTextIsPlain(point.retentionTime);
    RenderedIsPlain(point.abundance);
    PlainSpaceFree(IntText(point.retentionTime));
    PlainSpaceFree(Render(point.abundance));
    assert Free(IntText(point.retentionTime), SEPARATOR_VALUE) by {
      PlainColonFree(IntText(point.retentionTime));
    }
    SplitFirstRecord(IntText(point.retentionTime), Render(point.abundance));
  }

  lemma IonRecordShape(ion: Ion)
    ensures IonRecord(ion) != "" && Free(IonRecord(ion), SEPARATOR_RECORD)
    ensures SplitFirst(IonRecord(ion), SEPARATOR_VALUE) == [Render(ion.mass), Render(ion.abundance)]
  {
    RenderedIsPlain(ion.mass);
    RenderedIsPlain(ion.abundance);
    PlainSpaceFree(Render(ion.mass));
    PlainSpaceFree(Render(ion.abundance));
    assert Free(Render(ion.mass), SEPARATOR_VALUE) by {
      PlainColonFree(Render(ion.mass));
    }
    SplitFirstRecord(Render(ion.mass), Render(ion.abundance));
  }

  lemma PlainSpaceFree(s: string)
    requires Plain(s)
    ensures Free(s, SEPARATOR_RECORD)
  {
  }

  lemma PlainColonFree(s: string)
    requires Plain(s)
    ensures Free(s, SEPARATOR_VALUE)
  {
  }

  /** What the two writers produce is a list of records with exactly one
      space between neighbours and none before the first or after the last:
      splitting the cell on spaces gives the records back. */
  lemma {:induction false} WrittenCellsSplitIntoRecords(model: PeakModel, ions: seq<Ion>)
    requires |model.intensities| > 0 && |ions| > 0
    ensures SplitAsStream(IntensitiesText(Some(model)), SEPARATOR_RECORD) == IntensityRecords(model.intensities)
    ensures SplitAsStream(MassSpectrumText(Some(ions)), SEPARATOR_RECORD) == IonRecords(ions)
  {
    var records := IntensityRecords(model.intensities);
    forall i | 0 <= i < |records| ensures records[i] != "" && Free(records[i], SEPARATOR_RECORD) {
      IntensityRecordShape(model.intensities[i]);
    }
    SplitJoin(records, SEPARATOR_RECORD);
    var ionRecords := IonRecords(ions);
    forall i | 0 <= i < |ionRecords| ensures ionRecords[i] != "" && Free(ionRecords[i], SEPARATOR_RECORD) {
      IonRecordShape(ions[i]);
    }
    SplitJoin(ionRecords, SEPARATOR_RECORD);
  }

  // ---------------------------------------------------------------------
  // Parsing the packed cells

  /** The exceptions an import can end with: `NumberFormatException` from
      `Integer.parseInt` or `Float.parseFloat` (with the text it refused),
      `ArrayIndexOutOfBoundsException` for a record without a colon, and the
      `IllegalArgumentException` a CSV record throws when it has no cell for
      a header. None of them is caught by the importer. */
  datatype ImportError =
    | NumberFormat(text: string)
    | IndexOutOfBounds
    | InconsistentRecord(header: string)

  /** An intensity value as the parser adds it: the retention time and the
      abundance text `Float.parseFloat` accepted. */
  datatype IntensityValue = IntensityValue(retentionTime: Int32, abundance: string)

  /** An ion mass as read: the `int` that `Integer.parseInt` gives (widened
      to a `double`), or, when read with a floating-point parser, the text it
      accepted. */
  datatype IonMass = WholeMass(value: Int32) | DecimalMass(text: string)

  datatype ReadIon = ReadIon(mass: IonMass, abundance: string)

  /** Which reading of the mass-spectrum cell: the code as it stands, or with
      its two mistakes put right (the cell's own text instead of the header
      name, and a floating-point parser for the ion mass). */
  datatype Variant = AsWritten | Corrected

  /** Runs `parse` over the items in order and stops at the first failure:
      the behaviour of `forEachRemaining` with a consumer that throws. */
  function ParseAll<A, T>(items: seq<A>, parse: A -> Result<T, ImportError>): (r: Result<seq<T>, ImportError>)
    ensures r.Ok? ==> |r.value| == |items|
  {
    if items == [] then Ok([])
    else
      match ParseAll(items[..|items| - 1], parse)
      case Err(e) => Err(e)
      case Ok(values) =>
        match parse(items[|items| - 1])
        case Err(e) => Err(e)
        case Ok(v) => Ok(values + [v])
  }

  /** Once a prefix fails, the whole run fails with the same exception. */
  lemma {:induction false} ParseAllStopsAtError<A, T>(items: seq<A>, k: nat, parse: A -> Result<T, ImportError>)
    requires k <= |items| && ParseAll(items[..k], parse).Err?
    ensures ParseAll(items, parse) == ParseAll(items[..k], parse)
    decreases |items| - k
  {
    if k < |items| {
      assert items[..k + 1][..k] == items[..k];
      ParseAllStopsAtError(items, k + 1, parse);
    } else {
      assert items[..k] == items;
    }
  }

  /** One more item: the run so far, extended by that item's value or ended
      by its exception. */
  lemma ParseAllStep<A, T>(items: seq<A>, i: nat, parse: A -> Result<T, ImportError>, values: seq<T>)
    requires i < |items| && ParseAll(items[..i], parse) == Ok(values)
    ensures ParseAll(items[..i + 1], parse)
         == match parse(items[i]) case Err(e) => Err(e) case Ok(v) => Ok(values + [v])
  {
    assert items[..i + 1][..i] == items[..i];
  }

  /** When every item parses, the run gives every value, in order. */
  lemma {:induction false} ParseAllSucceeds<A, T>(items: seq<A>, parse: A -> Result<T, ImportError>, values: seq<T>)
    requires |values| == |items| && forall i :: 0 <= i < |items| ==> parse(items[i]) == Ok(values[i])
    ensures ParseAll(items, parse) == Ok(values)
    decreases |items|
  {
    if items != [] {
      var n := |items| - 1;
      ParseAllSucceeds(items[..n], parse, values[..n]);
      assert values == values[..n] + [values[n]];
    }
  }

  /** When the first item fails, so does the run, with its exception. */
  lemma {:induction false} ParseAllFailsAtHead<A, T>(items: seq<A>, parse: A -> Result<T, ImportError>)
    requires |items| > 0 && parse(items[0]).Err?
    ensures ParseAll(items, parse) == Err(parse(items[0]).error)
    decreases |items|
  {
    if |items| > 1 {
      var init := items[..|items| - 1];
      assert init[0] == items[0];
      ParseAllFailsAtHead(init, parse);
    }
  }

  /** One record of the intensities cell: split on the first colon, the key
      through `Integer.parseInt`, then the value through `Float.parseFloat`. */
  function ParseIntensityRecord(record: string): (r: Result<IntensityValue, ImportError>)
    ensures r.Ok? ==> var key := SplitFirst(record, SEPARATOR_VALUE)[0];
      && record == key + [SEPARATOR_VALUE] + r.value.abundance
      && ParseInt(key) == Some(r.value.retentionTime)
      && ParsesAsFloat(r.value.abundance)
  {
    var values := SplitFirst(record, SEPARATOR_VALUE);
    match ParseInt(values[0])
    case None => Err(NumberFormat(values[0]))
    case Some(rt) =>
      if |values| < 2 then Err(IndexOutOfBounds)
      else if !ParsesAsFloat(values[1]) then Err(NumberFormat(values[1]))
      else Ok(IntensityValue(rt, values[1]))
  }

  /** A record `key:value` whose key holds no colon is read as that key and
      that value: it is accepted exactly when the key is an `int` and the
      value a `float`, and otherwise fails on the key first. */
  lemma ParseIntensityRecordOf(key: string, value: string)
    requires Free(key, SEPARATOR_VALUE)
    ensures ParseIntensityRecord(key + [SEPARATOR_VALUE] + value)
         == if ParseInt(key).None? then Err(NumberFormat(key))
            else if !ParsesAsFloat(value) then Err(NumberFormat(value))
            else Ok(IntensityValue(ParseInt(key).value, value))
  {
    SplitFirstRecord(key, value);
  }

  /** The mass of one record of the `m/z` cell. As written, the text before
      the colon goes through `Integer.parseInt`; corrected, through the
      floating-point parser that matches the `double` the writer printed. */
  function ParseIonMass(key: string, variant: Variant): (r: Result<IonMass, ImportError>)
    ensures variant == AsWritten ==> (r.Ok? <==> ParseInt(key).Some?)
    ensures variant == Corrected ==> (r.Ok? <==> ParsesAsFloat(key))
  {
    match variant
    case AsWritten =>
      (match ParseInt(key)
       case Some(n) => Ok(WholeMass(n))
       case None => Err(NumberFormat(key)))
    case Corrected =>
      if ParsesAsFloat(key) then Ok(DecimalMass(key)) else Err(NumberFormat(key))
  }

  /** One record of the `m/z` cell: split on the first colon, the mass, then
      the abundance through `Float.parseFloat`. */
  function ParseIonRecord(record: string, variant: Variant): (r: Result<ReadIon, ImportError>)
    ensures r.Ok? ==> var key := SplitFirst(record, SEPARATOR_VALUE)[0];
      && record == key + [SEPARATOR_VALUE] + r.value.abundance
      && ParseIonMass(key, variant) == Ok(r.value.mass)
      && ParsesAsFloat(r.value.abundance)
    ensures r.Err? && ParseIonMass(SplitFirst(record, SEPARATOR_VALUE)[0], variant).Err? ==>
      r.error == ParseIonMass(SplitFirst(record, SEPARATOR_VALUE)[0], variant).error
  {
    var values := SplitFirst(record, SEPARATOR_VALUE);
    match ParseIonMass(values[0], variant)
    case Err(e) => Err(e)
    case Ok(mass) =>
      if |values| < 2 then Err(IndexOutOfBounds)
      else if !ParsesAsFloat(values[1]) then Err(NumberFormat(values[1]))
      else Ok(ReadIon(mass, values[1]))
  }

  /** The intensities cell as the parser reads it: the records of
      `splitAsStream` on spaces, each parsed in turn. */
  function ParsedIntensities(headerIntensity: string): Result<seq<IntensityValue>, ImportError> {
    ParseAll(SplitAsStream(headerIntensity, SEPARATOR_RECORD), ParseIntensityRecord)
  }

  function ParsedMassSpectrum(headerMz: string, variant: Variant): Result<seq<ReadIon>, ImportError> {
    ParseAll(SplitAsStream(headerMz, SEPARATOR_RECORD), (record: string) => ParseIonRecord(record, variant))
  }

  /** The intensity parser: adds one value per record, in order, and stops
      with the first record that throws. The normalisation that follows is
      not part of this model, so the values are the ones added. */
  method ParseIntensityValues(headerIntensity: string) returns (r: Result<seq<IntensityValue>, ImportError>)
    ensures r == ParsedIntensities(headerIntensity)
  {
    var records := SplitAsStream(headerIntensity, SEPARATOR_RECORD);
    var values: seq<IntensityValue> := [];
    for i := 0 to |records|
      invariant ParseAll(records[..i], ParseIntensityRecord) == Ok(values)
    {
      ParseAllStep(records, i, ParseIntensityRecord, values);
      var v := ParseIntensityRecord(records[i]);
      if v.Err? {
        ParseAllStopsAtError(records, i + 1, ParseIntensityRecord);
        return Err(v.error);
      }
      values := values + [v.value];
    }
    assert records[..|records|] == records;
    r := Ok(values);
  }

  /** The mass spectrum parser: adds one ion per record, in order, and stops
      with the first record that throws. */
  method ParseMassSpectrum(headerMz: string, variant: Variant) returns (r: Result<seq<ReadIon>, ImportError>)
    ensures r == ParsedMassSpectrum(headerMz, variant)
  {
    var records := SplitAsStream(headerMz, SEPARATOR_RECORD);
    var parse := (record: string) => ParseIonRecord(record, variant);
    var ions: seq<ReadIon> := [];
    for i := 0 to |records|
      invariant ParseAll(records[..i], parse) == Ok(ions)
    {
      ParseAllStep(records, i, parse, ions);
      var ion := parse(records[i]);
      if ion.Err? {
        ParseAllStopsAtError(records, i + 1, parse);
        return Err(ion.error);
      }
      ions := ions + [ion.value];
    }
    assert records[..|records|] == records;
    r := Ok(ions);
  }

  /** The values the intensity parser should read for a curve: one per
      point, in order, with its retention time and abundance text. */
  function ReadIntensities(points: seq<IntensityPoint>): (values: seq<IntensityValue>)
    ensures |values| == |points|
  {
    seq(|points|, i requires 0 <= i < |points| => IntensityValue(points[i].retentionTime, Render(points[i].abundance)))
  }

  /** The ions the corrected mass spectrum parser should read for a
      spectrum: one per ion, in order, with the texts of its mass and
      abundance. */
  function ReadIons(ions: seq<Ion>): (read: seq<ReadIon>)
    ensures |read| == |ions|
  {
    seq(|ions|, i requires 0 <= i < |ions| => ReadIon(DecimalMass(Render(ions[i].mass)), Render(ions[i].abundance)))
  }

  /** One written intensity record reads back as its point. */
  lemma IntensityRecordRoundTrip(point: IntensityPoint)
    ensures ParseIntensityRecord(IntensityRecord(point))
         == Ok(IntensityValue(point.retentionTime, Render(point.abundance)))
  {
    IntTextIsPlain(point.retentionTime);
    PlainColonFree(IntText(point.retentionTime));
    ParseIntensityRecordOf(IntText(point.retentionTime), Render(point.abundance));
    IntTextRoundTrip(point.retentionTime);
    RenderedFloatParses(point.abundance);
  }

  /** One written ion record reads back, corrected, as its ion. */
  lemma IonRecordRoundTrip(ion: Ion)
    ensures ParseIonRecord(IonRecord(ion), Corrected) == Ok(ReadIon(DecimalMass(Render(ion.mass)), Render(ion.abundance)))
  {
    IonRecordShape(ion);
    RenderedFloatParses(ion.mass);
    RenderedFloatParses(ion.abundance);
  }

  /** What the intensity parser reads back from what the intensity writer
      wrote: every point, in order, with its retention time and abundance
      text. An empty curve is not covered: its cell is empty, and the one
      empty record it splits into is not an `int`. */
  lemma IntensitiesRoundTrip(model: PeakModel)
    requires |model.intensities| > 0
    ensures ParsedIntensities(IntensitiesText(Some(model))) == Ok(ReadIntensities(model.intensities))
  {
    var points := model.intensities;
    var records := IntensityRecords(points);
    SplitJoin(records, SEPARATOR_RECORD) by {
      forall i | 0 <= i < |records| ensures records[i] != "" && Free(records[i], SEPARATOR_RECORD) {
        IntensityRecordShape(points[i]);
      }
    }
    var values := ReadIntensities(points);
    forall i | 0 <= i < |records| ensures ParseIntensityRecord(records[i]) == Ok(values[i]) {
      IntensityRecordRoundTrip(points[i]);
    }
    ParseAllSucceeds(records, ParseIntensityRecord, values);
  }

  lemma ReadIntensitiesKeys(points: seq<IntensityPoint>)
    ensures (set v | v in ReadIntensities(points) :: v.retentionTime) == (set p | p in points :: p.retentionTime)
  {
    var values := ReadIntensities(points);
    forall p | p in points
      ensures p.retentionTime in (set v | v in values :: v.retentionTime)
    {
      var i :| 0 <= i < |points| && points[i] == p;
      assert values[i] in values;
    }
    forall v | v in values
      ensures v.retentionTime in (set p | p in points :: p.retentionTime)
    {
      var i :| 0 <= i < |values| && values[i] == v;
      assert points[i] in points;
    }
  }

  /** The retention times the intensity parser reads back are exactly those
      the writer wrote. */
  lemma IntensityKeysRoundTrip(model: PeakModel)
    requires |model.intensities| > 0
    ensures ParsedIntensities(IntensitiesText(Some(model))).Ok?
    ensures (set v | v in ParsedIntensities(IntensitiesText(Some(model))).value :: v.retentionTime)
         == (set p | p in model.intensities :: p.retentionTime)
  {
    IntensitiesRoundTrip(model);
    ReadIntensitiesKeys(model.intensities);
  }

  /** As written, the mass spectrum parser refuses every cell the mass
      spectrum writer produces for a non-empty spectrum: the first ion's mass
      is the text of a `double`, which `Integer.parseInt` rejects. */
  lemma WrittenMassSpectrumIsRejected(ions: seq<Ion>)
    requires |ions| > 0
    ensures ParsedMassSpectrum(MassSpectrumText(Some(ions)), AsWritten) == Err(NumberFormat(Render(ions[0].mass)))
  {
    var records := IonRecords(ions);
    SplitJoin(records, SEPARATOR_RECORD) by {
      forall i | 0 <= i < |records| ensures records[i] != "" && Free(records[i], SEPARATOR_RECORD) {
        IonRecordShape(ions[i]);
      }
    }
    IonRecordShape(ions[0]);
    RenderedIsNotInt(ions[0].mass);
    ParseAllFailsAtHead(records, (record: string) => ParseIonRecord(record, AsWritten));
  }

  /** Corrected, the mass spectrum parser reads back every ion the writer
      wrote, in order, with the texts of its mass and abundance. */
  lemma MassSpectrumRoundTrip(ions: seq<Ion>)
    requires |ions| > 0
    ensures ParsedMassSpectrum(MassSpectrumText(Some(ions)), Corrected) == Ok(ReadIons(ions))
  {
    var records := IonRecords(ions);
    SplitJoin(records, SEPARATOR_RECORD) by {
      forall i | 0 <= i < |records| ensures records[i] != "" && Free(records[i], SEPARATOR_RECORD) {
        IonRecordShape(ions[i]);
      }
    }
    var parse := (record: string) => ParseIonRecord(record, Corrected);
    var read := ReadIons(ions);
    forall i | 0 <= i < |records| ensures parse(records[i]) == Ok(read[i]) {
      IonRecordRoundTrip(ions[i]);
    }
    ParseAllSucceeds(records, parse, read);
  }

  /** An empty cell, which the writers produce for a curve without points
      or a spectrum without ions, splits into one empty record, and the
      parsers refuse it: the empty text is not an `int`, nor a `double`. */
  lemma EmptyCellIsRejected()
    ensures ParsedIntensities("") == Err(NumberFormat(""))
    ensures ParsedMassSpectrum("", AsWritten) == Err(NumberFormat(""))
    ensures ParsedMassSpectrum("", Corrected) == Err(NumberFormat(""))
  {
    assert SplitAsStream("", SEPARATOR_RECORD) == [""];
    assert SplitFirst("", SEPARATOR_VALUE) == [""];
    assert !ParsesAsFloat("");
    ParseAllFailsAtHead([""], ParseIntensityRecord);
    ParseAllFailsAtHead([""], (record: string) => ParseIonRecord(record, AsWritten));
    ParseAllFailsAtHead([""], (record: string) => ParseIonRecord(record, Corrected));
  }

  /** The header name `m/z`, which the import hands to the mass spectrum
      parser in place of the cell, is one record whose key is not an `int`. */
  lemma HeaderNameIsNotAMassSpectrum()
    ensures ParsedMassSpectrum(HEADER_MZ, AsWritten) == Err(NumberFormat(HEADER_MZ))
  {
    assert IndexOf(HEADER_MZ, SEPARATOR_RECORD) == 3;
    assert SplitAll(HEADER_MZ, SEPARATOR_RECORD) == [HEADER_MZ];
    assert SplitAsStream(HEADER_MZ, SEPARATOR_RECORD) == [HEADER_MZ];
    assert IndexOf(HEADER_MZ, SEPARATOR_VALUE) == 3;
    assert SplitFirst(HEADER_MZ, SEPARATOR_VALUE) == [HEADER_MZ];
    ParseIntRejects(HEADER_MZ, 0);
    ParseAllFailsAtHead([HEADER_MZ], (record: string) => ParseIonRecord(record, AsWritten));
  }

  // ---------------------------------------------------------------------
  // Export

  /** A value that may be null, as the CSV printer writes it: null as the
      empty cell. */
  function CellText(value: Option<string>): string {
    value.GetOr("")
  }

  /** `getLibInfo`: the chosen field of the target's library information,
      or null when there is no target. */
  function LibInfo(target: Option<LibraryInformation>, field: LibraryInformation -> Option<string>): (r: Option<string>)
    ensures target.None? ==> r.None?
    ensures target.Some? ==> r == field(target.value)
  {
    match target
    case None => None
    case Some(information) => field(information)
  }

  /** The nine cells the export prints for one peak, in header order. */
  function ExportRow(peak: Peak): (row: seq<string>)
    ensures |row| == |HEADERS|
    ensures peak.bestTarget.None? ==> row[0] == "" && row[6] == ""
    ensures peak.bestTarget.Some? ==>
      row[0] == CellText(peak.bestTarget.value.name) && row[6] == CellText(peak.bestTarget.value.casNumber)
    ensures row[1] == peak.retentionTime && row[2] == peak.relativeRetentionTime
    ensures row[3] == peak.retentionIndex && row[4] == peak.area
    ensures row[5] == (if peak.signalToNoise.Some? then peak.signalToNoise.value else "-")
    ensures row[7] == MassSpectrumText(peak.peakModel.massSpectrum)
    ensures row[8] == IntensitiesText(Some(peak.peakModel))
  {
    var name := CellText(LibInfo(peak.bestTarget, (info: LibraryInformation) => info.name));
    var signalToNoise := if peak.signalToNoise.Some? then peak.signalToNoise.value else "-";
    var casNumber := CellText(LibInfo(peak.bestTarget, (info: LibraryInformation) => info.casNumber));
    Cells(name, peak.retentionTime, peak.relativeRetentionTime, peak.retentionIndex, peak.area,
          signalToNoise, casNumber, MassSpectrumText(peak.peakModel.massSpectrum), IntensitiesText(Some(peak.peakModel)))
  }

  /** Nine cells, one row. */
  function Cells(c0: string, c1: string, c2: string, c3: string, c4: string,
                 c5: string, c6: string, c7: string, c8: string): (row: seq<string>)
    ensures |row| == |HEADERS|
    ensures row[0] == c0 && row[1] == c1 && row[2] == c2 && row[3] == c3 && row[4] == c4
    ensures row[5] == c5 && row[6] == c6 && row[7] == c7 && row[8] == c8
  {
    [c0, c1, c2, c3, c4, c5, c6, c7, c8]
  }

  /** The rows an export writes: the header row unless it appends, then one
      row per peak, in the order of the peaks. */
  function ExportedRows(peaks: seq<Peak>, append: bool): (rows: seq<seq<string>>)
    ensures append ==> rows == PeakRows(peaks)
    ensures !append ==> rows == [HEADERS] + PeakRows(peaks)
  {
    (if append then [] else [HEADERS]) + PeakRows(peaks)
  }

  /** One row per peak, in the order of the peaks. */
  function PeakRows(peaks: seq<Peak>): (rows: seq<seq<string>>)
    ensures |rows| == |peaks|
    ensures forall i :: 0 <= i < |peaks| ==> rows[i] == ExportRow(peaks[i])
  {
    MapAll(peaks, ExportRow)
  }

  /** The export: the header row unless appending, then, for every peak,
      its nine cells. */
  method ExportConvert(peaks: seq<Peak>, append: bool) returns (rows: seq<seq<string>>)
    ensures rows == ExportedRows(peaks, append)
  {
    var header: seq<seq<string>> := if append then [] else [HEADERS];
    var printed: seq<seq<string>> := [];
    for i := 0 to |peaks|
      invariant printed == PeakRows(peaks[..i])
    {
      var row := PrintPeak(peaks[i]);
      PeakRowsSnoc(peaks, i);
      printed := printed + [row];
    }
    assert peaks[..|peaks|] == peaks;
    rows := header + printed;
  }

  /** The body of the export loop: the nine cells of one peak. */
  method PrintPeak(peak: Peak) returns (row: seq<string>)
    ensures row == ExportRow(peak)
  {
    var name := CellText(LibInfo(peak.bestTarget, (info: LibraryInformation) => info.name));
    var sn := if peak.signalToNoise.Some? then peak.signalToNoise.value else "-";
    var cas := CellText(LibInfo(peak.bestTarget, (info: LibraryInformation) => info.casNumber));
    var massSpectrum := WriteMassSpectrum(peak.peakModel.massSpectrum);
    var intensities := WriteIntensities(Some(peak.peakModel));
    row := [name, peak.retentionTime, peak.relativeRetentionTime, peak.retentionIndex, peak.area,
            sn, cas, massSpectrum, intensities];
  }

  lemma PeakRowsAppend(a: seq<Peak>, b: seq<Peak>)
    ensures PeakRows(a + b) == PeakRows(a) + PeakRows(b)
  {
    MapAllAppend(a, b, ExportRow);
  }

  lemma PeakRowsSnoc(peaks: seq<Peak>, i: nat)
    requires i < |peaks|
    ensures PeakRows(peaks[..i + 1]) == PeakRows(peaks[..i]) + [ExportRow(peaks[i])]
  {
    MapAllSnoc(peaks, i, ExportRow);
  }

  // ---------------------------------------------------------------------
  // Import

  /** A peak as the import builds it. The retention time, relative retention
      time, retention index and area are the cell texts the number format
      would parse. */
  datatype ImportedPeak = ImportedPeak(
    massSpectrum: seq<ReadIon>,
    intensities: seq<IntensityValue>,
    retentionTime: string,
    relativeRetentionTime: string,
    retentionIndex: string,
    area: string)

  /** The positions in `HEADERS` of the cells the import reads. */
  const COLUMN_RT: nat := 1
  const COLUMN_RRT: nat := 2
  const COLUMN_RI: nat := 3
  const COLUMN_AREA: nat := 4
  const COLUMN_MZ: nat := 7
  const COLUMN_INTENSITIES: nat := 8

  /** `record.get(header)` on a record read under the `HEADERS` mapping,
      for the header at `column`: the cell, or the exception for a record
      too short to hold it. */
  function Cell(record: seq<string>, column: nat): (r: Result<string, ImportError>)
    requires column < |HEADERS|
    ensures r.Ok? <==> column < |record|
    ensures r.Ok? ==> r.value == record[column]
    ensures r.Err? ==> r.error == InconsistentRecord(HEADERS[column])
  {
    if column < |record| then Ok(record[column]) else Err(InconsistentRecord(HEADERS[column]))
  }

  /** The text the import hands to the mass spectrum parser: the header name
      itself as written, the record's `m/z` cell once corrected. */
  function MassSpectrumSource(record: seq<string>, variant: Variant): Result<string, ImportError> {
    match variant
    case AsWritten => Ok(HEADER_MZ)
    case Corrected => Cell(record, COLUMN_MZ)
  }

  /** One data record of the import, in the order the code reads it: the
      mass spectrum, the intensities, then the RT, RRT, RI and Area cells. */
  function ImportRecord(record: seq<string>, variant: Variant): Result<ImportedPeak, ImportError> {
    match MassSpectrumSource(record, variant)
    case Err(e) => Err(e)
    case Ok(mz) =>
      match ParsedMassSpectrum(mz, variant)
      case Err(e) => Err(e)
      case Ok(ions) =>
        match Cell(record, COLUMN_INTENSITIES)
        case Err(e) => Err(e)
        case Ok(cell) =>
          match ParsedIntensities(cell)
          case Err(e) => Err(e)
          case Ok(values) =>
            match Cell(record, COLUMN_RT)
            case Err(e) => Err(e)
            case Ok(rt) =>
              match Cell(record, COLUMN_RRT)
              case Err(e) => Err(e)
              case Ok(rrt) =>
                match Cell(record, COLUMN_RI)
                case Err(e) => Err(e)
                case Ok(ri) =>
                  match Cell(record, COLUMN_AREA)
                  case Err(e) => Err(e)
                  case Ok(area) => Ok(ImportedPeak(ions, values, rt, rrt, ri, area))
  }

  function ImportedPeaks(records: seq<seq<string>>, variant: Variant): Result<seq<ImportedPeak>, ImportError> {
    ParseAll(records, (record: seq<string>) => ImportRecord(record, variant))
  }

  /** The import loop over the data records (the header record is skipped
      by the parser), shared by the code as written and the corrected code. */
  method ImportRecords(records: seq<seq<string>>, variant: Variant) returns (r: Result<seq<ImportedPeak>, ImportError>)
    ensures r == ImportedPeaks(records, variant)
  {
    var parse := (record: seq<string>) => ImportRecord(record, variant);
    var peaks: seq<ImportedPeak> := [];
    for i := 0 to |records|
      invariant ParseAll(records[..i], parse) == Ok(peaks)
    {
      ParseAllStep(records, i, parse, peaks);
      var peak := ImportOne(records[i], variant);
      assert peak == parse(records[i]);
      if peak.Err? {
        ParseAllStopsAtError(records, i + 1, parse);
        return Err(peak.error);
      }
      peaks := peaks + [peak.value];
    }
    assert records[..|records|] == records;
    r := Ok(peaks);
  }

  /** The body of the import loop for one record. */
  method ImportOne(record: seq<string>, variant: Variant) returns (r: Result<ImportedPeak, ImportError>)
    ensures r == ImportRecord(record, variant)
  {
    var mz := MassSpectrumSource(record, variant);
    if mz.Err? {
      return Err(mz.error);
    }
    var ions := ParseMassSpectrum(mz.value, variant);
    if ions.Err? {
      return Err(ions.error);
    }
    var cell := Cell(record, COLUMN_INTENSITIES);
    if cell.Err? {
      return Err(cell.error);
    }
    var values := ParseIntensityValues(cell.value);
    if values.Err? {
      return Err(values.error);
    }
    // The record holds the intensities cell, so it holds the four before it.
    var rt := Cell(record, COLUMN_RT);
    var rrt := Cell(record, COLUMN_RRT);
    var ri := Cell(record, COLUMN_RI);
    var area := Cell(record, COLUMN_AREA);
    r := Ok(ImportedPeak(ions.value, values.value, rt.value, rrt.value, ri.value, area.value));
  }

  /** The import as written: a file with only its header gives no peaks, and
      any data record ends the import with the NumberFormatException for the
      text `m/z` before any cell of it is read. */
  method ImportConvert(records: seq<seq<string>>) returns (r: Result<seq<ImportedPeak>, ImportError>)
    ensures records == [] ==> r == Ok([])
    ensures records != [] ==> r == Err(NumberFormat(HEADER_MZ))
  {
    r := ImportRecords(records, AsWritten);
    AsWrittenImportFails(records);
  }

  lemma AsWrittenImportFails(records: seq<seq<string>>)
    ensures records == [] ==> ImportedPeaks(records, AsWritten) == Ok([])
    ensures records != [] ==> ImportedPeaks(records, AsWritten) == Err(NumberFormat(HEADER_MZ))
  {
    if records != [] {
      HeaderNameIsNotAMassSpectrum();
      ParseAllFailsAtHead(records, (record: seq<string>) => ImportRecord(record, AsWritten));
    }
  }

  /** The corrected import. */
  method ImportConvertCorrected(records: seq<seq<string>>) returns (r: Result<seq<ImportedPeak>, ImportError>)
    ensures r == ImportedPeaks(records, Corrected)
  {
    r := ImportRecords(records, Corrected);
  }

  /** The peak the corrected import builds from the row exported for `peak`. */
  function ReadBack(peak: Peak): ImportedPeak
    requires peak.peakModel.massSpectrum.Some?
  {
    var ions := peak.peakModel.massSpectrum.value;
    var points := peak.peakModel.intensities;
    ImportedPeak(ReadIons(ions), ReadIntensities(points), peak.retentionTime, peak.relativeRetentionTime, peak.retentionIndex, peak.area)
  }

  /** The corrected import reads the row exported for a peak back as that
      peak, when its spectrum and curve are non-empty. */
  lemma RowRoundTrip(peak: Peak)
    requires peak.peakModel.massSpectrum.Some? && |peak.peakModel.massSpectrum.value| > 0
    requires |peak.peakModel.intensities| > 0
    ensures ImportRecord(ExportRow(peak), Corrected) == Ok(ReadBack(peak))
  {
    var row := ExportRow(peak);
    MassSpectrumRoundTrip(peak.peakModel.massSpectrum.value);
    IntensitiesRoundTrip(peak.peakModel);
    assert MassSpectrumSource(row, Corrected) == Ok(MassSpectrumText(peak.peakModel.massSpectrum));
    assert Cell(row, COLUMN_INTENSITIES) == Ok(IntensitiesText(Some(peak.peakModel)));
  }

  /** Exporting peaks and importing the data rows with the corrected import
      gives every peak back, in order: its ions, its intensity curve and the
      four number cells. Peaks with an empty or null mass spectrum or an
      empty intensity curve are excluded: their empty cell splits into one
      empty record, which is not a number. */
  lemma ExportImportRoundTrip(peaks: seq<Peak>)
    requires forall i :: 0 <= i < |peaks| ==>
      peaks[i].peakModel.massSpectrum.Some? && |peaks[i].peakModel.massSpectrum.value| > 0
      && |peaks[i].peakModel.intensities| > 0
    ensures ImportedPeaks(ExportedRows(peaks, false)[1..], Corrected)
         == Ok(seq(|peaks|, i requires 0 <= i < |peaks| => ReadBack(peaks[i])))
  {
    var rows := ExportedRows(peaks, false)[1..];
    assert rows == PeakRows(peaks);
    var parse := (record: seq<string>) => ImportRecord(record, Corrected);
    var read := seq(|peaks|, i requires 0 <= i < |peaks| => ReadBack(peaks[i]));
    forall i | 0 <= i < |rows| ensures parse(rows[i]) == Ok(read[i]) {
      RowRoundTrip(peaks[i]);
    }
    ParseAllSucceeds(rows, parse, read);
  }

  // ---------------------------------------------------------------------
  // Recognising the format

  /** What reading the first record of a file gives: its cells as header
      names (none for an empty file), or an I/O failure. */
  datatype HeaderRead = ReadFailed | FirstRecord(names: seq<string>)

  /** `matchHeader`: the first record, in order, is exactly `HEADERS`; an
      I/O failure gives false. */
  function MatchHeader(file: HeaderRead): (r: bool)
    ensures r <==> file.FirstRecord? && file.names == HEADERS
  {
    match file
    case ReadFailed => false
    case FirstRecord(names) => names == HEADERS
  }

  /** `checkFileFormat`: the lower-cased name ends with `.csv` and the
      header matches; the header is only read when the name fits. */
  function CheckFileFormat(fileName: string, file: HeaderRead): (r: bool)
    ensures r <==> EndsWith(ToLowerAscii(fileName), ".csv") && file == FirstRecord(HEADERS)
  {
    EndsWith(ToLowerAscii(fileName), ".csv") && MatchHeader(file)
  }

  /** A file the export wrote without appending is recognised under any
      name ending in `.csv` in any mix of cases. */
  lemma {:induction false} ExportedFileIsRecognised(stem: string, extension: string, peaks: seq<Peak>)
    requires |extension| == 4 && ToLowerAscii(extension) == ".csv"
    ensures CheckFileFormat(stem + extension, FirstRecord(ExportedRows(peaks, false)[0]))
  {
    var name := stem + extension;
    assert ToLowerAscii(name)[|name| - 4..] == ToLowerAscii(extension);
  }
}
