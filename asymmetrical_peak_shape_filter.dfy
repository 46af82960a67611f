/** The filter "process peaks by asymmetrical peak shape": it selects the
    peaks whose leading width, tailing width or asymmetry factor is strictly
    greater than a configured limit and deletes or disables them. */
module AsymmetricalPeakShapeFilter {
  import opened Results
  import opened PeakFilterModel

  /** The selection criteria; `OtherCriterion` stands for any value of the
      setting the filter has no case for. */
  datatype Criterion =
    | LeadingGreaterThanLimit
    | TailingGreaterThanLimit
    | PeakAsymmetryFactorGreaterThanLimit
    | OtherCriterion

  /** The treatments; `OtherTreatment` stands for any value the filter has
      no case for. */
  datatype Treatment = DeletePeak | DisablePeak | OtherTreatment

  datatype ShapeFilterSettings = ShapeFilterSettings(
    criterion: Criterion,
    treatment: Treatment,
    leadingValue: real,
    tailingValue: real,
    peakAsymmetryFactor: real)

  /** A peak the criterion can be evaluated on: the asymmetry factor divides
      by the leading width, the other two criteria do not. */
  predicate Evaluable(settings: ShapeFilterSettings, peak: Peak) {
    settings.criterion == PeakAsymmetryFactorGreaterThanLimit ==> peak.leading != 0.0
  }

  predicate AllEvaluable(settings: ShapeFilterSettings, peaks: seq<Peak>) {
    forall k :: 0 <= k < |peaks| ==> Evaluable(settings, peaks[k])
  }

  /** Whether the criterion selects the peak; every comparison is strict. */
  predicate Selected(settings: ShapeFilterSettings, peak: Peak)
    requires settings.criterion != OtherCriterion && Evaluable(settings, peak)
    ensures settings.criterion == PeakAsymmetryFactorGreaterThanLimit && peak.leading > 0.0 ==>
      (Selected(settings, peak) <==> peak.tailing > settings.peakAsymmetryFactor * peak.leading)
    ensures settings.criterion == PeakAsymmetryFactorGreaterThanLimit && peak.leading < 0.0 ==>
      (Selected(settings, peak) <==> peak.tailing < settings.peakAsymmetryFactor * peak.leading)
  {
    match settings.criterion
    case LeadingGreaterThanLimit => peak.leading > settings.leadingValue
    case TailingGreaterThanLimit => peak.tailing > settings.tailingValue
    case PeakAsymmetryFactorGreaterThanLimit => peak.tailing / peak.leading > settings.peakAsymmetryFactor
  }

  /** `deleteOrDisablePeak`: deleting reports the peak deleted, disabling
      clears its flag and reports it updated; an unknown treatment is an
      `IllegalArgumentException`. */
  function DeleteOrDisablePeak(treatment: Treatment): (r: Result<Action, string>)
    ensures r.Ok? <==> treatment != OtherTreatment
    ensures r.Err? ==> r.error == UNSUPPORTED_TREATMENT
    ensures r.Ok? ==> r.value != Unchanged && (r.value.Delete? <==> treatment == DeletePeak)
    ensures r.Ok? && r.value.SetActive? ==> !r.value.active
  {
    match treatment
    case DeletePeak => Ok(Delete)
    case DisablePeak => Ok(SetActive(false))
    case OtherTreatment => Err(UNSUPPORTED_TREATMENT)
  }

  /** `applySelectedOptions` for one peak: a selected peak gets the
      treatment, any other peak is left alone. An unknown criterion throws
      for every peak; an unknown treatment only for a selected one. */
  function ApplySelectedOptions(settings: ShapeFilterSettings, peak: Peak): (r: Result<Action, string>)
    requires Evaluable(settings, peak)
    ensures settings.criterion == OtherCriterion ==> r == Err(UNSUPPORTED_CRITERION)
    ensures settings.criterion != OtherCriterion ==>
      && (r.Err? <==> Selected(settings, peak) && settings.treatment == OtherTreatment)
      && (r.Err? ==> r.error == UNSUPPORTED_TREATMENT)
      && (r.Ok? ==> (r.value == Unchanged <==> !Selected(settings, peak)))
      && (r.Ok? && Selected(settings, peak) ==> r.value == if settings.treatment == DeletePeak then Delete else SetActive(false))
  {
    match settings.criterion
    case LeadingGreaterThanLimit =>
      if peak.leading > settings.leadingValue then DeleteOrDisablePeak(settings.treatment) else Ok(Unchanged)
    case TailingGreaterThanLimit =>
      if peak.tailing > settings.tailingValue then DeleteOrDisablePeak(settings.treatment) else Ok(Unchanged)
    case PeakAsymmetryFactorGreaterThanLimit =>
      var peakAsymmetryFactor := peak.tailing / peak.leading;
      if peakAsymmetryFactor > settings.peakAsymmetryFactor then DeleteOrDisablePeak(settings.treatment) else Ok(Unchanged)
    case OtherCriterion =>
      Err(UNSUPPORTED_CRITERION)
  }

  predicate Supported(settings: ShapeFilterSettings) {
    settings.criterion != OtherCriterion && settings.treatment != OtherTreatment
  }

  /** What a supported configuration does to one peak. */
  function Decision(settings: ShapeFilterSettings, peak: Peak): Action
    requires Supported(settings) && Evaluable(settings, peak)
  {
    ApplySelectedOptions(settings, peak).value
  }

  function Decide(settings: ShapeFilterSettings): (decide: Peak --> Action)
    requires Supported(settings)
  {
    (p: Peak) requires Evaluable(settings, p) => Decision(settings, p)
  }

  /** Whether some peak of the collection is selected. */
  predicate AnySelected(settings: ShapeFilterSettings, peaks: seq<Peak>)
    requires settings.criterion != OtherCriterion && AllEvaluable(settings, peaks)
  {
    exists k :: 0 <= k < |peaks| && Selected(settings, peaks[k])
  }

  /** `filterIPeaks`: every peak of the read collection in turn. An unknown
      criterion ends the run at the first peak; an unknown treatment ends it
      at the first selected peak; either way nothing has been changed by
      then. Otherwise the selected peaks are deleted or disabled, reported in
      collection order, and the others are left alone. */
  method FilterIPeaks(listener: CrudListener, settings: ShapeFilterSettings) returns (outcome: Outcome)
    requires AllEvaluable(settings, listener.read)
    modifies listener, listener.read
    ensures outcome.IllegalArgument? <==>
      (settings.criterion == OtherCriterion && listener.read != [])
      || (settings.criterion != OtherCriterion && settings.treatment == OtherTreatment && AnySelected(settings, listener.read))
    ensures outcome.IllegalArgument? ==>
      outcome.message == if settings.criterion == OtherCriterion then UNSUPPORTED_CRITERION else UNSUPPORTED_TREATMENT
    ensures !Supported(settings) ==>
      listener.deleted == old(listener.deleted) && listener.updated == old(listener.updated)
      && forall p :: p in listener.read ==> p.activeForAnalysis == old(p.activeForAnalysis)
    ensures Supported(settings) ==>
      listener.deleted == old(listener.deleted) + Deleted(listener.read, Decide(settings))
      && listener.updated == old(listener.updated) + Updated(listener.read, Decide(settings))
      && forall p :: p in listener.read ==>
           p.activeForAnalysis == ActiveAfter(Decision(settings, p), old(p.activeForAnalysis))
  {
    var read := listener.read;
    var i := 0;
    while i < |read|
      invariant 0 <= i <= |read| && listener.read == read
      invariant settings.criterion == OtherCriterion ==> i == 0
      invariant settings.criterion != OtherCriterion && settings.treatment == OtherTreatment ==>
        forall k :: 0 <= k < i ==> !Selected(settings, read[k])
      invariant !Supported(settings) ==>
        listener.deleted == old(listener.deleted) && listener.updated == old(listener.updated)
      invariant Supported(settings) ==>
        listener.deleted == old(listener.deleted) + Deleted(read[..i], Decide(settings))
        && listener.updated == old(listener.updated) + Updated(read[..i], Decide(settings))
      invariant forall p :: p in read ==>
        p.activeForAnalysis == if Supported(settings) && p in read[..i] then ActiveAfter(Decision(settings, p), old(p.activeForAnalysis))
                               else old(p.activeForAnalysis)
    {
      var peak := read[i];
      var action := ApplySelectedOptions(settings, peak);
      if action.Err? {
        return IllegalArgument(action.error);
      }
      assert read[..i + 1] == read[..i] + [peak];
      Apply(listener, peak, action.value);
      ActiveAfterIdempotent(action.value, old(peak.activeForAnalysis));
      i := i + 1;
    }
    assert read[..|read|] == read;
    outcome := Done;
  }

  // ---------------------------------------------------------------------
  // The decision rules

  /** Each criterion selects a peak exactly when its measure is strictly
      greater than its own limit. */
  lemma SelectionRule(settings: ShapeFilterSettings, peak: Peak)
    requires settings.criterion != OtherCriterion && Evaluable(settings, peak)
    ensures settings.criterion == LeadingGreaterThanLimit ==> (Selected(settings, peak) <==> peak.leading > settings.leadingValue)
    ensures settings.criterion == TailingGreaterThanLimit ==> (Selected(settings, peak) <==> peak.tailing > settings.tailingValue)
    ensures settings.criterion == PeakAsymmetryFactorGreaterThanLimit ==>
      (Selected(settings, peak) <==> peak.tailing / peak.leading > settings.peakAsymmetryFactor)
  {
  }

  /** Over a whole run: deleting reports exactly the selected peaks deleted
      and updates none; disabling reports exactly the selected peaks updated,
      deletes none and never sets a flag to true. */
  lemma {:induction false} TreatmentRule(settings: ShapeFilterSettings, peaks: seq<Peak>, p: Peak)
    requires Supported(settings) && AllEvaluable(settings, peaks)
    ensures settings.treatment == DeletePeak ==>
      (p in Deleted(peaks, Decide(settings)) <==> p in peaks && Evaluable(settings, p) && Selected(settings, p))
      && Updated(peaks, Decide(settings)) == []
    ensures settings.treatment == DisablePeak ==>
      (p in Updated(peaks, Decide(settings)) <==> p in peaks && Evaluable(settings, p) && Selected(settings, p))
      && Deleted(peaks, Decide(settings)) == []
    ensures settings.treatment == DisablePeak && p in peaks ==> Decision(settings, p) != SetActive(true)
  {
    DeletedExactly(peaks, Decide(settings), p);
    UpdatedExactly(peaks, Decide(settings), p);
    if peaks != [] {
      TreatmentRule(settings, peaks[..|peaks| - 1], p);
    }
  }

  /** A peak the criterion does not select is neither deleted nor updated,
      and keeps its flag. */
  lemma UnselectedUntouched(settings: ShapeFilterSettings, peaks: seq<Peak>, p: Peak)
    requires Supported(settings) && AllEvaluable(settings, peaks)
    requires p in peaks && !Selected(settings, p)
    ensures p !in Deleted(peaks, Decide(settings)) && p !in Updated(peaks, Decide(settings))
    ensures forall active :: ActiveAfter(Decision(settings, p), active) == active
  {
    DeletedExactly(peaks, Decide(settings), p);
    UpdatedExactly(peaks, Decide(settings), p);
  }
}
