/** The asymmetry filter: it computes each peak's asymmetry factor, the
    tailing width over the leading width, compares it strictly with a limit
    and, for the peaks that match, enables or deactivates them, or deletes
    the matching ones or keeps only them. */
module AsymmetryFilter {
  import opened Results
  import opened PeakFilterModel

  /** The two comparators between a factor and the limit; both are strict. */
  datatype Comparator = FactorSmallerThanLimit | FactorGreaterThanLimit

  function Compare(comparator: Comparator, factor: real, factorSetting: real): (r: bool)
    ensures factor == factorSetting ==> !r
    ensures r ==> (factor < factorSetting <==> comparator == FactorSmallerThanLimit)
  {
    match comparator
    case FactorSmallerThanLimit => factor < factorSetting
    case FactorGreaterThanLimit => factor > factorSetting
  }

  /** A two-argument predicate on the factor and the limit: a comparator, or
      the negation (`BiPredicate.negate`) of another predicate. */
  datatype BiPredicate = Comparison(comparator: Comparator) | Negation(negated: BiPredicate) {
    /** The comparator at the bottom of the chain of negations. */
    function Base(): Comparator {
      match this
      case Comparison(comparator) => comparator
      case Negation(negated) => negated.Base()
    }

    /** How often the comparator has been negated. */
    function Negations(): nat {
      match this
      case Comparison(_) => 0
      case Negation(negated) => negated.Negations() + 1
    }

    /** `BiPredicate.test`: the base comparator's answer, inverted once for
        each negation wrapped around it. */
    function Test(factor: real, factorSetting: real): (r: bool)
      ensures r <==> (Compare(Base(), factor, factorSetting) <==> Negations() % 2 == 0)
    {
      match this
      case Comparison(comparator) => Compare(comparator, factor, factorSetting)
      case Negation(negated) => !negated.Test(factor, factorSetting)
    }
  }

  /** A predicate bound to the limit it compares with. */
  datatype FactorPredicate = FactorPredicate(biPredicate: BiPredicate, factorSetting: real) {
    /** `test`: the base comparator applied to the factor and the bound
        limit, inverted when the predicate was negated an odd number of
        times. */
    function Test(factor: real): (r: bool)
      ensures biPredicate.Comparison? ==> (r <==> Compare(biPredicate.comparator, factor, factorSetting))
      ensures r <==> (Compare(biPredicate.Base(), factor, factorSetting) <==> biPredicate.Negations() % 2 == 0)
    {
      biPredicate.Test(factor, factorSetting)
    }

    /** The same limit with the negated predicate: it holds for exactly the
        factors this one does not. */
    function Negate(): (r: FactorPredicate)
      ensures r.factorSetting == factorSetting
      ensures forall factor: real :: r.Test(factor) == !Test(factor)
    {
      FactorPredicate(Negation(biPredicate), factorSetting)
    }
  }

  /** The selection criteria; `OtherCriterion` stands for any value of the
      setting the filter has no case for. */
  datatype Criterion = AsymmetryFactorSmallerThanLimit | AsymmetryFactorGreaterThanLimit | OtherCriterion

  /** The treatments; `OtherTreatment` stands for any value the filter has
      no case for. */
  datatype Treatment = EnablePeak | DeactivatePeak | KeepPeak | DeletePeak | OtherTreatment

  datatype AsymmetryFilterSettings = AsymmetryFilterSettings(
    criterion: Criterion,
    treatment: Treatment,
    peakAsymmetryFactor: real)

  /** The predicate for the selected criterion, against the configured
      factor; an unknown criterion is an `IllegalArgumentException`. */
  function GetPredicate(settings: AsymmetryFilterSettings): (r: Result<FactorPredicate, string>)
    ensures r.Ok? <==> settings.criterion != OtherCriterion
    ensures r.Err? ==> r.error == UNSUPPORTED_CRITERION
    ensures r.Ok? ==> forall factor: real :: r.value.Test(factor) <==>
      if settings.criterion == AsymmetryFactorSmallerThanLimit then factor < settings.peakAsymmetryFactor
      else factor > settings.peakAsymmetryFactor
  {
    match settings.criterion
    case AsymmetryFactorSmallerThanLimit =>
      Ok(FactorPredicate(Comparison(FactorSmallerThanLimit), settings.peakAsymmetryFactor))
    case AsymmetryFactorGreaterThanLimit =>
      Ok(FactorPredicate(Comparison(FactorGreaterThanLimit), settings.peakAsymmetryFactor))
    case OtherCriterion =>
      Err(UNSUPPORTED_CRITERION)
  }

  /** `processPeak` for a peak with the given factor: enabling and
      deactivating set the flag of the matching peaks, keeping deletes the
      peaks the negated predicate matches, deleting deletes the matching
      ones; an unknown treatment is an `IllegalArgumentException`. */
  function ProcessPeak(treatment: Treatment, factorPredicate: FactorPredicate, factor: real): (r: Result<Action, string>)
    ensures r.Ok? <==> treatment != OtherTreatment
    ensures r.Err? ==> r.error == UNSUPPORTED_TREATMENT
    ensures r.Ok? ==> (r.value.SetActive? <==> (treatment == EnablePeak || treatment == DeactivatePeak) && factorPredicate.Test(factor))
    ensures r.Ok? && r.value.SetActive? ==> r.value.active == (treatment == EnablePeak)
    ensures r.Ok? ==> (r.value.Delete? <==>
      (treatment == KeepPeak && !factorPredicate.Test(factor)) || (treatment == DeletePeak && factorPredicate.Test(factor)))
  {
    match treatment
    case EnablePeak => Ok(if factorPredicate.Test(factor) then SetActive(true) else Unchanged)
    case DeactivatePeak => Ok(if factorPredicate.Test(factor) then SetActive(false) else Unchanged)
    case KeepPeak => Ok(if factorPredicate.Negate().Test(factor) then Delete else Unchanged)
    case DeletePeak => Ok(if factorPredicate.Test(factor) then Delete else Unchanged)
    case OtherTreatment => Err(UNSUPPORTED_TREATMENT)
  }

  /** The peak asymmetry factor, tailing over leading. */
  function Factor(peak: Peak): (r: real)
    requires peak.leading != 0.0
    ensures r * peak.leading == peak.tailing
  {
    peak.tailing / peak.leading
  }

  predicate Supported(settings: AsymmetryFilterSettings) {
    settings.criterion != OtherCriterion && settings.treatment != OtherTreatment
  }

  predicate Measurable(peaks: seq<Peak>) {
    forall k :: 0 <= k < |peaks| ==> peaks[k].leading != 0.0
  }

  /** Whether a peak matches the configured comparison of its factor. */
  predicate Matches(settings: AsymmetryFilterSettings, peak: Peak)
    requires settings.criterion != OtherCriterion && peak.leading != 0.0
  {
    GetPredicate(settings).value.Test(Factor(peak))
  }

  /** What a supported configuration does to one peak. */
  function Decision(settings: AsymmetryFilterSettings, peak: Peak): Action
    requires Supported(settings) && peak.leading != 0.0
  {
    ProcessPeak(settings.treatment, GetPredicate(settings).value, Factor(peak)).value
  }

  /** `Decision` as the function the run applies to each peak. */
  function Decide(settings: AsymmetryFilterSettings): (decide: Peak --> Action)
    requires Supported(settings)
  {
    (p: Peak) requires p.leading != 0.0 => Decision(settings, p)
  }

  /** `filterIPeaks`: every peak of the read collection in turn, asking for
      the predicate and then processing the peak. A configuration with an
      unknown criterion or treatment ends the run with an
      `IllegalArgumentException` at the first peak, before anything is
      changed; an empty collection is never looked at. Otherwise every peak
      gets the action its factor calls for, and the listener hears of the
      deleted and updated ones in collection order. */
  method FilterIPeaks(listener: CrudListener, settings: AsymmetryFilterSettings) returns (outcome: Outcome)
    requires Measurable(listener.read)
    modifies listener, listener.read
    ensures outcome.IllegalArgument? <==> listener.read != [] && !Supported(settings)
    ensures outcome.IllegalArgument? ==>
      outcome.message == if settings.criterion == OtherCriterion then UNSUPPORTED_CRITERION else UNSUPPORTED_TREATMENT
    ensures !Supported(settings) ==>
      listener.deleted == old(listener.deleted) && listener.updated == old(listener.updated)
      && forall p :: p in listener.read ==> p.activeForAnalysis == old(p.activeForAnalysis)
    ensures Supported(settings) ==>
      listener.deleted == old(listener.deleted) + Deleted(listener.read, Decide(settings))
      && listener.updated == old(listener.updated) + Updated(listener.read, Decide(settings))
      && forall p :: p in listener.read ==>
           p.activeForAnalysis == ActiveAfter(Decision(settings, p), old(p.activeForAnalysis))
  {
    var read := listener.read;
    var i := 0;
    while i < |read|
      invariant 0 <= i <= |read| && listener.read == read
      invariant i > 0 ==> Supported(settings)
      invariant i == 0 ==> listener.deleted == old(listener.deleted) && listener.updated == old(listener.updated)
      invariant Supported(settings) ==>
        listener.deleted == old(listener.deleted) + Deleted(read[..i], Decide(settings))
        && listener.updated == old(listener.updated) + Updated(read[..i], Decide(settings))
      invariant forall p :: p in read ==>
        p.activeForAnalysis == if p in read[..i] then ActiveAfter(Decision(settings, p), old(p.activeForAnalysis))
                               else old(p.activeForAnalysis)
    {
      var peak := read[i];
      var factorPredicate := GetPredicate(settings);
      if factorPredicate.Err? {
        return IllegalArgument(factorPredicate.error);
      }
      var factor := peak.tailing / peak.leading;
      var action := ProcessPeak(settings.treatment, factorPredicate.value, factor);
      if action.Err? {
        return IllegalArgument(action.error);
      }
      assert read[..i + 1] == read[..i] + [peak];
      Apply(listener, peak, action.value);
      ActiveAfterIdempotent(action.value, old(peak.activeForAnalysis));
      i := i + 1;
    }
    assert read[..|read|] == read;
    outcome := Done;
  }

  // ---------------------------------------------------------------------
  // The decision rules

  /** Enabling sets the flag to true, and reports the peak, exactly when
      the factor matches; other peaks keep their flag and nothing is
      deleted. Deactivating does the same with false. */
  lemma EnableAndDeactivateRule(settings: AsymmetryFilterSettings, peak: Peak)
    requires Supported(settings) && peak.leading != 0.0
    requires settings.treatment == EnablePeak || settings.treatment == DeactivatePeak
    ensures Decision(settings, peak) == if Matches(settings, peak) then SetActive(settings.treatment == EnablePeak) else Unchanged
  {
  }

  /** Keeping deletes exactly the peaks that do not match, deleting exactly
      those that match, and neither changes a flag. */
  lemma KeepAndDeleteRule(settings: AsymmetryFilterSettings, peak: Peak)
    requires Supported(settings) && peak.leading != 0.0
    requires settings.treatment == KeepPeak || settings.treatment == DeletePeak
    ensures Decision(settings, peak) == if Matches(settings, peak) == (settings.treatment == DeletePeak) then Delete else Unchanged
  {
  }

  /** Over a whole run: the peaks reported deleted are those of the
      collection that keeping does not match or deleting matches, and the
      peaks reported updated are those that enabling or deactivating
      matches. */
  lemma ReportedPeaks(settings: AsymmetryFilterSettings, peaks: seq<Peak>, p: Peak)
    requires Supported(settings) && Measurable(peaks)
    ensures p in Deleted(peaks, Decide(settings)) <==>
      p in peaks && p.leading != 0.0
      && ((settings.treatment == KeepPeak && !Matches(settings, p)) || (settings.treatment == DeletePeak && Matches(settings, p)))
    ensures p in Updated(peaks, Decide(settings)) <==>
      p in peaks && p.leading != 0.0
      && (settings.treatment == EnablePeak || settings.treatment == DeactivatePeak) && Matches(settings, p)
  {
    DeletedExactly(peaks, Decide(settings), p);
    UpdatedExactly(peaks, Decide(settings), p);
  }

  /** A factor equal to the limit matches neither comparison, so keeping
      deletes such a peak and deleting keeps it. */
  lemma FactorAtLimit(settings: AsymmetryFilterSettings, peak: Peak)
    requires Supported(settings) && peak.leading != 0.0
    requires Factor(peak) == settings.peakAsymmetryFactor
    ensures !Matches(settings, peak)
    ensures settings.treatment == KeepPeak ==> Decision(settings, peak) == Delete
    ensures settings.treatment == DeletePeak ==> Decision(settings, peak) == Unchanged
  {
  }

  /** For one criterion and limit, the peaks deleted when keeping and the
      peaks deleted when deleting split the collection: every peak is in
      exactly one of the two, as often as the collection holds it. */
  lemma KeepAndDeletePartition(criterion: Criterion, limit: real, peaks: seq<Peak>)
    requires criterion != OtherCriterion && Measurable(peaks)
    ensures multiset(Deleted(peaks, Decide(AsymmetryFilterSettings(criterion, KeepPeak, limit))))
          + multiset(Deleted(peaks, Decide(AsymmetryFilterSettings(criterion, DeletePeak, limit))))
         == multiset(peaks)
  {
    var keep := AsymmetryFilterSettings(criterion, KeepPeak, limit);
    var delete := AsymmetryFilterSettings(criterion, DeletePeak, limit);
    forall k | 0 <= k < |peaks| ensures Decide(keep)(peaks[k]).Delete? != Decide(delete)(peaks[k]).Delete? {
      KeepAndDeleteRule(keep, peaks[k]);
      KeepAndDeleteRule(delete, peaks[k]);
    }
    DeletedSplit(peaks, Decide(keep), Decide(delete));
  }

  /** Enabling and deactivating never delete; keeping and deleting never
      report a peak updated. */
  lemma {:induction false} TreatmentsStayInTheirLane(settings: AsymmetryFilterSettings, peaks: seq<Peak>)
    requires Supported(settings) && Measurable(peaks)
    ensures settings.treatment == EnablePeak || settings.treatment == DeactivatePeak ==> Deleted(peaks, Decide(settings)) == []
    ensures settings.treatment == KeepPeak || settings.treatment == DeletePeak ==> Updated(peaks, Decide(settings)) == []
  {
    if peaks != [] {
      TreatmentsStayInTheirLane(settings, peaks[..|peaks| - 1]);
    }
  }
}
