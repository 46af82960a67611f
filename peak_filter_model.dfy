/** What the peak filters work on: peaks whose peak model gives a leading
    and a tailing width and which carry the flag "active for analysis", and
    the listener through which a filter reads the peaks and reports the ones
    it deletes and the ones it updates. */
module PeakFilterModel {

  /** A peak as the filters see it. The leading and tailing widths belong to
      its peak model, which the filters never change; the flag is the one
      thing a filter sets in place. */
  class Peak {
    const leading: real
    const tailing: real
    var activeForAnalysis: bool

    constructor (leading: real, tailing: real, activeForAnalysis: bool)
      ensures this.leading == leading && this.tailing == tailing
      ensures this.activeForAnalysis == activeForAnalysis
    {
      this.leading := leading;
      this.tailing := tailing;
      this.activeForAnalysis := activeForAnalysis;
    }

    method SetActiveForAnalysis(active: bool)
      modifies this
      ensures activeForAnalysis == active
    {
      activeForAnalysis := active;
    }
  }

  /** The create-read-update-delete listener a peak filter is handed: the
      collection `read()` returns, and, in call order, the peaks passed to
      `delete` and to `updated`. */
  class CrudListener {
    const read: seq<Peak>
    var deleted: seq<Peak>
    var updated: seq<Peak>

    constructor (read: seq<Peak>)
      ensures this.read == read && deleted == [] && updated == []
    {
      this.read := read;
      deleted := [];
      updated := [];
    }

    method Delete(peak: Peak)
      modifies this
      ensures deleted == old(deleted) + [peak] && updated == old(updated)
    {
      deleted := deleted + [peak];
    }

    method Updated(peak: Peak)
      modifies this
      ensures updated == old(updated) + [peak] && deleted == old(deleted)
    {
      updated := updated + [peak];
    }
  }

  /** What a filter does to one peak: nothing, set its flag (and report it
      updated), or report it deleted. */
  datatype Action = Unchanged | SetActive(active: bool) | Delete

  /** The flag of a peak after the action. */
  function ActiveAfter(action: Action, active: bool): (r: bool)
    ensures action.SetActive? ==> r == action.active
    ensures !action.SetActive? ==> r == active
  {
    if action.SetActive? then action.active else active
  }

  /** Doing an action twice leaves the flag as doing it once: a peak that
      the collection holds twice ends the same as if it held it once. */
  lemma ActiveAfterIdempotent(action: Action, active: bool)
    ensures ActiveAfter(action, ActiveAfter(action, active)) == ActiveAfter(action, active)
  {
  }

  /** The peaks a run reports deleted when `decide` says what to do with
      each peak: those it deletes, in the order of the collection, as often
      as the collection holds them. */
  function Deleted(peaks: seq<Peak>, decide: Peak --> Action): seq<Peak>
    requires forall k :: 0 <= k < |peaks| ==> decide.requires(peaks[k])
  {
    if peaks == [] then []
    else
      var last := peaks[|peaks| - 1];
      Deleted(peaks[..|peaks| - 1], decide) + (if decide(last).Delete? then [last] else [])
  }

  /** The peaks a run reports updated: those whose flag `decide` sets, in
      the order of the collection. */
  function Updated(peaks: seq<Peak>, decide: Peak --> Action): seq<Peak>
    requires forall k :: 0 <= k < |peaks| ==> decide.requires(peaks[k])
  {
    if peaks == [] then []
    else
      var last := peaks[|peaks| - 1];
      Updated(peaks[..|peaks| - 1], decide) + (if decide(last).SetActive? then [last] else [])
  }

  /** The peaks reported deleted are exactly the peaks of the collection
      that the decision deletes. */
  lemma {:induction false} DeletedExactly(peaks: seq<Peak>, decide: Peak --> Action, p: Peak)
    requires forall k :: 0 <= k < |peaks| ==> decide.requires(peaks[k])
    ensures p in Deleted(peaks, decide) <==> p in peaks && decide.requires(p) && decide(p).Delete?
  {
    if peaks != [] {
      var init := peaks[..|peaks| - 1];
      DeletedExactly(init, decide, p);
      assert peaks == init + [peaks[|peaks| - 1]];
    }
  }

  /** The peaks reported updated are exactly the peaks of the collection
      whose flag the decision sets. */
  lemma {:induction false} UpdatedExactly(peaks: seq<Peak>, decide: Peak --> Action, p: Peak)
    requires forall k :: 0 <= k < |peaks| ==> decide.requires(peaks[k])
    ensures p in Updated(peaks, decide) <==> p in peaks && decide.requires(p) && decide(p).SetActive?
  {
    if peaks != [] {
      var init := peaks[..|peaks| - 1];
      UpdatedExactly(init, decide, p);
      assert peaks == init + [peaks[|peaks| - 1]];
    }
  }

  /** No peak is both deleted and updated, and each one deleted or updated
      is reported once per time the collection holds it. */
  lemma {:induction false} ReportsAreDisjoint(peaks: seq<Peak>, decide: Peak --> Action)
    requires forall k :: 0 <= k < |peaks| ==> decide.requires(peaks[k])
    ensures multiset(Deleted(peaks, decide)) + multiset(Updated(peaks, decide)) <= multiset(peaks)
  {
    if peaks != [] {
      var init := peaks[..|peaks| - 1];
      ReportsAreDisjoint(init, decide);
      assert peaks == init + [peaks[|peaks| - 1]];
    }
  }

  /** When of two decisions exactly one deletes each peak, the two runs'
      deleted peaks together are the collection. */
  lemma {:induction false} DeletedSplit(peaks: seq<Peak>, first: Peak --> Action, second: Peak --> Action)
    requires forall k :: 0 <= k < |peaks| ==> first.requires(peaks[k]) && second.requires(peaks[k])
    requires forall k :: 0 <= k < |peaks| ==> first(peaks[k]).Delete? != second(peaks[k]).Delete?
    ensures multiset(Deleted(peaks, first)) + multiset(Deleted(peaks, second)) == multiset(peaks)
  {
    if peaks != [] {
      var init := peaks[..|peaks| - 1];
      var last := peaks[|peaks| - 1];
      DeletedSplit(init, first, second);
      assert peaks == init + [last];
      var d1, d2 := Deleted(init, first), Deleted(init, second);
      if first(last).Delete? {
        assert Deleted(peaks, first) == d1 + [last];
        assert Deleted(peaks, second) == d2;
      } else {
        assert Deleted(peaks, first) == d1;
        assert Deleted(peaks, second) == d2 + [last];
      }
    }
  }

  /** The outcome of a filter run: finished, or ended by an
      `IllegalArgumentException` with its message. */
  datatype Outcome = Done | IllegalArgument(message: string)

  const UNSUPPORTED_CRITERION: string := "Unsupported Peak Filter Selection Criterion!"
  const UNSUPPORTED_TREATMENT: string := "Unsupported Peak Filter Treatment Option!"

  /** Carries out one action on one peak: sets the flag and reports the peak
      updated, or reports it deleted, or does nothing. */
  method Apply(listener: CrudListener, peak: Peak, action: Action)
    modifies listener, peak
    ensures peak.activeForAnalysis == ActiveAfter(action, old(peak.activeForAnalysis))
    ensures listener.deleted == old(listener.deleted) + (if action.Delete? then [peak] else [])
    ensures listener.updated == old(listener.updated) + (if action.SetActive? then [peak] else [])
  {
    match action
    case Unchanged =>
    case SetActive(active) =>
      peak.SetActiveForAnalysis(active);
      listener.Updated(peak);
    case Delete =>
      listener.Delete(peak);
  }
}
