/** A peak of a wavelength-spectrometry (WSD) chromatogram: its width in
    scans, its purity against the chromatogram's own scan at the peak
    maximum, its signal-to-noise ratio (computed once and cached), its scan
    at the maximum, and its `equals` and `hashCode`. */
module ChromatogramPeakWsd {
  import opened Results
  import opened JavaText

  /** Java `int` arithmetic: the exact value reduced into the `int` range.
      A chain of `*` and `+` on `int` wraps to the same value as the exact
      result wrapped once. */
  function Wrap32(x: int): (r: Int32)
    ensures (r - x) % 0x1_0000_0000 == 0
    ensures -0x8000_0000 <= x < 0x8000_0000 ==> r == x
  {
    (x + 0x8000_0000) % 0x1_0000_0000 - 0x8000_0000
  }

  /** What `getPeakMaximum` gives: a WSD scan with its number of scan
      signals, a scan of another kind, or null. */
  datatype PeakMaximum = WsdScan(numberOfScanSignals: nat) | OtherScan | NoScan

  /** The peak model: the retention times (in milliseconds) of start, stop
      and maximum, the total abundance and the scan at the maximum. */
  datatype PeakModelWsd = PeakModelWsd(
    startRetentionTime: Int32,
    stopRetentionTime: Int32,
    retentionTimeAtPeakMaximum: Int32,
    peakAbundance: real,
    peakMaximum: PeakMaximum)

  /** The chromatogram, seen only through the three queries the peak makes
      of it and its identity hash: the scan number for a retention time, the
      signal-to-noise ratio for a total signal, and its own scan for a scan
      number (null, or a scan with its number of signals). */
  class ChromatogramWsd {
    const scanNumber: Int32 -> Int32
    const signalToNoiseRatio: real -> real
    const supplierScan: Int32 -> Option<nat>
    const identityHash: Int32

    constructor (scanNumber: Int32 -> Int32, signalToNoiseRatio: real -> real,
                 supplierScan: Int32 -> Option<nat>, identityHash: Int32)
      ensures this.scanNumber == scanNumber && this.signalToNoiseRatio == signalToNoiseRatio
      ensures this.supplierScan == supplierScan && this.identityHash == identityHash
    {
      this.scanNumber := scanNumber;
      this.signalToNoiseRatio := signalToNoiseRatio;
      this.supplierScan := supplierScan;
      this.identityHash := identityHash;
    }
  }

  /** The value that marks the signal-to-noise ratio as not yet known. */
  const INITIAL_SN_VALUE: real := -1.0

  class ChromatogramPeakWsd {
    const peakModel: PeakModelWsd
    const chromatogram: ChromatogramWsd
    /** The run-time class of the peak (`getClass()`). */
    const runtimeClass: string
    var signalToNoiseRatio: real

    constructor (peakModel: PeakModelWsd, chromatogram: ChromatogramWsd, runtimeClass: string)
      ensures this.peakModel == peakModel && this.chromatogram == chromatogram
      ensures this.runtimeClass == runtimeClass
      ensures signalToNoiseRatio == INITIAL_SN_VALUE
    {
      this.peakModel := peakModel;
      this.chromatogram := chromatogram;
      this.runtimeClass := runtimeClass;
      signalToNoiseRatio := INITIAL_SN_VALUE;
    }

    /** `getScanMax`: the chromatogram's scan number at the retention time of
        the peak maximum. */
    function ScanMax(): (r: Int32)
      ensures r == chromatogram.scanNumber(peakModel.retentionTimeAtPeakMaximum)
    {
      chromatogram.scanNumber(peakModel.retentionTimeAtPeakMaximum)
    }

    /** `getWidthBaselineTotalInScans`: zero when the start scan number or
        the stop scan number is zero, otherwise the number of scans from
        start to stop inclusive, in `int` arithmetic. */
    function WidthBaselineTotalInScans(): (r: Int32)
      ensures chromatogram.scanNumber(peakModel.startRetentionTime) == 0 ==> r == 0
      ensures chromatogram.scanNumber(peakModel.stopRetentionTime) == 0 ==> r == 0
      ensures chromatogram.scanNumber(peakModel.startRetentionTime) != 0
              && chromatogram.scanNumber(peakModel.stopRetentionTime) != 0 ==>
        r == Wrap32(chromatogram.scanNumber(peakModel.stopRetentionTime)
                    - chromatogram.scanNumber(peakModel.startRetentionTime) + 1)
    {
      var start := chromatogram.scanNumber(peakModel.startRetentionTime);
      if start == 0 then 0
      else
        var stop := chromatogram.scanNumber(peakModel.stopRetentionTime);
        if stop == 0 then 0
        else Wrap32(stop - start + 1)
    }

    /** `getPurity`: the peak's number of scan signals over that of the
        chromatogram's own scan at the peak maximum; zero unless the peak
        maximum is a WSD scan, the chromatogram has a scan there, and that
        scan has signals. */
    function Purity(): (r: real)
      ensures r >= 0.0
      ensures r != 0.0 ==> peakModel.peakMaximum.WsdScan? && chromatogram.supplierScan(ScanMax()).Some?
                           && chromatogram.supplierScan(ScanMax()).value != 0
      ensures peakModel.peakMaximum.WsdScan? && chromatogram.supplierScan(ScanMax()).Some?
              && chromatogram.supplierScan(ScanMax()).value != 0 ==>
        r * (chromatogram.supplierScan(ScanMax()).value as real) == peakModel.peakMaximum.numberOfScanSignals as real
    {
      match peakModel.peakMaximum
      case WsdScan(signals) =>
        (match chromatogram.supplierScan(ScanMax())
         case Some(genuineSignals) =>
           if genuineSignals != 0 then signals as real / genuineSignals as real else 0.0
         case None => 0.0)
      case OtherScan => 0.0
      case NoScan => 0.0
    }

    /** `getSignalToNoiseRatio`: while the field holds the sentinel, asks the
        chromatogram for the ratio of the peak's total abundance and stores
        it; afterwards returns the stored value without asking again. */
    method GetSignalToNoiseRatio() returns (r: real)
      modifies this
      ensures old(signalToNoiseRatio) == INITIAL_SN_VALUE ==>
        signalToNoiseRatio == chromatogram.signalToNoiseRatio(peakModel.peakAbundance)
      ensures old(signalToNoiseRatio) != INITIAL_SN_VALUE ==> signalToNoiseRatio == old(signalToNoiseRatio)
      ensures r == signalToNoiseRatio
    {
      if signalToNoiseRatio == INITIAL_SN_VALUE {
        var totalSignal := peakModel.peakAbundance;
        signalToNoiseRatio := chromatogram.signalToNoiseRatio(totalSignal);
      }
      r := signalToNoiseRatio;
    }

    /** `equals`: the same object; otherwise not null, of the same run-time
        class, with an equal peak model (by the peak model's own `equals`)
        and the very same chromatogram. */
    function Equals(other: object?, modelEquals: (PeakModelWsd, PeakModelWsd) -> bool): (r: bool)
      ensures other == null ==> !r
      ensures other == this ==> r
      ensures r && other != this ==> other is ChromatogramPeakWsd
      ensures other is ChromatogramPeakWsd && other != this ==>
        (r <==> var peak := other as ChromatogramPeakWsd;
                runtimeClass == peak.runtimeClass && modelEquals(peakModel, peak.peakModel)
                && chromatogram == peak.chromatogram)
    {
      if this == other then true
      else if other == null then false
      else if !(other is ChromatogramPeakWsd) then false
      else
        var peak := other as ChromatogramPeakWsd;
        if runtimeClass != peak.runtimeClass then false
        else modelEquals(peakModel, peak.peakModel) && chromatogram == peak.chromatogram
    }

    /** `hashCode`: seven times the peak model's hash plus eleven times the
        chromatogram's, in `int` arithmetic. */
    function HashCode(modelHash: PeakModelWsd -> Int32): (r: Int32)
      ensures (r - (7 * modelHash(peakModel) + 11 * chromatogram.identityHash)) % 0x1_0000_0000 == 0
    {
      Wrap32(7 * modelHash(peakModel) + 11 * chromatogram.identityHash)
    }
  }

  /** The scan numbers from `start` to `stop`, both included. */
  function ScansBetween(start: int, stop: int): (scans: set<int>)
    ensures forall s :: s in scans <==> start <= s <= stop
    decreases stop - start
  {
    if stop < start then {} else ScansBetween(start, stop - 1) + {stop}
  }

  lemma {:induction false} ScansBetweenCount(start: int, stop: int)
    requires start <= stop + 1
    ensures |ScansBetween(start, stop)| == stop - start + 1
    decreases stop - start
  {
    if start <= stop {
      ScansBetweenCount(start, stop - 1);
      assert stop !in ScansBetween(start, stop - 1);
    }
  }

  /** For a peak whose start and stop lie on positive scan numbers, start
      not after stop, the width is the number of scans the peak spans, and
      it does not wrap around. */
  lemma WidthCountsScans(peak: ChromatogramPeakWsd)
    requires 0 < peak.chromatogram.scanNumber(peak.peakModel.startRetentionTime)
                <= peak.chromatogram.scanNumber(peak.peakModel.stopRetentionTime)
    ensures peak.WidthBaselineTotalInScans() as int
         == |ScansBetween(peak.chromatogram.scanNumber(peak.peakModel.startRetentionTime),
                          peak.chromatogram.scanNumber(peak.peakModel.stopRetentionTime))|
  {
    ScansBetweenCount(peak.chromatogram.scanNumber(peak.peakModel.startRetentionTime),
                      peak.chromatogram.scanNumber(peak.peakModel.stopRetentionTime));
  }

  /** When scan numbers grow with retention time and the maximum lies
      between start and stop, the scan at the maximum is one of the scans
      the width counts. */
  lemma ScanMaxWithinWidth(peak: ChromatogramPeakWsd)
    requires forall a: Int32, b: Int32 :: a <= b ==> peak.chromatogram.scanNumber(a) <= peak.chromatogram.scanNumber(b)
    requires peak.peakModel.startRetentionTime <= peak.peakModel.retentionTimeAtPeakMaximum <= peak.peakModel.stopRetentionTime
    ensures peak.ScanMax() in ScansBetween(peak.chromatogram.scanNumber(peak.peakModel.startRetentionTime),
                                           peak.chromatogram.scanNumber(peak.peakModel.stopRetentionTime))
  {
  }

  /** Purity is a fraction: at most one when the peak's scan has no more
      signals than the chromatogram's, and exactly one when they have the
      same number of signals. */
  lemma PurityIsAFraction(peak: ChromatogramPeakWsd)
    requires peak.peakModel.peakMaximum.WsdScan?
    requires peak.chromatogram.supplierScan(peak.ScanMax()).Some?
    ensures peak.peakModel.peakMaximum.numberOfScanSignals <= peak.chromatogram.supplierScan(peak.ScanMax()).value
            ==> peak.Purity() <= 1.0
    ensures 0 < peak.peakModel.peakMaximum.numberOfScanSignals == peak.chromatogram.supplierScan(peak.ScanMax()).value
            ==> peak.Purity() == 1.0
  {
    var genuine := peak.chromatogram.supplierScan(peak.ScanMax()).value;
    var signals := peak.peakModel.peakMaximum.numberOfScanSignals;
    if genuine != 0 && signals <= genuine {
      FractionAtMostOne(peak.Purity(), genuine as real, signals as real);
    }
  }

  /** A quotient of a part by a positive whole is at most one. */
  lemma FractionAtMostOne(q: real, whole: real, part: real)
    requires 0.0 < whole && part <= whole && q * whole == part
    ensures q <= 1.0
  {
  }

  /** Equal peaks have equal hash codes, provided the peak model's hash
      agrees with its `equals`. */
  lemma EqualPeaksHashAlike(peak: ChromatogramPeakWsd, other: ChromatogramPeakWsd,
                            modelEquals: (PeakModelWsd, PeakModelWsd) -> bool, modelHash: PeakModelWsd -> Int32)
    requires forall a, b :: modelEquals(a, b) ==> modelHash(a) == modelHash(b)
    requires peak.Equals(other, modelEquals)
    ensures peak.HashCode(modelHash) == other.HashCode(modelHash)
  {
  }

  /** `equals` is symmetric whenever the peak model's `equals` is. */
  lemma EqualsIsSymmetric(peak: ChromatogramPeakWsd, other: ChromatogramPeakWsd,
                          modelEquals: (PeakModelWsd, PeakModelWsd) -> bool)
    requires forall a, b :: modelEquals(a, b) == modelEquals(b, a)
    ensures peak.Equals(other, modelEquals) == other.Equals(peak, modelEquals)
  {
  }
}
