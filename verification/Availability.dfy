/** Availability of devices: the clipped downtime of their events, and how far it is from the truth. */
module Availability {

  /** An event summary: open, or closed at its last status change. */
  datatype Summary = Summary(device: string, first: int, closed: bool, change: int)

  /** The report window in milliseconds. */
  datatype Window = Window(start: int, end: int)

  function LastOf(e: Summary, w: Window): int {
    if e.closed then e.change else w.end
  }

  /** An event without elapsed time is discarded. */
  predicate Elapsed(e: Summary, w: Window) {
    e.first != LastOf(e, w)
  }

  function Max(a: int, b: int): int { if a < b then b else a }

  function Min(a: int, b: int): int { if a < b then a else b }

  function ClippedFirst(e: Summary, w: Window): int { Max(e.first, w.start) }

  function ClippedLast(e: Summary, w: Window): int { Min(LastOf(e, w), w.end) }

  predicate Counts(e: Summary, w: Window, device: string) {
    e.device == device && Elapsed(e, w)
  }

  /** What the loop adds up for one device. */
  function Downtime(es: seq<Summary>, w: Window, device: string): int {
    if es == [] then 0
    else var last := es[|es| - 1];
      Downtime(es[..|es| - 1], w, device)
      + if Counts(last, w, device) then ClippedLast(last, w) - ClippedFirst(last, w) else 0
  }

  /** The availability of a record with that downtime in a window of that length. */
  function Ratio(downtime: int, total: int): real {
    if total <= 0 then if downtime != 0 then 0.0 else 1.0
    else if downtime >= total then 0.0
    else 1.0 - downtime as real / total as real
  }

  // ----- the report -----

  /** defaultdict(int), filled with the devices of the report. */
  method Accumulate(devices: seq<string>, es: seq<Summary>, w: Window) returns (acc: map<string, int>)
    ensures forall d :: d in acc ==> acc[d] == Downtime(es, w, d)
    ensures forall d :: d !in acc ==> Downtime(es, w, d) == 0
    ensures forall d :: d in devices ==> d in acc
  {
    acc := map[];
    var k := 0;
    while k < |devices|
      invariant 0 <= k <= |devices|
      invariant forall d :: d in acc ==> acc[d] == 0
      invariant forall i :: 0 <= i < k ==> devices[i] in acc
    {
      acc := acc[devices[k] := 0];
      k := k + 1;
    }
    k := 0;
    while k < |es|
      invariant 0 <= k <= |es|
      invariant forall d :: d in acc ==> acc[d] == Downtime(es[..k], w, d)
      invariant forall d :: d !in acc ==> Downtime(es[..k], w, d) == 0
      invariant forall d :: d in devices ==> d in acc
    {
      var e := es[k];
      assert es[..k + 1][..k] == es[..k];
      k := k + 1;
      var first, last := e.first, if e.closed then e.change else w.end;
      if first == last { continue; }
      first, last := Max(first, w.start), Min(last, w.end);
      acc := acc[e.device := (if e.device in acc then acc[e.device] else 0) + (last - first)];
    }
    assert es[..k] == es;
  }

  /** One record for each device of the report; what other devices accumulated is dropped. */
  method Report(devices: seq<string>, es: seq<Summary>, w: Window) returns (report: map<string, real>)
    ensures forall d :: d in report <==> d in devices
    ensures forall d :: d in report ==> report[d] == Ratio(Downtime(es, w, d), w.end - w.start)
  {
    var acc := Accumulate(devices, es, w);
    report := map[];
    var todo := acc.Keys;
    while todo != {}
      invariant todo <= acc.Keys
      invariant forall d :: d in report <==> d in devices && d in acc && d !in todo
      invariant forall d :: d in report ==> report[d] == Ratio(acc[d], w.end - w.start)
    {
      var d :| d in todo;
      todo := todo - {d};
      if d in devices {
        report := report[d := Ratio(acc[d], w.end - w.start)];
      }
    }
  }

  // ----- what the sum means -----

  /** The event is one the queries ask for: it begins before the end, and it was not closed before the start. */
  predicate Queried(e: Summary, w: Window) {
    e.first <= w.end && (e.closed ==> e.first <= e.change && e.change > w.start)
  }

  ghost predicate AllQueried(es: seq<Summary>, w: Window) {
    forall k :: 0 <= k < |es| ==> Queried(es[k], w)
  }

  /** The milliseconds from lo up to hi. */
  function Range(lo: int, hi: int): (r: set<int>)
    ensures forall t :: t in r <==> lo <= t < hi
    decreases hi - lo
  {
    if lo < hi then Range(lo, hi - 1) + {hi - 1} else {}
  }

  function Milliseconds(e: Summary, w: Window): set<int> {
    Range(ClippedFirst(e, w), ClippedLast(e, w))
  }

  /** The milliseconds of the window in which the device was down. */
  function Covered(es: seq<Summary>, w: Window, device: string): set<int> {
    if es == [] then {}
    else Covered(es[..|es| - 1], w, device)
         + if Counts(es[|es| - 1], w, device) then Milliseconds(es[|es| - 1], w) else {}
  }

  /** A millisecond is covered when some event of the device, open or closed later, had begun. */
  lemma {:induction false} CoveredIs(es: seq<Summary>, w: Window, device: string, t: int)
    ensures t in Covered(es, w, device)
            <==> w.start <= t < w.end && exists k :: 0 <= k < |es| && es[k].device == device
                                            && es[k].first <= t < LastOf(es[k], w)
  {
    if es != [] {
      var n := |es| - 1;
      CoveredIs(es[..n], w, device, t);
      assert forall k :: 0 <= k < n ==> es[k] == es[..n][k];
      if es[n].device == device && es[n].first <= t < LastOf(es[n], w) { assert Elapsed(es[n], w); }
    }
  }

  /** Whether the device was down at t: some event of it had begun, and is open or was closed later. */
  ghost predicate DownAt(es: seq<Summary>, device: string, t: int) {
    exists k :: 0 <= k < |es| && es[k].device == device && es[k].first <= t && (es[k].closed ==> t < es[k].change)
  }

  /** What is covered is the time in the window at which the device was down. */
  lemma CoveredIsDown(es: seq<Summary>, w: Window, device: string, t: int)
    ensures t in Covered(es, w, device) <==> w.start <= t < w.end && DownAt(es, device, t)
  {
    CoveredIs(es, w, device, t);
  }

  /** No millisecond of the window is in two counted events of the device. */
  ghost predicate Disjoint(es: seq<Summary>, w: Window, device: string) {
    forall i, j :: 0 <= i < j < |es| && Counts(es[i], w, device) && Counts(es[j], w, device)
                   ==> Milliseconds(es[i], w) !! Milliseconds(es[j], w)
  }

  lemma {:induction false} RangeSize(lo: int, hi: int)
    requires lo <= hi
    ensures |Range(lo, hi)| == hi - lo
    decreases hi - lo
  {
    if lo < hi { RangeSize(lo, hi - 1); }
  }

  lemma UnionSize(a: set<int>, b: set<int>)
    ensures |a + b| <= |a| + |b|
    ensures |a + b| == |a| + |b| <==> a !! b
  {
    assert a + b == a + (b - a) && |a + b| == |a| + |b - a|;
    assert b == (b - a) + (a * b) && |b| == |b - a| + |a * b|;
    assert a !! b <==> a * b == {};
  }

  lemma {:induction false} CoveredUnion(es: seq<Summary>, w: Window, device: string, b: set<int>)
    ensures Covered(es, w, device) !! b
            <==> forall k :: 0 <= k < |es| && Counts(es[k], w, device) ==> Milliseconds(es[k], w) !! b
  {
    if es != [] {
      var n := |es| - 1;
      CoveredUnion(es[..n], w, device, b);
      assert forall k :: 0 <= k < n ==> es[..n][k] == es[k];
    }
  }

  lemma DisjointSplits(es: seq<Summary>, w: Window, device: string)
    requires es != []
    ensures var n := |es| - 1;
            Disjoint(es, w, device)
            <==> (Disjoint(es[..n], w, device)
                  && (Counts(es[n], w, device) ==> Covered(es[..n], w, device) !! Milliseconds(es[n], w)))
  {
    var n := |es| - 1;
    CoveredUnion(es[..n], w, device, Milliseconds(es[n], w));
    assert forall k :: 0 <= k < n ==> es[..n][k] == es[k];
  }

  /**
   The sum is at least the time the device was down, and it is that time exactly when no two of
   its events overlap in the window.
   */
  lemma {:induction false} DowntimeCounts(es: seq<Summary>, w: Window, device: string)
    requires w.start <= w.end && AllQueried(es, w)
    ensures Downtime(es, w, device) >= |Covered(es, w, device)|
    ensures Downtime(es, w, device) == |Covered(es, w, device)| <==> Disjoint(es, w, device)
  {
    if es != [] {
      var n := |es| - 1;
      DowntimeCounts(es[..n], w, device);
      DisjointSplits(es, w, device);
      if Counts(es[n], w, device) {
        assert Queried(es[n], w);
        RangeSize(ClippedFirst(es[n], w), ClippedLast(es[n], w));
        UnionSize(Covered(es[..n], w, device), Milliseconds(es[n], w));
      }
    }
  }

  lemma {:induction false} CoveredFits(es: seq<Summary>, w: Window, device: string)
    ensures Covered(es, w, device) <= Range(w.start, w.end)
  {
    if es != [] { CoveredFits(es[..|es| - 1], w, device); }
  }

  lemma SubsetSize(a: set<int>, b: set<int>)
    requires a <= b
    ensures |a| <= |b| && (|a| == |b| <==> a == b)
  {
    assert b == a + (b - a) && |b| == |a| + |b - a|;
  }

  /** The share of the window in which the device was not down. */
  function Truth(es: seq<Summary>, w: Window, device: string): real
    requires w.start < w.end
  {
    1.0 - |Covered(es, w, device)| as real / (w.end - w.start) as real
  }

  lemma RatioIs(downtime: int, covered: int, total: int)
    requires 0 <= covered <= total && covered <= downtime && 0 < total
    ensures 0.0 <= Ratio(downtime, total) <= 1.0 - covered as real / total as real <= 1.0
    ensures Ratio(downtime, total) == 1.0 - covered as real / total as real <==> downtime == covered || covered == total
  {
    Scales(covered, downtime, total);
    Scales(covered, total, total);
    Scales(0, covered, total);
    Scales(downtime, total, total);
    assert total as real / total as real == 1.0;
  }

  lemma Scales(a: int, b: int, total: int)
    requires 0 < total
    ensures a <= b <==> a as real / total as real <= b as real / total as real
    ensures a == b <==> a as real / total as real == b as real / total as real
  {
    var x, y, t := a as real, b as real, total as real;
    assert x / t * t == x && y / t * t == y;
    if a < b { assert (y / t - x / t) * t > 0.0; }
    if b < a { assert (x / t - y / t) * t > 0.0; }
  }

  /**
   Availability lies between 0 and the truth; it is the truth exactly when no events of the device
   overlap in the window, or when they cover all of it.
   */
  lemma AvailabilityIsSafe(es: seq<Summary>, w: Window, device: string)
    requires w.start < w.end && AllQueried(es, w)
    ensures var a := Ratio(Downtime(es, w, device), w.end - w.start);
            && 0.0 <= a <= Truth(es, w, device) <= 1.0
            && (a == Truth(es, w, device)
                <==> Disjoint(es, w, device) || Covered(es, w, device) == Range(w.start, w.end))
  {
    hide Ratio, Downtime, Covered, Range, Disjoint;
    var all, total := Range(w.start, w.end), w.end - w.start;
    DowntimeCounts(es, w, device);
    CoveredFits(es, w, device);
    RangeSize(w.start, w.end);
    var covered := Covered(es, w, device);
    SubsetSize(covered, all);
    RatioIs(Downtime(es, w, device), |covered|, total);
  }

  /**
   Without a window the guard answers: fully available when it is empty; when it is reversed, only without
   counted events.
   */
  lemma {:induction false} GuardAnswers(es: seq<Summary>, w: Window, device: string)
    requires w.end <= w.start && AllQueried(es, w)
    ensures Downtime(es, w, device) <= 0
    ensures Ratio(Downtime(es, w, device), w.end - w.start) == 1.0
            <==> w.start == w.end || forall k :: 0 <= k < |es| ==> !Counts(es[k], w, device)
  {
    if es != [] {
      var n := |es| - 1;
      GuardAnswers(es[..n], w, device);
      assert Queried(es[n], w);
      assert forall k :: 0 <= k < n ==> es[..n][k] == es[k];
    }
  }
}
