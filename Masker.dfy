/**
 * The redaction decision of `process_image` (masker_v2.py:94-190).
 *
 * Each line of the detector file is parsed into a box; a box that passes the
 * aspect-ratio gate is read twice by OCR (given here as a `Reading`), the
 * better reading is classified, and the box is either masked at once, kept
 * as pending, or dropped. A ValueError from `int()` ends the call. After the
 * last line, every pair of pending boxes is tested for adjacency and both
 * boxes of an adjacent pair are masked.
 *
 * The image is modelled by the set of regions filled black so far; a region
 * is a box together with the index of the detector line it came from.
 */
module Masker {
  import opened Geometry
  import opened DigitSignal
  import opened PyText
  import opened DetectorLine

  /** The OCR engine's two readings of a box: of the grayscale crop and of the thresholded crop. */
  datatype Reading = Reading(gray: string, thresh: string)

  /** A box of the detector file, named by the index of its line. */
  datatype Region = Region(line: nat, box: Quad)

  /**
   * Lines 110-163 for one box: the aspect-ratio gate and, for a box that
   * passes it, the label of the better of its two readings.
   */
  function Verdict(box: Quad, reading: Reading): (l: Label)
    ensures l != Rejected ==> ArCheck(AspectRatio(box))
  {
    if !ArCheck(AspectRatio(box)) then Rejected
    else Classify(Reconcile(reading.gray, reading.thresh))
  }

  /** A box the gate turns away is never read: its verdict is the same whatever OCR would say. */
  lemma GateRejectedIgnoresReading(box: Quad, r1: Reading, r2: Reading)
    requires !ArCheck(AspectRatio(box))
    ensures Verdict(box, r1) == Verdict(box, r2) == Rejected
  {
  }

  /** What one detector line does to the decision. */
  datatype LineEvent =
    | Skip              // wrong field count, gate rejected, or label Rejected
    | Raise             // `int()` raised ValueError
    | Confirm(q: Quad)  // masked at once
    | Defer(q: Quad)    // appended to the pending list

  /** Lines 100-163 for one line and its readings. */
  function Decide(line: string, reading: Reading): LineEvent {
    match ParseLine(line)
    case WrongFieldCount => Skip
    case NotAnInteger => Raise
    case Box(q) =>
      match Verdict(q, reading)
      case Rejected => Skip
      case Confirmed => Confirm(q)
      case Pending => Defer(q)
  }

  /** `[f(xs[0], ys[0]), f(xs[1], ys[1]), ...]`. */
  function ZipWith<A, B, C>(f: (A, B) -> C, xs: seq<A>, ys: seq<B>): (zs: seq<C>)
    requires |xs| == |ys|
    ensures |zs| == |xs|
  {
    if |xs| == 0 then []
    else ZipWith(f, xs[..|xs| - 1], ys[..|xs| - 1]) + [f(xs[|xs| - 1], ys[|xs| - 1])]
  }

  lemma {:induction false} ZipWithAt<A, B, C>(f: (A, B) -> C, xs: seq<A>, ys: seq<B>, i: nat)
    requires |xs| == |ys| && i < |xs|
    ensures ZipWith(f, xs, ys)[i] == f(xs[i], ys[i])
  {
    var n := |xs|;
    if i < n - 1 {
      ZipWithAt(f, xs[..n - 1], ys[..n - 1], i);
      assert xs[..n - 1][i] == xs[i] && ys[..n - 1][i] == ys[i];
    }
  }

  /** The event of every line of the file. */
  function Events(lines: seq<string>, readings: seq<Reading>): (events: seq<LineEvent>)
    requires |lines| == |readings|
    ensures |events| == |lines|
  {
    ZipWith(Decide, lines, readings)
  }

  /** The event at index i is line i's own. */
  lemma EventAt(lines: seq<string>, readings: seq<Reading>, i: nat)
    requires |readings| == |lines| && i < |lines|
    ensures Events(lines, readings)[i] == Decide(lines[i], readings[i])
  {
    ZipWithAt(Decide, lines, readings, i);
  }

  /**
   * The state of the line loop: the regions masked so far and the pending
   * list, or the ValueError that ended the loop at `line`, with the regions
   * masked before it.
   */
  datatype Scan =
    | Running(confirmed: set<Region>, pending: seq<Region>)
    | Raised(line: nat, confirmed: set<Region>)

  /** One iteration of the line loop, on line `i`. */
  function ScanLine(state: Scan, i: nat, event: LineEvent): Scan {
    match state
    case Raised(_, _) => state
    case Running(confirmed, pending) =>
      match event
      case Skip => state
      case Raise => Raised(i, confirmed)
      case Confirm(q) => Running(confirmed + {Region(i, q)}, pending)
      case Defer(q) => Running(confirmed, pending + [Region(i, q)])
  }

  /** The line loop over the first `n` lines. */
  function ScanLines(events: seq<LineEvent>, n: nat): Scan
    requires n <= |events|
  {
    if n == 0 then Running({}, [])
    else ScanLine(ScanLines(events, n - 1), n - 1, events[n - 1])
  }

  /** A ValueError ends the loop: later lines change nothing. */
  lemma {:induction false} RaisedIsFinal(events: seq<LineEvent>, n: nat, m: nat)
    requires n <= m <= |events|
    requires ScanLines(events, n).Raised?
    ensures ScanLines(events, m) == ScanLines(events, n)
  {
    if m > n {
      RaisedIsFinal(events, n, m - 1);
    }
  }

  /** A scan still running after `n` lines has met no raising line. */
  lemma {:induction false} RunningMeansNoRaise(events: seq<LineEvent>, n: nat)
    requires n <= |events|
    requires ScanLines(events, n).Running?
    ensures forall i :: 0 <= i < n ==> !events[i].Raise?
  {
    if n > 0 {
      RunningMeansNoRaise(events, n - 1);
    }
  }

  /** A running scan has masked exactly the boxes its lines confirm. */
  lemma {:induction false} RunningConfirmed(events: seq<LineEvent>, n: nat)
    requires n <= |events|
    requires ScanLines(events, n).Running?
    ensures forall r: Region :: r in ScanLines(events, n).confirmed <==>
              r.line < n && events[r.line] == Confirm(r.box)
  {
    if n > 0 {
      RunningConfirmed(events, n - 1);
    }
  }

  /** A running scan's pending list holds exactly the deferred boxes, in line order. */
  lemma {:induction false} RunningPending(events: seq<LineEvent>, n: nat)
    requires n <= |events|
    requires ScanLines(events, n).Running?
    ensures var p := ScanLines(events, n).pending;
            && (forall k :: 0 <= k < |p| ==> p[k].line < n && events[p[k].line] == Defer(p[k].box))
            && (forall a, b :: 0 <= a < b < |p| ==> p[a].line < p[b].line)
            && (forall i :: 0 <= i < n && events[i].Defer? ==> Region(i, events[i].q) in p)
  {
    if n > 0 {
      var before := ScanLines(events, n - 1);
      RunningPending(events, n - 1);
      var p := ScanLines(events, n).pending;
      if events[n - 1].Defer? {
        assert p == before.pending + [Region(n - 1, events[n - 1].q)];
        assert forall k :: 0 <= k < |before.pending| ==> p[k] == before.pending[k];
      }
    }
  }

  /**
   * What the line loop has done after `n` lines when no ValueError occurred:
   * it masked exactly the confirmed boxes, and its pending list holds exactly
   * the deferred boxes, in line order.
   */
  lemma {:induction false} ScanLinesRunning(events: seq<LineEvent>, n: nat)
    requires n <= |events|
    requires ScanLines(events, n).Running?
    ensures forall i :: 0 <= i < n ==> !events[i].Raise?
    ensures forall r: Region :: r in ScanLines(events, n).confirmed <==>
              r.line < n && events[r.line] == Confirm(r.box)
    ensures var p := ScanLines(events, n).pending;
            && (forall k :: 0 <= k < |p| ==> p[k].line < n && events[p[k].line] == Defer(p[k].box))
            && (forall a, b :: 0 <= a < b < |p| ==> p[a].line < p[b].line)
            && (forall i :: 0 <= i < n && events[i].Defer? ==> Region(i, events[i].q) in p)
  {
    RunningMeansNoRaise(events, n);
    RunningConfirmed(events, n);
    RunningPending(events, n);
  }

  /**
   * What the line loop has done when a ValueError occurred: it stopped at the
   * first raising line, and the regions masked are those confirmed before it.
   */
  lemma {:induction false} ScanLinesRaised(events: seq<LineEvent>, n: nat)
    requires n <= |events|
    requires ScanLines(events, n).Raised?
    ensures var k := ScanLines(events, n).line;
            && k < n
            && events[k].Raise?
            && ScanLines(events, k).Running?
            && ScanLines(events, n).confirmed == ScanLines(events, k).confirmed
  {
    var before := ScanLines(events, n - 1);
    if before.Raised? {
      ScanLinesRaised(events, n - 1);
    }
  }

  /**
   * Lines 171-177 and `neighbouring_boxes`: the k-th pending box has an
   * adjacent partner when some later box is adjacent to it, measured on it,
   * or it is adjacent to some earlier box, measured on that box.
   */
  ghost predicate HasPartner(p: seq<Region>, k: int)
    requires 0 <= k < |p|
  {
    || (exists j :: k < j < |p| && Neighbouring(p[k].box, p[j].box))
    || (exists i :: 0 <= i < k && Neighbouring(p[i].box, p[k].box))
  }

  /** The regions the pair loop masks: every pending box with a partner. */
  ghost function ClusterHits(p: seq<Region>): set<Region> {
    set k | 0 <= k < |p| && HasPartner(p, k) :: p[k]
  }

  /** The regions row i of the pair loop has masked once its inner index reaches j. */
  function RowHits(p: seq<Region>, i: nat, j: nat): set<Region>
    requires i < |p| && j <= |p|
  {
    if j <= i + 1 then {}
    else RowHits(p, i, j - 1) + (if Neighbouring(p[i].box, p[j - 1].box) then {p[i], p[j - 1]} else {})
  }

  /** The regions the first i rows of the pair loop have masked. */
  function LoopHits(p: seq<Region>, i: nat): set<Region>
    requires i <= |p|
  {
    if i == 0 then {} else LoopHits(p, i - 1) + RowHits(p, i - 1, |p|)
  }

  /** Row i masks both boxes of every adjacent pair (i, b) it has tested, and nothing else. */
  lemma {:induction false} RowHitsMembership(p: seq<Region>, i: nat, j: nat, r: Region)
    requires i < |p| && j <= |p|
    ensures r in RowHits(p, i, j) <==>
              exists b :: i < b < j && Neighbouring(p[i].box, p[b].box) && (r == p[i] || r == p[b])
  {
    if j > i + 1 {
      RowHitsMembership(p, i, j - 1, r);
    }
  }

  /** The first i rows mask both boxes of every adjacent pair (a, b) with a < i, and nothing else. */
  lemma {:induction false} LoopHitsMembership(p: seq<Region>, i: nat, r: Region)
    requires i <= |p|
    ensures r in LoopHits(p, i) <==>
              exists a, b :: 0 <= a < i && a < b < |p| && Neighbouring(p[a].box, p[b].box) && (r == p[a] || r == p[b])
  {
    if i > 0 {
      LoopHitsMembership(p, i - 1, r);
      RowHitsMembership(p, i - 1, |p|, r);
      if r in RowHits(p, i - 1, |p|) {
        var b :| i - 1 < b < |p| && Neighbouring(p[i - 1].box, p[b].box) && (r == p[i - 1] || r == p[b]);
        assert 0 <= i - 1 < i && i - 1 < b < |p|;
      }
    }
  }

  /** Once every row has run, the pair loop has masked exactly the pending boxes with a partner. */
  lemma LoopHitsAreClusterHits(p: seq<Region>)
    ensures LoopHits(p, |p|) == ClusterHits(p)
  {
    forall r | r in LoopHits(p, |p|)
      ensures r in ClusterHits(p)
    {
      LoopHitsMembership(p, |p|, r);
      var a, b :| 0 <= a < |p| && a < b < |p| && Neighbouring(p[a].box, p[b].box) && (r == p[a] || r == p[b]);
      assert HasPartner(p, a) && HasPartner(p, b);
    }
    forall r | r in ClusterHits(p)
      ensures r in LoopHits(p, |p|)
    {
      var k :| 0 <= k < |p| && HasPartner(p, k) && r == p[k];
      LoopHitsMembership(p, |p|, r);
      if j :| k < j < |p| && Neighbouring(p[k].box, p[j].box) {
        assert 0 <= k < |p| && k < j < |p|;
      } else {
        var i :| 0 <= i < k && Neighbouring(p[i].box, p[k].box);
        assert 0 <= i < |p| && i < k < |p|;
      }
    }
  }

  /** A pending list of length 0 or 1 masks nothing. */
  lemma ClusterOfAtMostOne(p: seq<Region>)
    requires |p| <= 1
    ensures ClusterHits(p) == {}
  {
    forall k | 0 <= k < |p|
      ensures !HasPartner(p, k)
    {
    }
  }

  /**
   * In a pending list in line order, the k-th box is masked by the pair loop
   * exactly when it has a partner.
   */
  lemma ClusterHitsMembership(p: seq<Region>, k: int)
    requires forall a, b :: 0 <= a < b < |p| ==> p[a].line < p[b].line
    requires 0 <= k < |p|
    ensures p[k] in ClusterHits(p) <==> HasPartner(p, k)
  {
    if p[k] in ClusterHits(p) {
      var m :| 0 <= m < |p| && HasPartner(p, m) && p[m] == p[k];
      assert m == k;
    }
  }

  /** How `process_image` ends: normally, or with a ValueError raised on line `line`. */
  datatype Outcome = Completed | ValueError(line: nat)

  /** The whole decision: how the call ends and which regions it has filled black. */
  datatype Run = Run(outcome: Outcome, masked: set<Region>)

  /** Lines 96-177 on the events of the detector lines. */
  ghost function Redact(events: seq<LineEvent>): Run {
    match ScanLines(events, |events|)
    case Raised(k, confirmed) => Run(ValueError(k), confirmed)
    case Running(confirmed, pending) => Run(Completed, confirmed + ClusterHits(pending))
  }

  /**
   * Some other line defers a box adjacent to region `r`, the tolerances taken
   * from whichever of the two comes first in the file.
   */
  ghost predicate HasDeferredNeighbour(events: seq<LineEvent>, r: Region) {
    exists j :: 0 <= j < |events| && j != r.line && events[j].Defer? &&
      if r.line < j then Neighbouring(r.box, events[j].q) else Neighbouring(events[j].q, r.box)
  }

  /** A pending box the pair loop masks has a deferred neighbour on another line. */
  lemma ClusterHitHasNeighbour(events: seq<LineEvent>, r: Region)
    requires ScanLines(events, |events|).Running?
    requires r in ClusterHits(ScanLines(events, |events|).pending)
    ensures r.line < |events| && events[r.line] == Defer(r.box) && HasDeferredNeighbour(events, r)
  {
    ScanLinesRunning(events, |events|);
    var p := ScanLines(events, |events|).pending;
    var k :| 0 <= k < |p| && HasPartner(p, k) && r == p[k];
    if j :| k < j < |p| && Neighbouring(p[k].box, p[j].box) {
      assert p[j].line != r.line && events[p[j].line].q == p[j].box;
    } else {
      var i :| 0 <= i < k && Neighbouring(p[i].box, p[k].box);
      assert p[i].line != r.line && events[p[i].line].q == p[i].box;
    }
  }

  /** A deferred box with a deferred neighbour on another line is masked by the pair loop. */
  lemma NeighbourIsClusterHit(events: seq<LineEvent>, r: Region)
    requires ScanLines(events, |events|).Running?
    requires r.line < |events| && events[r.line] == Defer(r.box) && HasDeferredNeighbour(events, r)
    ensures r in ClusterHits(ScanLines(events, |events|).pending)
  {
    ScanLinesRunning(events, |events|);
    var p := ScanLines(events, |events|).pending;
    var j :| 0 <= j < |events| && j != r.line && events[j].Defer? &&
      if r.line < j then Neighbouring(r.box, events[j].q) else Neighbouring(events[j].q, r.box);
    var other := Region(j, events[j].q);
    assert r in p && other in p;
    var k :| 0 <= k < |p| && p[k] == r;
    var m :| 0 <= m < |p| && p[m] == other;
    assert k != m;
    if r.line < j {
      assert k < m;
    } else {
      assert m < k;
    }
    assert HasPartner(p, k);
  }

  /**
   * The redaction decision of a call that completes: a box is filled black
   * exactly when its line confirms it, or when its line defers it and some
   * other deferred box is adjacent to it. Nothing else is filled.
   */
  lemma RedactionDecision(events: seq<LineEvent>, r: Region)
    requires Redact(events).outcome == Completed
    ensures r in Redact(events).masked <==>
              r.line < |events| &&
              (|| events[r.line] == Confirm(r.box)
               || (events[r.line] == Defer(r.box) && HasDeferredNeighbour(events, r)))
  {
    ScanLinesRunning(events, |events|);
    if r in ClusterHits(ScanLines(events, |events|).pending) {
      ClusterHitHasNeighbour(events, r);
    }
    if r.line < |events| && events[r.line] == Defer(r.box) && HasDeferredNeighbour(events, r) {
      NeighbourIsClusterHit(events, r);
    }
  }

  /** Line-level reading of an event: which box a line confirms or defers. */
  lemma DecideMeans(line: string, reading: Reading, q: Quad)
    ensures Decide(line, reading) == Confirm(q) <==>
              ParseLine(line) == Box(q) && ArCheck(AspectRatio(q)) &&
              Classify(Reconcile(reading.gray, reading.thresh)) == Confirmed
    ensures Decide(line, reading) == Defer(q) <==>
              ParseLine(line) == Box(q) && ArCheck(AspectRatio(q)) &&
              Classify(Reconcile(reading.gray, reading.thresh)) == Pending
    ensures Decide(line, reading) == Raise <==> ParseLine(line) == NotAnInteger
    ensures Decide(line, reading) == Skip <==>
              || ParseLine(line) == WrongFieldCount
              || (ParseLine(line).Box? && !ArCheck(AspectRatio(ParseLine(line).q)))
              || (ParseLine(line).Box? && Classify(Reconcile(reading.gray, reading.thresh)) == Rejected)
  {
  }

  /**
   * The redaction decision of a call that raises on line k: the first line
   * whose `int()` fails is k, and the only regions filled black are those
   * confirmed on the lines before it; the pair loop never runs.
   */
  lemma RedactionOnValueError(events: seq<LineEvent>, k: nat, r: Region)
    requires Redact(events).outcome == ValueError(k)
    ensures k < |events| && events[k] == Raise
    ensures forall i :: 0 <= i < k ==> events[i] != Raise
    ensures r in Redact(events).masked <==> r.line < k && events[r.line] == Confirm(r.box)
  {
    ScanLinesRaised(events, |events|);
    RunningMeansNoRaise(events, k);
    RunningConfirmed(events, k);
  }

  /** A box confirmed on its line is never also pending. */
  lemma ConfirmedNotPending(events: seq<LineEvent>, n: nat, r: Region)
    requires n <= |events|
    requires ScanLines(events, n).Running?
    ensures !(r in ScanLines(events, n).confirmed && r in ScanLines(events, n).pending)
  {
    RunningConfirmed(events, n);
    RunningPending(events, n);
  }

  /**
   * The image being redacted, reduced to what the decision needs: the
   * regions filled black so far.
   */
  class Image {
    var masked: set<Region>

    constructor ()
      ensures masked == {}
    {
      masked := {};
    }

    /** `mask_number`: fills the region black; filling it again changes nothing. */
    method MaskNumber(r: Region)
      modifies this
      ensures masked == old(masked) + {r}
      ensures r in old(masked) ==> masked == old(masked)
    {
      masked := masked + {r};
    }
  }

  /**
   * The body of the line loop of `process_image` (lines 100-163) on line i:
   * it masks a confirmed box at once and hands back a deferred one; `raised`
   * is the ValueError of `int()`.
   */
  method ReadDetectorLine(img: Image, lines: seq<string>, readings: seq<Reading>, i: nat)
      returns (raised: bool, deferred: Option<Quad>)
    requires |readings| == |lines| && i < |lines|
    modifies img
    ensures var event := Events(lines, readings)[i];
            && (raised <==> event == Raise)
            && (deferred.Some? <==> event.Defer?)
            && (deferred.Some? ==> event == Defer(deferred.value))
            && (event.Confirm? ==> img.masked == old(img.masked) + {Region(i, event.q)})
            && (!event.Confirm? ==> img.masked == old(img.masked))
  {
    EventAt(lines, readings, i);
    var line, reading := lines[i], readings[i];
    raised, deferred := false, None;
    var parsed := ParseLine(line);
    if parsed.WrongFieldCount? {
      return;
    }
    if parsed.NotAnInteger? {
      return true, None;
    }
    var points := parsed.q;
    if !ArCheck(AspectRatio(points)) {
      return;
    }
    var s := Reconcile(reading.gray, reading.thresh);
    var length := NumLength(s);
    if StrictDigitCount(s) < 2 {
      return;
    }
    if length == 8 || 11 <= length <= 13 {
      img.MaskNumber(Region(i, points));
    } else if 3 <= length < 12 {
      deferred := Some(points);
    }
  }

  /**
   * The line loop of `process_image` (lines 99-163): masks confirmed boxes at
   * once and collects pending ones in line order. A ValueError from `int()`
   * leaves the loop at once, with the masks made so far still on the image;
   * `raised` then names the line.
   */
  method ScanDetectorLines(img: Image, lines: seq<string>, readings: seq<Reading>)
      returns (raised: Option<nat>, pending: seq<Region>)
    requires |readings| == |lines|
    modifies img
    ensures var scan := ScanLines(Events(lines, readings), |lines|);
            && (raised.Some? <==> scan.Raised?)
            && (raised.Some? ==> raised.value == scan.line)
            && (scan.Running? ==> pending == scan.pending)
            && img.masked == old(img.masked) + scan.confirmed
  {
    ghost var events := Events(lines, readings);
    ghost var confirmed: set<Region> := {};
    pending := [];
    for i := 0 to |lines|
      invariant ScanLines(events, i) == Running(confirmed, pending)
      invariant img.masked == old(img.masked) + confirmed
    {
      var raisedHere, deferred := ReadDetectorLine(img, lines, readings, i);
      if raisedHere {
        RaisedIsFinal(events, i + 1, |lines|);
        return Some(i), pending;
      }
      if deferred.Some? {
        pending := pending + [Region(i, deferred.value)];
      }
      if events[i].Confirm? {
        confirmed := confirmed + {Region(i, events[i].q)};
      }
    }
    raised := None;
  }

  /**
   * One row of the pair loop (lines 174-177): the index-th pending box is
   * tested against every later one, and both boxes of an adjacent pair are
   * masked.
   */
  method MaskPartnersOf(img: Image, pending: seq<Region>, index: nat)
    requires index < |pending|
    modifies img
    ensures img.masked == old(img.masked) + RowHits(pending, index, |pending|)
  {
    var j := index + 1;
    while j < |pending|
      invariant index + 1 <= j <= |pending|
      invariant img.masked == old(img.masked) + RowHits(pending, index, j)
    {
      if Neighbouring(pending[index].box, pending[j].box) {
        img.MaskNumber(pending[index]);
        img.MaskNumber(pending[j]);
      }
      j := j + 1;
    }
  }

  /**
   * The pair loop of `process_image` (lines 171-177): every pair of pending
   * boxes, earlier one first, is tested with `neighbouring_boxes` and both
   * boxes of an adjacent pair are masked. A list of one box is left alone.
   */
  method MaskAdjacentPending(img: Image, pending: seq<Region>)
    modifies img
    ensures img.masked == old(img.masked) + ClusterHits(pending)
  {
    var index := 0;
    while index < |pending|
      invariant 0 <= index <= |pending|
      invariant img.masked == old(img.masked) + LoopHits(pending, index)
    {
      if |pending| == 1 {
        break;
      }
      MaskPartnersOf(img, pending, index);
      index := index + 1;
    }
    if |pending| <= 1 {
      ClusterOfAtMostOne(pending);
    } else {
      LoopHitsAreClusterHits(pending);
    }
  }

  /**
   * `process_image` after the detector file is opened: the line loop, then,
   * unless it raised, the pair loop over the pending list.
   */
  method ProcessImage(img: Image, lines: seq<string>, readings: seq<Reading>) returns (outcome: Outcome)
    requires |readings| == |lines|
    modifies img
    ensures outcome == Redact(Events(lines, readings)).outcome
    ensures img.masked == old(img.masked) + Redact(Events(lines, readings)).masked
  {
    var raised, pending := ScanDetectorLines(img, lines, readings);
    if raised.Some? {
      return ValueError(raised.value);
    }
    MaskAdjacentPending(img, pending);
    outcome := Completed;
  }
}
