/**
  The detection list of one request: how many results are kept, how their boxes
  are scaled from the model's input to the client's image, how they are numbered.
  The two scale factors are exact rationals here.
 */
module Detections {
  import opened CStrings

  const MAX_DETECTIONS: nat := 128
  const LABEL_SIZE: nat := 64

  datatype Box = Box(left: nat, top: nat, right: nat, bottom: nat)

  /** One result of the post-processing, in coordinates of the model input. */
  datatype Raw = Raw(classId: nat, name: string, score: real, box: Box)

  datatype Detection = Detection(classId: nat, name: string, score: real, box: Box)

  /** The same detection in a response, numbered from one. */
  datatype Numbered = Numbered(sequenceNumber: nat, detection: Detection)

  datatype Options = Options(score: real, nms: real, maxDetections: nat)

  /** The sizes a request's boxes are scaled between. */
  datatype Frame = Frame(cols: nat, rows: nat, modelWidth: nat, modelHeight: nat) {
    predicate Ok() {
      modelWidth > 0 && modelHeight > 0
    }
  }

  function Limit(requested: nat): nat {
    var limit := if requested > 0 then requested else MAX_DETECTIONS;
    if limit < MAX_DETECTIONS then limit else MAX_DETECTIONS
  }

  /** One coordinate times `extent / model`, truncated to whole pixels. */
  function Edge(x: nat, extent: nat, model: nat): nat
    requires model > 0
  {
    x * extent / model
  }

  function ScaledBox(box: Box, frame: Frame): Box
    requires frame.Ok()
  {
    Box(Edge(box.left, frame.cols, frame.modelWidth), Edge(box.top, frame.rows, frame.modelHeight),
        Edge(box.right, frame.cols, frame.modelWidth), Edge(box.bottom, frame.rows, frame.modelHeight))
  }

  function Scaled(raw: Raw, frame: Frame): Detection
    requires frame.Ok()
  {
    Detection(raw.classId, Printed(raw.name, LABEL_SIZE), raw.score, ScaledBox(raw.box, frame))
  }

  /** A whole number of pixels, rounded down. */
  ghost predicate IsFloor(q: nat, n: nat, d: nat) {
    q * d <= n < q * d + d
  }

  /**
    The detection list law, in plain words: the first results, as many as there are, as are asked for, and no
    more than 128, with their class, score, the first 63 characters of their name, and their edges scaled
    and rounded down.
   */
  ghost predicate ListsFirst(report: seq<Detection>, raws: seq<Raw>, requested: nat, frame: Frame) {
    && |report| <= |raws| && |report| <= 128 && (requested > 0 ==> |report| <= requested)
    && (|report| < |raws| ==> |report| == 128 || (requested > 0 && |report| == requested))
    && forall i | 0 <= i < |report| :: Describes(report[i], raws[i], frame)
  }

  ghost predicate Describes(d: Detection, raw: Raw, frame: Frame) {
    && d.classId == raw.classId && d.score == raw.score
    && d.name <= raw.name && |d.name| == (if |raw.name| <= 63 then |raw.name| else 63)
    && IsFloor(d.box.left, raw.box.left * frame.cols, frame.modelWidth)
    && IsFloor(d.box.top, raw.box.top * frame.rows, frame.modelHeight)
    && IsFloor(d.box.right, raw.box.right * frame.cols, frame.modelWidth)
    && IsFloor(d.box.bottom, raw.box.bottom * frame.rows, frame.modelHeight)
  }

  /** The list a request is answered with. */
  function Report(raws: seq<Raw>, requested: nat, frame: Frame): seq<Detection>
    requires frame.Ok()
  {
    var kept := if |raws| < Limit(requested) then |raws| else Limit(requested);
    seq(kept, i requires 0 <= i < kept => Scaled(raws[i], frame))
  }

  lemma {:induction false} ScaledDescribes(raw: Raw, frame: Frame)
    requires frame.Ok()
    ensures Describes(Scaled(raw, frame), raw, frame)
  {
    QuotientBounds(raw.box.left * frame.cols, frame.modelWidth);
    QuotientBounds(raw.box.top * frame.rows, frame.modelHeight);
    QuotientBounds(raw.box.right * frame.cols, frame.modelWidth);
    QuotientBounds(raw.box.bottom * frame.rows, frame.modelHeight);
  }

  lemma {:induction false} ReportListsFirst(raws: seq<Raw>, requested: nat, frame: Frame)
    requires frame.Ok()
    ensures ListsFirst(Report(raws, requested, frame), raws, requested, frame)
  {
    var report := Report(raws, requested, frame);
    forall i | 0 <= i < |report| ensures Describes(report[i], raws[i], frame) {
      ScaledDescribes(raws[i], frame);
    }
  }

  /** The copy loop of the engine: stops at the end of the results or at the limit. */
  method CopyDetections(raws: seq<Raw>, requested: nat, frame: Frame) returns (report: seq<Detection>)
    requires frame.Ok()
    ensures report == Report(raws, requested, frame)
    ensures ListsFirst(report, raws, requested, frame)
  {
    var maxDetections := if requested > 0 then requested else MAX_DETECTIONS;
    maxDetections := if maxDetections < MAX_DETECTIONS then maxDetections else MAX_DETECTIONS;
    report := [];
    var index := 0;
    while index < |raws| && |report| < maxDetections
      invariant 0 <= index == |report| <= |raws|
      invariant |report| <= maxDetections
      invariant forall i | 0 <= i < index :: report[i] == Scaled(raws[i], frame)
    {
      var source := raws[index];
      var box := ScaledBox(source.box, frame);
      report := report + [Detection(source.classId, Printed(source.name, LABEL_SIZE), source.score, box)];
      index := index + 1;
    }
    ReportListsFirst(raws, requested, frame);
  }

  /** The response loop: the detections in order, numbered 1, 2, 3 and so on. */
  method NumberDetections(report: seq<Detection>) returns (numbered: seq<Numbered>)
    ensures |numbered| == |report|
    ensures forall i | 0 <= i < |report| :: numbered[i] == Numbered(i + 1, report[i])
  {
    numbered := [];
    var index := 0;
    while index < |report|
      invariant 0 <= index == |numbered| <= |report|
      invariant forall i | 0 <= i < index :: numbered[i] == Numbered(i + 1, report[i])
    {
      numbered := numbered + [Numbered(index + 1, report[index])];
      index := index + 1;
    }
  }

  // ---------------------------------------------------------------------
  // Scaling keeps the geometry
  // ---------------------------------------------------------------------

  lemma {:induction false} QuotientBounds(n: nat, d: nat)
    requires d > 0
    ensures n / d * d <= n < n / d * d + d
  {
  }

  lemma {:induction false} Gap(p: nat, q: nat, d: nat)
    requires p > q
    ensures p * d >= q * d + d
  {
    Distribute(p, q, d);
    ProductIsMonotone(1, p - q, d);
  }

  lemma {:induction false} QuotientsAreOrdered(a: nat, p: nat, b: nat, q: nat, d: nat)
    requires p * d <= a <= b < q * d + d
    ensures p <= q
  {
    if p > q {
      Gap(p, q, d);
    }
  }

  lemma {:induction false} Distribute(a: int, b: int, c: int)
    ensures (a - b) * c == a * c - b * c
  {
  }

  lemma {:induction false} ProductIsMonotone(x: nat, y: nat, c: nat)
    requires x <= y
    ensures x * c <= y * c
  {
    Distribute(y, x, c);
    assert (y - x) * c >= 0;
  }

  /**
    Two edges keep their order and stay inside the image, and their distance differs from
    the exact distance by less than one pixel (stated multiplied by the model's size).
   */
  lemma {:induction false} EdgeLaw(x: nat, y: nat, extent: nat, model: nat)
    requires x <= y <= model && model > 0
    ensures Edge(x, extent, model) <= Edge(y, extent, model) <= extent
    ensures
      var error := (Edge(y, extent, model) - Edge(x, extent, model)) * model - (y - x) * extent;
      -(model as int) < error < model
  {
    var a, b := Edge(x, extent, model), Edge(y, extent, model);
    ProductIsMonotone(x, y, extent);
    ProductIsMonotone(y, model, extent);
    QuotientBounds(x * extent, model);
    QuotientBounds(y * extent, model);
    QuotientsAreOrdered(x * extent, a, y * extent, b, model);
    QuotientsAreOrdered(y * extent, b, model * extent, extent, model);
    Distribute(b, a, model);
    Distribute(y, x, extent);
  }

  predicate InsideModel(box: Box, frame: Frame) {
    box.left <= box.right <= frame.modelWidth && box.top <= box.bottom <= frame.modelHeight
  }

  predicate InsideImage(box: Box, frame: Frame) {
    box.left <= box.right <= frame.cols && box.top <= box.bottom <= frame.rows
  }

  predicate Contains(outer: Box, inner: Box) {
    && outer.left <= inner.left && inner.right <= outer.right
    && outer.top <= inner.top && inner.bottom <= outer.bottom
  }

  predicate SizeWithinOnePixel(box: Box, scaled: Box, frame: Frame) {
    && -(frame.modelWidth as int)
       < (scaled.right - scaled.left) * frame.modelWidth - (box.right - box.left) * frame.cols
       < frame.modelWidth
    && -(frame.modelHeight as int)
       < (scaled.bottom - scaled.top) * frame.modelHeight - (box.bottom - box.top) * frame.rows
       < frame.modelHeight
  }

  /** A box of the model lands ordered inside the image, less than a pixel off its exact size. */
  lemma {:induction false} ScaledBoxFits(box: Box, frame: Frame)
    requires frame.Ok() && InsideModel(box, frame)
    ensures InsideImage(ScaledBox(box, frame), frame)
    ensures SizeWithinOnePixel(box, ScaledBox(box, frame), frame)
  {
    EdgeLaw(box.left, box.right, frame.cols, frame.modelWidth);
    EdgeLaw(box.top, box.bottom, frame.rows, frame.modelHeight);
  }

  lemma {:induction false} ScalingKeepsContainment(outer: Box, inner: Box, frame: Frame)
    requires frame.Ok() && InsideModel(outer, frame) && InsideModel(inner, frame) && Contains(outer, inner)
    ensures Contains(ScaledBox(outer, frame), ScaledBox(inner, frame))
  {
    EdgeLaw(outer.left, inner.left, frame.cols, frame.modelWidth);
    EdgeLaw(inner.right, outer.right, frame.cols, frame.modelWidth);
    EdgeLaw(outer.top, inner.top, frame.rows, frame.modelHeight);
    EdgeLaw(inner.bottom, outer.bottom, frame.rows, frame.modelHeight);
  }
}
