/** What components/WebcamFeed.tsx does with the detector's results: the face
    records it publishes to the store, the boxes and labels it draws over the
    video or the uploaded image, and the face cards rendered from the store. */
module Detection {
  import opened Wrappers
  import opened Geometry
  import Emotion
  import Label
  import FaceSlice

  /** One detector result: box in source pixels, unrounded age, gender label
      and the expression record. */
  datatype Detection = Detection(
    box: Box, age: real, gender: string, expressions: seq<Emotion.Expression>)

  /** `Math.round`: the nearest integer, halves rounding up. */
  function Round(r: real): (n: int)
    ensures r - 0.5 < n as real <= r + 0.5
  {
    (r + 0.5).Floor
  }

  // ---------------------------------------------------------------------
  // Publishing results to the face slice

  function ToFaceInfo(d: Detection): FaceSlice.FaceInfo {
    FaceSlice.FaceInfo(Round(d.age), d.gender, d.expressions)
  }

  /** `results.map(...)`: one face record per result, in result order. */
  function ToFaces(results: seq<Detection>): seq<FaceSlice.FaceInfo> {
    seq(|results|, i requires 0 <= i < |results| => ToFaceInfo(results[i]))
  }

  /** The action dispatched after a detection pass: clear on no results,
      otherwise set the mapped list. */
  function PublishAction(results: seq<Detection>): FaceSlice.FaceAction {
    if |results| == 0 then FaceSlice.ClearFaces else FaceSlice.SetFaces(ToFaces(results))
  }

  /** After publishing, the face list holds one record per result, in order,
      keeping gender and expressions and rounding the age to the nearest
      integer; no results leave it empty. */
  lemma PublishedFaces(s: FaceSlice.FaceState, results: seq<Detection>)
    ensures var faces := FaceSlice.Reduce(s, PublishAction(results)).faces;
            |faces| == |results| &&
            forall i :: 0 <= i < |results| ==>
              faces[i].gender == results[i].gender &&
              faces[i].expressions == results[i].expressions &&
              faces[i].age == Round(results[i].age) &&
              results[i].age - 0.5 < faces[i].age as real <= results[i].age + 0.5
  {
  }

  /** The empty-versus-non-empty rule makes no observable difference:
      publishing is always setting the mapped list. */
  lemma PublishIsSetFaces(s: FaceSlice.FaceState, results: seq<Detection>)
    ensures FaceSlice.Reduce(s, PublishAction(results))
         == FaceSlice.Reduce(s, FaceSlice.SetFaces(ToFaces(results)))
  {
    if |results| == 0 {
      FaceSlice.SetEmptyIsClear(s);
    }
  }

  // ---------------------------------------------------------------------
  // Boxes and labels drawn on the canvas

  /** The label of one result; None where picking the dominant emotion throws. */
  function FaceLabel(d: Detection): (r: Option<string>)
    ensures r.None? <==> d.expressions == []
  {
    match Emotion.DominantEmotion(d.expressions)
    case None => None
    case Some(e) => Some(Label.Label(d.gender, Round(d.age), e))
  }

  /** A label names the result's gender, rounded age and first-maximum emotion. */
  lemma FaceLabelParts(d: Detection)
    requires d.expressions != [] && ',' !in d.gender
    ensures exists k :: Emotion.IsFirstMax(d.expressions, k) &&
              FaceLabel(d).Some? &&
              Label.ParseLabel(FaceLabel(d).value)
                == Some(Label.LabelParts(d.gender, Round(d.age), d.expressions[k].emotion))
  {
    Emotion.DominantEmotionIsFirstMax(d.expressions);
    var e := Emotion.DominantEmotion(d.expressions).value;
    Label.LabelRoundTrip(d.gender, Round(d.age), e);
  }

  /** Where results are drawn: mirrored over the video, or letterboxed over an image. */
  datatype Transform = Mirror(canvasWidth: real) | Letterboxed(placement: Placement)

  function Place(t: Transform, b: Box): Box {
    match t
    case Mirror(w) => Flip(w, b)
    case Letterboxed(p) => ScaleBox(p, b)
  }

  /** A box drawn on the canvas and the label drawn above it, if any. */
  datatype Overlay = Overlay(box: Box, caption: Option<string>)

  function OverlayOf(t: Transform, d: Detection): Overlay {
    Overlay(Place(t, d.box), FaceLabel(d))
  }

  /** The number of leading results whose label can be built (see FaceLabel). */
  function LabelledPrefix(results: seq<Detection>): (k: nat)
    ensures k <= |results|
    ensures forall i :: 0 <= i < k ==> results[i].expressions != []
    ensures k < |results| ==> results[k].expressions == []
  {
    if results == [] || results[0].expressions == [] then 0
    else 1 + LabelledPrefix(results[1..])
  }

  /** How many boxes one `forEach` pass draws: a result whose label throws
      still has its box drawn, and nothing after it is drawn. */
  function DrawnCount(results: seq<Detection>): nat {
    var k := LabelledPrefix(results);
    if k < |results| then k + 1 else k
  }

  /** What one drawing pass puts on the canvas, in result order. */
  function Overlays(t: Transform, results: seq<Detection>): (r: seq<Overlay>)
    ensures |r| <= |results|
  {
    seq(DrawnCount(results), i requires 0 <= i < DrawnCount(results) && i < |results|
                               => OverlayOf(t, results[i]))
  }

  lemma OverlaysAt(t: Transform, results: seq<Detection>, i: nat)
    requires i <= LabelledPrefix(results) && i < |results|
    ensures |Overlays(t, results)| == DrawnCount(results) > i
    ensures Overlays(t, results)[i] == OverlayOf(t, results[i])
    ensures OverlayOf(t, results[i]).caption.None? ==> |Overlays(t, results)| == i + 1
    ensures OverlayOf(t, results[i]).caption.Some? ==> i + 1 <= LabelledPrefix(results)
  {
  }

  /** When every result has expressions, every result is drawn with its label. */
  lemma OverlaysComplete(t: Transform, results: seq<Detection>)
    requires forall i :: 0 <= i < |results| ==> results[i].expressions != []
    ensures var r := Overlays(t, results);
            |r| == |results| &&
            forall i :: 0 <= i < |results| ==>
              r[i].box == Place(t, results[i].box) && r[i].caption.Some?
  {
    assert LabelledPrefix(results) == |results|;
  }

  /** Over the mirrored video, boxes inside the frame are drawn inside the canvas. */
  lemma MirroredOverlaysInside(w: real, results: seq<Detection>)
    requires forall i :: 0 <= i < |results| ==> InsideWidth(results[i].box, w)
    ensures forall o :: o in Overlays(Mirror(w), results) ==> InsideWidth(o.box, w)
  {
    var r := Overlays(Mirror(w), results);
    forall o | o in r ensures InsideWidth(o.box, w) {
      var i :| 0 <= i < |r| && r[i] == o;
      FlipInside(w, results[i].box);
    }
  }

  /** Over a letterboxed image, boxes inside the image are drawn inside the
      drawn image rectangle. */
  lemma LetterboxedOverlaysInside(naturalW: real, naturalH: real, maxW: real, results: seq<Detection>)
    requires naturalW > 0.0 && naturalH > 0.0 && maxW >= 0.0
    requires forall i :: 0 <= i < |results| ==>
               InsideRect(results[i].box, 0.0, 0.0, naturalW, naturalH)
    ensures var p := Letterbox(naturalW, naturalH, maxW);
            forall o :: o in Overlays(Letterboxed(p), results) ==>
              InsideRect(o.box, p.offsetX, p.offsetY, p.drawWidth, p.drawHeight)
  {
    var p := Letterbox(naturalW, naturalH, maxW);
    var r := Overlays(Letterboxed(p), results);
    forall o | o in r ensures InsideRect(o.box, p.offsetX, p.offsetY, p.drawWidth, p.drawHeight) {
      var i :| 0 <= i < |r| && r[i] == o;
      ScaleBoxInside(naturalW, naturalH, maxW, results[i].box);
    }
  }

  // ---------------------------------------------------------------------
  // Face cards rendered from the store

  /** One rendered card. */
  datatype Card = Card(index: nat, age: int, gender: string, emotion: string)

  /** `faces.map((face, i) => <FaceCard .../>)`; None when some face has an
      empty expression record, where picking its emotion throws and nothing
      is rendered. */
  function Cards(faces: seq<FaceSlice.FaceInfo>): (r: Option<seq<Card>>)
    ensures r.Some? <==> forall i :: 0 <= i < |faces| ==> faces[i].expressions != []
    ensures r.Some? ==> |r.value| == |faces|
  {
    if forall i :: 0 <= i < |faces| ==> faces[i].expressions != [] then
      Some(seq(|faces|, i requires 0 <= i < |faces| =>
        Card(i, faces[i].age, faces[i].gender,
             Emotion.DominantEmotion(faces[i].expressions).value)))
    else None
  }

  /** After a detection pass there is one card per result, in order, showing its
      rounded age, its gender and the emotion of its first maximum entry. */
  lemma CardsAfterPublish(s: FaceSlice.FaceState, results: seq<Detection>)
    requires forall i :: 0 <= i < |results| ==> results[i].expressions != []
    ensures Cards(FaceSlice.Reduce(s, PublishAction(results)).faces).Some?
    ensures var cards := Cards(FaceSlice.Reduce(s, PublishAction(results)).faces).value;
            |cards| == |results| &&
            forall i :: 0 <= i < |results| ==>
              cards[i].index == i && cards[i].age == Round(results[i].age) &&
              cards[i].gender == results[i].gender &&
              exists k :: Emotion.IsFirstMax(results[i].expressions, k) &&
                cards[i].emotion == results[i].expressions[k].emotion
  {
    PublishedFaces(s, results);
    forall i | 0 <= i < |results|
      ensures exists k :: Emotion.IsFirstMax(results[i].expressions, k) &&
                Emotion.DominantEmotion(results[i].expressions) == Some(results[i].expressions[k].emotion)
    {
      Emotion.DominantEmotionIsFirstMax(results[i].expressions);
    }
  }
}
