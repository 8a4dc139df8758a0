/** The records exchanged between the analysis stages (Models.swift), with UUIDs replaced by
    integer indices, and the inputs that stand in for the platform's video and vision calls. */
module Models {
  import opened Wrappers
  import opened Numeric
  import opened Geometry

  /** SpeakerProfile.TimeSegment: one diarized stretch of a speaker, in seconds. */
  datatype TimeSegment = TimeSegment(start: real, end: real)

  datatype SpeakerProfile = SpeakerProfile(
    speakerID: int,
    faceID: Option<nat>,
    segments: seq<TimeSegment>,
    embedding: Option<seq<real>>)

  /** FaceProfile.TimeRange: one tracked sample of a face. */
  datatype TimeRange = TimeRange(timestamp: real, boundingBox: Box, isSpeaking: bool, mouthOpenness: real)

  datatype FaceProfile = FaceProfile(
    trackID: nat,
    timeRanges: seq<TimeRange>,
    avgPosition: Point,
    mouthOpennessHistory: seq<real>,
    avgMouthOpenness: real)

  /** CombinedAnalysisResult.MatchedSpeaker, the published result. */
  datatype MatchedSpeaker = MatchedSpeaker(
    speakerID: int,
    faceID: Option<nat>,
    position: Option<Point>,
    segments: seq<TimeSegment>,
    isCurrentlySpeaking: bool)

  /** SpeechAnalyzer.RecognizedUtterance. */
  datatype Utterance = Utterance(text: string, startTime: real, endTime: real)

  /** An utterance paired with the speaker whose segments overlap it most. */
  datatype MatchedUtterance = MatchedUtterance(utterance: Utterance, speakerID: int)

  /** One VNFaceObservation: its bounding box and, when the landmark detector found them,
      the normalised points of the inner and outer lip contours. */
  datatype Detection = Detection(box: Box, innerLips: Option<seq<Point>>, outerLips: Option<seq<Point>>)

  /** What fetching the frame at a time and running the landmark request on it gives:
      observations, nothing usable (no image, or no results), or a thrown error. */
  datatype Grab = Observed(detections: seq<Detection>) | Skipped | Failed(error: Error)

  /** The video seen through the frame generator and the landmark detector. */
  type FrameSource = real -> Grab

  /** Number of ticks per second of the CMTime values the source builds. */
  const Timescale: real := 600.0

  /** `CMTime(seconds: s, preferredTimescale: 600).seconds`: `s` rounded, half away from zero,
      to a whole number of ticks. */
  function MediaTime(s: real): real
  {
    if s >= 0.0 then ((s * Timescale + 0.5).Floor as real) / Timescale
    else -(((-s) * Timescale + 0.5).Floor as real) / Timescale
  }

  lemma MediaTimeMonotone(s1: real, s2: real)
    requires 0.0 <= s1 <= s2
    ensures 0.0 <= MediaTime(s1) <= MediaTime(s2)
  {
    var f1 := (s1 * Timescale + 0.5).Floor;
    var f2 := (s2 * Timescale + 0.5).Floor;
    assert f1 <= f2;
    assert f1 >= 0;
  }

  /** Largest y among `ps` (`max(by:)?.y ?? 0`); 0 when there is no point. */
  function HighestY(ps: seq<Point>): (m: real)
    ensures forall i | 0 <= i < |ps| :: ps[i].y <= m
    ensures |ps| > 0 ==> exists i | 0 <= i < |ps| :: ps[i].y == m
    ensures |ps| == 0 ==> m == 0.0
  {
    if |ps| <= 1 then (if |ps| == 0 then 0.0 else ps[0].y)
    else Max(HighestY(ps[..|ps| - 1]), ps[|ps| - 1].y)
  }

  /** Smallest y among `ps` (`min(by:)?.y ?? 0`); 0 when there is no point. */
  function LowestY(ps: seq<Point>): (m: real)
    ensures forall i | 0 <= i < |ps| :: m <= ps[i].y
    ensures |ps| > 0 ==> exists i | 0 <= i < |ps| :: ps[i].y == m
    ensures |ps| == 0 ==> m == 0.0
  {
    if |ps| <= 1 then (if |ps| == 0 then 0.0 else ps[0].y)
    else Min(LowestY(ps[..|ps| - 1]), ps[|ps| - 1].y)
  }

  /** Vertical extent of a lip contour. */
  function VerticalSpan(ps: seq<Point>): (r: real)
    ensures r >= 0.0
    ensures forall i, j | 0 <= i < |ps| && 0 <= j < |ps| :: ps[i].y - ps[j].y <= r
    ensures |ps| > 0 ==> exists i, j | 0 <= i < |ps| && 0 <= j < |ps| :: ps[i].y - ps[j].y == r
  {
    if |ps| == 0 then 0.0 - 0.0 else HighestY(ps) - LowestY(ps)
  }

  /** Mouth openness of a detection: the larger vertical lip span, scaled by the box height;
      0 unless both lip contours were found. */
  function MouthOpenness(d: Detection): (o: real)
    ensures o >= 0.0
    ensures d.innerLips.None? || d.outerLips.None? ==> o == 0.0
    ensures d.innerLips.Some? && d.outerLips.Some? ==>
      o >= VerticalSpan(d.innerLips.value) * d.box.height &&
      o >= VerticalSpan(d.outerLips.value) * d.box.height
    ensures d.innerLips.Some? && d.outerLips.Some? ==>
      o == VerticalSpan(d.innerLips.value) * d.box.height || o == VerticalSpan(d.outerLips.value) * d.box.height
  {
    if d.innerLips.Some? && d.outerLips.Some? then
      LargerSpan(VerticalSpan(d.innerLips.value), VerticalSpan(d.outerLips.value), d.box.height)
    else 0.0
  }

  function LargerSpan(si: real, so: real, h: real): (o: real)
    requires si >= 0.0 && so >= 0.0 && h > 0.0
    ensures o >= si * h && o >= so * h && o >= 0.0
    ensures o == si * h || o == so * h
  {
    MulMonotone(si, h, Max(si, so), h);
    MulMonotone(so, h, Max(si, so), h);
    MulMonotone(0.0, h, si, h);
    Max(si, so) * h
  }
}
