/** The evidence `matchFacesToSpeakersUsingUtterances` weighs besides the votes: the coarse
    face-speaker affinity built from diarized segments and tracked samples, the nearest-sample
    lookup, and `calculateSpatialConsistency`. */
module Affinity {
  import opened Wrappers
  import opened Numeric
  import opened Geometry
  import opened Models

  // ---------------------------------------------------------------- coarse segment affinity

  /** The weight of a sample at time `t` inside a segment: 1 at the midpoint, falling linearly to
      1/2 at the ends. A zero-length segment weighs 0: there `min(1, 0/0)` is 1 in Swift. */
  function TimeWeight(t: real, seg: TimeSegment): (w: real)
    requires seg.start <= t <= seg.end
    ensures 0.0 <= w <= 1.0
    ensures seg.start < seg.end ==> 0.5 <= w
    ensures seg.start == seg.end ==> w == 0.0
    ensures seg.start < seg.end && (t == seg.start || t == seg.end) ==> w == 0.5
  {
    var duration := seg.end - seg.start;
    if duration == 0.0 then 0.0
    else
      var offset := Abs(t - (seg.start + seg.end) / 2.0);
      assert offset <= duration / 2.0;
      assert t == seg.start || t == seg.end ==> offset == duration / 2.0;
      HalfAtMost(offset, duration);
      1.0 - Min(1.0, offset / duration)
  }

  /** A distance from the midpoint, relative to the segment length, is at most a half, and is
      a half exactly at the ends. */
  lemma HalfAtMost(n: real, d: real)
    requires d > 0.0 && 0.0 <= n <= d / 2.0
    ensures 0.0 <= n / d <= 0.5
    ensures n == d / 2.0 ==> n / d == 0.5
  {
    var q := n / d;
    assert q * d == n;
    assert (q - 0.5) * d == n - d / 2.0;
    assert q * d >= 0.0;
  }

  lemma MulMonotoneDivision(n: real, d: real)
    requires n >= 0.0 && d > 0.0
    ensures n / d >= 0.0
  {
  }

  /** A sample counts toward a segment when it lies inside it, bounds included, and is speaking. */
  predicate Contributes(r: TimeRange, seg: TimeSegment)
  {
    seg.start <= r.timestamp <= seg.end && r.isSpeaking
  }

  /** What one sample adds to a segment score: its openness weighted by `TimeWeight` when it
      contributes, else nothing. */
  function SampleScore(r: TimeRange, seg: TimeSegment): (v: real)
    ensures !Contributes(r, seg) ==> v == 0.0
    ensures Contributes(r, seg) && r.mouthOpenness >= 0.0 ==> 0.0 <= v <= r.mouthOpenness
    ensures Contributes(r, seg) && r.mouthOpenness >= 0.0 && seg.start < seg.end ==> 0.5 * r.mouthOpenness <= v
    ensures seg.start == seg.end ==> v == 0.0
  {
    if Contributes(r, seg) then
      var w := TimeWeight(r.timestamp, seg);
      assert r.mouthOpenness >= 0.0 ==> 0.0 <= r.mouthOpenness * w <= r.mouthOpenness by {
        if r.mouthOpenness >= 0.0 {
          WeightedBounds(r.mouthOpenness, w, seg.start < seg.end);
        }
      }
      assert r.mouthOpenness >= 0.0 && seg.start < seg.end ==> 0.5 * r.mouthOpenness <= r.mouthOpenness * w by {
        if r.mouthOpenness >= 0.0 {
          WeightedBounds(r.mouthOpenness, w, seg.start < seg.end);
        }
      }
      r.mouthOpenness * w
    else 0.0
  }

  /** The segment score of one face for one segment: the openness of its contributing samples,
      each weighted by `TimeWeight`. */
  function SegmentScore(samples: seq<TimeRange>, seg: TimeSegment): real
  {
    if |samples| == 0 then 0.0
    else
      var n := |samples| - 1;
      SegmentScore(samples[..n], seg) + SampleScore(samples[n], seg)
  }

  /** Unweighted total openness of the contributing samples. */
  function SpeakingOpenness(samples: seq<TimeRange>, seg: TimeSegment): real
  {
    if |samples| == 0 then 0.0
    else
      var n := |samples| - 1;
      SpeakingOpenness(samples[..n], seg) + (if Contributes(samples[n], seg) then samples[n].mouthOpenness else 0.0)
  }

  ghost predicate OpenMouths(samples: seq<TimeRange>)
  {
    forall i | 0 <= i < |samples| :: samples[i].mouthOpenness >= 0.0
  }

  /** The segment score lies between half and all of the contributing openness (all of it for a
      zero-length segment, which scores 0); samples outside the segment or not speaking add nothing. */
  lemma {:induction false} SegmentScoreBounds(samples: seq<TimeRange>, seg: TimeSegment)
    requires OpenMouths(samples)
    ensures 0.0 <= SegmentScore(samples, seg) <= SpeakingOpenness(samples, seg)
    ensures seg.start < seg.end ==> 0.5 * SpeakingOpenness(samples, seg) <= SegmentScore(samples, seg)
    ensures seg.start == seg.end ==> SegmentScore(samples, seg) == 0.0
  {
    if |samples| > 0 {
      var n := |samples| - 1;
      var r := samples[n];
      assert OpenMouths(samples[..n]) by {
        forall i | 0 <= i < n ensures samples[..n][i].mouthOpenness >= 0.0 {
          assert samples[..n][i] == samples[i];
        }
      }
      SegmentScoreBounds(samples[..n], seg);
      assert r.mouthOpenness >= 0.0;
    }
  }

  lemma WeightedBounds(o: real, w: real, atLeastHalf: bool)
    requires o >= 0.0 && 0.0 <= w <= 1.0
    requires atLeastHalf ==> 0.5 <= w
    ensures 0.0 <= o * w <= o
    ensures atLeastHalf ==> 0.5 * o <= o * w
  {
    MulMonotone(o, w, o, 1.0);
    MulMonotone(0.0, 0.0, o, w);
    if atLeastHalf {
      MulMonotone(o, 0.5, o, w);
    }
  }

  /** Affinity tables are keyed by (face track id, speaker id); a missing entry reads as 0. */
  type AffinityTable = map<(nat, int), real>

  function Lookup(table: AffinityTable, faceID: nat, speakerID: int): real
  {
    if (faceID, speakerID) in table then table[(faceID, speakerID)] else 0.0
  }

  /** What one segment adds to face `faceID`: the scores of the profiles with that track id. */
  function FaceSum(faces: seq<FaceProfile>, seg: TimeSegment, faceID: nat): real
  {
    if |faces| == 0 then 0.0
    else
      var n := |faces| - 1;
      FaceSum(faces[..n], seg, faceID) + (if faces[n].trackID == faceID then SegmentScore(faces[n].timeRanges, seg) else 0.0)
  }

  /** What a list of segments adds to face `faceID`. */
  function SegmentsSum(segs: seq<TimeSegment>, faces: seq<FaceProfile>, faceID: nat): real
  {
    if |segs| == 0 then 0.0
    else
      var n := |segs| - 1;
      SegmentsSum(segs[..n], faces, faceID) + FaceSum(faces, segs[n], faceID)
  }

  /** The coarse affinity of a face and a speaker: the segment scores of the face summed over all
      segments of every profile carrying that speaker id. */
  function CoarseAffinity(speakers: seq<SpeakerProfile>, faces: seq<FaceProfile>, faceID: nat, speakerID: int): real
  {
    if |speakers| == 0 then 0.0
    else
      var n := |speakers| - 1;
      CoarseAffinity(speakers[..n], faces, faceID, speakerID) +
        (if speakers[n].speakerID == speakerID then SegmentsSum(speakers[n].segments, faces, faceID) else 0.0)
  }

  ghost predicate AllOpenMouths(faces: seq<FaceProfile>)
  {
    forall i | 0 <= i < |faces| :: OpenMouths(faces[i].timeRanges)
  }

  lemma {:induction false} FaceSumNonNegative(faces: seq<FaceProfile>, seg: TimeSegment, faceID: nat)
    requires AllOpenMouths(faces)
    ensures FaceSum(faces, seg, faceID) >= 0.0
  {
    if |faces| > 0 {
      var n := |faces| - 1;
      FaceSumNonNegative(faces[..n], seg, faceID);
      SegmentScoreBounds(faces[n].timeRanges, seg);
    }
  }

  lemma {:induction false} SegmentsSumNonNegative(segs: seq<TimeSegment>, faces: seq<FaceProfile>, faceID: nat)
    requires AllOpenMouths(faces)
    ensures SegmentsSum(segs, faces, faceID) >= 0.0
  {
    if |segs| > 0 {
      SegmentsSumNonNegative(segs[..|segs| - 1], faces, faceID);
      FaceSumNonNegative(faces, segs[|segs| - 1], faceID);
    }
  }

  /** With non-negative openness the affinity is never negative, and it is 0 for a speaker id no
      profile carries and for a track id no face profile carries. */
  lemma {:induction false} CoarseAffinityNonNegative(speakers: seq<SpeakerProfile>, faces: seq<FaceProfile>, faceID: nat, speakerID: int)
    requires AllOpenMouths(faces)
    ensures CoarseAffinity(speakers, faces, faceID, speakerID) >= 0.0
  {
    if |speakers| > 0 {
      var n := |speakers| - 1;
      CoarseAffinityNonNegative(speakers[..n], faces, faceID, speakerID);
      SegmentsSumNonNegative(speakers[n].segments, faces, faceID);
    }
  }

  lemma {:induction false} CoarseAffinityOfAbsentSpeaker(speakers: seq<SpeakerProfile>, faces: seq<FaceProfile>, faceID: nat, speakerID: int)
    requires forall i | 0 <= i < |speakers| :: speakers[i].speakerID != speakerID
    ensures CoarseAffinity(speakers, faces, faceID, speakerID) == 0.0
  {
    if |speakers| > 0 {
      CoarseAffinityOfAbsentSpeaker(speakers[..|speakers| - 1], faces, faceID, speakerID);
    }
  }

  /** Step 1 of `matchFacesToSpeakersUsingUtterances`: for every speaker, segment and face,
      `faceSpeakerScores[face][speaker] += segmentScore`. */
  method BuildAffinityTable(speakerProfiles: seq<SpeakerProfile>, faceProfiles: seq<FaceProfile>)
    returns (faceSpeakerScores: AffinityTable)
    ensures forall faceID: nat, speakerID: int ::
              Lookup(faceSpeakerScores, faceID, speakerID) == CoarseAffinity(speakerProfiles, faceProfiles, faceID, speakerID)
  {
    faceSpeakerScores := map[];
    for i := 0 to |speakerProfiles|
      invariant forall faceID: nat, speakerID: int ::
        Lookup(faceSpeakerScores, faceID, speakerID) == CoarseAffinity(speakerProfiles[..i], faceProfiles, faceID, speakerID)
    {
      var speaker := speakerProfiles[i];
      assert speakerProfiles[..i + 1][..i] == speakerProfiles[..i];
      ghost var before := faceSpeakerScores;
      assert forall faceID: nat :: SegmentsSum(speaker.segments[..0], faceProfiles, faceID) == 0.0;
      for s := 0 to |speaker.segments|
        invariant forall faceID: nat, speakerID: int ::
          Lookup(faceSpeakerScores, faceID, speakerID) == Lookup(before, faceID, speakerID) +
            (if speakerID == speaker.speakerID then SegmentsSum(speaker.segments[..s], faceProfiles, faceID) else 0.0)
      {
        var segment := speaker.segments[s];
        assert speaker.segments[..s + 1][..s] == speaker.segments[..s];
        ghost var beforeSegment := faceSpeakerScores;
        assert forall faceID: nat :: FaceSum(faceProfiles[..0], segment, faceID) == 0.0;
        for f := 0 to |faceProfiles|
          invariant forall faceID: nat, speakerID: int ::
            Lookup(faceSpeakerScores, faceID, speakerID) == Lookup(beforeSegment, faceID, speakerID) +
              (if speakerID == speaker.speakerID then FaceSum(faceProfiles[..f], segment, faceID) else 0.0)
        {
          var face := faceProfiles[f];
          assert faceProfiles[..f + 1][..f] == faceProfiles[..f];
          var segmentScore := SegmentScore(face.timeRanges, segment);
          var key := (face.trackID, speaker.speakerID);
          faceSpeakerScores := faceSpeakerScores[key := Lookup(faceSpeakerScores, face.trackID, speaker.speakerID) + segmentScore];
        }
        assert faceProfiles[..|faceProfiles|] == faceProfiles;
      }
      assert speaker.segments[..|speaker.segments|] == speaker.segments;
    }
    assert speakerProfiles[..|speakerProfiles|] == speakerProfiles;
  }

  // ---------------------------------------------------------------- nearest sample

  /** `timeRanges.min(by:)` on the distance to `t`: the index of the first sample nearest to `t`. */
  function Closest(samples: seq<TimeRange>, t: real): (r: Option<nat>)
    ensures r.None? <==> |samples| == 0
    ensures r.Some? ==> r.value < |samples|
    ensures r.Some? ==> forall j | 0 <= j < |samples| ::
      Abs(samples[r.value].timestamp - t) <= Abs(samples[j].timestamp - t)
    ensures r.Some? ==> forall j | 0 <= j < r.value ::
      Abs(samples[j].timestamp - t) > Abs(samples[r.value].timestamp - t)
  {
    if |samples| == 0 then None
    else
      var n := |samples| - 1;
      assert forall j | 0 <= j < n :: samples[..n][j] == samples[j];
      match Closest(samples[..n], t)
      case None => Some(n)
      case Some(k) =>
        if Abs(samples[n].timestamp - t) < Abs(samples[k].timestamp - t) then Some(n) else Some(k)
  }

  // ---------------------------------------------------------------- spatial consistency

  /** `speakerProfiles.first(where:)` on the speaker id. */
  function FirstSpeaker(speakers: seq<SpeakerProfile>, speakerID: int): (r: Option<nat>)
    ensures r.Some? ==> r.value < |speakers| && speakers[r.value].speakerID == speakerID
    ensures r.Some? ==> forall j | 0 <= j < r.value :: speakers[j].speakerID != speakerID
    ensures r.None? ==> forall j | 0 <= j < |speakers| :: speakers[j].speakerID != speakerID
  {
    if |speakers| == 0 then None
    else if speakers[0].speakerID == speakerID then Some(0)
    else
      match FirstSpeaker(speakers[1..], speakerID)
      case None => None
      case Some(k) => Some(k + 1)
  }

  /** `faceProfiles.first(where:)` on the track id. */
  function FirstFace(faces: seq<FaceProfile>, faceID: nat): (r: Option<nat>)
    ensures r.Some? ==> r.value < |faces| && faces[r.value].trackID == faceID
    ensures r.Some? ==> forall j | 0 <= j < r.value :: faces[j].trackID != faceID
    ensures r.None? ==> forall j | 0 <= j < |faces| :: faces[j].trackID != faceID
  {
    if |faces| == 0 then None
    else if faces[0].trackID == faceID then Some(0)
    else
      match FirstFace(faces[1..], faceID)
      case None => None
      case Some(k) => Some(k + 1)
  }

  /** Number of points at which each segment is probed. */
  const ProbeCount: nat := 5

  /** `stride(from: start, through: end, by: (end - start) / 4)`, taken as its five exact points. */
  function ProbeTimes(seg: TimeSegment): (r: seq<real>)
    ensures |r| == ProbeCount
    ensures r[0] == seg.start && r[ProbeCount - 1] == seg.end
  {
    seq(ProbeCount, k requires 0 <= k < ProbeCount => ProbeTime(seg, k))
  }

  /** The `k`-th point of the stride, `start + k·(end − start)/4`. */
  function ProbeTime(seg: TimeSegment, k: nat): real
  {
    seg.start + (k as real) * ((seg.end - seg.start) / 4.0)
  }

  /** The samples nearest to each probe time of `times`; none when the face has no sample. */
  function NearestTo(times: seq<real>, samples: seq<TimeRange>): (r: seq<TimeRange>)
    ensures |r| == if |samples| == 0 then 0 else |times|
  {
    if |times| == 0 then []
    else
      var n := |times| - 1;
      NearestTo(times[..n], samples) +
        match Closest(samples, times[n])
        case Some(c) => [samples[c]]
        case None => []
  }

  /** The samples collected for a speaker's segments, segment after segment. */
  function Probes(segs: seq<TimeSegment>, samples: seq<TimeRange>): (r: seq<TimeRange>)
    ensures |r| == if |samples| == 0 then 0 else ProbeCount * |segs|
  {
    if |segs| == 0 then []
    else
      var n := |segs| - 1;
      Probes(segs[..n], samples) + NearestTo(ProbeTimes(segs[n]), samples)
  }

  function Positions(rs: seq<TimeRange>): (ps: seq<Point>)
    ensures |ps| == |rs|
  {
    seq(|rs|, i requires 0 <= i < |rs| => rs[i].boundingBox.Center())
  }

  function Timestamps(rs: seq<TimeRange>): (ts: seq<real>)
    ensures |ts| == |rs|
  {
    seq(|rs|, i requires 0 <= i < |rs| => rs[i].timestamp)
  }

  lemma PositionsConcat(rs: seq<TimeRange>, xs: seq<TimeRange>)
    ensures Positions(rs + xs) == Positions(rs) + Positions(xs)
    ensures Timestamps(rs + xs) == Timestamps(rs) + Timestamps(xs)
  {
  }

  function Xs(ps: seq<Point>): seq<real>
  {
    seq(|ps|, i requires 0 <= i < |ps| => ps[i].x)
  }

  function Ys(ps: seq<Point>): seq<real>
  {
    seq(|ps|, i requires 0 <= i < |ps| => ps[i].y)
  }

  /** Sum of squared deviations of `xs` from `m`. */
  function SquaredDeviations(xs: seq<real>, m: real): (r: real)
    ensures r >= 0.0
  {
    if |xs| == 0 then 0.0
    else
      var n := |xs| - 1;
      SquareNonNegative(xs[n] - m);
      SquaredDeviations(xs[..n], m) + (xs[n] - m) * (xs[n] - m)
  }

  /** Mean squared distance of the positions to their mean position. */
  function PositionVariance(ps: seq<Point>): (v: real)
    requires |ps| > 0
    ensures v >= 0.0
  {
    var total := SquaredDeviations(Xs(ps), Mean(Xs(ps))) + SquaredDeviations(Ys(ps), Mean(Ys(ps)));
    MulMonotoneDivision(total, |ps| as real);
    total / (|ps| as real)
  }

  function TimeVariance(ts: seq<real>): (v: real)
    requires |ts| > 0
    ensures v >= 0.0
  {
    var total := SquaredDeviations(ts, Mean(ts));
    MulMonotoneDivision(total, |ts| as real);
    total / (|ts| as real)
  }

  /** The score of the collected positions and timestamps: 1 when fewer than two were collected,
      else `1 / (1 + 0.7·positionVariance + 0.3·timeVariance)` clamped to [0, 1]; the clamp never
      bites, since both variances are non-negative. */
  function SpatialScore(positions: seq<Point>, timestamps: seq<real>): (r: real)
    requires |positions| == |timestamps|
    ensures 0.0 <= r <= 1.0
    ensures |positions| <= 1 ==> r == 1.0
    ensures |positions| > 1 ==>
      r == 1.0 / (1.0 + (PositionVariance(positions) * 0.7 + TimeVariance(timestamps) * 0.3)) && r > 0.0
  {
    if |positions| <= 1 then 1.0
    else
      var combined := 1.0 / (1.0 + (PositionVariance(positions) * 0.7 + TimeVariance(timestamps) * 0.3));
      QuotientInUnit(1.0, 1.0 + (PositionVariance(positions) * 0.7 + TimeVariance(timestamps) * 0.3));
      Min(Max(combined, 0.0), 1.0)
  }

  /** The stride of `calculateSpatialConsistency` traps on a zero step: every segment of the
      speaker it probes must have distinct ends. */
  predicate StrideDefined(faceID: nat, speakerID: int, faces: seq<FaceProfile>, speakers: seq<SpeakerProfile>)
  {
    match FirstSpeaker(speakers, speakerID)
    case None => true
    case Some(s) =>
      FirstFace(faces, faceID).None? ||
      forall k | 0 <= k < |speakers[s].segments| :: speakers[s].segments[k].start != speakers[s].segments[k].end
  }

  /** `calculateSpatialConsistency` as a value: 0 when the speaker or the face is missing, else
      the spatial score of the samples nearest to the probe points of the speaker's segments. */
  function SpatialConsistency(faceID: nat, speakerID: int, faces: seq<FaceProfile>, speakers: seq<SpeakerProfile>): (r: real)
    requires StrideDefined(faceID, speakerID, faces, speakers)
    ensures 0.0 <= r <= 1.0
    ensures FirstSpeaker(speakers, speakerID).None? || FirstFace(faces, faceID).None? ==> r == 0.0
  {
    match FirstSpeaker(speakers, speakerID)
    case None => 0.0
    case Some(s) =>
      match FirstFace(faces, faceID)
      case None => 0.0
      case Some(f) =>
        var probes := Probes(speakers[s].segments, faces[f].timeRanges);
        SpatialScore(Positions(probes), Timestamps(probes))
  }

  /** The score is exactly 1 when the speaker and the face are both found but the face has no
      sample or the speaker no segment; with both, five points per segment are collected and
      the variance formula applies. */
  lemma SpatialConsistencyCases(faceID: nat, speakerID: int, faces: seq<FaceProfile>, speakers: seq<SpeakerProfile>)
    requires StrideDefined(faceID, speakerID, faces, speakers)
    requires FirstSpeaker(speakers, speakerID).Some? && FirstFace(faces, faceID).Some?
    ensures var segs := speakers[FirstSpeaker(speakers, speakerID).value].segments;
      var samples := faces[FirstFace(faces, faceID).value].timeRanges;
      && (|segs| == 0 || |samples| == 0 ==> SpatialConsistency(faceID, speakerID, faces, speakers) == 1.0)
      && (|segs| > 0 && |samples| > 0 ==>
            var probes := Probes(segs, samples);
            |probes| == ProbeCount * |segs| &&
            SpatialConsistency(faceID, speakerID, faces, speakers) ==
              1.0 / (1.0 + (PositionVariance(Positions(probes)) * 0.7 + TimeVariance(Timestamps(probes)) * 0.3)))
  {
  }

  /** `calculateSpatialConsistency`: look the speaker and the face up, collect the nearest
      sample's position and timestamp at each probe point, then score them. */
  method CalculateSpatialConsistency(faceID: nat, speakerID: int, faceProfiles: seq<FaceProfile>, speakerProfiles: seq<SpeakerProfile>)
    returns (score: real)
    requires StrideDefined(faceID, speakerID, faceProfiles, speakerProfiles)
    ensures score == SpatialConsistency(faceID, speakerID, faceProfiles, speakerProfiles)
  {
    var si := FirstSpeaker(speakerProfiles, speakerID);
    var fi := FirstFace(faceProfiles, faceID);
    if si.None? || fi.None? {
      return 0.0;
    }
    var speaker := speakerProfiles[si.value];
    var face := faceProfiles[fi.value];
    var positions: seq<Point> := [];
    var timestamps: seq<real> := [];
    ghost var collected: seq<TimeRange> := [];
    for s := 0 to |speaker.segments|
      invariant collected == Probes(speaker.segments[..s], face.timeRanges)
      invariant positions == Positions(collected) && timestamps == Timestamps(collected)
    {
      assert speaker.segments[..s + 1][..s] == speaker.segments[..s];
      var segmentPositions, segmentTimestamps := ProbeSegment(speaker.segments[s], face.timeRanges);
      PositionsConcat(collected, NearestTo(ProbeTimes(speaker.segments[s]), face.timeRanges));
      collected := collected + NearestTo(ProbeTimes(speaker.segments[s]), face.timeRanges);
      positions := positions + segmentPositions;
      timestamps := timestamps + segmentTimestamps;
    }
    assert speaker.segments[..|speaker.segments|] == speaker.segments;
    score := SpatialScore(positions, timestamps);
  }

  /** The inner loop over `stride(from: start, through: end, by: step)` for one segment. */
  method ProbeSegment(segment: TimeSegment, samples: seq<TimeRange>)
    returns (positions: seq<Point>, timestamps: seq<real>)
    ensures positions == Positions(NearestTo(ProbeTimes(segment), samples))
    ensures timestamps == Timestamps(NearestTo(ProbeTimes(segment), samples))
  {
    ghost var times := ProbeTimes(segment);
    positions, timestamps := [], [];
    for k := 0 to ProbeCount
      invariant positions == Positions(NearestTo(times[..k], samples))
      invariant timestamps == Timestamps(NearestTo(times[..k], samples))
    {
      var sampleTime := ProbeTime(segment, k);
      assert times[..k + 1][..k] == times[..k];
      assert sampleTime == times[k];
      match Closest(samples, sampleTime)
      case Some(c) =>
        var closest := samples[c];
        PositionsConcat(NearestTo(times[..k], samples), [closest]);
        positions := positions + [closest.boundingBox.Center()];
        timestamps := timestamps + [closest.timestamp];
      case None =>
    }
    assert times[..ProbeCount] == times;
  }
}
