/** The face tracker of `VisionAnalyzer.detectAndTrackFaces`: sampled frames, detections joined
    to active tracks by distance and time gates, per-sample speaking flags, eviction of idle
    tracks, and finalisation of long tracks into face profiles sorted by mean x. */
module FaceTracker {
  import opened Wrappers
  import opened Numeric
  import opened Geometry
  import opened Models
  import Sequences

  /** About this many frames are analysed per video. */
  const TargetSampleCount: nat := 300
  /** Frame rate assumed when the video has no video track. */
  const DefaultFrameRate: real := 30.0
  /** A detection joins a track whose smoothed centre is closer than 0.15 (squared: 0.0225). */
  const MatchDistanceSquared: real := 0.0225
  /** A track is joined only if updated less than a second ago, and evicted after more. */
  const TrackTimeout: real := 1.0
  const SmoothingKeep: real := 0.7
  const SmoothingGain: real := 0.3
  const SpeakingFloor: real := 0.05
  const SpeakingFactor: real := 1.5
  /** Tracks with fewer samples are not turned into face profiles. */
  const MinProfileSamples: nat := 10

  // ---------------------------------------------------------------- frame sampling

  /** `Int(duration.seconds * Double(nominalFrameRate))`. A track reporting a rate of 0 (or
      below) makes the product at most 0, and the stride over it is empty, as it is for 0. */
  function FrameCount(duration: real, frameRate: real): (n: nat)
    requires duration >= 0.0
    ensures n > 0 ==> frameRate > 0.0
  {
    if frameRate <= 0.0 then 0
    else
      MulMonotone(0.0, 0.0, duration, frameRate);
      (duration * frameRate).Floor
  }

  /** `max(frameCount / 300, 1)`: the stride between analysed frames. It is at least 1 and
      the largest stride that still visits about 300 frames. */
  function SamplingInterval(frameCount: nat): (k: nat)
    ensures k >= 1
    ensures k == 1 || k * TargetSampleCount <= frameCount
    ensures frameCount < (k + 1) * TargetSampleCount
  {
    var q := frameCount / TargetSampleCount;
    if 1 >= q then 1 else q
  }

  lemma MulMonotoneNat(a: nat, b: nat, k: nat)
    requires a <= b
    ensures a * k <= b * k
  {
    assert b * k - a * k == (b - a) * k;
  }

  /** `stride(from: 0, to: frameCount, by: k)`: the analysed frame indices 0, k, 2k, ...,
      all below `frameCount`, and no multiple of `k` below `frameCount` missing. */
  function FrameIndices(frameCount: nat, k: nat): (r: seq<nat>)
    requires k >= 1
    ensures forall i | 0 <= i < |r| :: r[i] == i * k && r[i] < frameCount
    ensures |r| * k >= frameCount
  {
    var n := (frameCount + k - 1) / k;
    assert n * k + (frameCount + k - 1) % k == frameCount + k - 1;
    assert forall i: nat | i < n :: i * k < frameCount by {
      forall i: nat | i < n ensures i * k < frameCount {
        MulMonotoneNat(i, n - 1, k);
      }
    }
    seq(n, i requires 0 <= i < n => i * k)
  }

  /** Presentation time of frame `frameIdx`, as a CMTime of timescale 600. */
  function FrameTime(frameIdx: nat, frameRate: real): real
    requires frameRate > 0.0
  {
    MediaTime(frameIdx as real / frameRate)
  }

  lemma FrameTimeMonotone(i: nat, j: nat, frameRate: real)
    requires i <= j && frameRate > 0.0
    ensures 0.0 <= FrameTime(i, frameRate) <= FrameTime(j, frameRate)
  {
    assert 0.0 <= i as real / frameRate <= j as real / frameRate by {
      assert (j as real / frameRate) - (i as real / frameRate) == (j - i) as real / frameRate;
    }
    MediaTimeMonotone(i as real / frameRate, j as real / frameRate);
  }

  // ---------------------------------------------------------------- association

  /** An entry of `activeFaceTracks`; `id` indexes the track's history. */
  datatype ActiveTrack = ActiveTrack(id: nat, lastBox: Box, lastTime: real, avgPosition: Point)

  /** The join gate: closer than 0.15 to the smoothed centre, and updated less than 1 s ago. */
  predicate Qualifies(a: ActiveTrack, center: Point, t: real)
  {
    SquaredDistance(center, a.avgPosition) < MatchDistanceSquared && t - a.lastTime < TrackTimeout
  }

  /** The track a detection joins: the first qualifying one in iteration order, not the nearest. */
  function FirstQualifying(active: seq<ActiveTrack>, center: Point, t: real): (r: Option<nat>)
    ensures r.Some? ==>
      r.value < |active| && Qualifies(active[r.value], center, t) &&
      forall j | 0 <= j < r.value :: !Qualifies(active[j], center, t)
    ensures r.None? ==> forall j | 0 <= j < |active| :: !Qualifies(active[j], center, t)
  {
    if |active| == 0 then None
    else if Qualifies(active[0], center, t) then Some(0)
    else
      match FirstQualifying(active[1..], center, t)
      case None => None
      case Some(k) => Some(k + 1)
  }

  /** The search loop over `activeFaceTracks`. */
  method FindTrack(active: seq<ActiveTrack>, center: Point, t: real) returns (found: Option<nat>)
    ensures found == FirstQualifying(active, center, t)
  {
    for k := 0 to |active|
      invariant forall j | 0 <= j < k :: !Qualifies(active[j], center, t)
    {
      if Qualifies(active[k], center, t) {
        return Some(k);
      }
    }
    return None;
  }

  predicate Between(a: real, b: real, v: real)
  {
    Min(a, b) <= v <= Max(a, b)
  }

  /** Exponential smoothing of a track's position: 0.7 of the old average, 0.3 of the new centre.
      The result lies between the two, so it stays in the unit square when both are in it. */
  function Smooth(avg: Point, center: Point): (r: Point)
    ensures Between(avg.x, center.x, r.x) && Between(avg.y, center.y, r.y)
    ensures InUnitSquare(avg) && InUnitSquare(center) ==> InUnitSquare(r)
  {
    Point(avg.x * SmoothingKeep + center.x * SmoothingGain, avg.y * SmoothingKeep + center.y * SmoothingGain)
  }

  /** `activeFaceTracks` after a detection with box `box` at time `t`: the first qualifying track
      is refreshed and smoothed; otherwise a track `newId` is added, seeded at the box centre. */
  function Associate(active: seq<ActiveTrack>, box: Box, t: real, newId: nat): seq<ActiveTrack>
  {
    match FirstQualifying(active, box.Center(), t)
    case Some(k) =>
      active[k := ActiveTrack(active[k].id, box, t, Smooth(active[k].avgPosition, box.Center()))]
    case None => active + [ActiveTrack(newId, box, t, box.Center())]
  }

  /** The id of the track the detection is recorded under. */
  function TrackFor(active: seq<ActiveTrack>, center: Point, t: real, newId: nat): nat
  {
    match FirstQualifying(active, center, t)
    case Some(k) => active[k].id
    case None => newId
  }

  ghost predicate DistinctIds(active: seq<ActiveTrack>)
  {
    forall i, j | 0 <= i < j < |active| :: active[i].id != active[j].id
  }

  /** The eviction filter: keeps, in order, exactly the tracks updated at most 1 s before `now`. */
  function RecentTracks(active: seq<ActiveTrack>, now: real): (r: seq<ActiveTrack>)
    ensures forall a :: a in r <==> a in active && now - a.lastTime <= TrackTimeout
    ensures DistinctIds(active) ==> DistinctIds(r)
  {
    if |active| == 0 then []
    else
      var prefix := active[..|active| - 1];
      var last := active[|active| - 1];
      var kept := RecentTracks(prefix, now);
      assert active == prefix + [last];
      assert DistinctIds(active) ==> forall a | a in kept :: a.id != last.id by {
        if DistinctIds(active) {
          forall a | a in kept ensures a.id != last.id {
            var i :| 0 <= i < |prefix| && prefix[i] == a;
            assert active[i] == a;
          }
        }
      }
      if now - last.lastTime <= TrackTimeout then kept + [last] else kept
  }

  // ---------------------------------------------------------------- speaking flag

  /** `mouthOpenness > max(0.05, avgOpenness * 1.5)`. */
  predicate IsSpeaking(openness: real, avgOpenness: real)
  {
    openness > Max(SpeakingFloor, avgOpenness * SpeakingFactor)
  }

  /** The mouth-openness sequence of a track's samples. */
  function Openings(h: seq<TimeRange>): (os: seq<real>)
    ensures |os| == |h|
  {
    seq(|h|, j requires 0 <= j < |h| => h[j].mouthOpenness)
  }

  /** The flag of sample `j`: its openness against the track's mean over samples 0..j,
      the current sample included. */
  function Quot(total: real, count: nat): real
    requires count > 0
  {
    total / (count as real)
  }

  predicate SpeakingAt(os: seq<real>, j: nat)
    requires j < |os|
  {
    IsSpeaking(os[j], Quot(Sum(os[..j + 1]), j + 1))
  }

  /** Since the mean includes the sample itself, a track's first sample is never speaking. */
  lemma FirstSampleNeverSpeaking(os: seq<real>)
    requires |os| > 0 && os[0] >= 0.0
    ensures !SpeakingAt(os, 0)
  {
    assert Sum(os[..1]) == os[0] by {
      assert os[..1][..0] == [];
    }
  }

  /** The sample recorded for a detection with box `box` and openness `o` at time `t`, given the
      samples its track already has: the mean includes `o` itself. */
  function NewSample(prior: seq<TimeRange>, t: real, box: Box, o: real): TimeRange
  {
    TimeRange(t, box, IsSpeaking(o, Quot(Sum(Openings(prior)) + o, |prior| + 1)), o)
  }

  // ---------------------------------------------------------------- track histories

  ghost predicate Chronological(h: seq<TimeRange>)
  {
    forall i, j | 0 <= i < j < |h| :: h[i].timestamp <= h[j].timestamp
  }

  /** What holds of every track history: non-empty, timestamps non-decreasing, openness
      non-negative, each flag computed from the openness seen so far. */
  ghost predicate SampleInv(h: seq<TimeRange>)
  {
    && |h| > 0
    && Chronological(h)
    && (forall j | 0 <= j < |h| :: h[j].mouthOpenness >= 0.0 && h[j].isSpeaking == SpeakingAt(Openings(h), j))
  }

  /** The same invariant stated sample by sample, the way a history is built: each new sample
      has non-negative openness, is not earlier than the previous one, and carries the flag
      computed against the mean openness of the history up to and including itself. */
  ghost predicate Recorded(h: seq<TimeRange>)
  {
    if |h| == 0 then true
    else
      var n := |h| - 1;
      && Recorded(h[..n])
      && h[n].mouthOpenness >= 0.0
      && (n > 0 ==> h[n - 1].timestamp <= h[n].timestamp)
      && h[n].isSpeaking == IsSpeaking(h[n].mouthOpenness, Quot(Sum(Openings(h)), |h|))
  }

  lemma {:induction false} RecordedChronological(h: seq<TimeRange>)
    requires Recorded(h)
    ensures Chronological(h)
  {
    if |h| > 1 {
      var n := |h| - 1;
      RecordedChronological(h[..n]);
      forall i, j | 0 <= i < j < |h| ensures h[i].timestamp <= h[j].timestamp {
        if j < n {
          assert h[..n][i] == h[i] && h[..n][j] == h[j];
        } else if i < n - 1 {
          assert h[..n][i] == h[i] && h[..n][n - 1] == h[n - 1];
        }
      }
    }
  }

  lemma {:induction false} RecordedFlags(h: seq<TimeRange>)
    requires Recorded(h)
    ensures forall j | 0 <= j < |h| :: h[j].mouthOpenness >= 0.0 && h[j].isSpeaking == SpeakingAt(Openings(h), j)
  {
    if |h| > 0 {
      var n := |h| - 1;
      var os := Openings(h);
      RecordedFlags(h[..n]);
      assert Openings(h[..n]) == os[..n];
      forall j | 0 <= j < n ensures h[j].mouthOpenness >= 0.0 && h[j].isSpeaking == SpeakingAt(os, j) {
        assert h[..n][j] == h[j];
        assert os[..n][..j + 1] == os[..j + 1];
      }
      assert os[..n + 1] == os;
    }
  }

  /** A history recorded sample by sample satisfies the whole-history invariant. */
  lemma RecordedSampleInv(h: seq<TimeRange>)
    requires |h| > 0 && Recorded(h)
    ensures SampleInv(h)
  {
    RecordedChronological(h);
    RecordedFlags(h);
  }

  /** A track's `faceTrackingHistory` entry `h` and its `faceTemporalData` entry `(os, sum)` agree,
      and no sample is later than the current frame time `clock`. */
  ghost predicate TrackInv(h: seq<TimeRange>, os: seq<real>, sum: real, clock: real)
  {
    && |h| > 0
    && Recorded(h)
    && os == Openings(h)
    && sum == Sum(os)
    && h[|h| - 1].timestamp <= clock
  }

  lemma TrackInvLater(h: seq<TimeRange>, os: seq<real>, sum: real, c1: real, c2: real)
    requires TrackInv(h, os, sum, c1) && c1 <= c2
    ensures TrackInv(h, os, sum, c2)
  {
  }

  lemma TrackInvStart(x: TimeRange)
    requires x.mouthOpenness >= 0.0
    requires x.isSpeaking == IsSpeaking(x.mouthOpenness, Quot(0.0 + x.mouthOpenness, 1))
    ensures TrackInv([x], [x.mouthOpenness], 0.0 + x.mouthOpenness, x.timestamp)
  {
    var os := [x.mouthOpenness];
    assert Openings([x]) == os;
    assert [x][..0] == [];
    assert Sum(os) == x.mouthOpenness by { assert os[..0] == []; }
  }

  lemma TrackInvExtend(h: seq<TimeRange>, os: seq<real>, sum: real, clock: real, x: TimeRange)
    requires TrackInv(h, os, sum, clock) && clock <= x.timestamp && x.mouthOpenness >= 0.0
    requires x.isSpeaking == IsSpeaking(x.mouthOpenness, Quot(sum + x.mouthOpenness, |h| + 1))
    ensures TrackInv(h + [x], os + [x.mouthOpenness], sum + x.mouthOpenness, x.timestamp)
  {
    var h' := h + [x];
    assert Openings(h') == os + [x.mouthOpenness];
    SumAppend(os, x.mouthOpenness);
    assert h'[..|h|] == h;
  }

  /** `faceTrackingHistory[id].append(x)`, creating the entry for a new track. */
  function AppendSample(h: seq<seq<TimeRange>>, id: nat, x: TimeRange): seq<seq<TimeRange>>
    requires id <= |h|
  {
    if id < |h| then h[id := h[id] + [x]] else h + [[x]]
  }

  /** Every history of `h` is a prefix of the same track's history in `h'`: samples are only
      ever appended. */
  ghost predicate Grows(h: seq<seq<TimeRange>>, h': seq<seq<TimeRange>>)
  {
    |h| <= |h'| && forall id | 0 <= id < |h| :: h[id] <= h'[id]
  }

  lemma AppendSampleGrows(h: seq<seq<TimeRange>>, id: nat, x: TimeRange)
    requires id <= |h|
    ensures Grows(h, AppendSample(h, id, x))
  {
  }

  lemma GrowsTransitive(h1: seq<seq<TimeRange>>, h2: seq<seq<TimeRange>>, h3: seq<seq<TimeRange>>)
    requires Grows(h1, h2) && Grows(h2, h3)
    ensures Grows(h1, h3)
  {
  }

  /** Total number of samples over all track histories. */
  function TotalSamples(h: seq<seq<TimeRange>>): nat
  {
    if |h| == 0 then 0 else TotalSamples(h[..|h| - 1]) + |h[|h| - 1]|
  }

  /** Conservation: recording a detection adds exactly one sample to exactly one history. */
  lemma {:induction false} TotalSamplesAppend(h: seq<seq<TimeRange>>, id: nat, x: TimeRange)
    requires id <= |h|
    ensures TotalSamples(AppendSample(h, id, x)) == TotalSamples(h) + 1
  {
    var h' := AppendSample(h, id, x);
    if id == |h| {
      assert h'[..|h|] == h;
    } else if id == |h| - 1 {
      assert h'[..|h| - 1] == h[..|h| - 1];
    } else {
      TotalSamplesAppend(h[..|h| - 1], id, x);
      assert h'[..|h| - 1] == AppendSample(h[..|h| - 1], id, x);
    }
  }

  // ---------------------------------------------------------------- finalisation

  function MidXs(h: seq<TimeRange>): seq<real>
  {
    seq(|h|, j requires 0 <= j < |h| => h[j].boundingBox.MidX())
  }

  function MidYs(h: seq<TimeRange>): seq<real>
  {
    seq(|h|, j requires 0 <= j < |h| => h[j].boundingBox.MidY())
  }

  /** The profile of track `id`: mean box centre, openness sequence and mean openness. */
  function BuildProfile(id: nat, h: seq<TimeRange>): FaceProfile
    requires |h| > 0
  {
    FaceProfile(id, h, Point(Mean(MidXs(h)), Mean(MidYs(h))), Openings(h), Mean(Openings(h)))
  }

  /** The profiles built from the histories with at least ten samples, in track order. */
  function Finalists(h: seq<seq<TimeRange>>): (r: seq<FaceProfile>)
    ensures forall i | 0 <= i < |r| ::
      r[i].trackID < |h| && |h[r[i].trackID]| >= MinProfileSamples && r[i] == BuildProfile(r[i].trackID, h[r[i].trackID])
    ensures forall id | 0 <= id < |h| && |h[id]| >= MinProfileSamples :: BuildProfile(id, h[id]) in r
    ensures forall i, j | 0 <= i < j < |r| :: r[i].trackID < r[j].trackID
  {
    if |h| == 0 then []
    else
      var n := |h| - 1;
      var prior := Finalists(h[..n]);
      assert forall id | 0 <= id < n :: h[..n][id] == h[id];
      if |h[n]| >= MinProfileSamples then prior + [BuildProfile(n, h[n])] else prior
  }

  /** `for (trackID, timeRanges) in faceTrackingHistory where timeRanges.count >= 10`, in id order. */
  method CollectFinalists(history: seq<seq<TimeRange>>) returns (unsorted: seq<FaceProfile>)
    ensures unsorted == Finalists(history)
  {
    unsorted := [];
    for id := 0 to |history|
      invariant unsorted == Finalists(history[..id])
    {
      assert history[..id + 1][..id] == history[..id] && history[..id + 1][id] == history[id];
      var timeRanges := history[id];
      if |timeRanges| >= MinProfileSamples {
        unsorted := unsorted + [BuildProfile(id, timeRanges)];
      }
    }
    assert history[..|history|] == history;
  }

  function MeanX(p: FaceProfile): real
  {
    p.avgPosition.x
  }

  /** A finalised face profile: what every profile the tracker returns satisfies. */
  ghost predicate Finalised(p: FaceProfile)
  {
    && |p.timeRanges| >= MinProfileSamples
    && SampleInv(p.timeRanges)
    && !p.timeRanges[0].isSpeaking
    && p.mouthOpennessHistory == Openings(p.timeRanges)
    && p.avgMouthOpenness == Mean(p.mouthOpennessHistory)
    && p.avgPosition == Point(Mean(MidXs(p.timeRanges)), Mean(MidYs(p.timeRanges)))
  }

  lemma FinalistsAreFinalised(h: seq<seq<TimeRange>>)
    requires forall id | 0 <= id < |h| :: |h[id]| > 0 && Recorded(h[id])
    ensures forall p | p in Sequences.SortBy(Finalists(h), MeanX) :: Finalised(p)
  {
    var r := Finalists(h);
    forall p | p in Sequences.SortBy(r, MeanX) ensures Finalised(p) {
      assert p in multiset(Sequences.SortBy(r, MeanX));
      var i :| 0 <= i < |r| && r[i] == p;
      RecordedSampleInv(p.timeRanges);
      var os := Openings(p.timeRanges);
      assert os[0] == p.timeRanges[0].mouthOpenness;
      FirstSampleNeverSpeaking(os);
    }
  }

  // ---------------------------------------------------------------- the tracker tables

  /** `dict[id] = v` on a table indexed by track id: overwrite, or add the entry of a new track. */
  function Upsert<T>(s: seq<T>, id: nat, v: T): (r: seq<T>)
    requires id <= |s|
    ensures |r| == if id < |s| then |s| else |s| + 1
    ensures r[id] == v && forall j | 0 <= j < |s| && j != id :: r[j] == s[j]
  {
    if id < |s| then s[id := v] else s + [v]
  }

  /** The three per-track tables agree track by track, and no sample is later than `clock`. */
  ghost predicate TablesInv(h: seq<seq<TimeRange>>, oh: seq<seq<real>>, os: seq<real>, clock: real)
  {
    && |oh| == |h|
    && |os| == |h|
    && forall id | 0 <= id < |h| :: TrackInv(h[id], oh[id], os[id], clock)
  }

  lemma TablesLater(h: seq<seq<TimeRange>>, oh: seq<seq<real>>, os: seq<real>, c1: real, c2: real)
    requires TablesInv(h, oh, os, c1) && c1 <= c2
    ensures TablesInv(h, oh, os, c2)
  {
    forall id | 0 <= id < |h| ensures TrackInv(h[id], oh[id], os[id], c2) {
      TrackInvLater(h[id], oh[id], os[id], c1, c2);
    }
  }

  /** Recording sample `x` under track `id` keeps the tables in agreement, when the history
      gains `x`, the openness list gains its openness and the sum grows by it. */
  lemma TablesRecord(h: seq<seq<TimeRange>>, oh: seq<seq<real>>, os: seq<real>, clock: real,
                     id: nat, x: TimeRange, opennessList: seq<real>, opennessTotal: real)
    requires TablesInv(h, oh, os, clock) && id <= |h| && clock <= x.timestamp && x.mouthOpenness >= 0.0
    requires var prior := if id < |h| then h[id] else [];
      && x == NewSample(prior, x.timestamp, x.boundingBox, x.mouthOpenness)
      && opennessList == Openings(prior) + [x.mouthOpenness]
      && opennessTotal == Sum(Openings(prior)) + x.mouthOpenness
    ensures TablesInv(AppendSample(h, id, x), Upsert(oh, id, opennessList), Upsert(os, id, opennessTotal), x.timestamp)
  {
    var h' := AppendSample(h, id, x);
    var oh' := Upsert(oh, id, opennessList);
    var os' := Upsert(os, id, opennessTotal);
    forall j | 0 <= j < |h'| ensures TrackInv(h'[j], oh'[j], os'[j], x.timestamp) {
      if j == id {
        if id < |h| {
          TrackInvExtend(h[id], oh[id], os[id], clock, x);
        } else {
          assert Sum(Openings([])) == 0.0;
          TrackInvStart(x);
        }
      } else {
        TrackInvLater(h[j], oh[j], os[j], clock, x.timestamp);
      }
    }
  }

  /** The active set refers only to existing histories, was updated no later than `clock`,
      and holds each track once. */
  ghost predicate ActiveInv(active: seq<ActiveTrack>, n: nat, clock: real)
  {
    && (forall k | 0 <= k < |active| :: active[k].id < n && active[k].lastTime <= clock)
    && DistinctIds(active)
  }

  lemma ActiveLater(active: seq<ActiveTrack>, n: nat, n': nat, c1: real, c2: real)
    requires ActiveInv(active, n, c1) && n <= n' && c1 <= c2
    ensures ActiveInv(active, n', c2)
  {
  }

  /** Joining a detection keeps the active set well formed; it refers to a new history exactly
      when no track qualified. */
  lemma AssociateKeepsInv(active: seq<ActiveTrack>, box: Box, t: real, n: nat, clock: real)
    requires ActiveInv(active, n, clock) && clock <= t
    ensures var found := FirstQualifying(active, box.Center(), t);
      && (found.Some? <==> TrackFor(active, box.Center(), t, n) < n)
      && TrackFor(active, box.Center(), t, n) <= n
      && ActiveInv(Associate(active, box, t, n), if found.Some? then n else n + 1, t)
  {
    var found := FirstQualifying(active, box.Center(), t);
    var r := Associate(active, box, t, n);
    if found.Some? {
      assert forall k | 0 <= k < |r| :: r[k].id == active[k].id;
    } else {
      assert forall k | 0 <= k < |active| :: r[k] == active[k];
    }
  }

  /** Recording the sample `NewSample` gives under track `id` keeps the tables in agreement and the
      active set well formed, and adds one sample. */
  lemma RecordKeepsInv(h: seq<seq<TimeRange>>, oh: seq<seq<real>>, os: seq<real>, clock: real,
                       active: seq<ActiveTrack>, id: nat, t: real, box: Box, openness: real,
                       trackHistory: seq<real>, trackSum: real, sample: TimeRange)
    requires TablesInv(h, oh, os, clock) && id <= |h| && clock <= t && openness >= 0.0
    requires ActiveInv(active, if id < |h| then |h| else |h| + 1, t)
    requires var prior := if id < |h| then h[id] else [];
      && trackHistory == Openings(prior) + [openness]
      && trackSum == Sum(Openings(prior)) + openness
      && sample == NewSample(prior, t, box, openness)
    ensures TablesInv(AppendSample(h, id, sample), Upsert(oh, id, trackHistory), Upsert(os, id, trackSum), t)
    ensures ActiveInv(active, |AppendSample(h, id, sample)|, t)
    ensures TotalSamples(AppendSample(h, id, sample)) == TotalSamples(h) + 1
  {
    TablesRecord(h, oh, os, clock, id, sample, trackHistory, trackSum);
    TotalSamplesAppend(h, id, sample);
  }

  // ---------------------------------------------------------------- the tracking fold

  /** The part of the tracker state the frames drive: `activeFaceTracks` and
      `faceTrackingHistory`. The openness tables are determined by the histories. */
  datatype TrackState = TrackState(active: seq<ActiveTrack>, history: seq<seq<TimeRange>>)

  /** Every active track refers to an existing history. */
  ghost predicate Linked(s: TrackState)
  {
    forall k | 0 <= k < |s.active| :: s.active[k].id < |s.history|
  }

  /** One observation at time `t`: join or open a track, and append the flagged sample to the
      history of the track it was recorded under. */
  function ObserveStep(s: TrackState, t: real, det: Detection): (r: TrackState)
    requires Linked(s)
    ensures Linked(r)
    ensures TotalSamples(r.history) == TotalSamples(s.history) + 1
  {
    var id := TrackFor(s.active, det.box.Center(), t, |s.history|);
    assert id <= |s.history|;
    var prior := if id < |s.history| then s.history[id] else [];
    var sample := NewSample(prior, t, det.box, MouthOpenness(det));
    TotalSamplesAppend(s.history, id, sample);
    var r := TrackState(Associate(s.active, det.box, t, |s.history|), AppendSample(s.history, id, sample));
    assert Linked(r) by {
      if FirstQualifying(s.active, det.box.Center(), t).Some? {
        assert forall k | 0 <= k < |r.active| :: r.active[k].id == s.active[k].id;
      }
    }
    r
  }

  /** The observations of one frame, in order. */
  function ObserveAll(s: TrackState, t: real, dets: seq<Detection>): (r: TrackState)
    requires Linked(s)
    ensures Linked(r)
    ensures TotalSamples(r.history) == TotalSamples(s.history) + |dets|
  {
    if |dets| == 0 then s else ObserveStep(ObserveAll(s, t, dets[..|dets| - 1]), t, dets[|dets| - 1])
  }

  /** One analysed frame: every observation, then eviction of the tracks idle for over a second. */
  function FrameStep(s: TrackState, t: real, dets: seq<Detection>): (r: TrackState)
    requires Linked(s)
    ensures Linked(r)
    ensures TotalSamples(r.history) == TotalSamples(s.history) + |dets|
  {
    var o := ObserveAll(s, t, dets);
    TrackState(RecentTracks(o.active, t), o.history)
  }

  /** The frame loop from state `s` over the remaining frame indices: a skipped frame changes
      nothing, and the first grab that throws ends the walk with its error. */
  function TrackFrames(s: TrackState, frames: seq<nat>, frameRate: real, video: FrameSource): Result<TrackState>
    requires Linked(s) && (frameRate > 0.0 || |frames| == 0)
    decreases |frames|
  {
    if |frames| == 0 then Success(s)
    else
      var t := FrameTime(frames[0], frameRate);
      match video(t)
      case Failed(e) => Failure(e)
      case Skipped => TrackFrames(s, frames[1..], frameRate, video)
      case Observed(dets) => TrackFrames(FrameStep(s, t, dets), frames[1..], frameRate, video)
  }

  /** The number of observations the analysed frames deliver, up to the first grab that throws. */
  function ObservedCount(frames: seq<nat>, frameRate: real, video: FrameSource): nat
    requires frameRate > 0.0 || |frames| == 0
  {
    if |frames| == 0 then 0
    else
      var n := ObservedCount(frames[1..], frameRate, video);
      match video(FrameTime(frames[0], frameRate))
      case Failed(_) => 0
      case Skipped => n
      case Observed(dets) => |dets| + n
  }

  /** Every observation of the walk becomes exactly one sample of one history: a completed walk
      adds as many samples as the analysed frames deliver observations. */
  lemma {:induction false} TrackFramesCounts(s: TrackState, frames: seq<nat>, frameRate: real, video: FrameSource)
    requires Linked(s) && (frameRate > 0.0 || |frames| == 0)
    ensures TrackFrames(s, frames, frameRate, video).Success? ==>
      TotalSamples(TrackFrames(s, frames, frameRate, video).value.history)
        == TotalSamples(s.history) + ObservedCount(frames, frameRate, video)
    decreases |frames|
  {
    if |frames| > 0 {
      var t := FrameTime(frames[0], frameRate);
      match video(t)
      case Failed(_) =>
      case Skipped => TrackFramesCounts(s, frames[1..], frameRate, video);
      case Observed(dets) => TrackFramesCounts(FrameStep(s, t, dets), frames[1..], frameRate, video);
    }
  }

  /** The analysed frames of a video: the frame rate (30 when unknown) and the sampled indices. */
  function Rate(nominalFrameRate: Option<real>): real
  {
    if nominalFrameRate.Some? then nominalFrameRate.value else DefaultFrameRate
  }

  function SampledFrames(duration: real, nominalFrameRate: Option<real>): (r: seq<nat>)
    requires duration >= 0.0
    ensures |r| > 0 ==> Rate(nominalFrameRate) > 0.0
  {
    var frameCount := FrameCount(duration, Rate(nominalFrameRate));
    FrameIndices(frameCount, SamplingInterval(frameCount))
  }

  /** What `detectAndTrackFaces` computes: the profiles of the long tracks sorted by mean x, or
      the error of the first grab that throws. */
  function Tracked(duration: real, nominalFrameRate: Option<real>, video: FrameSource): Result<seq<FaceProfile>>
    requires duration >= 0.0
  {
    match TrackFrames(TrackState([], []), SampledFrames(duration, nominalFrameRate), Rate(nominalFrameRate), video)
    case Failure(e) => Failure(e)
    case Success(s) => Success(Sequences.SortBy(Finalists(s.history), MeanX))
  }

  /** The walk fails exactly when the grab at some analysed frame throws, and then with the error
      of the first such frame. */
  lemma {:induction false} TrackFramesFails(s: TrackState, frames: seq<nat>, frameRate: real, video: FrameSource)
    requires Linked(s) && (frameRate > 0.0 || |frames| == 0)
    ensures TrackFrames(s, frames, frameRate, video).Failure? <==>
      exists i | 0 <= i < |frames| :: video(FrameTime(frames[i], frameRate)).Failed?
    ensures TrackFrames(s, frames, frameRate, video).Failure? ==>
      exists i | 0 <= i < |frames| ::
        && video(FrameTime(frames[i], frameRate)) == Failed(TrackFrames(s, frames, frameRate, video).error)
        && forall j | 0 <= j < i :: !video(FrameTime(frames[j], frameRate)).Failed?
    decreases |frames|
  {
    if |frames| > 0 {
      var t := FrameTime(frames[0], frameRate);
      var rest := frames[1..];
      assert forall i | 0 <= i < |rest| :: rest[i] == frames[i + 1];
      match video(t)
      case Failed(e) =>
      case Skipped =>
        TrackFramesFails(s, rest, frameRate, video);
        LaterFailure(frames, frameRate, video, TrackFrames(s, rest, frameRate, video));
      case Observed(dets) =>
        TrackFramesFails(FrameStep(s, t, dets), rest, frameRate, video);
        LaterFailure(frames, frameRate, video, TrackFrames(FrameStep(s, t, dets), rest, frameRate, video));
    }
  }

  /** Lifts the facts about the walk over `frames[1..]` to `frames` when the first grab did not
      throw. */
  lemma LaterFailure(frames: seq<nat>, frameRate: real, video: FrameSource, r: Result<TrackState>)
    requires |frames| > 0 && frameRate > 0.0 && !video(FrameTime(frames[0], frameRate)).Failed?
    requires r.Failure? <==> exists i | 0 <= i < |frames[1..]| :: video(FrameTime(frames[1..][i], frameRate)).Failed?
    requires r.Failure? ==>
      exists i | 0 <= i < |frames[1..]| ::
        && video(FrameTime(frames[1..][i], frameRate)) == Failed(r.error)
        && forall j | 0 <= j < i :: !video(FrameTime(frames[1..][j], frameRate)).Failed?
    ensures r.Failure? <==> exists i | 0 <= i < |frames| :: video(FrameTime(frames[i], frameRate)).Failed?
    ensures r.Failure? ==>
      exists i | 0 <= i < |frames| ::
        && video(FrameTime(frames[i], frameRate)) == Failed(r.error)
        && forall j | 0 <= j < i :: !video(FrameTime(frames[j], frameRate)).Failed?
  {
    var rest := frames[1..];
    if exists i | 0 <= i < |frames| :: video(FrameTime(frames[i], frameRate)).Failed? {
      var i :| 0 <= i < |frames| && video(FrameTime(frames[i], frameRate)).Failed?;
      assert frames[i] == rest[i - 1];
    }
    if r.Failure? {
      var i :| 0 <= i < |rest| && video(FrameTime(rest[i], frameRate)) == Failed(r.error)
               && forall j | 0 <= j < i :: !video(FrameTime(rest[j], frameRate)).Failed?;
      assert frames[i + 1] == rest[i];
      forall j | 0 <= j < i + 1 ensures !video(FrameTime(frames[j], frameRate)).Failed? {
        if j > 0 {
          assert frames[j] == rest[j - 1];
        }
      }
    }
  }

  /** `detectAndTrackFaces` throws exactly when the grab at some analysed frame throws, with the
      error of the first one; otherwise it returns the finalists of the walk sorted by mean x. */
  lemma TrackedOutcome(duration: real, nominalFrameRate: Option<real>, video: FrameSource)
    requires duration >= 0.0
    ensures var frames := SampledFrames(duration, nominalFrameRate);
      var rate := Rate(nominalFrameRate);
      var r := Tracked(duration, nominalFrameRate, video);
      && (r.Failure? <==> exists i | 0 <= i < |frames| :: video(FrameTime(frames[i], rate)).Failed?)
      && (r.Failure? ==> exists i | 0 <= i < |frames| ::
            && video(FrameTime(frames[i], rate)) == Failed(r.error)
            && forall j | 0 <= j < i :: !video(FrameTime(frames[j], rate)).Failed?)
      && (r.Success? ==> Sequences.SortedBy(r.value, MeanX))
  {
    TrackFramesFails(TrackState([], []), SampledFrames(duration, nominalFrameRate), Rate(nominalFrameRate), video);
  }

  /** A video track that reports a frame rate of 0 (or below) has no analysed frames, and
      `detectAndTrackFaces` returns no profiles without grabbing any frame. */
  lemma ZeroRateTracksNothing(duration: real, rate: real, video: FrameSource)
    requires duration >= 0.0 && rate <= 0.0
    ensures SampledFrames(duration, Some(rate)) == []
    ensures Tracked(duration, Some(rate), video) == Success([])
  {
    var sorted := Sequences.SortBy(Finalists([]), MeanX);
    assert |sorted| == 0 by {
      assert multiset(sorted) == multiset(Finalists([]));
    }
  }

  // ---------------------------------------------------------------- the tracker state

  /** The state `detectAndTrackFaces` keeps while it walks the frames. Track ids index
      `opennessHistory`, `opennessSum` and `history`. */
  class Tracker {
    /** `activeFaceTracks`, in insertion order. */
    var active: seq<ActiveTrack>
    /** `faceTemporalData[id].history`. */
    var opennessHistory: seq<seq<real>>
    /** `faceTemporalData[id].sum`. */
    var opennessSum: seq<real>
    /** `faceTrackingHistory[id]`. */
    var history: seq<seq<TimeRange>>
    /** Time of the latest frame processed. */
    ghost var clock: real

    ghost predicate Valid()
      reads this
    {
      TablesInv(history, opennessHistory, opennessSum, clock) && ActiveInv(active, |history|, clock)
    }

    constructor ()
      ensures Valid() && active == [] && history == [] && clock == 0.0
    {
      active := [];
      opennessHistory := [];
      opennessSum := [];
      history := [];
      clock := 0.0;
    }

    /** One observation in a frame at time `t`: join the first qualifying track or open a new
        one, then record the sample under that track. */
    method Observe(t: real, det: Detection)
      requires Valid() && clock <= t
      modifies this
      ensures Valid() && clock == t
      ensures active == Associate(old(active), det.box, t, |old(history)|)
      ensures var id := TrackFor(old(active), det.box.Center(), t, |old(history)|);
        && id <= |old(history)|
        && history == AppendSample(old(history), id,
             NewSample(if id < |old(history)| then old(history)[id] else [], t, det.box, MouthOpenness(det)))
      ensures TotalSamples(history) == TotalSamples(old(history)) + 1
      ensures Grows(old(history), history)
    {
      var id := Join(t, det.box);
      Record(id, t, det.box, MouthOpenness(det));
      AppendSampleGrows(old(history), id, NewSample(if id < |old(history)| then old(history)[id] else [], t, det.box, MouthOpenness(det)));
    }

    /** The association step: refresh the first qualifying track, or open track `|history|`. */
    method Join(t: real, box: Box) returns (id: nat)
      requires Valid() && clock <= t
      modifies this`active
      ensures id == TrackFor(old(active), box.Center(), t, |history|) && id <= |history|
      ensures active == Associate(old(active), box, t, |history|)
      ensures ActiveInv(active, if id < |history| then |history| else |history| + 1, t)
    {
      var center := box.Center();
      var k := FindTrack(active, center, t);
      AssociateKeepsInv(active, box, t, |history|, clock);
      if k.Some? {
        var a := active[k.value];
        id := a.id;
        active := active[k.value := ActiveTrack(a.id, box, t, Smooth(a.avgPosition, center))];
      } else {
        id := |history|;
        active := active + [ActiveTrack(id, box, t, center)];
      }
    }

    /** The running list, sum and flagged sample of track `id` once `openness` is added. */
    method NextSample(id: nat, t: real, box: Box, openness: real)
      returns (trackHistory: seq<real>, trackSum: real, sample: TimeRange)
      requires TablesInv(history, opennessHistory, opennessSum, clock) && id <= |history|
      ensures var prior := if id < |history| then history[id] else [];
        && trackHistory == Openings(prior) + [openness]
        && trackSum == Sum(Openings(prior)) + openness
        && sample == NewSample(prior, t, box, openness)
    {
      ghost var prior := if id < |history| then history[id] else [];
      trackHistory := if id < |opennessHistory| then opennessHistory[id] else [];
      trackSum := if id < |opennessSum| then opennessSum[id] else 0.0;
      assert trackHistory == Openings(prior) && trackSum == Sum(Openings(prior)) by {
        if id < |history| {
          assert TrackInv(history[id], opennessHistory[id], opennessSum[id], clock);
        }
      }
      trackHistory := trackHistory + [openness];
      trackSum := trackSum + openness;
      var avgOpenness := if |trackHistory| == 0 then 0.0 else trackSum / (|trackHistory| as real);
      var isSpeaking := IsSpeaking(openness, avgOpenness);
      sample := TimeRange(t, box, isSpeaking, openness);
    }

    /** The recording step: append the openness to track `id`'s running list and sum, flag the
        sample against the running mean, and append it to the track's history. */
    method Record(id: nat, t: real, box: Box, openness: real)
      requires TablesInv(history, opennessHistory, opennessSum, clock)
      requires id <= |history| && clock <= t && openness >= 0.0
      requires ActiveInv(active, if id < |history| then |history| else |history| + 1, t)
      modifies this`opennessHistory, this`opennessSum, this`history, this`clock
      ensures Valid() && clock == t
      ensures history == AppendSample(old(history), id,
        NewSample(if id < |old(history)| then old(history)[id] else [], t, box, openness))
      ensures TotalSamples(history) == TotalSamples(old(history)) + 1
    {
      var trackHistory, trackSum, sample := NextSample(id, t, box, openness);
      RecordKeepsInv(history, opennessHistory, opennessSum, clock, active, id, t, box, openness,
                     trackHistory, trackSum, sample);
      opennessHistory := Upsert(opennessHistory, id, trackHistory);
      opennessSum := Upsert(opennessSum, id, trackSum);
      history := AppendSample(history, id, sample);
      clock := t;
    }

    /** Drops from the active set exactly the tracks idle for more than a second; their
        histories stay. */
    method EvictIdle(now: real)
      requires Valid()
      modifies this`active
      ensures Valid()
      ensures active == RecentTracks(old(active), now)
    {
      var kept: seq<ActiveTrack> := [];
      for i := 0 to |active|
        invariant kept == RecentTracks(active[..i], now)
      {
        assert active[..i + 1] == active[..i] + [active[i]];
        if now - active[i].lastTime <= TrackTimeout {
          kept := kept + [active[i]];
        }
      }
      assert active[..|active|] == active;
      forall k | 0 <= k < |kept| ensures kept[k].id < |history| && kept[k].lastTime <= clock {
        assert kept[k] in active;
      }
      active := kept;
    }

    /** All observations of one frame at time `t`, then eviction. */
    method ProcessFrame(t: real, detections: seq<Detection>)
      requires Valid() && clock <= t
      modifies this
      ensures Valid() && clock == t
      ensures TotalSamples(history) == TotalSamples(old(history)) + |detections|
      ensures Grows(old(history), history)
      ensures forall a | a in active :: t - a.lastTime <= TrackTimeout
      ensures TrackState(active, history) == FrameStep(TrackState(old(active), old(history)), t, detections)
    {
      TablesLater(history, opennessHistory, opennessSum, clock, t);
      ActiveLater(active, |history|, |history|, clock, t);
      clock := t;
      ObserveFrame(t, detections);
      EvictIdle(t);
    }

    /** `for observation in observations` of one frame at time `t`. */
    method ObserveFrame(t: real, detections: seq<Detection>)
      requires Valid() && clock == t
      modifies this
      ensures Valid() && clock == t
      ensures TotalSamples(history) == TotalSamples(old(history)) + |detections|
      ensures Grows(old(history), history)
      ensures TrackState(active, history) == ObserveAll(TrackState(old(active), old(history)), t, detections)
    {
      ghost var start := TrackState(active, history);
      for i := 0 to |detections|
        invariant Valid() && clock == t
        invariant TotalSamples(history) == TotalSamples(old(history)) + i
        invariant Grows(old(history), history)
        invariant TrackState(active, history) == ObserveAll(start, t, detections[..i])
      {
        ghost var before := history;
        assert detections[..i + 1][..i] == detections[..i];
        Observe(t, detections[i]);
        GrowsTransitive(old(history), before, history);
      }
      assert detections[..|detections|] == detections;
    }

    /** Profiles of the tracks with at least ten samples, sorted by mean x. */
    method Finalize() returns (profiles: seq<FaceProfile>)
      ensures profiles == Sequences.SortBy(Finalists(history), MeanX)
    {
      var unsorted := CollectFinalists(history);
      profiles := Sequences.SortBy(unsorted, MeanX);
    }
  }

  /** `detectAndTrackFaces`: walks the sampled frames, tracks faces, and returns the
      finalised profiles sorted by mean x, or the error a frame grab threw. */
  method DetectAndTrackFaces(duration: real, nominalFrameRate: Option<real>, video: FrameSource)
    returns (result: Result<seq<FaceProfile>>)
    requires duration >= 0.0
    ensures result.Success? ==> Sequences.SortedBy(result.value, MeanX)
    ensures result.Success? ==> forall p | p in result.value :: Finalised(p)
    ensures result == Tracked(duration, nominalFrameRate, video)
  {
    var frameRate := if nominalFrameRate.Some? then nominalFrameRate.value else DefaultFrameRate;
    var frameCount := FrameCount(duration, frameRate);
    var samplingInterval := SamplingInterval(frameCount);
    var frames := FrameIndices(frameCount, samplingInterval);
    assert |frames| > 0 ==> frameRate > 0.0;
    ghost var walk := TrackFrames(TrackState([], []), frames, frameRate, video);
    var tracker := new Tracker();
    for i := 0 to |frames|
      invariant tracker.Valid()
      invariant i < |frames| ==> tracker.clock <= FrameTime(frames[i], frameRate)
      invariant TrackFrames(TrackState(tracker.active, tracker.history), frames[i..], frameRate, video) == walk
    {
      var time := FrameTime(frames[i], frameRate);
      FrameTimeMonotone(0, frames[i], frameRate);
      if i + 1 < |frames| {
        FrameTimeMonotone(frames[i], frames[i + 1], frameRate);
      }
      assert frames[i..][0] == frames[i] && frames[i..][1..] == frames[i + 1..];
      match video(time)
      case Failed(e) => return Failure(e);
      case Skipped =>
      case Observed(detections) => tracker.ProcessFrame(time, detections);
    }
    var profiles := tracker.Finalize();
    FinalistsAreFinalised(tracker.history);
    return Success(profiles);
  }
}
