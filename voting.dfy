/** Step 2 of `matchFacesToSpeakersUsingUtterances`: every attributed utterance is sampled every
    quarter second, the faces seen in each sampled frame are scored against the tracked face
    profiles, and the best-scoring profile (if it beats 0.5) receives a vote for the speaker. */
module Voting {
  import opened Wrappers
  import opened Numeric
  import opened Geometry
  import opened Models
  import opened Sequences
  import opened Affinity

  /** Utterances shorter than this are not sampled. */
  const MinUtteranceSpan: real := 0.3
  /** Nominal spacing of the samples taken in an utterance. */
  const SampleSpacing: real := 0.25
  /** A face whose mouth is not open wider than this is not scored. */
  const MouthFloor: real := 0.03
  /** A profile with no sample this close to the analysis time is not scored. */
  const TimeGate: real := 0.5
  /** The score a profile must beat to receive a vote. */
  const VoteFloor: real := 0.5
  /** Coarse affinities are divided by this and capped at 1. */
  const AffinityScale: real := 100.0

  // ---------------------------------------------------------------- sampling an utterance

  function Span(u: Utterance): real
  {
    u.endTime - u.startTime
  }

  /** `max(1, Int(span / 0.25))` for an utterance long enough to be sampled. */
  function SampleCount(u: Utterance): (n: nat)
    requires Span(u) >= MinUtteranceSpan
    ensures n >= 1
    ensures (n as real) * SampleSpacing <= Span(u) < (n as real + 1.0) * SampleSpacing
  {
    var k := (Span(u) / SampleSpacing).Floor;
    if 1 >= k then 1 else k
  }

  /** `startTime + i · (span / count)`. */
  function SampleTime(u: Utterance, i: nat): real
    requires Span(u) >= MinUtteranceSpan
  {
    u.startTime + (i as real) * (Span(u) / (SampleCount(u) as real))
  }

  lemma SampleTimeWithin(u: Utterance, i: nat)
    requires Span(u) >= MinUtteranceSpan && i < SampleCount(u)
    ensures u.startTime <= SampleTime(u, i) < u.endTime
  {
    var c := SampleCount(u) as real;
    var step := Span(u) / c;
    assert step * c == Span(u);
    assert step > 0.0;
    MulMonotone(0.0, 0.0, i as real, step);
    assert (c - i as real) * step > 0.0 by {
      MulMonotone(1.0, step, c - i as real, step);
    }
  }

  /** The analysis times of an utterance: none when it is shorter than 0.3 s, else evenly spaced
      from its start, each before its end. */
  function SampleTimes(u: Utterance): (ts: seq<real>)
    ensures Span(u) < MinUtteranceSpan ==> ts == []
    ensures Span(u) >= MinUtteranceSpan ==> |ts| == SampleCount(u) && ts[0] == u.startTime
    ensures forall i | 0 <= i < |ts| :: u.startTime <= ts[i] < u.endTime
  {
    if Span(u) < MinUtteranceSpan then []
    else
      var ts := seq(SampleCount(u), i requires 0 <= i < SampleCount(u) => SampleTime(u, i));
      assert forall i | 0 <= i < |ts| :: u.startTime <= ts[i] < u.endTime by {
        forall i | 0 <= i < |ts| ensures u.startTime <= ts[i] < u.endTime {
          SampleTimeWithin(u, i);
        }
      }
      ts
  }

  // ---------------------------------------------------------------- scoring a face profile

  /** What the scores are computed from: the diarized speakers and the tracked faces. */
  datatype Evidence = Evidence(speakers: seq<SpeakerProfile>, faces: seq<FaceProfile>)

  /** One face seen in a sampled frame, while speaker `speakerID` is talking. */
  datatype Sighting = Sighting(speakerID: int, time: real, box: Box, openness: real)

  /** `faceSpeakerScores[face]?[speaker] ?? 0`, for a table that holds the coarse affinities. */
  function SegmentAffinity(ev: Evidence, faceID: nat, speakerID: int): real
  {
    CoarseAffinity(ev.speakers, ev.faces, faceID, speakerID)
  }

  ghost predicate TableHolds(table: AffinityTable, ev: Evidence)
  {
    forall faceID: nat, speakerID: int :: Lookup(table, faceID, speakerID) == SegmentAffinity(ev, faceID, speakerID)
  }

  /** The spatial-consistency stride can be taken for speaker `speakerID` and every face. */
  predicate Probeable(ev: Evidence, speakerID: int)
  {
    forall i | 0 <= i < |ev.faces| :: StrideDefined(ev.faces[i].trackID, speakerID, ev.faces, ev.speakers)
  }

  /** `1 - min(1, Δ / 0.5)`: 1 for a sample at the analysis time, falling to 0 at the gate. */
  function TemporalScore(delta: real): (r: real)
    requires 0.0 <= delta < TimeGate
    ensures 0.0 < r <= 1.0
  {
    QuotientInUnit(delta, TimeGate);
    1.0 - Min(1.0, delta / TimeGate)
  }

  /** The score of face profile `i` for a sighting: none when the profile has no sample within
      0.5 s of the sighting, else `0.3·IoU + 0.2·temporal + 0.2·openness + 0.2·min(affinity/100, 1)
      + 0.1·spatial`. */
  function CandidateScore(ev: Evidence, s: Sighting, i: nat): (r: Option<real>)
    requires i < |ev.faces| && Probeable(ev, s.speakerID)
    ensures r.Some? <==>
      (Closest(ev.faces[i].timeRanges, s.time).Some? &&
       Abs(ev.faces[i].timeRanges[Closest(ev.faces[i].timeRanges, s.time).value].timestamp - s.time) < TimeGate)
    ensures r.Some? ==> r.value <= 0.8 + 0.2 * s.openness
  {
    var face := ev.faces[i];
    match Closest(face.timeRanges, s.time)
    case None => None
    case Some(c) =>
      var closest := face.timeRanges[c];
      var delta := Abs(closest.timestamp - s.time);
      if delta < TimeGate then
        var normalized := Min(SegmentAffinity(ev, face.trackID, s.speakerID) / AffinityScale, 1.0);
        Some(IoU(s.box, closest.boundingBox) * 0.3 + TemporalScore(delta) * 0.2 + s.openness * 0.2 +
             normalized * 0.2 + SpatialConsistency(face.trackID, s.speakerID, ev.faces, ev.speakers) * 0.1)
      else None
  }

  // ---------------------------------------------------------------- the best profile

  /** A profile that beat the running best: its index and its score. */
  datatype Pick = Pick(index: nat, score: real)

  /** The score a profile has to beat: the running best, or 0.5 before there is one. */
  function Bar(p: Option<Pick>): real
  {
    if p.Some? then p.value.score else VoteFloor
  }

  /** The `bestMatch` fold over the first `n` profiles: a profile replaces the running best only
      with a strictly higher score, so the first of equal scores is kept. */
  function BestIndex(ev: Evidence, s: Sighting, n: nat): (r: Option<Pick>)
    requires n <= |ev.faces| && Probeable(ev, s.speakerID)
    ensures r.Some? ==> r.value.index < n && CandidateScore(ev, s, r.value.index) == Some(r.value.score)
    ensures r.Some? ==> r.value.score > VoteFloor
    ensures forall i | 0 <= i < n && CandidateScore(ev, s, i).Some? :: CandidateScore(ev, s, i).value <= Bar(r)
    ensures r.Some? ==> forall i | 0 <= i < r.value.index && CandidateScore(ev, s, i).Some? ::
                          CandidateScore(ev, s, i).value < r.value.score
  {
    if n == 0 then None
    else
      var prev := BestIndex(ev, s, n - 1);
      var score := CandidateScore(ev, s, n - 1);
      if score.Some? && score.value > Bar(prev) then Some(Pick(n - 1, score.value)) else prev
  }

  /** A vote as `speakerToFaceMatches` stores it: a track id and its score. */
  datatype Candidate = Candidate(faceID: nat, score: real)

  function Lift(ev: Evidence, p: Option<Pick>): Option<Candidate>
    requires p.Some? ==> p.value.index < |ev.faces|
  {
    match p
    case None => None
    case Some(pick) => Some(Candidate(ev.faces[pick.index].trackID, pick.score))
  }

  /** The face profile a sighting votes for, if any. */
  function BestMatch(ev: Evidence, s: Sighting): Option<Candidate>
    requires Probeable(ev, s.speakerID)
  {
    Lift(ev, BestIndex(ev, s, |ev.faces|))
  }

  /** The best match is a profile whose score beats 0.5 and every other profile's score, and no
      earlier profile scores as much; no match means no profile beats 0.5. */
  lemma BestMatchIsBest(ev: Evidence, s: Sighting)
    requires Probeable(ev, s.speakerID)
    ensures BestMatch(ev, s).None? ==>
      forall i | 0 <= i < |ev.faces| && CandidateScore(ev, s, i).Some? :: CandidateScore(ev, s, i).value <= VoteFloor
    ensures BestMatch(ev, s).Some? ==>
      exists k | 0 <= k < |ev.faces| ::
        && ev.faces[k].trackID == BestMatch(ev, s).value.faceID
        && CandidateScore(ev, s, k) == Some(BestMatch(ev, s).value.score)
        && BestMatch(ev, s).value.score > VoteFloor
        && (forall i | 0 <= i < |ev.faces| && CandidateScore(ev, s, i).Some? ::
              CandidateScore(ev, s, i).value <= BestMatch(ev, s).value.score)
        && (forall i | 0 <= i < k && CandidateScore(ev, s, i).Some? ::
              CandidateScore(ev, s, i).value < BestMatch(ev, s).value.score)
  {
    var p := BestIndex(ev, s, |ev.faces|);
    if p.Some? {
      var k := p.value.index;
      assert ev.faces[k].trackID == BestMatch(ev, s).value.faceID;
    }
  }

  /** The inner `for faceProfile in faceProfiles` loop of one sighting. */
  method FindBestMatch(ev: Evidence, table: AffinityTable, s: Sighting) returns (bestMatch: Option<Candidate>)
    requires Probeable(ev, s.speakerID) && TableHolds(table, ev)
    ensures bestMatch == BestMatch(ev, s)
  {
    bestMatch := None;
    ghost var pick: Option<Pick> := None;
    for f := 0 to |ev.faces|
      invariant pick == BestIndex(ev, s, f)
      invariant bestMatch == Lift(ev, pick)
    {
      var score := ScoreProfile(ev, table, s, f);
      if score.Some? && score.value > (if bestMatch.Some? then bestMatch.value.score else VoteFloor) {
        bestMatch := Some(Candidate(ev.faces[f].trackID, score.value));
        pick := Some(Pick(f, score.value));
      }
    }
  }

  /** The body of that loop for profile `f`: `None` where the source skips the profile. */
  method ScoreProfile(ev: Evidence, table: AffinityTable, s: Sighting, f: nat) returns (score: Option<real>)
    requires f < |ev.faces| && Probeable(ev, s.speakerID) && TableHolds(table, ev)
    ensures score == CandidateScore(ev, s, f)
  {
    var faceProfile := ev.faces[f];
    var closestIndex := Closest(faceProfile.timeRanges, s.time);
    if closestIndex.None? {
      return None;
    }
    var closestTimeRange := faceProfile.timeRanges[closestIndex.value];
    var timeDelta := Abs(closestTimeRange.timestamp - s.time);
    if timeDelta >= TimeGate {
      return None;
    }
    var iouScore := IoU(s.box, closestTimeRange.boundingBox);
    var temporalScore := TemporalScore(timeDelta);
    var segmentAffinity := Lookup(table, faceProfile.trackID, s.speakerID);
    var normalizedSegmentScore := Min(segmentAffinity / AffinityScale, 1.0);
    var spatialConsistency := CalculateSpatialConsistency(faceProfile.trackID, s.speakerID, ev.faces, ev.speakers);
    score := Some(iouScore * 0.3 + temporalScore * 0.2 + s.openness * 0.2 +
                  normalizedSegmentScore * 0.2 + spatialConsistency * 0.1);
  }

  // ---------------------------------------------------------------- votes

  datatype Vote = Vote(speakerID: int, faceID: nat, score: real)

  /** The track ids of the face profiles. */
  function TrackIDs(faces: seq<FaceProfile>): set<nat>
  {
    set i | 0 <= i < |faces| :: faces[i].trackID
  }

  /** What one observation of a sampled frame casts: a vote for its best match when its mouth is
      open wider than 0.03 and the match beats 0.5, else nothing. */
  function VoteOf(ev: Evidence, speakerID: int, t: real, d: Detection): (r: seq<Vote>)
    requires Probeable(ev, speakerID)
    ensures |r| <= 1
    ensures MouthOpenness(d) <= MouthFloor ==> r == []
    ensures forall v | v in r :: v.speakerID == speakerID && v.score > VoteFloor && v.faceID in TrackIDs(ev.faces)
  {
    var mouthOpenness := MouthOpenness(d);
    if mouthOpenness > MouthFloor then
      var s := Sighting(speakerID, t, d.box, mouthOpenness);
      var best := BestIndex(ev, s, |ev.faces|);
      match BestMatch(ev, s)
      case Some(m) =>
        assert m.faceID == ev.faces[best.value.index].trackID;
        if m.score > VoteFloor then [Vote(speakerID, m.faceID, m.score)] else []
      case None => []
    else []
  }

  /** An observation whose mouth is open wider than 0.03 casts exactly one vote, for its best
      match with that match's score, when that match beats 0.5; in every other case it casts none. */
  lemma VoteOfCasts(ev: Evidence, speakerID: int, t: real, d: Detection)
    requires Probeable(ev, speakerID)
    ensures var m := BestMatch(ev, Sighting(speakerID, t, d.box, MouthOpenness(d)));
      && (MouthOpenness(d) > MouthFloor && m.Some? && m.value.score > VoteFloor ==>
            VoteOf(ev, speakerID, t, d) == [Vote(speakerID, m.value.faceID, m.value.score)])
      && (VoteOf(ev, speakerID, t, d) != [] ==> MouthOpenness(d) > MouthFloor && m.Some? && m.value.score > VoteFloor)
  {
  }

  /** The votes cast by the observations of one frame, in order. */
  function DetectionVotes(ev: Evidence, speakerID: int, t: real, dets: seq<Detection>): (r: seq<Vote>)
    requires Probeable(ev, speakerID)
    ensures |r| <= |dets|
    ensures forall v | v in r :: v.speakerID == speakerID && v.score > VoteFloor && v.faceID in TrackIDs(ev.faces)
  {
    if |dets| == 0 then []
    else DetectionVotes(ev, speakerID, t, dets[..|dets| - 1]) + VoteOf(ev, speakerID, t, dets[|dets| - 1])
  }

  /** The votes of the frame fetched at an analysis time; a thrown error ends the analysis. */
  function FrameVotes(ev: Evidence, speakerID: int, t: real, grab: Grab): Result<seq<Vote>>
    requires Probeable(ev, speakerID)
  {
    match grab
    case Observed(dets) => Success(DetectionVotes(ev, speakerID, t, dets))
    case Skipped => Success([])
    case Failed(e) => Failure(e)
  }

  /** The frame sampled at `t`, requested at `t` rounded to the 1/600 s timescale. */
  function FrameAt(video: FrameSource, t: real): Grab
  {
    video(MediaTime(t))
  }

  /** The frame at the `k`-th analysis time of utterance `mu` throws. */
  ghost predicate FrameFails(video: FrameSource, mu: MatchedUtterance, k: nat)
  {
    k < |SampleTimes(mu.utterance)| && FrameAt(video, SampleTimes(mu.utterance)[k]).Failed?
  }

  /** The outcome of each analysis time of an utterance, in order. */
  function FrameResults(ev: Evidence, video: FrameSource, mu: MatchedUtterance): (rs: seq<Result<seq<Vote>>>)
    requires Probeable(ev, mu.speakerID)
    ensures |rs| == |SampleTimes(mu.utterance)|
    ensures forall k | 0 <= k < |rs| :: rs[k].Failure? <==> FrameFails(video, mu, k)
  {
    var times := SampleTimes(mu.utterance);
    seq(|times|, k requires 0 <= k < |times| => FrameVotes(ev, mu.speakerID, times[k], FrameAt(video, times[k])))
  }

  /** The votes of one utterance, or the error of its first frame that throws. */
  function UtteranceVotes(ev: Evidence, video: FrameSource, mu: MatchedUtterance): Result<seq<Vote>>
    requires Probeable(ev, mu.speakerID)
  {
    Sweep(FrameResults(ev, video, mu))
  }

  ghost predicate AllProbeable(ev: Evidence, us: seq<MatchedUtterance>)
  {
    forall i | 0 <= i < |us| :: Probeable(ev, us[i].speakerID)
  }

  /** The outcome of each attributed utterance, in order. */
  function UtteranceResults(ev: Evidence, video: FrameSource, us: seq<MatchedUtterance>): (rs: seq<Result<seq<Vote>>>)
    requires AllProbeable(ev, us)
    ensures |rs| == |us|
    ensures forall i | 0 <= i < |us| :: rs[i] == UtteranceVotes(ev, video, us[i])
  {
    seq(|us|, i requires 0 <= i < |us| && Probeable(ev, us[i].speakerID) => UtteranceVotes(ev, video, us[i]))
  }

  /** The votes of all attributed utterances, in order; the first frame that throws ends the
      analysis with its error. */
  function AllVotes(ev: Evidence, video: FrameSource, us: seq<MatchedUtterance>): Result<seq<Vote>>
    requires AllProbeable(ev, us)
  {
    Sweep(UtteranceResults(ev, video, us))
  }

  /** The analysis fails exactly when the frame at some analysis time of some utterance throws. */
  lemma AllVotesFail(ev: Evidence, video: FrameSource, us: seq<MatchedUtterance>)
    requires AllProbeable(ev, us)
    ensures AllVotes(ev, video, us).Failure? <==> exists i, k | 0 <= i < |us| :: FrameFails(video, us[i], k)
  {
    var rs := UtteranceResults(ev, video, us);
    SweepFails(rs);
    forall i | 0 <= i < |us|
      ensures rs[i].Failure? <==> exists k :: FrameFails(video, us[i], k)
    {
      SweepFails(FrameResults(ev, video, us[i]));
    }
  }

  /** Every vote goes to a tracked face, beats 0.5, and is for the speaker of some utterance. */
  lemma VotesAreWinners(ev: Evidence, video: FrameSource, us: seq<MatchedUtterance>, v: Vote)
    requires AllProbeable(ev, us)
    requires AllVotes(ev, video, us).Success? && v in AllVotes(ev, video, us).value
    ensures v.score > VoteFloor && v.faceID in TrackIDs(ev.faces)
    ensures exists i | 0 <= i < |us| :: us[i].speakerID == v.speakerID
  {
    var rs := UtteranceResults(ev, video, us);
    SweepCollects(rs, v);
    var i :| 0 <= i < |us| && rs[i].Success? && v in rs[i].value;
    var frames := FrameResults(ev, video, us[i]);
    SweepCollects(frames, v);
    var k :| 0 <= k < |frames| && frames[k].Success? && v in frames[k].value;
    var t := SampleTimes(us[i].utterance)[k];
    assert frames[k] == FrameVotes(ev, us[i].speakerID, t, FrameAt(video, t));
  }

  // ---------------------------------------------------------------- speakerToFaceMatches

  /** `speakerToFaceMatches`: the votes of each speaker, speakers in order of their first vote. */
  datatype VoteTable = VoteTable(order: seq<int>, matches: map<int, seq<Candidate>>)

  function AddVote(table: VoteTable, v: Vote): VoteTable
  {
    var c := Candidate(v.faceID, v.score);
    if v.speakerID in table.matches then
      table.(matches := table.matches[v.speakerID := table.matches[v.speakerID] + [c]])
    else
      VoteTable(table.order + [v.speakerID], table.matches[v.speakerID := [c]])
  }

  function TallyInto(table: VoteTable, votes: seq<Vote>): VoteTable
  {
    if |votes| == 0 then table
    else AddVote(TallyInto(table, votes[..|votes| - 1]), votes[|votes| - 1])
  }

  function Tally(votes: seq<Vote>): VoteTable
  {
    TallyInto(VoteTable([], map[]), votes)
  }

  lemma {:induction false} TallyIntoAppend(table: VoteTable, a: seq<Vote>, b: seq<Vote>)
    ensures TallyInto(table, a + b) == TallyInto(TallyInto(table, a), b)
  {
    if |b| > 0 {
      var n := |b| - 1;
      assert (a + b)[..|a + b| - 1] == a + b[..n];
      TallyIntoAppend(table, a, b[..n]);
    } else {
      assert a + b == a;
    }
  }

  /** The candidates voted for speaker `k`, in voting order. */
  function CandidatesOf(votes: seq<Vote>, k: int): seq<Candidate>
  {
    if |votes| == 0 then []
    else
      var v := votes[|votes| - 1];
      CandidatesOf(votes[..|votes| - 1], k) + if v.speakerID == k then [Candidate(v.faceID, v.score)] else []
  }

  /** The table lists every speaker with a vote exactly once, in order of first vote, each with
      all its votes in voting order and nothing else. */
  lemma {:induction false} TallyMatches(votes: seq<Vote>)
    ensures Distinct(Tally(votes).order)
    ensures forall k :: k in Tally(votes).order <==> k in Tally(votes).matches
    ensures forall k :: k in Tally(votes).matches <==> |CandidatesOf(votes, k)| > 0
    ensures forall k | k in Tally(votes).matches :: Tally(votes).matches[k] == CandidatesOf(votes, k)
  {
    if |votes| > 0 {
      var n := |votes| - 1;
      TallyMatches(votes[..n]);
      AddVoteTallies(Tally(votes[..n]), votes[..n], votes[n]);
      assert votes[..n] + [votes[n]] == votes;
    }
  }

  /** The four facts of `TallyMatches` about a table and the votes it was built from. */
  ghost predicate Tallies(table: VoteTable, votes: seq<Vote>)
  {
    && Distinct(table.order)
    && (forall k :: k in table.order <==> k in table.matches)
    && (forall k :: k in table.matches <==> |CandidatesOf(votes, k)| > 0)
    && (forall k | k in table.matches :: table.matches[k] == CandidatesOf(votes, k))
  }

  /** Adding one vote to a table built from `votes` gives the table built from `votes + [v]`. */
  lemma AddVoteTallies(table: VoteTable, votes: seq<Vote>, v: Vote)
    requires Tallies(table, votes)
    ensures Tallies(AddVote(table, v), votes + [v])
  {
    assert (votes + [v])[..|votes|] == votes;
    var c := Candidate(v.faceID, v.score);
    assert forall k :: CandidatesOf(votes + [v], k) == CandidatesOf(votes, k) + if v.speakerID == k then [c] else [];
  }

  // ---------------------------------------------------------------- the voting loops

  /** The body of the observation loop for one face observation: the vote it casts, if any. */
  method ObservationVote(ev: Evidence, affinity: AffinityTable, speakerID: int, analysisTime: real,
                         observation: Detection) returns (vote: Option<Vote>)
    requires Probeable(ev, speakerID) && TableHolds(affinity, ev)
    ensures VoteOf(ev, speakerID, analysisTime, observation) == if vote.Some? then [vote.value] else []
  {
    var mouthOpenness := MouthOpenness(observation);
    if mouthOpenness > MouthFloor {
      var bestMatch := FindBestMatch(ev, affinity, Sighting(speakerID, analysisTime, observation.box, mouthOpenness));
      if bestMatch.Some? && bestMatch.value.score > VoteFloor {
        return Some(Vote(speakerID, bestMatch.value.faceID, bestMatch.value.score));
      }
    }
    return None;
  }

  /** `for observation in observations`: add the frame's votes to the table. */
  method CastVotes(ev: Evidence, affinity: AffinityTable, speakerID: int, analysisTime: real,
                   observations: seq<Detection>, table: VoteTable) returns (tally: VoteTable)
    requires Probeable(ev, speakerID) && TableHolds(affinity, ev)
    ensures tally == TallyInto(table, DetectionVotes(ev, speakerID, analysisTime, observations))
  {
    tally := table;
    for o := 0 to |observations|
      invariant tally == TallyInto(table, DetectionVotes(ev, speakerID, analysisTime, observations[..o]))
    {
      assert observations[..o + 1][..o] == observations[..o];
      ghost var cast := DetectionVotes(ev, speakerID, analysisTime, observations[..o]);
      var vote := ObservationVote(ev, affinity, speakerID, analysisTime, observations[o]);
      if vote.Some? {
        TallyIntoAppend(table, cast, [vote.value]);
        tally := AddVote(tally, vote.value);
      } else {
        assert cast + VoteOf(ev, speakerID, analysisTime, observations[o]) == cast;
      }
    }
    assert observations[..|observations|] == observations;
  }

  /** The sampling loop of one utterance. */
  method CollectUtteranceVotes(ev: Evidence, affinity: AffinityTable, video: FrameSource,
                               mu: MatchedUtterance, table: VoteTable) returns (r: Result<VoteTable>)
    requires Probeable(ev, mu.speakerID) && TableHolds(affinity, ev)
    ensures UtteranceVotes(ev, video, mu).Failure? ==> r == Failure(UtteranceVotes(ev, video, mu).error)
    ensures UtteranceVotes(ev, video, mu).Success? ==> r == Success(TallyInto(table, UtteranceVotes(ev, video, mu).value))
  {
    var utterance := mu.utterance;
    ghost var frames := FrameResults(ev, video, mu);
    if utterance.endTime - utterance.startTime < MinUtteranceSpan {
      assert frames == [];
      return Success(table);
    }
    var count := SampleCount(utterance);
    var tally := table;
    ghost var cast: seq<Vote> := [];
    for sampleIndex := 0 to count
      invariant Sweep(frames[..sampleIndex]) == Success(cast)
      invariant tally == TallyInto(table, cast)
    {
      var analysisTime := SampleTime(utterance, sampleIndex);
      assert analysisTime == SampleTimes(utterance)[sampleIndex];
      assert frames[..sampleIndex + 1][..sampleIndex] == frames[..sampleIndex];
      var grab := video(MediaTime(analysisTime));
      assert frames[sampleIndex] == FrameVotes(ev, mu.speakerID, analysisTime, grab);
      match grab
      case Failed(e) =>
        SweepPersists(frames, sampleIndex + 1);
        return Failure(e);
      case Skipped =>
        assert cast + [] == cast;
      case Observed(observations) =>
        tally := CastVotes(ev, affinity, mu.speakerID, analysisTime, observations, tally);
        TallyIntoAppend(table, cast, DetectionVotes(ev, mu.speakerID, analysisTime, observations));
        cast := cast + DetectionVotes(ev, mu.speakerID, analysisTime, observations);
    }
    assert frames[..count] == frames;
    return Success(tally);
  }

  /** `for (utterance, speakerID) in matchedUtterances`: the vote table of all utterances, or the
      error of the first frame that throws. */
  method CollectVotes(ev: Evidence, affinity: AffinityTable, video: FrameSource, matchedUtterances: seq<MatchedUtterance>)
    returns (r: Result<VoteTable>)
    requires AllProbeable(ev, matchedUtterances) && TableHolds(affinity, ev)
    ensures AllVotes(ev, video, matchedUtterances).Failure? ==> r == Failure(AllVotes(ev, video, matchedUtterances).error)
    ensures AllVotes(ev, video, matchedUtterances).Success? ==> r == Success(Tally(AllVotes(ev, video, matchedUtterances).value))
  {
    ghost var results := UtteranceResults(ev, video, matchedUtterances);
    var tally := VoteTable([], map[]);
    ghost var cast: seq<Vote> := [];
    for i := 0 to |matchedUtterances|
      invariant Sweep(results[..i]) == Success(cast)
      invariant tally == Tally(cast)
    {
      assert results[..i + 1][..i] == results[..i];
      var next := CollectUtteranceVotes(ev, affinity, video, matchedUtterances[i], tally);
      match next
      case Failure(e) =>
        SweepPersists(results, i + 1);
        return Failure(e);
      case Success(t) =>
        var vs := UtteranceVotes(ev, video, matchedUtterances[i]).value;
        TallyIntoAppend(VoteTable([], map[]), cast, vs);
        tally := t;
        cast := cast + vs;
    }
    assert results[..|matchedUtterances|] == results;
    return Success(tally);
  }
}
