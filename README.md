# Active speaker detection: a verified model of the fusion core

This project models the decision logic of ActiveSpeakerDetectionStarter, an iOS app that works out
who is speaking in a video. The app combines three sources:

- a face tracker over sampled video frames (`VisionAnalyzer.detectAndTrackFaces`);
- speaker diarization and speech recognition (`SpeechAnalyzer`): diarized segments are grouped
  into one profile per speaker, and each recognised utterance goes to the speaker whose segments
  overlap it most;
- the coordinator (`CombinedAnalysisCoordinator`), which matches faces to speakers:
  - a coarse face/speaker affinity table from speaking samples inside each speaker segment;
  - a vote per sampled instant of every attributed utterance, for the best-scoring face profile
    (IoU, temporal distance, mouth openness, affinity, spatial consistency);
  - per speaker, the face with the largest summed vote score;
  - a fallback on the coarse affinity for speakers without votes;
  - the final list sorted by speaker id;
  - the playback-time "currently speaking" flags and the current-speaker lookup.

Platform calls are inputs to the model:

- A frame grab plus the landmark request is a `FrameSource`. It maps a media time to the
  detections in that frame, to nothing usable, or to a thrown error.
- The diarization engine's output is a sequence of `DiarizedSegment`s.
- The recogniser's output is a sequence of `Utterance`s.

UUID track ids are natural numbers. Double, Float and CGFloat are exact `real`s.

Modules, one file each:

| file | module | what it holds |
|---|---|---|
| wrappers.dfy | Wrappers | `Option`, `Result`, the first-error-wins `Sweep` over a sequence of results, `Somes` (the values of the present entries) |
| numeric.dfy | Numeric | Swift's `max`/`min`, `abs`, sums and means |
| geometry.dfy | Geometry | points, rectangles, positive-area boxes, intersection over union |
| sequences.dfy | Sequences | the sort by a real key, distinctness, first-appearance order, subsequences |
| models.dfy | Models | the records of Models.swift, detections, frame grabs, media time, mouth openness |
| face_tracker.dfy | FaceTracker | the tracker's tables as a class, the frame loop, finalisation, and the same walk as a fold over the frames (`Tracked`) |
| speech_analysis.dfy | SpeechAnalysis | grouping diarized segments, attributing utterances |
| affinity.dfy | Affinity | the coarse affinity table, nearest samples, spatial consistency |
| voting.dfy | Voting | utterance sampling, candidate scores, the best match, vote collection |
| fusion.dfy | Fusion | aggregation per speaker, the fallback, the final sorted list and its properties |
| playback.dfy | Playback | the published list as a class: the flag refresh and the current-speaker query |

## Model

| member | source | states |
|---|---|---|
| Wrappers.SweepFails | SpeechDiarizationStarter/ASDFiles/AnalyzerCoOrdinator.swift:112-126 | a sequence of fallible steps fails exactly when one step fails, and then with the first failing step's error |
| Wrappers.SweepCollects | SpeechDiarizationStarter/ASDFiles/AnalyzerCoOrdinator.swift:112-197 | everything a successful run collects was produced by one of its steps |
| Wrappers.SweepPersists | SpeechDiarizationStarter/ASDFiles/AnalyzerCoOrdinator.swift:121-126 | once a prefix of the steps has thrown, later steps do not change the outcome |
| Wrappers.SomesMember | SpeechDiarizationStarter/ASDFiles/AnalyzerCoOrdinator.swift:212-219 | every value the conditional appends comes from a present entry |
| Wrappers.SomesContain | SpeechDiarizationStarter/ASDFiles/AnalyzerCoOrdinator.swift:212-219 | every present entry is appended |
| Wrappers.SomesDistinct | SpeechDiarizationStarter/ASDFiles/AnalyzerCoOrdinator.swift:212-219 | present entries with pairwise different keys give a list with pairwise different keys |
| Geometry.IoU | SpeechDiarizationStarter/ASDFiles/AnalyzerCoOrdinator.swift:164-168 | intersection over union of two positive-area boxes lies in [0, 1], and is 0 when they do not overlap |
| Geometry.IntersectionAreaBounds | SpeechDiarizationStarter/ASDFiles/AnalyzerCoOrdinator.swift:164-168 | the intersection area is non-negative and no larger than either box, so the IoU denominator is positive |
| Geometry.IoUOfItself | SpeechDiarizationStarter/ASDFiles/AnalyzerCoOrdinator.swift:164-168 | a box has IoU 1 with itself |
| Sequences.SortBy | SpeechDiarizationStarter/ASDFiles/VisionAnalyzer.swift:174 | the result is sorted by the key and is a permutation of the input |
| Sequences.InsertBy | SpeechDiarizationStarter/ASDFiles/AnalyzerCoOrdinator.swift:248 | inserting into a sorted list keeps it sorted and adds exactly the new element |
| Sequences.SortKeepsDistinctKeys | SpeechDiarizationStarter/ASDFiles/AnalyzerCoOrdinator.swift:248 | sorting a list whose keys are distinct keeps them distinct |
| Sequences.FirstAppearance | SpeechDiarizationStarter/ASDFiles/SpeechAnalyzer.swift:95-106 | the keys of the speaker map: distinct, and exactly the ids that occur |
| Models.MediaTimeMonotone | SpeechDiarizationStarter/ASDFiles/VisionAnalyzer.swift:49 | rounding to 1/600 s ticks keeps non-negative times non-negative and in order |
| Models.HighestY | SpeechDiarizationStarter/ASDFiles/VisionAnalyzer.swift:86-89 | `max(by:)?.y ?? 0`: the largest y of the contour, attained by a point; 0 for no points |
| Models.LowestY | SpeechDiarizationStarter/ASDFiles/VisionAnalyzer.swift:86-89 | `min(by:)?.y ?? 0`: the smallest y of the contour, attained by a point; 0 for no points |
| Models.VerticalSpan | SpeechDiarizationStarter/ASDFiles/VisionAnalyzer.swift:86-89 | the vertical lip span is non-negative, bounds every difference of two points' y, and is such a difference when there are points |
| Models.MouthOpenness | SpeechDiarizationStarter/ASDFiles/VisionAnalyzer.swift:79-92 | openness is non-negative, 0 without both lip contours, else the larger of the two spans times the box height |
| Models.LargerSpan | SpeechDiarizationStarter/ASDFiles/VisionAnalyzer.swift:91 | the result dominates both spans scaled by the height and equals one of them |
| FaceTracker.SamplingInterval | SpeechDiarizationStarter/ASDFiles/VisionAnalyzer.swift:41-42 | the interval is at least 1, and it is the integer quotient of the frame count by 300 when that is positive |
| FaceTracker.FrameIndices | SpeechDiarizationStarter/ASDFiles/VisionAnalyzer.swift:48 | the visited frames are 0, k, 2k, … , all below the frame count, enough of them to cover it |
| FaceTracker.FrameTimeMonotone | SpeechDiarizationStarter/ASDFiles/VisionAnalyzer.swift:48-49 | later frames have later or equal non-negative media times |
| FaceTracker.FirstQualifying | SpeechDiarizationStarter/ASDFiles/VisionAnalyzer.swift:99-105 | the track joined is the first in iteration order within distance 0.15 and under a second old; none qualifies otherwise |
| FaceTracker.FindTrack | SpeechDiarizationStarter/ASDFiles/VisionAnalyzer.swift:99-115 | the search loop with its `break` finds exactly that first qualifying track |
| FaceTracker.Smooth | SpeechDiarizationStarter/ASDFiles/VisionAnalyzer.swift:107-110 | the smoothed centre lies between the old average and the new centre in each coordinate, and stays in the unit square |
| FaceTracker.RecentTracks | SpeechDiarizationStarter/ASDFiles/VisionAnalyzer.swift:144-147 | after a frame exactly the tracks seen at most a second ago stay active |
| FaceTracker.FirstSampleNeverSpeaking | SpeechDiarizationStarter/ASDFiles/VisionAnalyzer.swift:122-129 | the first sample of a track is never flagged as speaking, because the average already includes it |
| FaceTracker.RecordedChronological | SpeechDiarizationStarter/ASDFiles/VisionAnalyzer.swift:48-49 | the samples of a recorded track are in non-decreasing time order |
| FaceTracker.RecordedFlags | SpeechDiarizationStarter/ASDFiles/VisionAnalyzer.swift:122-141 | every recorded sample has non-negative openness and is speaking iff its openness exceeds max(0.05, 1.5 x the running mean) |
| FaceTracker.RecordedSampleInv | SpeechDiarizationStarter/ASDFiles/VisionAnalyzer.swift:122-141 | a non-empty recorded history has the per-sample invariant finalisation relies on |
| FaceTracker.TrackInvStart | SpeechDiarizationStarter/ASDFiles/VisionAnalyzer.swift:122-129 | the first sample of a track establishes the running-sum invariant |
| FaceTracker.TrackInvExtend | SpeechDiarizationStarter/ASDFiles/VisionAnalyzer.swift:122-141 | appending a later sample with the flag the source computes keeps the running-sum invariant |
| FaceTracker.AppendSampleGrows | SpeechDiarizationStarter/ASDFiles/VisionAnalyzer.swift:138-141 | appending a sample only extends one history and never drops or rewrites another |
| FaceTracker.TotalSamplesAppend | SpeechDiarizationStarter/ASDFiles/VisionAnalyzer.swift:138-141 | each detection adds exactly one sample to the histories in total |
| FaceTracker.TablesRecord | SpeechDiarizationStarter/ASDFiles/VisionAnalyzer.swift:122-141 | recording a sample keeps the history, openness-history and openness-sum tables consistent |
| FaceTracker.AssociateKeepsInv | SpeechDiarizationStarter/ASDFiles/VisionAnalyzer.swift:99-120 | joining or opening a track keeps the active tracks' ids distinct and within the histories |
| FaceTracker.Finalists | SpeechDiarizationStarter/ASDFiles/VisionAnalyzer.swift:150-172 | exactly the histories with at least ten samples become profiles, built from that history, once each, in track order |
| FaceTracker.FinalistsAreFinalised | SpeechDiarizationStarter/ASDFiles/VisionAnalyzer.swift:150-174 | every returned profile has at least ten samples, its mean midpoint as position, its openness sequence and mean, and a first sample not speaking |
| FaceTracker.RecordKeepsInv | SpeechDiarizationStarter/ASDFiles/VisionAnalyzer.swift:122-141 | recording a flagged sample keeps the openness tables in agreement with the histories, keeps the active set well formed and adds one sample |
| FaceTracker.ObserveStep | SpeechDiarizationStarter/ASDFiles/VisionAnalyzer.swift:75-141 | one observation keeps every active track pointing at an existing history and adds exactly one sample |
| FaceTracker.ObserveAll | SpeechDiarizationStarter/ASDFiles/VisionAnalyzer.swift:75-141 | the observations of a frame keep every active track pointing at an existing history and add one sample per detection |
| FaceTracker.FrameStep | SpeechDiarizationStarter/ASDFiles/VisionAnalyzer.swift:75-147 | a frame, with eviction, keeps every active track pointing at an existing history and adds one sample per detection |
| FaceTracker.TrackFramesFails | SpeechDiarizationStarter/ASDFiles/VisionAnalyzer.swift:48-53 | the frame walk fails exactly when some analysed frame's grab throws, with the error of the first such frame |
| FaceTracker.LaterFailure | SpeechDiarizationStarter/ASDFiles/VisionAnalyzer.swift:48-53 | a frame whose grab does not throw does not change which later frame's error the walk returns |
| FaceTracker.TrackedOutcome | SpeechDiarizationStarter/ASDFiles/VisionAnalyzer.swift:33-175 | `detectAndTrackFaces` throws exactly when an analysed frame's grab throws, with the first such error, and otherwise returns profiles sorted by mean x |
| FaceTracker.TrackFramesCounts | SpeechDiarizationStarter/ASDFiles/VisionAnalyzer.swift:48-147 | a completed walk adds to the histories exactly as many samples as the analysed frames deliver observations |
| FaceTracker.ZeroRateTracksNothing | SpeechDiarizationStarter/ASDFiles/VisionAnalyzer.swift:40-48 | a track reporting a frame rate of 0 or below yields no analysed frames, and the result is an empty profile list without error |
| FaceTracker.Tracker.constructor | SpeechDiarizationStarter/ASDFiles/VisionAnalyzer.swift:44-46 | the three tracker dictionaries start empty |
| FaceTracker.Tracker.Observe | SpeechDiarizationStarter/ASDFiles/VisionAnalyzer.swift:75-141 | one observation updates the active tracks by the join rule and appends one sample to the joined or new track's history |
| FaceTracker.Tracker.Join | SpeechDiarizationStarter/ASDFiles/VisionAnalyzer.swift:99-120 | a detection refreshes the first qualifying track with its box, time and smoothed centre, or opens a new track at its centre |
| FaceTracker.Tracker.NextSample | SpeechDiarizationStarter/ASDFiles/VisionAnalyzer.swift:122-139 | the track's next openness history and sum extend the old ones by this sample, and the sample is the one the history dictates |
| FaceTracker.Tracker.Record | SpeechDiarizationStarter/ASDFiles/VisionAnalyzer.swift:122-141 | the openness history, sum and sample history of the track each grow by this sample, flagged as the source computes |
| FaceTracker.Tracker.EvictIdle | SpeechDiarizationStarter/ASDFiles/VisionAnalyzer.swift:144-147 | the active tracks become exactly the recent ones; histories are kept |
| FaceTracker.Tracker.ProcessFrame | SpeechDiarizationStarter/ASDFiles/VisionAnalyzer.swift:48-147 | the new active set and histories are exactly one `FrameStep` of the old ones; a frame adds one sample per detection, only extends histories, and leaves only tracks seen within a second active |
| FaceTracker.Tracker.ObserveFrame | SpeechDiarizationStarter/ASDFiles/VisionAnalyzer.swift:75-141 | the observation loop of a frame leaves exactly the state `ObserveAll` gives, adds one sample per detection and only extends histories |
| FaceTracker.Tracker.Finalize | SpeechDiarizationStarter/ASDFiles/VisionAnalyzer.swift:150-174 | the result is the finalists sorted by mean x |
| FaceTracker.CollectFinalists | SpeechDiarizationStarter/ASDFiles/VisionAnalyzer.swift:150-172 | the loop over the histories builds exactly the finalists, in track order |
| FaceTracker.DetectAndTrackFaces | SpeechDiarizationStarter/ASDFiles/VisionAnalyzer.swift:33-175 | the result is exactly `Tracked`, the walk over the sampled frames; the profiles are sorted by mean x and all finalised |
| SpeechAnalysis.SegmentsOf | SpeechDiarizationStarter/ASDFiles/SpeechAnalyzer.swift:95-103 | a speaker's segment list is empty for an absent id and non-empty for a present one |
| SpeechAnalysis.SegmentsOfSound | SpeechDiarizationStarter/ASDFiles/SpeechAnalyzer.swift:97-103 | a speaker's list holds only time ranges of that speaker's segments |
| SpeechAnalysis.SegmentsOfConcat | SpeechDiarizationStarter/ASDFiles/SpeechAnalyzer.swift:97-103 | collecting a speaker's segments distributes over concatenation of the input |
| SpeechAnalysis.SegmentsOfSingle | SpeechDiarizationStarter/ASDFiles/SpeechAnalyzer.swift:97-103 | a single segment contributes its time range to its own speaker only |
| SpeechAnalysis.SegmentsOfPlaces | SpeechDiarizationStarter/ASDFiles/SpeechAnalyzer.swift:97-103 | each segment sits in its speaker's list between that speaker's earlier and later segments |
| SpeechAnalysis.CountOverAppend | SpeechDiarizationStarter/ASDFiles/SpeechAnalyzer.swift:97-103 | appending one diarized segment adds one to the count of exactly the list of its speaker |
| SpeechAnalysis.GroupingConserves | SpeechDiarizationStarter/ASDFiles/SpeechAnalyzer.swift:95-103 | the speaker map's lists together hold as many segments as the input |
| SpeechAnalysis.SegmentTotalOfProfiles | SpeechDiarizationStarter/ASDFiles/SpeechAnalyzer.swift:105-114 | the profiles hold as many segments as the map's lists they were built from |
| SpeechAnalysis.GroupingOnePerSpeaker | SpeechDiarizationStarter/ASDFiles/SpeechAnalyzer.swift:95-116 | one profile per distinct speaker id, every input id has one, each has segments, and no face or embedding |
| SpeechAnalysis.GroupingKeepsEverySegment | SpeechDiarizationStarter/ASDFiles/SpeechAnalyzer.swift:95-116 | every diarized segment lands in the profiles once |
| SpeechAnalysis.GroupingPlacesSegment | SpeechDiarizationStarter/ASDFiles/SpeechAnalyzer.swift:95-116 | each diarized segment is in its own speaker's profile, after that speaker's earlier segments and before its later ones |
| SpeechAnalysis.GroupSegments | SpeechDiarizationStarter/ASDFiles/SpeechAnalyzer.swift:95-116 | the two loops build exactly the grouping |
| SpeechAnalysis.SegmentOverlap | SpeechDiarizationStarter/ASDFiles/SpeechAnalyzer.swift:136-142 | a segment's overlap is non-negative, at most the utterance length, and positive iff min(ends) > max(starts) |
| SpeechAnalysis.TotalOverlap | SpeechDiarizationStarter/ASDFiles/SpeechAnalyzer.swift:134-143 | a speaker's total overlap is non-negative, and positive iff some segment overlaps |
| SpeechAnalysis.Choose | SpeechDiarizationStarter/ASDFiles/SpeechAnalyzer.swift:130-149 | the chosen overlap is the largest total overlap, held by the first speaker reaching it; (-1, 0) when nothing overlaps |
| SpeechAnalysis.Attribute | SpeechDiarizationStarter/ASDFiles/SpeechAnalyzer.swift:125-153 | an utterance is attributed iff it lasts at least 0.5 s, its best overlap is positive and the best id is non-negative |
| SpeechAnalysis.AttributionsSound | SpeechDiarizationStarter/ASDFiles/SpeechAnalyzer.swift:119-157 | every output pairs an input utterance of at least 0.5 s with a non-negative id of a profile of largest positive overlap |
| SpeechAnalysis.AttributedWhenOverlapping | SpeechDiarizationStarter/ASDFiles/SpeechAnalyzer.swift:125-153 | with non-negative ids, a long enough utterance that some segment overlaps is attributed |
| SpeechAnalysis.AttributionsContain | SpeechDiarizationStarter/ASDFiles/SpeechAnalyzer.swift:119-157 | each attributed utterance appears in the output with its speaker |
| SpeechAnalysis.AttributionsComplete | SpeechDiarizationStarter/ASDFiles/SpeechAnalyzer.swift:119-157 | with non-negative ids, every long enough utterance that some segment overlaps appears in the output |
| SpeechAnalysis.AttributionsInOrder | SpeechDiarizationStarter/ASDFiles/SpeechAnalyzer.swift:125-156 | the output's utterances are a subsequence of the input, in input order |
| SpeechAnalysis.MatchUtterancesToSpeakers | SpeechDiarizationStarter/ASDFiles/SpeechAnalyzer.swift:119-157 | the nested loops produce exactly the attributions |
| Affinity.HalfAtMost | SpeechDiarizationStarter/ASDFiles/AnalyzerCoOrdinator.swift:102 | an offset of at most half a positive duration divides it to at most 0.5, exactly 0.5 at the half |
| Affinity.TimeWeight | SpeechDiarizationStarter/ASDFiles/AnalyzerCoOrdinator.swift:102 | the weight of a sample inside a segment is in [0, 1], at least 0.5 for a proper segment and exactly 0.5 at its ends, and 0 for a zero-length one |
| Affinity.SampleScore | SpeechDiarizationStarter/ASDFiles/AnalyzerCoOrdinator.swift:95-104 | only speaking samples inside the segment contribute, between half their openness and their openness |
| Affinity.WeightedBounds | SpeechDiarizationStarter/ASDFiles/AnalyzerCoOrdinator.swift:103 | an openness weighted by a weight in [0, 1] stays between 0 and the openness, and above half of it when the weight is |
| Affinity.SegmentScoreBounds | SpeechDiarizationStarter/ASDFiles/AnalyzerCoOrdinator.swift:95-104 | a segment's score lies between half and all of the speaking openness inside it, and is 0 for a zero-length segment |
| Affinity.FaceSumNonNegative | SpeechDiarizationStarter/ASDFiles/AnalyzerCoOrdinator.swift:94-107 | summing one segment's scores over the faces stays non-negative |
| Affinity.SegmentsSumNonNegative | SpeechDiarizationStarter/ASDFiles/AnalyzerCoOrdinator.swift:90-107 | summing over a speaker's segments stays non-negative |
| Affinity.CoarseAffinityNonNegative | SpeechDiarizationStarter/ASDFiles/AnalyzerCoOrdinator.swift:89-109 | every coarse affinity is non-negative |
| Affinity.CoarseAffinityOfAbsentSpeaker | SpeechDiarizationStarter/ASDFiles/AnalyzerCoOrdinator.swift:89-109 | a speaker without a profile has affinity 0 with every face |
| Affinity.BuildAffinityTable | SpeechDiarizationStarter/ASDFiles/AnalyzerCoOrdinator.swift:88-109 | the `+=` loops leave every (face, speaker) entry, defaulting to 0, equal to the coarse affinity |
| Affinity.Closest | SpeechDiarizationStarter/ASDFiles/AnalyzerCoOrdinator.swift:157-159 | `min(by:)` on the time distance: the first sample nearest to the time; none for no samples |
| Affinity.FirstSpeaker | SpeechDiarizationStarter/ASDFiles/AnalyzerCoOrdinator.swift:258 | `first(where:)` on the speaker id: the first profile with that id, or none |
| Affinity.FirstFace | SpeechDiarizationStarter/ASDFiles/AnalyzerCoOrdinator.swift:259 | `first(where:)` on the track id: the first profile with that id, or none |
| Affinity.ProbeTimes | SpeechDiarizationStarter/ASDFiles/AnalyzerCoOrdinator.swift:268-270 | a segment is probed at five points running from its start to its end |
| Affinity.NearestTo | SpeechDiarizationStarter/ASDFiles/AnalyzerCoOrdinator.swift:270-280 | one nearest sample per probe time when the face has samples, none otherwise |
| Affinity.Probes | SpeechDiarizationStarter/ASDFiles/AnalyzerCoOrdinator.swift:265-281 | five collected samples per segment, or none for a face without samples |
| Affinity.PositionsConcat | SpeechDiarizationStarter/ASDFiles/AnalyzerCoOrdinator.swift:274-278 | appending collected samples appends their positions and timestamps |
| Affinity.SquaredDeviations | SpeechDiarizationStarter/ASDFiles/AnalyzerCoOrdinator.swift:287-294 | a sum of squared deviations is non-negative |
| Affinity.PositionVariance | SpeechDiarizationStarter/ASDFiles/AnalyzerCoOrdinator.swift:285-289 | the position variance is non-negative |
| Affinity.TimeVariance | SpeechDiarizationStarter/ASDFiles/AnalyzerCoOrdinator.swift:291-294 | the time variance is non-negative |
| Affinity.SpatialScore | SpeechDiarizationStarter/ASDFiles/AnalyzerCoOrdinator.swift:283-297 | the score is in [0, 1]: 1 for fewer than two positions, else the positive `1/(1 + 0.7 posVar + 0.3 timeVar)` |
| Affinity.SpatialConsistency | SpeechDiarizationStarter/ASDFiles/AnalyzerCoOrdinator.swift:252-298 | spatial consistency is in [0, 1], and 0 when the speaker or the face is missing |
| Affinity.SpatialConsistencyCases | SpeechDiarizationStarter/ASDFiles/AnalyzerCoOrdinator.swift:262-297 | with both present it is 1 when nothing is collected, else the variance formula over five probes per segment |
| Affinity.CalculateSpatialConsistency | SpeechDiarizationStarter/ASDFiles/AnalyzerCoOrdinator.swift:252-298 | the collecting loops compute exactly the spatial consistency |
| Affinity.ProbeSegment | SpeechDiarizationStarter/ASDFiles/AnalyzerCoOrdinator.swift:266-280 | the inner stride loop appends the positions and timestamps of the samples nearest the five probes |
| Voting.SampleCount | SpeechDiarizationStarter/ASDFiles/AnalyzerCoOrdinator.swift:115-118 | `max(1, Int(duration / 0.25))`: at least 1, and the number of whole 0.25 s steps in the span |
| Voting.SampleTimeWithin | SpeechDiarizationStarter/ASDFiles/AnalyzerCoOrdinator.swift:116-119 | every sample time lies in [start, end) |
| Voting.SampleTimes | SpeechDiarizationStarter/ASDFiles/AnalyzerCoOrdinator.swift:112-119 | utterances shorter than 0.3 s are not sampled; otherwise the count above, from the start, all inside [start, end) |
| Voting.TemporalScore | SpeechDiarizationStarter/ASDFiles/AnalyzerCoOrdinator.swift:170 | inside the 0.5 s gate the temporal score is in (0, 1] |
| Voting.CandidateScore | SpeechDiarizationStarter/ASDFiles/AnalyzerCoOrdinator.swift:156-185 | a profile is scored iff its nearest sample is less than 0.5 s away, and the score is at most 0.8 + 0.2 x openness |
| Voting.BestIndex | SpeechDiarizationStarter/ASDFiles/AnalyzerCoOrdinator.swift:154-190 | the kept candidate beats 0.5 and every other score, and no earlier profile scores as much |
| Voting.BestMatchIsBest | SpeechDiarizationStarter/ASDFiles/AnalyzerCoOrdinator.swift:154-194 | the best match is the first profile of maximal score above 0.5; no match means no score above 0.5 |
| Voting.FindBestMatch | SpeechDiarizationStarter/ASDFiles/AnalyzerCoOrdinator.swift:154-190 | the running-best loop computes exactly the best match |
| Voting.ScoreProfile | SpeechDiarizationStarter/ASDFiles/AnalyzerCoOrdinator.swift:157-185 | the loop body computes exactly one profile's candidate score |
| Voting.VoteOf | SpeechDiarizationStarter/ASDFiles/AnalyzerCoOrdinator.swift:131-194 | an observation casts at most one vote, none when openness is at most 0.03, for the utterance's speaker, a tracked face and a score above 0.5 |
| Voting.VoteOfCasts | SpeechDiarizationStarter/ASDFiles/AnalyzerCoOrdinator.swift:131-194 | an observation open wider than 0.03 whose best match beats 0.5 casts exactly that match's vote, and no other observation casts one |
| Voting.DetectionVotes | SpeechDiarizationStarter/ASDFiles/AnalyzerCoOrdinator.swift:131-195 | a frame casts at most one vote per observation, each for the speaker, a tracked face and above 0.5 |
| Voting.FrameResults | SpeechDiarizationStarter/ASDFiles/AnalyzerCoOrdinator.swift:118-196 | one result per sample time, a failure exactly where that frame's grab throws |
| Voting.UtteranceResults | SpeechDiarizationStarter/ASDFiles/AnalyzerCoOrdinator.swift:112-197 | one result per matched utterance, in order |
| Voting.AllVotesFail | SpeechDiarizationStarter/ASDFiles/AnalyzerCoOrdinator.swift:112-197 | vote collection fails iff the grab of some sampled frame of some utterance throws |
| Voting.VotesAreWinners | SpeechDiarizationStarter/ASDFiles/AnalyzerCoOrdinator.swift:187-194 | every collected vote scores above 0.5, names a tracked face and a speaker of some matched utterance |
| Voting.TallyIntoAppend | SpeechDiarizationStarter/ASDFiles/AnalyzerCoOrdinator.swift:193 | tallying two vote runs one after the other is tallying their concatenation |
| Voting.AddVoteTallies | SpeechDiarizationStarter/ASDFiles/AnalyzerCoOrdinator.swift:193 | appending one vote to the map keeps it the tally of the votes so far plus that vote |
| Voting.TallyMatches | SpeechDiarizationStarter/ASDFiles/AnalyzerCoOrdinator.swift:193 | the vote map has distinct keys, exactly the speakers with votes, each holding that speaker's votes in order |
| Voting.ObservationVote | SpeechDiarizationStarter/ASDFiles/AnalyzerCoOrdinator.swift:131-194 | one observation casts the vote the model's vote function gives, or none exactly when it gives none |
| Voting.CastVotes | SpeechDiarizationStarter/ASDFiles/AnalyzerCoOrdinator.swift:131-195 | the observation loop appends exactly the frame's votes to the vote map |
| Voting.CollectUtteranceVotes | SpeechDiarizationStarter/ASDFiles/AnalyzerCoOrdinator.swift:113-196 | the sample loop either throws the first failing grab's error or appends exactly the utterance's votes |
| Voting.CollectVotes | SpeechDiarizationStarter/ASDFiles/AnalyzerCoOrdinator.swift:111-197 | step 2 throws the first grab error, or yields exactly the tally of all votes |
| Fusion.FaceScoresSum | SpeechDiarizationStarter/ASDFiles/AnalyzerCoOrdinator.swift:203-206 | the `faceScores` dictionary has distinct keys, exactly the voted faces, each with its summed vote score |
| Fusion.FaceTotalOfUnvoted | SpeechDiarizationStarter/ASDFiles/AnalyzerCoOrdinator.swift:203-206 | a face without votes sums to 0 |
| Fusion.TopIndex | SpeechDiarizationStarter/ASDFiles/AnalyzerCoOrdinator.swift:208 | `max(by:)` on the sums: an entry of maximal sum, the first one among equals |
| Fusion.TopFaceMostVoted | SpeechDiarizationStarter/ASDFiles/AnalyzerCoOrdinator.swift:203-208 | a speaker with votes gets a voted face whose summed score is at least every voted face's |
| Fusion.PositionOf | SpeechDiarizationStarter/ASDFiles/AnalyzerCoOrdinator.swift:210-215 | a position is found exactly for a tracked face |
| Fusion.AggregateSpeakerFacts | SpeechDiarizationStarter/ASDFiles/AnalyzerCoOrdinator.swift:200-221 | an entry is the top-voted face with its position and the speaker's segments; published whenever votes, profile and face exist, never without votes or profile |
| Fusion.SumFaceScores | SpeechDiarizationStarter/ASDFiles/AnalyzerCoOrdinator.swift:203-206 | the `+=` loop builds exactly the face score table |
| Fusion.AggregateVotes | SpeechDiarizationStarter/ASDFiles/AnalyzerCoOrdinator.swift:201-220 | the loop body computes exactly the speaker's aggregate entry |
| Fusion.DetermineBestFaces | SpeechDiarizationStarter/ASDFiles/AnalyzerCoOrdinator.swift:199-221 | step 3 appends exactly the aggregate entries of the speakers in vote-map order |
| Fusion.FallbackPick | SpeechDiarizationStarter/ASDFiles/AnalyzerCoOrdinator.swift:228-234 | the kept face has positive affinity at least every face's, and no earlier face reaches it |
| Fusion.FallbackEntryFacts | SpeechDiarizationStarter/ASDFiles/AnalyzerCoOrdinator.swift:227-244 | an unmatched speaker is published iff some face has positive affinity, with a tracked face, its position and the speaker's segments |
| Fusion.FallbackFaceIsBest | SpeechDiarizationStarter/ASDFiles/AnalyzerCoOrdinator.swift:228-244 | the fallback face is the first profile of largest coarse affinity with the speaker |
| Fusion.Unmatched | SpeechDiarizationStarter/ASDFiles/AnalyzerCoOrdinator.swift:224-225 | exactly the profiles whose id was not matched in step 3 |
| Fusion.FindFallbackFace | SpeechDiarizationStarter/ASDFiles/AnalyzerCoOrdinator.swift:228-234 | the running-best loop finds exactly the fallback pick |
| Fusion.FallbackFor | SpeechDiarizationStarter/ASDFiles/AnalyzerCoOrdinator.swift:228-244 | the loop body computes exactly the speaker's fallback entry |
| Fusion.HandleUnmatchedSpeakers | SpeechDiarizationStarter/ASDFiles/AnalyzerCoOrdinator.swift:223-245 | step 4 appends exactly the fallback entries of the unmatched speakers, in profile order |
| Fusion.MatchFacesToSpeakers | SpeechDiarizationStarter/ASDFiles/AnalyzerCoOrdinator.swift:79-250 | the whole procedure computes exactly the matching: the first grab error, or the sorted entries |
| Fusion.PrimaryEntries | SpeechDiarizationStarter/ASDFiles/AnalyzerCoOrdinator.swift:199-221 | step 3's entries have distinct speaker ids, each a voted speaker's aggregate |
| Fusion.PrimaryContains | SpeechDiarizationStarter/ASDFiles/AnalyzerCoOrdinator.swift:199-221 | every voted speaker with an aggregate entry is in step 3's list |
| Fusion.UnmatchedDistinct | SpeechDiarizationStarter/ASDFiles/AnalyzerCoOrdinator.swift:224-225 | filtering profiles with distinct ids keeps them distinct |
| Fusion.FallbackEntries | SpeechDiarizationStarter/ASDFiles/AnalyzerCoOrdinator.swift:227-245 | step 4's entries have distinct speaker ids, each the fallback entry of an unmatched speaker |
| Fusion.FallbacksContain | SpeechDiarizationStarter/ASDFiles/AnalyzerCoOrdinator.swift:227-245 | every unmatched speaker with a fallback entry is in step 4's list |
| Fusion.FallbackMember | SpeechDiarizationStarter/ASDFiles/AnalyzerCoOrdinator.swift:227-245 | every fallback entry comes from some unmatched speaker |
| Fusion.FallbackIDs | SpeechDiarizationStarter/ASDFiles/AnalyzerCoOrdinator.swift:224-245 | fallback entries never reuse a speaker id matched in step 3 |
| Fusion.ConcatDistinct | SpeechDiarizationStarter/ASDFiles/AnalyzerCoOrdinator.swift:243 | appending entries with new ids to a list with distinct ids keeps the ids distinct |
| Fusion.AssembledOnSuccess | SpeechDiarizationStarter/ASDFiles/AnalyzerCoOrdinator.swift:199-248 | a successful result is a permutation of step 3's entries followed by step 4's |
| Fusion.MatchingFails | SpeechDiarizationStarter/ASDFiles/AnalyzerCoOrdinator.swift:79-250 | matching throws iff the grab of some sampled frame throws |
| Fusion.MatchingOnePerSpeaker | SpeechDiarizationStarter/ASDFiles/AnalyzerCoOrdinator.swift:224-248 | with distinct profile ids, the final list is sorted by speaker id and names each speaker at most once |
| Fusion.MatchingEntries | SpeechDiarizationStarter/ASDFiles/AnalyzerCoOrdinator.swift:212-243 | every published entry has a tracked face, that face's position, a profile's segments and the flag cleared |
| Fusion.MatchingFollowsVotes | SpeechDiarizationStarter/ASDFiles/AnalyzerCoOrdinator.swift:200-221 | a speaker with votes and a profile is published with the face of largest summed vote score |
| Fusion.CandidateVote | SpeechDiarizationStarter/ASDFiles/AnalyzerCoOrdinator.swift:193 | every entry of a speaker's vote list comes from a vote for that speaker and face |
| Fusion.FallbackCovers | SpeechDiarizationStarter/ASDFiles/AnalyzerCoOrdinator.swift:224-244 | a profiled speaker with positive affinity to some face ends in step 3's or step 4's list |
| Fusion.MatchingCoversSpeakers | SpeechDiarizationStarter/ASDFiles/AnalyzerCoOrdinator.swift:200-245 | a profile with positive affinity to some face always appears in the final list |
| Fusion.MatchingOmitsSpeakers | SpeechDiarizationStarter/ASDFiles/AnalyzerCoOrdinator.swift:224-245 | a speaker without votes and without positive affinity is left out, not published faceless |
| Playback.FirstActive | SpeechDiarizationStarter/ASDFiles/AnalyzerCoOrdinator.swift:300-309 | the first speaker in list order with a segment covering the time, none iff no speaker has one |
| Playback.PlaybackState.constructor | SpeechDiarizationStarter/ASDFiles/Models.swift:41-42 | the published list holds the given entries |
| Playback.PlaybackState.GetCurrentSpeaker | SpeechDiarizationStarter/ASDFiles/AnalyzerCoOrdinator.swift:300-309 | the current speaker is active at the time and no earlier speaker is; none iff nobody is active |
| Playback.PlaybackState.UpdateCurrentSpeakers | SpeechDiarizationStarter/ASDFiles/AnalyzerCoOrdinator.swift:311-325 | the two loops leave each flag true iff a segment covers the time (ends inclusive), and change nothing else |
| Playback.RefreshIdempotent | SpeechDiarizationStarter/ASDFiles/AnalyzerCoOrdinator.swift:311-325 | refreshing twice at the same time gives the same list as once |
| Playback.RefreshKeepsEntries | SpeechDiarizationStarter/ASDFiles/AnalyzerCoOrdinator.swift:311-325 | the refresh keeps ids, faces, positions and segments, and sets flags independent of the old flags |
| Playback.CurrentSpeakerIsFlagged | SpeechDiarizationStarter/ASDFiles/AnalyzerCoOrdinator.swift:300-325 | after a refresh the lookup finds a speaker iff some flag is set, and finds the first flagged one |

## Left out

- Frame decoding, the AVAsset loading and the Vision landmark requests are platform calls. A `FrameSource` function stands for them: it gives detections, nothing usable, or a thrown error per media time.
- The speech recogniser, the audio conversion and the diarization engine are external. Their outputs are inputs to the model.
- `preprocessVideoAndAudio`'s polling and sequencing of asynchronous stages is left out. So is the hop onto the main queue when publishing and refreshing; only the bodies are modelled.
- The SwiftUI views, the real-time face preview and the optional depth estimation are left out: they have no part in the fusion logic.
- Double, Float and CGFloat are exact reals, so IEEE rounding and the Float/Double conversions in the overlap computation are not modelled. `sqrt` distance tests are squared-distance tests, and `pow(x, 2)` is `x * x`.
- The floating `stride(from:through:by:)` over a segment is exactly five points, start + k·(end − start)/4. Accumulated rounding that could add or drop the last point is not modelled.
- Swift dictionaries iterate in an unspecified order. The model fixes one:
  - active tracks in insertion order;
  - speaker-map keys, vote-map keys and face-score keys in order of first appearance;
  - track histories by track id.
  Ties that the source settles by that order (the joined track, the aggregated face, the order of grouped profiles) are settled by it here.
- The final sort by speaker id is an insertion sort. Speaker ids are distinct there, so stability does not matter.
- UUID track ids are natural numbers, handed out in order of track creation.
- Geometry.Box: face boxes have positive width and height. A zero-area box from Vision is not modelled; with one, the IoU would be 0, or NaN when both boxes are empty, and the mouth openness 0.
- `speakingCount` in finalisation is computed and never used, so it is not modelled.
- Affinity.SpatialConsistency, Affinity.CalculateSpatialConsistency: require distinct ends for the probed speaker's segments when both the speaker and the face exist. The source traps on a zero stride there.
- Fusion.MatchFacesToSpeakers, Fusion.Matching and the Voting members they use: require that the segments in the first profile of every matched utterance's speaker have distinct ends (start ≠ end), whenever there is a face profile (`AllProbeable`). The source would trap only if the spatial-consistency stride were reached for a zero-length segment, which also needs a face sample within 0.5 s; the model asks for it on every path. A segment whose end precedes its start is accepted, and its stride probes downward as the source's does.

Notes on the source's behaviour, which the model follows:

- A speaking sample at either end of a segment gets weight 0.5 in the coarse affinity.
- A zero-length segment contributes 0. There `min(1, NaN)` evaluates to 1.
- Timestamps within a track are only non-decreasing. Two detections in one frame can join the same track.
- A detection joins the first qualifying track in iteration order, not the nearest one.
