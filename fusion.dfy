/** Steps 3 and 4 of `matchFacesToSpeakersUsingUtterances` and the method itself: each voted
    speaker gets the face with the largest summed vote score, each speaker left without a face
    falls back on the face of largest positive coarse affinity, and the result is sorted by
    speaker id. */
module Fusion {
  import opened Wrappers
  import opened Geometry
  import opened Models
  import opened Sequences
  import opened Affinity
  import opened Voting

  // ---------------------------------------------------------------- step 3: faceScores

  /** `faceScores`: the summed vote score of each voted face, faces in order of first vote. */
  datatype ScoreTable = ScoreTable(order: seq<nat>, sums: map<nat, real>)

  function AddScore(table: ScoreTable, c: Candidate): ScoreTable
  {
    if c.faceID in table.sums then
      table.(sums := table.sums[c.faceID := table.sums[c.faceID] + c.score])
    else
      ScoreTable(table.order + [c.faceID], table.sums[c.faceID := 0.0 + c.score])
  }

  function FaceScores(matches: seq<Candidate>): ScoreTable
  {
    if |matches| == 0 then ScoreTable([], map[])
    else AddScore(FaceScores(matches[..|matches| - 1]), matches[|matches| - 1])
  }

  /** The summed score of the votes for face `faceID`. */
  function FaceTotal(matches: seq<Candidate>, faceID: nat): real
  {
    if |matches| == 0 then 0.0
    else
      var c := matches[|matches| - 1];
      FaceTotal(matches[..|matches| - 1], faceID) + if c.faceID == faceID then c.score else 0.0
  }

  /** The faces voted for. */
  function Voted(matches: seq<Candidate>): set<nat>
  {
    set c | c in matches :: c.faceID
  }

  /** `faceScores` lists each voted face once, in order of first vote, with its summed score. */
  lemma {:induction false} FaceScoresSum(matches: seq<Candidate>)
    ensures Distinct(FaceScores(matches).order)
    ensures forall k :: k in FaceScores(matches).order <==> k in Voted(matches)
    ensures forall k :: k in FaceScores(matches).sums <==> k in Voted(matches)
    ensures forall k | k in FaceScores(matches).sums :: FaceScores(matches).sums[k] == FaceTotal(matches, k)
  {
    if |matches| > 0 {
      var n := |matches| - 1;
      FaceScoresSum(matches[..n]);
      assert matches == matches[..n] + [matches[n]];
      assert Voted(matches) == Voted(matches[..n]) + {matches[n].faceID};
      forall k | !(k in Voted(matches[..n]))
        ensures FaceTotal(matches[..n], k) == 0.0
      {
        FaceTotalOfUnvoted(matches[..n], k);
      }
    }
  }

  lemma {:induction false} FaceTotalOfUnvoted(matches: seq<Candidate>, faceID: nat)
    requires faceID !in Voted(matches)
    ensures FaceTotal(matches, faceID) == 0.0
  {
    if |matches| > 0 {
      var n := |matches| - 1;
      assert Voted(matches[..n]) <= Voted(matches) by {
        forall c | c in matches[..n] ensures c in matches {
        }
      }
      FaceTotalOfUnvoted(matches[..n], faceID);
    }
  }

  /** `faceScores.max(by: { $0.value < $1.value })` over the first `n` keys: a later face replaces
      the running best only with a strictly larger sum, so the first of equal sums is kept. */
  function TopIndex(order: seq<nat>, sums: map<nat, real>, n: nat): (r: nat)
    requires 0 < n <= |order| && forall k | k in order :: k in sums
    ensures r < n
    ensures forall i | 0 <= i < n :: sums[order[i]] <= sums[order[r]]
    ensures forall i | 0 <= i < r :: sums[order[i]] < sums[order[r]]
  {
    if n == 1 then 0
    else
      var p := TopIndex(order, sums, n - 1);
      if sums[order[p]] < sums[order[n - 1]] then n - 1 else p
  }

  /** The face with the largest summed vote score; `None` when there is no vote. */
  function TopFace(matches: seq<Candidate>): Option<nat>
  {
    var faceScores := FaceScores(matches);
    FaceScoresSum(matches);
    if |faceScores.order| == 0 then None
    else Some(faceScores.order[TopIndex(faceScores.order, faceScores.sums, |faceScores.order|)])
  }

  /** The top face exists exactly when there is a vote, is a voted face, and no voted face has a
      larger summed score. */
  lemma TopFaceMostVoted(matches: seq<Candidate>)
    ensures TopFace(matches).Some? <==> |matches| > 0
    ensures TopFace(matches).Some? ==> TopFace(matches).value in Voted(matches)
    ensures TopFace(matches).Some? ==>
      forall c | c in matches :: FaceTotal(matches, c.faceID) <= FaceTotal(matches, TopFace(matches).value)
  {
    var faceScores := FaceScores(matches);
    FaceScoresSum(matches);
    if |matches| > 0 {
      assert matches[0].faceID in Voted(matches);
      assert matches[0].faceID in faceScores.order;
      var r := TopIndex(faceScores.order, faceScores.sums, |faceScores.order|);
      forall c | c in matches
        ensures FaceTotal(matches, c.faceID) <= FaceTotal(matches, TopFace(matches).value)
      {
        assert c.faceID in Voted(matches);
        var i :| 0 <= i < |faceScores.order| && faceScores.order[i] == c.faceID;
      }
    } else {
      assert Voted(matches) == {};
    }
  }

  /** A published entry: a face among the tracked ones with that face's average position, the
      segments of a profile of its speaker, and the speaking flag cleared. */
  ghost predicate Published(ev: Evidence, m: MatchedSpeaker)
  {
    && m.faceID.Some? && m.faceID.value in TrackIDs(ev.faces)
    && m.position.Some? && m.position == PositionOf(ev, m.faceID.value)
    && !m.isCurrentlySpeaking
    && exists p | p in ev.speakers :: p.speakerID == m.speakerID && p.segments == m.segments
  }

  /** `faceProfiles.first { $0.trackID == id }?.avgPosition`. */
  function PositionOf(ev: Evidence, faceID: nat): (r: Option<Point>)
    ensures r.Some? <==> faceID in TrackIDs(ev.faces)
  {
    match FirstFace(ev.faces, faceID)
    case Some(f) => Some(ev.faces[f].avgPosition)
    case None =>
      assert faceID !in TrackIDs(ev.faces);
      None
  }

  /** The entry step 3 makes for a voted speaker: its top face, found among the profiles, with that
      face's average position and the segments of the first profile of the speaker. */
  function AggregateSpeaker(ev: Evidence, speakerID: int, matches: seq<Candidate>): Option<MatchedSpeaker>
  {
    match TopFace(matches)
    case None => None
    case Some(faceID) =>
      match FirstSpeaker(ev.speakers, speakerID)
      case None => None
      case Some(s) =>
        match FirstFace(ev.faces, faceID)
        case None => None
        case Some(f) => Some(MatchedSpeaker(speakerID, Some(faceID), Some(ev.faces[f].avgPosition), ev.speakers[s].segments, false))
  }

  predicate VotesListed(votes: VoteTable)
  {
    forall k | k in votes.order :: k in votes.matches
  }

  /** The entry step 3 makes for each voted speaker, speakers in vote-map order. */
  function Aggregates(ev: Evidence, votes: VoteTable): seq<Option<MatchedSpeaker>>
    requires VotesListed(votes)
  {
    seq(|votes.order|, k requires 0 <= k < |votes.order| => AggregateSpeaker(ev, votes.order[k], votes.matches[votes.order[k]]))
  }

  /** Step 3: the entries made, in vote-map order. */
  function Primary(ev: Evidence, votes: VoteTable): seq<MatchedSpeaker>
    requires VotesListed(votes)
  {
    Somes(Aggregates(ev, votes))
  }

  /** A step-3 entry is a published entry for the speaker with the most-voted face; there is one
      whenever the speaker has votes and a profile and every voted face is tracked, and none when
      the speaker has no votes or no profile. */
  lemma AggregateSpeakerFacts(ev: Evidence, speakerID: int, matches: seq<Candidate>)
    ensures var r := AggregateSpeaker(ev, speakerID, matches);
      && (r.Some? ==> Published(ev, r.value) && r.value.speakerID == speakerID && r.value.faceID == TopFace(matches))
      && (|matches| > 0 && FirstSpeaker(ev.speakers, speakerID).Some? && Voted(matches) <= TrackIDs(ev.faces) ==> r.Some?)
      && (|matches| == 0 || FirstSpeaker(ev.speakers, speakerID).None? ==> r.None?)
  {
    TopFaceMostVoted(matches);
    assert TopFace(matches).Some? && FirstFace(ev.faces, TopFace(matches).value).None? ==>
             TopFace(matches).value !in TrackIDs(ev.faces);
    var r := AggregateSpeaker(ev, speakerID, matches);
    if r.Some? {
      var s := FirstSpeaker(ev.speakers, speakerID).value;
      assert ev.speakers[s] in ev.speakers;
    }
  }

  /** `for (faceID, score) in matches { faceScores[faceID, default: 0] += score }`. */
  method SumFaceScores(matches: seq<Candidate>) returns (faceScores: ScoreTable)
    ensures faceScores == FaceScores(matches)
  {
    faceScores := ScoreTable([], map[]);
    for i := 0 to |matches|
      invariant faceScores == FaceScores(matches[..i])
    {
      assert matches[..i + 1][..i] == matches[..i];
      faceScores := AddScore(faceScores, matches[i]);
    }
    assert matches[..|matches|] == matches;
  }

  /** The body of step 3 for one speaker: `None` where the source skips the speaker. */
  method AggregateVotes(ev: Evidence, speakerID: int, matches: seq<Candidate>) returns (matchedSpeaker: Option<MatchedSpeaker>)
    ensures matchedSpeaker == AggregateSpeaker(ev, speakerID, matches)
  {
    TopFaceMostVoted(matches);
    if |matches| == 0 {
      return None;
    }
    var faceScores := SumFaceScores(matches);
    FaceScoresSum(matches);
    var bestMatch := faceScores.order[TopIndex(faceScores.order, faceScores.sums, |faceScores.order|)];
    var speaker := FirstSpeaker(ev.speakers, speakerID);
    var face := FirstFace(ev.faces, bestMatch);
    if speaker.None? || face.None? {
      return None;
    }
    matchedSpeaker := Some(MatchedSpeaker(speakerID, Some(bestMatch), Some(ev.faces[face.value].avgPosition),
                                          ev.speakers[speaker.value].segments, false));
  }

  /** Step 3: `for speakerID in speakerToFaceMatches.keys`. */
  method DetermineBestFaces(ev: Evidence, speakerToFaceMatches: VoteTable) returns (matchedSpeakers: seq<MatchedSpeaker>)
    requires VotesListed(speakerToFaceMatches)
    ensures matchedSpeakers == Primary(ev, speakerToFaceMatches)
  {
    ghost var entries := Aggregates(ev, speakerToFaceMatches);
    matchedSpeakers := [];
    for j := 0 to |speakerToFaceMatches.order|
      invariant matchedSpeakers == Somes(entries[..j])
    {
      var speakerID := speakerToFaceMatches.order[j];
      var matchedSpeaker := AggregateVotes(ev, speakerID, speakerToFaceMatches.matches[speakerID]);
      assert entries[..j + 1][..j] == entries[..j];
      assert entries[j] == matchedSpeaker;
      if matchedSpeaker.Some? {
        matchedSpeakers := matchedSpeakers + [matchedSpeaker.value];
      }
    }
    assert entries[..|entries|] == entries;
  }

  // ---------------------------------------------------------------- step 4: fallback

  /** The score the fallback face has to beat: the running best, or 0 before there is one. */
  function FallbackBar(p: Option<Pick>): real
  {
    if p.Some? then p.value.score else 0.0
  }

  /** The `bestFace` fold over the first `n` face profiles: the first profile of largest positive
      coarse affinity with the speaker. */
  function FallbackPick(ev: Evidence, speakerID: int, n: nat): (r: Option<Pick>)
    requires n <= |ev.faces|
    ensures r.Some? ==> r.value.index < n && r.value.score == SegmentAffinity(ev, ev.faces[r.value.index].trackID, speakerID)
    ensures r.Some? ==> r.value.score > 0.0
    ensures forall i | 0 <= i < n :: SegmentAffinity(ev, ev.faces[i].trackID, speakerID) <= FallbackBar(r)
    ensures r.Some? ==> forall i | 0 <= i < r.value.index :: SegmentAffinity(ev, ev.faces[i].trackID, speakerID) < r.value.score
  {
    if n == 0 then None
    else
      var prev := FallbackPick(ev, speakerID, n - 1);
      var score := SegmentAffinity(ev, ev.faces[n - 1].trackID, speakerID);
      if score > FallbackBar(prev) then Some(Pick(n - 1, score)) else prev
  }

  /** The entry step 4 makes for an unmatched speaker profile, if some face has positive affinity. */
  function FallbackEntry(ev: Evidence, speaker: SpeakerProfile): Option<MatchedSpeaker>
  {
    match Lift(ev, FallbackPick(ev, speaker.speakerID, |ev.faces|))
    case Some(bestFace) =>
      if bestFace.score > 0.0 then
        Some(MatchedSpeaker(speaker.speakerID, Some(bestFace.faceID), PositionOf(ev, bestFace.faceID), speaker.segments, false))
      else None
    case None => None
  }

  /** A fallback entry exists iff some face has positive affinity with the speaker; it then
      carries the speaker's id and segments, a tracked face with its position, and no flag. */
  lemma FallbackEntryFacts(ev: Evidence, speaker: SpeakerProfile)
    ensures var r := FallbackEntry(ev, speaker);
      && (r.Some? ==> r.value.speakerID == speaker.speakerID && r.value.segments == speaker.segments)
      && (r.Some? ==> r.value.faceID.Some? && r.value.faceID.value in TrackIDs(ev.faces))
      && (r.Some? ==> r.value.position.Some? && r.value.position == PositionOf(ev, r.value.faceID.value))
      && (r.Some? ==> !r.value.isCurrentlySpeaking)
      && (r.Some? <==> exists i | 0 <= i < |ev.faces| :: SegmentAffinity(ev, ev.faces[i].trackID, speaker.speakerID) > 0.0)
  {
    var pick := FallbackPick(ev, speaker.speakerID, |ev.faces|);
    assert pick.Some? ==> ev.faces[pick.value.index].trackID in TrackIDs(ev.faces);
  }

  /** The face of a fallback entry is the first profile of largest coarse affinity with the
      speaker. */
  lemma FallbackFaceIsBest(ev: Evidence, speaker: SpeakerProfile)
    ensures var r := FallbackEntry(ev, speaker);
      r.Some? ==> exists k | 0 <= k < |ev.faces| ::
        && r.value.faceID == Some(ev.faces[k].trackID)
        && (forall i | 0 <= i < |ev.faces| ::
              SegmentAffinity(ev, ev.faces[i].trackID, speaker.speakerID) <= SegmentAffinity(ev, ev.faces[k].trackID, speaker.speakerID))
        && (forall i | 0 <= i < k ::
              SegmentAffinity(ev, ev.faces[i].trackID, speaker.speakerID) < SegmentAffinity(ev, ev.faces[k].trackID, speaker.speakerID))
  {
    var pick := FallbackPick(ev, speaker.speakerID, |ev.faces|);
    if pick.Some? {
      var k := pick.value.index;
      assert FallbackEntry(ev, speaker).Some? ==> FallbackEntry(ev, speaker).value.faceID == Some(ev.faces[k].trackID);
    }
  }

  /** The speaker ids that have an entry. */
  function SpeakerIDs(ms: seq<MatchedSpeaker>): set<int>
  {
    set m | m in ms :: m.speakerID
  }

  /** `speakerProfiles.filter { !matchedSpeakerIDs.contains($0.speakerID) }`. */
  function Unmatched(speakers: seq<SpeakerProfile>, matched: set<int>): (r: seq<SpeakerProfile>)
    ensures forall p :: p in r <==> p in speakers && p.speakerID !in matched
  {
    if |speakers| == 0 then []
    else
      var n := |speakers| - 1;
      assert speakers == speakers[..n] + [speakers[n]];
      Unmatched(speakers[..n], matched) + if speakers[n].speakerID in matched then [] else [speakers[n]]
  }

  /** The entry step 4 makes for each unmatched profile, in profile order. */
  function FallbackOptions(ev: Evidence, unmatched: seq<SpeakerProfile>): seq<Option<MatchedSpeaker>>
  {
    seq(|unmatched|, i requires 0 <= i < |unmatched| => FallbackEntry(ev, unmatched[i]))
  }

  /** Step 4: the entries made for the unmatched profiles, in profile order. */
  function Fallbacks(ev: Evidence, unmatched: seq<SpeakerProfile>): seq<MatchedSpeaker>
  {
    Somes(FallbackOptions(ev, unmatched))
  }

  /** The inner `for face in faceProfiles` loop of step 4. */
  method FindFallbackFace(ev: Evidence, faceSpeakerScores: AffinityTable, speakerID: int) returns (bestFace: Option<Candidate>)
    requires TableHolds(faceSpeakerScores, ev)
    ensures bestFace == Lift(ev, FallbackPick(ev, speakerID, |ev.faces|))
  {
    bestFace := None;
    ghost var pick: Option<Pick> := None;
    for f := 0 to |ev.faces|
      invariant pick == FallbackPick(ev, speakerID, f)
      invariant bestFace == Lift(ev, pick)
    {
      var face := ev.faces[f];
      var score := Lookup(faceSpeakerScores, face.trackID, speakerID);
      if score > (if bestFace.Some? then bestFace.value.score else 0.0) {
        bestFace := Some(Candidate(face.trackID, score));
        pick := Some(Pick(f, score));
      }
    }
  }

  /** The body of step 4 for one unmatched profile. */
  method FallbackFor(ev: Evidence, faceSpeakerScores: AffinityTable, speaker: SpeakerProfile)
    returns (matchedSpeaker: Option<MatchedSpeaker>)
    requires TableHolds(faceSpeakerScores, ev)
    ensures matchedSpeaker == FallbackEntry(ev, speaker)
  {
    var bestFace := FindFallbackFace(ev, faceSpeakerScores, speaker.speakerID);
    if bestFace.Some? && bestFace.value.score > 0.0 {
      return Some(MatchedSpeaker(speaker.speakerID, Some(bestFace.value.faceID),
                                 PositionOf(ev, bestFace.value.faceID), speaker.segments, false));
    }
    return None;
  }

  /** Step 4: a fallback entry for every profile whose speaker step 3 left without a face. */
  method HandleUnmatchedSpeakers(ev: Evidence, faceSpeakerScores: AffinityTable, matchedSpeakers: seq<MatchedSpeaker>)
    returns (fallback: seq<MatchedSpeaker>)
    requires TableHolds(faceSpeakerScores, ev)
    ensures fallback == Fallbacks(ev, Unmatched(ev.speakers, SpeakerIDs(matchedSpeakers)))
  {
    var matchedSpeakerIDs := SpeakerIDs(matchedSpeakers);
    var unmatchedSpeakers := Unmatched(ev.speakers, matchedSpeakerIDs);
    ghost var entries := FallbackOptions(ev, unmatchedSpeakers);
    fallback := [];
    for i := 0 to |unmatchedSpeakers|
      invariant fallback == Somes(entries[..i])
    {
      var speaker := unmatchedSpeakers[i];
      var matchedSpeaker := FallbackFor(ev, faceSpeakerScores, speaker);
      assert entries[..i + 1][..i] == entries[..i];
      assert entries[i] == matchedSpeaker;
      if matchedSpeaker.Some? {
        fallback := fallback + [matchedSpeaker.value];
      }
    }
    assert entries[..|entries|] == entries;
  }

  // ---------------------------------------------------------------- the whole matching

  /** The sort key of the published list. */
  function ByID(m: MatchedSpeaker): real
  {
    m.speakerID as real
  }

  /** `matchFacesToSpeakersUsingUtterances` as a value: the votes' error if a frame throws, else the
      voted entries followed by the fallback entries, sorted by speaker id. */
  function Matching(us: seq<MatchedUtterance>, speakers: seq<SpeakerProfile>, faces: seq<FaceProfile>, video: FrameSource)
    : Result<seq<MatchedSpeaker>>
    requires AllProbeable(Evidence(speakers, faces), us)
  {
    var ev := Evidence(speakers, faces);
    match AllVotes(ev, video, us)
    case Failure(e) => Failure(e)
    case Success(votes) =>
      var table := Tally(votes);
      TallyMatches(votes);
      var primary := Primary(ev, table);
      Success(SortBy(primary + Fallbacks(ev, Unmatched(speakers, SpeakerIDs(primary))), ByID))
  }

  /** `matchFacesToSpeakersUsingUtterances`: the affinity table, the votes, the voted and the
      fallback entries, then the sort. */
  method MatchFacesToSpeakers(matchedUtterances: seq<MatchedUtterance>, speakerProfiles: seq<SpeakerProfile>,
                              faceProfiles: seq<FaceProfile>, video: FrameSource)
    returns (result: Result<seq<MatchedSpeaker>>)
    requires AllProbeable(Evidence(speakerProfiles, faceProfiles), matchedUtterances)
    ensures result == Matching(matchedUtterances, speakerProfiles, faceProfiles, video)
  {
    var ev := Evidence(speakerProfiles, faceProfiles);
    var faceSpeakerScores := BuildAffinityTable(speakerProfiles, faceProfiles);
    var votes := CollectVotes(ev, faceSpeakerScores, video, matchedUtterances);
    if votes.Failure? {
      return Failure(votes.error);
    }
    TallyMatches(AllVotes(ev, video, matchedUtterances).value);
    var matchedSpeakers := DetermineBestFaces(ev, votes.value);
    var fallback := HandleUnmatchedSpeakers(ev, faceSpeakerScores, matchedSpeakers);
    result := Success(SortBy(matchedSpeakers + fallback, ByID));
  }

  // ---------------------------------------------------------------- properties of the matching

  ghost predicate DistinctSpeakerIDs(speakers: seq<SpeakerProfile>)
  {
    forall i, j | 0 <= i < j < |speakers| :: speakers[i].speakerID != speakers[j].speakerID
  }

  /** The voted entries: at most one per voted speaker, each the aggregate of its votes. */
  lemma PrimaryEntries(ev: Evidence, votes: VoteTable)
    requires VotesListed(votes) && Distinct(votes.order)
    ensures DistinctKeys(Primary(ev, votes), ByID)
    ensures forall m | m in Primary(ev, votes) ::
              && m.speakerID in votes.order
              && AggregateSpeaker(ev, m.speakerID, votes.matches[m.speakerID]) == Some(m)
  {
    var entries := Aggregates(ev, votes);
    forall k | 0 <= k < |entries| && entries[k].Some?
      ensures entries[k].value.speakerID == votes.order[k]
    {
      AggregateSpeakerFacts(ev, votes.order[k], votes.matches[votes.order[k]]);
    }
    SomesDistinct(entries, ByID);
    forall m | m in Primary(ev, votes)
      ensures m.speakerID in votes.order && AggregateSpeaker(ev, m.speakerID, votes.matches[m.speakerID]) == Some(m)
    {
      SomesMember(entries, m);
    }
  }

  lemma PrimaryContains(ev: Evidence, votes: VoteTable, j: nat)
    requires VotesListed(votes) && j < |votes.order|
    requires AggregateSpeaker(ev, votes.order[j], votes.matches[votes.order[j]]).Some?
    ensures AggregateSpeaker(ev, votes.order[j], votes.matches[votes.order[j]]).value in Primary(ev, votes)
  {
    SomesContain(Aggregates(ev, votes), j);
  }

  lemma {:induction false} UnmatchedDistinct(speakers: seq<SpeakerProfile>, matched: set<int>)
    requires DistinctSpeakerIDs(speakers)
    ensures DistinctSpeakerIDs(Unmatched(speakers, matched))
  {
    if |speakers| > 0 {
      var n := |speakers| - 1;
      assert DistinctSpeakerIDs(speakers[..n]);
      UnmatchedDistinct(speakers[..n], matched);
      forall p | p in Unmatched(speakers[..n], matched)
        ensures p.speakerID != speakers[n].speakerID
      {
        var i :| 0 <= i < n && speakers[..n][i] == p;
      }
    }
  }

  /** The fallback entries: one per unmatched profile that some face has positive affinity with. */
  lemma FallbackEntries(ev: Evidence, unmatched: seq<SpeakerProfile>)
    requires DistinctSpeakerIDs(unmatched)
    ensures DistinctKeys(Fallbacks(ev, unmatched), ByID)
    ensures forall m | m in Fallbacks(ev, unmatched) :: exists p | p in unmatched :: FallbackEntry(ev, p) == Some(m)
  {
    var entries := FallbackOptions(ev, unmatched);
    forall k | 0 <= k < |entries| && entries[k].Some?
      ensures entries[k].value.speakerID == unmatched[k].speakerID
    {
      FallbackEntryFacts(ev, unmatched[k]);
    }
    SomesDistinct(entries, ByID);
    forall m | m in Fallbacks(ev, unmatched)
      ensures exists p | p in unmatched :: FallbackEntry(ev, p) == Some(m)
    {
      FallbackMember(ev, unmatched, m);
    }
  }

  lemma FallbacksContain(ev: Evidence, unmatched: seq<SpeakerProfile>, i: nat)
    requires i < |unmatched| && FallbackEntry(ev, unmatched[i]).Some?
    ensures FallbackEntry(ev, unmatched[i]).value in Fallbacks(ev, unmatched)
  {
    SomesContain(FallbackOptions(ev, unmatched), i);
  }

  /** What `Matching` is built from on success. */
  ghost predicate Assembled(us: seq<MatchedUtterance>, speakers: seq<SpeakerProfile>, faces: seq<FaceProfile>,
                            video: FrameSource, primary: seq<MatchedSpeaker>, fallback: seq<MatchedSpeaker>)
    requires AllProbeable(Evidence(speakers, faces), us)
  {
    var ev := Evidence(speakers, faces);
    && AllVotes(ev, video, us).Success?
    && VotesListed(Tally(AllVotes(ev, video, us).value))
    && primary == Primary(ev, Tally(AllVotes(ev, video, us).value))
    && fallback == Fallbacks(ev, Unmatched(speakers, SpeakerIDs(primary)))
    && Matching(us, speakers, faces, video) == Success(SortBy(primary + fallback, ByID))
  }

  lemma AssembledOnSuccess(us: seq<MatchedUtterance>, speakers: seq<SpeakerProfile>, faces: seq<FaceProfile>, video: FrameSource)
    returns (primary: seq<MatchedSpeaker>, fallback: seq<MatchedSpeaker>)
    requires AllProbeable(Evidence(speakers, faces), us) && Matching(us, speakers, faces, video).Success?
    ensures Assembled(us, speakers, faces, video, primary, fallback)
    ensures Distinct(Tally(AllVotes(Evidence(speakers, faces), video, us).value).order)
    ensures multiset(Matching(us, speakers, faces, video).value) == multiset(primary + fallback)
  {
    var ev := Evidence(speakers, faces);
    var votes := AllVotes(ev, video, us).value;
    TallyMatches(votes);
    var table := Tally(votes);
    primary := Primary(ev, table);
    fallback := Fallbacks(ev, Unmatched(speakers, SpeakerIDs(primary)));
  }

  /** The analysis fails exactly when the frame at some analysis time of some utterance throws. */
  lemma MatchingFails(us: seq<MatchedUtterance>, speakers: seq<SpeakerProfile>, faces: seq<FaceProfile>, video: FrameSource)
    requires AllProbeable(Evidence(speakers, faces), us)
    ensures Matching(us, speakers, faces, video).Failure? <==> exists i, k | 0 <= i < |us| :: FrameFails(video, us[i], k)
  {
    AllVotesFail(Evidence(speakers, faces), video, us);
  }

  /** With one profile per speaker id, the published list is sorted by speaker id and holds each
      speaker id at most once. */
  lemma MatchingOnePerSpeaker(us: seq<MatchedUtterance>, speakers: seq<SpeakerProfile>, faces: seq<FaceProfile>, video: FrameSource)
    requires AllProbeable(Evidence(speakers, faces), us) && DistinctSpeakerIDs(speakers)
    requires Matching(us, speakers, faces, video).Success?
    ensures SortedBy(Matching(us, speakers, faces, video).value, ByID)
    ensures DistinctKeys(Matching(us, speakers, faces, video).value, ByID)
  {
    var ev := Evidence(speakers, faces);
    var primary, fallback := AssembledOnSuccess(us, speakers, faces, video);
    var table := Tally(AllVotes(ev, video, us).value);
    PrimaryEntries(ev, table);
    var unmatched := Unmatched(speakers, SpeakerIDs(primary));
    UnmatchedDistinct(speakers, SpeakerIDs(primary));
    FallbackEntries(ev, unmatched);
    FallbackIDs(ev, unmatched, SpeakerIDs(primary));
    var all := primary + fallback;
    ConcatDistinct(primary, fallback);
    SortKeepsDistinctKeys(all, ByID);
  }

  lemma FallbackIDs(ev: Evidence, unmatched: seq<SpeakerProfile>, ids: set<int>)
    requires forall p | p in unmatched :: p.speakerID !in ids
    ensures forall m | m in Fallbacks(ev, unmatched) :: m.speakerID !in ids
  {
    forall m | m in Fallbacks(ev, unmatched) ensures m.speakerID !in ids {
      FallbackMember(ev, unmatched, m);
      var p :| p in unmatched && FallbackEntry(ev, p) == Some(m);
      FallbackEntryFacts(ev, p);
    }
  }

  lemma ConcatDistinct(primary: seq<MatchedSpeaker>, fallback: seq<MatchedSpeaker>)
    requires DistinctKeys(primary, ByID) && DistinctKeys(fallback, ByID)
    requires forall m | m in fallback :: m.speakerID !in SpeakerIDs(primary)
    ensures DistinctKeys(primary + fallback, ByID)
  {
    var all := primary + fallback;
    forall i, j | 0 <= i < j < |all| ensures ByID(all[i]) != ByID(all[j]) {
      if i < |primary| <= j {
        assert all[i] in primary && all[j] in fallback;
      } else if |primary| <= i {
        assert all[i] == fallback[i - |primary|] && all[j] == fallback[j - |primary|];
      }
    }
  }

  /** Every published entry is well formed. */
  lemma MatchingEntries(us: seq<MatchedUtterance>, speakers: seq<SpeakerProfile>, faces: seq<FaceProfile>, video: FrameSource)
    requires AllProbeable(Evidence(speakers, faces), us)
    requires Matching(us, speakers, faces, video).Success?
    ensures forall m | m in Matching(us, speakers, faces, video).value :: Published(Evidence(speakers, faces), m)
  {
    var ev := Evidence(speakers, faces);
    var primary, fallback := AssembledOnSuccess(us, speakers, faces, video);
    var table := Tally(AllVotes(ev, video, us).value);
    PrimaryEntries(ev, table);
    var unmatched := Unmatched(speakers, SpeakerIDs(primary));
    forall m | m in Matching(us, speakers, faces, video).value
      ensures Published(ev, m)
    {
      assert m in multiset(primary + fallback);
      if m in primary {
        AggregateSpeakerFacts(ev, m.speakerID, table.matches[m.speakerID]);
      } else {
        FallbackMember(ev, unmatched, m);
        var p :| p in unmatched && FallbackEntry(ev, p) == Some(m);
        FallbackEntryFacts(ev, p);
        assert p in speakers;
      }
    }
  }

  lemma FallbackMember(ev: Evidence, unmatched: seq<SpeakerProfile>, m: MatchedSpeaker)
    requires m in Fallbacks(ev, unmatched)
    ensures exists p | p in unmatched :: FallbackEntry(ev, p) == Some(m)
  {
    var entries := FallbackOptions(ev, unmatched);
    SomesMember(entries, m);
    var j :| 0 <= j < |entries| && entries[j] == Some(m);
    assert unmatched[j] in unmatched;
  }

  /** A speaker with votes and a profile is published with the face of largest summed vote score. */
  lemma MatchingFollowsVotes(us: seq<MatchedUtterance>, speakers: seq<SpeakerProfile>, faces: seq<FaceProfile>,
                             video: FrameSource, speakerID: int)
    requires AllProbeable(Evidence(speakers, faces), us)
    requires Matching(us, speakers, faces, video).Success?
    requires |CandidatesOf(AllVotes(Evidence(speakers, faces), video, us).value, speakerID)| > 0
    requires FirstSpeaker(speakers, speakerID).Some?
    ensures exists m | m in Matching(us, speakers, faces, video).value ::
              m.speakerID == speakerID &&
              m.faceID == TopFace(CandidatesOf(AllVotes(Evidence(speakers, faces), video, us).value, speakerID))
  {
    var ev := Evidence(speakers, faces);
    var votes := AllVotes(ev, video, us).value;
    var primary, fallback := AssembledOnSuccess(us, speakers, faces, video);
    var table := Tally(votes);
    TallyMatches(votes);
    var matches := CandidatesOf(votes, speakerID);
    assert speakerID in table.order;
    var j :| 0 <= j < |table.order| && table.order[j] == speakerID;
    forall c | c in matches ensures c.faceID in TrackIDs(faces) {
      var v := CandidateVote(votes, speakerID, c);
      VotesAreWinners(ev, video, us, v);
    }
    AggregateSpeakerFacts(ev, speakerID, matches);
    assert AggregateSpeaker(ev, speakerID, matches).Some?;
    PrimaryContains(ev, table, j);
    var m := AggregateSpeaker(ev, speakerID, matches).value;
    assert m in multiset(primary + fallback);
  }

  /** Each voted candidate comes from a vote of that speaker. */
  lemma {:induction false} CandidateVote(votes: seq<Vote>, speakerID: int, c: Candidate) returns (v: Vote)
    requires c in CandidatesOf(votes, speakerID)
    ensures v in votes && v.speakerID == speakerID && v.faceID == c.faceID
  {
    var n := |votes| - 1;
    if c in CandidatesOf(votes[..n], speakerID) {
      v := CandidateVote(votes[..n], speakerID, c);
    } else {
      v := votes[n];
    }
  }

  /** A speaker profile that some face has positive coarse affinity with is always published. */
  lemma MatchingCoversSpeakers(us: seq<MatchedUtterance>, speakers: seq<SpeakerProfile>, faces: seq<FaceProfile>,
                               video: FrameSource, i: nat, j: nat)
    requires AllProbeable(Evidence(speakers, faces), us)
    requires Matching(us, speakers, faces, video).Success?
    requires i < |speakers| && j < |faces|
    requires CoarseAffinity(speakers, faces, faces[j].trackID, speakers[i].speakerID) > 0.0
    ensures speakers[i].speakerID in SpeakerIDs(Matching(us, speakers, faces, video).value)
  {
    var ev := Evidence(speakers, faces);
    var primary, fallback := AssembledOnSuccess(us, speakers, faces, video);
    FallbackCovers(ev, primary, i, j);
    var m: MatchedSpeaker :| m in primary + fallback && m.speakerID == speakers[i].speakerID;
    assert m in multiset(Matching(us, speakers, faces, video).value);
  }

  /** A profiled speaker that some face has positive affinity with gets a voted or a fallback entry. */
  lemma FallbackCovers(ev: Evidence, primary: seq<MatchedSpeaker>, i: nat, j: nat)
    requires i < |ev.speakers| && j < |ev.faces|
    requires SegmentAffinity(ev, ev.faces[j].trackID, ev.speakers[i].speakerID) > 0.0
    ensures exists m | m in primary + Fallbacks(ev, Unmatched(ev.speakers, SpeakerIDs(primary))) ::
              m.speakerID == ev.speakers[i].speakerID
  {
    var speaker := ev.speakers[i];
    if speaker.speakerID in SpeakerIDs(primary) {
      var m :| m in primary && m.speakerID == speaker.speakerID;
    } else {
      var unmatched := Unmatched(ev.speakers, SpeakerIDs(primary));
      assert speaker in unmatched;
      var k :| 0 <= k < |unmatched| && unmatched[k] == speaker;
      FallbackEntryFacts(ev, speaker);
      FallbacksContain(ev, unmatched, k);
    }
  }

  /** A speaker id without votes that no face has positive coarse affinity with is never published. */
  lemma MatchingOmitsSpeakers(us: seq<MatchedUtterance>, speakers: seq<SpeakerProfile>, faces: seq<FaceProfile>,
                              video: FrameSource, speakerID: int)
    requires AllProbeable(Evidence(speakers, faces), us)
    requires Matching(us, speakers, faces, video).Success?
    requires |CandidatesOf(AllVotes(Evidence(speakers, faces), video, us).value, speakerID)| == 0
    requires forall j | 0 <= j < |faces| :: CoarseAffinity(speakers, faces, faces[j].trackID, speakerID) <= 0.0
    ensures speakerID !in SpeakerIDs(Matching(us, speakers, faces, video).value)
  {
    var ev := Evidence(speakers, faces);
    var votes := AllVotes(ev, video, us).value;
    var primary, fallback := AssembledOnSuccess(us, speakers, faces, video);
    var table := Tally(votes);
    TallyMatches(votes);
    PrimaryEntries(ev, table);
    var unmatched := Unmatched(speakers, SpeakerIDs(primary));
    forall m | m in Matching(us, speakers, faces, video).value
      ensures m.speakerID != speakerID
    {
      assert m in multiset(primary + fallback);
      if m !in primary {
        FallbackMember(ev, unmatched, m);
        var p :| p in unmatched && FallbackEntry(ev, p) == Some(m);
        FallbackEntryFacts(ev, p);
      }
    }
  }
}
