/** The speaker side of the analysis (SpeechAnalyzer.swift): diarized segments grouped into
    speaker profiles, and recognised utterances attributed to the speaker whose segments
    overlap them most. */
module SpeechAnalysis {
  import opened Wrappers
  import opened Numeric
  import opened Models
  import Sequences

  // ---------------------------------------------------------------- grouping by speaker

  /** One segment returned by the diarization engine. */
  datatype DiarizedSegment = DiarizedSegment(speaker: int, start: real, end: real)

  function Speakers(segs: seq<DiarizedSegment>): (r: seq<int>)
    ensures |r| == |segs| && forall i | 0 <= i < |segs| :: r[i] == segs[i].speaker
  {
    seq(|segs|, i requires 0 <= i < |segs| => segs[i].speaker)
  }

  /** The segments of speaker `k`, in input order. */
  function SegmentsOf(segs: seq<DiarizedSegment>, k: int): (r: seq<TimeSegment>)
    ensures k !in Speakers(segs) ==> r == []
    ensures k in Speakers(segs) ==> |r| > 0
  {
    if |segs| == 0 then []
    else
      var n := |segs| - 1;
      assert Speakers(segs) == Speakers(segs[..n]) + [segs[n].speaker];
      SegmentsOf(segs[..n], k) + (if segs[n].speaker == k then [Span(segs[n])] else [])
  }

  /** A speaker's list holds only that speaker's segments. */
  lemma {:induction false} SegmentsOfSound(segs: seq<DiarizedSegment>, k: int)
    ensures forall x | x in SegmentsOf(segs, k) :: exists i | 0 <= i < |segs| :: segs[i].speaker == k && x == Span(segs[i])
  {
    if |segs| > 0 {
      var n := |segs| - 1;
      SegmentsOfSound(segs[..n], k);
      forall x | x in SegmentsOf(segs[..n], k) ensures exists i | 0 <= i < |segs| :: segs[i].speaker == k && x == Span(segs[i]) {
        var i :| 0 <= i < n && segs[..n][i].speaker == k && x == Span(segs[..n][i]);
        assert segs[i] == segs[..n][i];
      }
    }
  }

  /** The time range of a diarized segment. */
  function Span(s: DiarizedSegment): TimeSegment
  {
    TimeSegment(s.start, s.end)
  }

  /** Collecting a speaker's segments distributes over concatenation. */
  lemma {:induction false} SegmentsOfConcat(a: seq<DiarizedSegment>, b: seq<DiarizedSegment>, k: int)
    ensures SegmentsOf(a + b, k) == SegmentsOf(a, k) + SegmentsOf(b, k)
  {
    if |b| > 0 {
      var n := |b| - 1;
      SegmentsOfConcat(a, b[..n], k);
      assert (a + b)[..|a| + n] == a + b[..n];
    } else {
      assert a + b == a;
    }
  }

  lemma {:induction false} SegmentsOfSingle(x: DiarizedSegment, k: int)
    ensures SegmentsOf([x], k) == if x.speaker == k then [Span(x)] else []
  {
    assert [x][..0] == [];
  }

  /** Every segment lands in its speaker's list, after that speaker's earlier segments and
      before its later ones. */
  lemma {:induction false} SegmentsOfPlaces(segs: seq<DiarizedSegment>, i: nat)
    requires i < |segs|
    ensures SegmentsOf(segs, segs[i].speaker) ==
      SegmentsOf(segs[..i], segs[i].speaker) + [Span(segs[i])] + SegmentsOf(segs[i + 1..], segs[i].speaker)
  {
    var k := segs[i].speaker;
    var before, after := segs[..i], segs[i + 1..];
    SegmentsOfSingle(segs[i], k);
    SegmentsOfConcat(before, [segs[i]], k);
    SegmentsOfConcat(before + [segs[i]], after, k);
    assert (before + [segs[i]]) + after == segs;
  }

  /** The order in which the speaker map is walked: speakers by first appearance. */
  function SpeakerOrder(segs: seq<DiarizedSegment>): seq<int>
  {
    Sequences.FirstAppearance(Speakers(segs))
  }

  /** Number of segments over a list of profiles. */
  function SegmentTotal(ps: seq<SpeakerProfile>): nat
  {
    if |ps| == 0 then 0 else SegmentTotal(ps[..|ps| - 1]) + |ps[|ps| - 1].segments|
  }

  /** Number of segments `segs` attributes to the speakers `keys`. */
  function CountOver(keys: seq<int>, segs: seq<DiarizedSegment>): nat
  {
    if |keys| == 0 then 0 else CountOver(keys[..|keys| - 1], segs) + |SegmentsOf(segs, keys[|keys| - 1])|
  }

  lemma {:induction false} CountOverAppend(keys: seq<int>, segs: seq<DiarizedSegment>, x: DiarizedSegment)
    requires Sequences.Distinct(keys)
    ensures CountOver(keys, segs + [x]) == CountOver(keys, segs) + (if x.speaker in keys then 1 else 0)
  {
    assert (segs + [x])[..|segs|] == segs;
    if |keys| > 0 {
      var n := |keys| - 1;
      CountOverAppend(keys[..n], segs, x);
      assert keys == keys[..n] + [keys[n]];
    }
  }

  /** Grouping loses and duplicates nothing: the speakers' segment lists together hold every
      input segment exactly once. */
  lemma {:induction false} GroupingConserves(segs: seq<DiarizedSegment>)
    ensures CountOver(SpeakerOrder(segs), segs) == |segs|
  {
    if |segs| > 0 {
      var n := |segs| - 1;
      var prefix := segs[..n];
      var x := segs[n];
      GroupingConserves(prefix);
      assert segs == prefix + [x];
      assert Speakers(segs) == Speakers(prefix) + [x.speaker];
      assert Speakers(segs)[..n] == Speakers(prefix);
      var p := SpeakerOrder(prefix);
      CountOverAppend(p, prefix, x);
      if x.speaker !in p {
        assert SpeakerOrder(segs) == p + [x.speaker];
        assert (p + [x.speaker])[..|p|] == p;
        assert x.speaker !in Speakers(prefix);
        assert SegmentsOf(segs, x.speaker) == [TimeSegment(x.start, x.end)];
      }
    }
  }

  lemma {:induction false} SegmentTotalOfProfiles(ps: seq<SpeakerProfile>, keys: seq<int>, segs: seq<DiarizedSegment>)
    requires |ps| == |keys|
    requires forall j | 0 <= j < |ps| :: ps[j].segments == SegmentsOf(segs, keys[j])
    ensures SegmentTotal(ps) == CountOver(keys, segs)
  {
    if |ps| > 0 {
      SegmentTotalOfProfiles(ps[..|ps| - 1], keys[..|keys| - 1], segs);
    }
  }

  /** The grouping of `performSpeakerDiarization`: one profile per speaker, in first-appearance
      order, holding that speaker's segments in input order; no face and no embedding yet. */
  function Grouping(segs: seq<DiarizedSegment>): seq<SpeakerProfile>
  {
    var order := SpeakerOrder(segs);
    seq(|order|, j requires 0 <= j < |order| => SpeakerProfile(order[j], None, SegmentsOf(segs, order[j]), None))
  }

  /** The grouping gives each speaker of the input exactly one profile, and every profile has
      at least one segment. */
  lemma GroupingOnePerSpeaker(segs: seq<DiarizedSegment>)
    ensures var ps := Grouping(segs);
      && (forall i, j | 0 <= i < j < |ps| :: ps[i].speakerID != ps[j].speakerID)
      && (forall i | 0 <= i < |segs| :: exists j | 0 <= j < |ps| :: ps[j].speakerID == segs[i].speaker)
      && (forall j | 0 <= j < |ps| :: |ps[j].segments| > 0 && ps[j].faceID.None? && ps[j].embedding.None?)
  {
    var ps := Grouping(segs);
    var order := SpeakerOrder(segs);
    forall i | 0 <= i < |segs| ensures exists j | 0 <= j < |ps| :: ps[j].speakerID == segs[i].speaker {
      assert Speakers(segs)[i] in order;
      var j :| 0 <= j < |order| && order[j] == segs[i].speaker;
      assert ps[j].speakerID == order[j];
    }
  }

  /** Together the profiles of the grouping hold every segment once. */
  lemma GroupingKeepsEverySegment(segs: seq<DiarizedSegment>)
    ensures SegmentTotal(Grouping(segs)) == |segs|
  {
    SegmentTotalOfProfiles(Grouping(segs), SpeakerOrder(segs), segs);
    GroupingConserves(segs);
  }

  /** Each diarized segment is in the profile of its own speaker, between that speaker's earlier
      and later segments. */
  lemma {:induction false} GroupingPlacesSegment(segs: seq<DiarizedSegment>, i: nat)
    requires i < |segs|
    ensures exists j | 0 <= j < |Grouping(segs)| ::
      && Grouping(segs)[j].speakerID == segs[i].speaker
      && Grouping(segs)[j].segments ==
           SegmentsOf(segs[..i], segs[i].speaker) + [Span(segs[i])] + SegmentsOf(segs[i + 1..], segs[i].speaker)
  {
    GroupingOnePerSpeaker(segs);
    SegmentsOfPlaces(segs, i);
  }

  /** The two loops of `performSpeakerDiarization` after the engine call: fill the speaker map,
      then walk it. */
  method GroupSegments(segments: seq<DiarizedSegment>) returns (profiles: seq<SpeakerProfile>)
    ensures profiles == Grouping(segments)
  {
    var speakerMap: map<int, seq<TimeSegment>> := map[];
    var order: seq<int> := [];
    for i := 0 to |segments|
      invariant order == SpeakerOrder(segments[..i])
      invariant forall k :: k in speakerMap <==> k in order
      invariant forall k | k in speakerMap :: speakerMap[k] == SegmentsOf(segments[..i], k)
    {
      var segment := segments[i];
      assert segments[..i + 1][..i] == segments[..i];
      assert Speakers(segments[..i + 1]) == Speakers(segments[..i]) + [segment.speaker];
      assert Speakers(segments[..i + 1])[..i] == Speakers(segments[..i]);
      if segment.speaker !in speakerMap {
        speakerMap := speakerMap[segment.speaker := []];
        order := order + [segment.speaker];
      }
      speakerMap := speakerMap[segment.speaker := speakerMap[segment.speaker] + [TimeSegment(segment.start, segment.end)]];
    }
    assert segments[..|segments|] == segments;
    profiles := [];
    for j := 0 to |order|
      invariant |profiles| == j
      invariant forall m | 0 <= m < j :: profiles[m] == Grouping(segments)[m]
    {
      assert order[j] in order;
      profiles := profiles + [SpeakerProfile(order[j], None, speakerMap[order[j]], None)];
    }
  }

  // ---------------------------------------------------------------- utterance attribution

  /** Utterances shorter than this are not attributed. */
  const MinUtteranceDuration: real := 0.5

  /** Length of the common part of an utterance and a segment; 0 when they do not meet. */
  function SegmentOverlap(u: Utterance, seg: TimeSegment): (r: real)
    ensures r >= 0.0
    ensures r <= u.endTime - u.startTime || r == 0.0
    ensures r > 0.0 <==> Min(u.endTime, seg.end) > Max(u.startTime, seg.start)
  {
    var overlapStart := Max(u.startTime, seg.start);
    var overlapEnd := Min(u.endTime, seg.end);
    if overlapEnd > overlapStart then overlapEnd - overlapStart else 0.0
  }

  /** Total overlap of an utterance with a speaker's segments. */
  function TotalOverlap(u: Utterance, segs: seq<TimeSegment>): (r: real)
    ensures r >= 0.0
    ensures r > 0.0 <==> exists i | 0 <= i < |segs| :: SegmentOverlap(u, segs[i]) > 0.0
  {
    if |segs| == 0 then 0.0
    else
      var n := |segs| - 1;
      var prior := TotalOverlap(u, segs[..n]);
      assert forall i | 0 <= i < n :: segs[..n][i] == segs[i];
      prior + SegmentOverlap(u, segs[n])
  }

  /** The running choice of the speaker loop: the id taken so far and its overlap. */
  datatype Choice = Choice(speakerID: int, overlap: real)

  /** The speaker loop's result: starting from (-1, 0), a speaker replaces the choice only when
      its total overlap is strictly larger, so the first speaker of largest overlap wins. */
  function Choose(u: Utterance, ps: seq<SpeakerProfile>): (c: Choice)
    ensures c.overlap >= 0.0
    ensures forall i | 0 <= i < |ps| :: TotalOverlap(u, ps[i].segments) <= c.overlap
    ensures c.overlap == 0.0 ==> c.speakerID == -1
    ensures c.overlap > 0.0 ==> exists i | 0 <= i < |ps| ::
      && ps[i].speakerID == c.speakerID
      && TotalOverlap(u, ps[i].segments) == c.overlap
      && forall j | 0 <= j < i :: TotalOverlap(u, ps[j].segments) < c.overlap
  {
    if |ps| == 0 then Choice(-1, 0.0)
    else
      var n := |ps| - 1;
      var prior := Choose(u, ps[..n]);
      var total := TotalOverlap(u, ps[n].segments);
      assert forall i | 0 <= i < n :: ps[..n][i] == ps[i];
      if total > prior.overlap then Choice(ps[n].speakerID, total) else prior
  }

  /** The speaker an utterance is attributed to, if any: none for an utterance shorter than half a
      second, for one no segment overlaps, or when the winning speaker's id is negative. */
  function Attribute(u: Utterance, ps: seq<SpeakerProfile>): (r: Option<int>)
    ensures r.Some? ==> u.endTime - u.startTime >= MinUtteranceDuration && r.value >= 0
    ensures r.Some? <==>
      && u.endTime - u.startTime >= MinUtteranceDuration
      && Choose(u, ps).overlap > 0.0
      && Choose(u, ps).speakerID >= 0
  {
    if u.endTime - u.startTime < MinUtteranceDuration then None
    else
      var c := Choose(u, ps);
      if c.speakerID >= 0 && c.overlap > 0.0 then Some(c.speakerID) else None
  }

  /** The attributions of `us`, in utterance order, the unattributed ones left out. */
  function Attributions(us: seq<Utterance>, ps: seq<SpeakerProfile>): seq<MatchedUtterance>
  {
    if |us| == 0 then []
    else
      var n := |us| - 1;
      Attributions(us[..n], ps) +
        match Attribute(us[n], ps)
        case Some(id) => [MatchedUtterance(us[n], id)]
        case None => []
  }

  function UtterancesOf(ms: seq<MatchedUtterance>): seq<Utterance>
  {
    seq(|ms|, i requires 0 <= i < |ms| => ms[i].utterance)
  }

  /** Every attribution pairs an utterance of at least half a second with a non-negative speaker
      id held by a profile whose overlap with it is positive and largest, and no earlier profile
      overlaps it as much. */
  lemma {:induction false} AttributionsSound(us: seq<Utterance>, ps: seq<SpeakerProfile>)
    ensures forall m | m in Attributions(us, ps) ::
      && m.utterance in us
      && m.utterance.endTime - m.utterance.startTime >= MinUtteranceDuration
      && m.speakerID >= 0
      && exists i | 0 <= i < |ps| ::
           && ps[i].speakerID == m.speakerID
           && TotalOverlap(m.utterance, ps[i].segments) > 0.0
           && (forall j | 0 <= j < |ps| :: TotalOverlap(m.utterance, ps[j].segments) <= TotalOverlap(m.utterance, ps[i].segments))
  {
    if |us| > 0 {
      var n := |us| - 1;
      AttributionsSound(us[..n], ps);
      assert us == us[..n] + [us[n]];
      forall m | m in Attributions(us, ps)
        ensures m.utterance in us
      {
        if m !in Attributions(us[..n], ps) {
          assert m.utterance == us[n];
        }
      }
    }
  }

  /** An utterance of at least half a second that some segment overlaps is attributed, when
      the speaker ids are non-negative. */
  lemma AttributedWhenOverlapping(u: Utterance, ps: seq<SpeakerProfile>, i: nat, s: nat)
    requires forall j | 0 <= j < |ps| :: ps[j].speakerID >= 0
    requires u.endTime - u.startTime >= MinUtteranceDuration
    requires i < |ps| && s < |ps[i].segments| && SegmentOverlap(u, ps[i].segments[s]) > 0.0
    ensures Attribute(u, ps).Some?
  {
    assert TotalOverlap(u, ps[i].segments) > 0.0;
  }

  lemma {:induction false} AttributionsContain(us: seq<Utterance>, ps: seq<SpeakerProfile>, k: nat)
    requires k < |us| && Attribute(us[k], ps).Some?
    ensures MatchedUtterance(us[k], Attribute(us[k], ps).value) in Attributions(us, ps)
  {
    var n := |us| - 1;
    if k < n {
      assert us[..n][k] == us[k];
      AttributionsContain(us[..n], ps, k);
    }
  }

  /** Every long-enough utterance that some segment overlaps is attributed, when the speaker
      ids are non-negative. */
  lemma AttributionsComplete(us: seq<Utterance>, ps: seq<SpeakerProfile>, k: nat, i: nat, s: nat)
    requires forall j | 0 <= j < |ps| :: ps[j].speakerID >= 0
    requires k < |us| && us[k].endTime - us[k].startTime >= MinUtteranceDuration
    requires i < |ps| && s < |ps[i].segments| && SegmentOverlap(us[k], ps[i].segments[s]) > 0.0
    ensures exists m | m in Attributions(us, ps) :: m.utterance == us[k]
  {
    AttributedWhenOverlapping(us[k], ps, i, s);
    AttributionsContain(us, ps, k);
  }

  /** The attributed utterances keep their input order. */
  lemma {:induction false} AttributionsInOrder(us: seq<Utterance>, ps: seq<SpeakerProfile>)
    ensures Sequences.IsSubsequence(UtterancesOf(Attributions(us, ps)), us)
  {
    if |us| > 0 {
      var n := |us| - 1;
      var prior := UtterancesOf(Attributions(us[..n], ps));
      AttributionsInOrder(us[..n], ps);
      Sequences.SubsequenceExtend(prior, us[..n], us[n]);
      assert us == us[..n] + [us[n]];
      match Attribute(us[n], ps)
      case Some(id) =>
        assert UtterancesOf(Attributions(us, ps)) == prior + [us[n]];
      case None =>
        assert UtterancesOf(Attributions(us, ps)) == prior;
    }
  }

  /** `matchUtterancesToSpeakers`: the three nested loops over utterances, speakers and segments. */
  method MatchUtterancesToSpeakers(utterances: seq<Utterance>, speakerProfiles: seq<SpeakerProfile>)
    returns (matched: seq<MatchedUtterance>)
    ensures matched == Attributions(utterances, speakerProfiles)
  {
    matched := [];
    for k := 0 to |utterances|
      invariant matched == Attributions(utterances[..k], speakerProfiles)
    {
      var utterance := utterances[k];
      assert utterances[..k + 1][..k] == utterances[..k];
      if utterance.endTime - utterance.startTime < MinUtteranceDuration {
        continue;
      }
      var bestSpeakerID := -1;
      var longestOverlap := 0.0;
      for i := 0 to |speakerProfiles|
        invariant Choice(bestSpeakerID, longestOverlap) == Choose(utterance, speakerProfiles[..i])
      {
        var speaker := speakerProfiles[i];
        assert speakerProfiles[..i + 1][..i] == speakerProfiles[..i];
        var totalOverlap := 0.0;
        for s := 0 to |speaker.segments|
          invariant totalOverlap == TotalOverlap(utterance, speaker.segments[..s])
        {
          var segment := speaker.segments[s];
          assert speaker.segments[..s + 1][..s] == speaker.segments[..s];
          var overlapStart := Max(utterance.startTime, segment.start);
          var overlapEnd := Min(utterance.endTime, segment.end);
          if overlapEnd > overlapStart {
            totalOverlap := totalOverlap + (overlapEnd - overlapStart);
          }
        }
        assert speaker.segments[..|speaker.segments|] == speaker.segments;
        if totalOverlap > longestOverlap {
          longestOverlap := totalOverlap;
          bestSpeakerID := speaker.speakerID;
        }
      }
      assert speakerProfiles[..|speakerProfiles|] == speakerProfiles;
      if bestSpeakerID >= 0 && longestOverlap > 0.0 {
        matched := matched + [MatchedUtterance(utterance, bestSpeakerID)];
      }
    }
    assert utterances[..|utterances|] == utterances;
  }
}
