/** Playback-time queries of `CombinedAnalysisCoordinator`: which matched speaker is talking at a
    given playback time, and refreshing every speaker's `isCurrentlySpeaking` flag. */
module Playback {
  import opened Wrappers
  import opened Models

  /** Inclusive at both ends: `start <= time && time <= end`. */
  predicate Covers(segment: TimeSegment, time: real)
  {
    segment.start <= time <= segment.end
  }

  /** Some segment of the speaker covers the time. */
  predicate ActiveAt(segments: seq<TimeSegment>, time: real)
  {
    exists l | 0 <= l < |segments| :: Covers(segments[l], time)
  }

  /** The speakers with every flag recomputed for `time`; nothing else of an entry changes. */
  function Refreshed(ms: seq<MatchedSpeaker>, time: real): seq<MatchedSpeaker>
  {
    seq(|ms|, k requires 0 <= k < |ms| => ms[k].(isCurrentlySpeaking := ActiveAt(ms[k].segments, time)))
  }

  /** The first speaker, in list order, with a segment covering the time. */
  function FirstActive(ms: seq<MatchedSpeaker>, time: real): (r: Option<MatchedSpeaker>)
    ensures r.None? <==> forall i | 0 <= i < |ms| :: !ActiveAt(ms[i].segments, time)
    ensures r.Some? ==> exists i | 0 <= i < |ms| :: ms[i] == r.value && ActiveAt(ms[i].segments, time)
                                                    && forall k | 0 <= k < i :: !ActiveAt(ms[k].segments, time)
    decreases |ms|
  {
    if |ms| == 0 then None
    else if ActiveAt(ms[0].segments, time) then Some(ms[0])
    else
      var rest := FirstActive(ms[1..], time);
      assert rest.Some? ==> exists i | 0 <= i < |ms| :: ms[i] == rest.value && ActiveAt(ms[i].segments, time)
                                                        && forall k | 0 <= k < i :: !ActiveAt(ms[k].segments, time) by {
        if rest.Some? {
          var j :| 0 <= j < |ms[1..]| && ms[1..][j] == rest.value && ActiveAt(ms[1..][j].segments, time)
                   && forall k | 0 <= k < j :: !ActiveAt(ms[1..][k].segments, time);
          assert ms[j + 1] == rest.value;
          forall k | 0 <= k < j + 1 ensures !ActiveAt(ms[k].segments, time) {
            if k > 0 {
              assert ms[k] == ms[1..][k - 1];
            }
          }
        }
      }
      assert rest.None? ==> forall i | 0 <= i < |ms| :: !ActiveAt(ms[i].segments, time) by {
        if rest.None? {
          forall i | 0 <= i < |ms| ensures !ActiveAt(ms[i].segments, time) {
            if i > 0 {
              assert ms[i] == ms[1..][i - 1];
            }
          }
        }
      }
      rest
  }

  /** The published result the player reads while the video plays. */
  class PlaybackState {
    var matchedSpeakers: seq<MatchedSpeaker>

    constructor (matchedSpeakers: seq<MatchedSpeaker>)
      ensures this.matchedSpeakers == matchedSpeakers
    {
      this.matchedSpeakers := matchedSpeakers;
    }

    /** `getCurrentSpeaker(at:)`: the first listed speaker talking at `time`, or none. */
    function GetCurrentSpeaker(time: real): (r: Option<MatchedSpeaker>)
      reads this
      ensures r.None? <==> forall i | 0 <= i < |matchedSpeakers| :: !ActiveAt(matchedSpeakers[i].segments, time)
      ensures r.Some? ==> r.value in matchedSpeakers && ActiveAt(r.value.segments, time)
      ensures r.Some? ==> exists i | 0 <= i < |matchedSpeakers| :: matchedSpeakers[i] == r.value
                            && forall k | 0 <= k < i :: !ActiveAt(matchedSpeakers[k].segments, time)
    {
      FirstActive(matchedSpeakers, time)
    }

    /** `updateCurrentSpeakers(at:)`: clear every flag, then set the flag of each speaker that has
        a segment covering `time`. */
    method UpdateCurrentSpeakers(time: real)
      modifies this
      ensures matchedSpeakers == Refreshed(old(matchedSpeakers), time)
    {
      ghost var before := matchedSpeakers;
      var n := |matchedSpeakers|;
      var i := 0;
      while i < n
        invariant 0 <= i <= n && |matchedSpeakers| == n
        invariant forall k | 0 <= k < i :: matchedSpeakers[k] == before[k].(isCurrentlySpeaking := false)
        invariant forall k | i <= k < n :: matchedSpeakers[k] == before[k]
      {
        matchedSpeakers := matchedSpeakers[i := matchedSpeakers[i].(isCurrentlySpeaking := false)];
        i := i + 1;
      }
      i := 0;
      while i < n
        invariant 0 <= i <= n && |matchedSpeakers| == n
        invariant forall k | 0 <= k < i ::
          matchedSpeakers[k] == before[k].(isCurrentlySpeaking := ActiveAt(before[k].segments, time))
        invariant forall k | i <= k < n :: matchedSpeakers[k] == before[k].(isCurrentlySpeaking := false)
      {
        var speaker := matchedSpeakers[i];
        var j := 0;
        while j < |speaker.segments|
          invariant 0 <= j <= |speaker.segments|
          invariant matchedSpeakers[i] == speaker
          invariant forall l | 0 <= l < j :: !Covers(speaker.segments[l], time)
        {
          var segment := speaker.segments[j];
          if segment.start <= time && time <= segment.end {
            matchedSpeakers := matchedSpeakers[i := speaker.(isCurrentlySpeaking := true)];
            break;
          }
          j := j + 1;
        }
        i := i + 1;
      }
    }
  }

  /** Recomputing the flags twice at the same time changes nothing the second time. */
  lemma RefreshIdempotent(ms: seq<MatchedSpeaker>, time: real)
    ensures Refreshed(Refreshed(ms, time), time) == Refreshed(ms, time)
  {
  }

  /** The refresh keeps every entry apart from its flag, and the flags it sets do not depend on
      the flags it found. */
  lemma RefreshKeepsEntries(ms: seq<MatchedSpeaker>, time: real)
    ensures |Refreshed(ms, time)| == |ms|
    ensures forall k | 0 <= k < |ms| ::
      var m := Refreshed(ms, time)[k];
      m.speakerID == ms[k].speakerID && m.faceID == ms[k].faceID && m.position == ms[k].position
      && m.segments == ms[k].segments
    ensures forall k | 0 <= k < |ms| :: Refreshed(ms, time)[k].isCurrentlySpeaking <==>
      exists l | 0 <= l < |ms[k].segments| :: ms[k].segments[l].start <= time <= ms[k].segments[l].end
  {
  }

  /** After a refresh the flags and the current-speaker query agree: the query finds a speaker
      exactly when some flag is set, and the speaker it finds is flagged and is the first flagged
      one. */
  lemma {:induction false} CurrentSpeakerIsFlagged(ms: seq<MatchedSpeaker>, time: real)
    ensures var r := FirstActive(Refreshed(ms, time), time);
      && (r.Some? <==> exists k | 0 <= k < |ms| :: Refreshed(ms, time)[k].isCurrentlySpeaking)
      && (r.Some? ==> r.value.isCurrentlySpeaking)
      && (r.Some? ==> exists i | 0 <= i < |ms| :: Refreshed(ms, time)[i] == r.value
                        && forall k | 0 <= k < i :: !Refreshed(ms, time)[k].isCurrentlySpeaking)
  {
    var updated := Refreshed(ms, time);
    var r := FirstActive(updated, time);
    assert forall k | 0 <= k < |ms| :: updated[k].isCurrentlySpeaking == ActiveAt(updated[k].segments, time);
    if r.Some? {
      var i :| 0 <= i < |updated| && updated[i] == r.value && ActiveAt(updated[i].segments, time)
               && forall k | 0 <= k < i :: !ActiveAt(updated[k].segments, time);
      assert updated[i].isCurrentlySpeaking;
    }
  }
}
