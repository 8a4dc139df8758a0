/** Optional values and error results shared by every stage of the pipeline. */
module Wrappers {

  /** A Swift optional: `nil` is `None`. */
  datatype Option<+T> = None | Some(value: T)

  /** The reasons an analysis stage throws instead of returning a value. */
  datatype Error =
    | FrameDecodeFailed   // the frame generator reported a failure with an error
    | LandmarkRequestFailed   // the face-landmark request threw

  /** A Swift `throws` function: either its value or the error it threw. */
  datatype Result<+T> = Success(value: T) | Failure(error: Error)

  /** Running throwing steps one after another and concatenating what they return: the first
      step that throws ends the run with its error. */
  function Sweep<T>(rs: seq<Result<seq<T>>>): Result<seq<T>>
  {
    if |rs| == 0 then Success([])
    else
      match Sweep(rs[..|rs| - 1])
      case Failure(e) => Failure(e)
      case Success(prev) =>
        match rs[|rs| - 1]
        case Failure(e) => Failure(e)
        case Success(x) => Success(prev + x)
  }

  /** A run fails exactly when some step throws, and then with the error of the first one. */
  lemma {:induction false} SweepFails<T>(rs: seq<Result<seq<T>>>)
    ensures Sweep(rs).Failure? <==> exists j | 0 <= j < |rs| :: rs[j].Failure?
    ensures Sweep(rs).Failure? ==>
      exists j | 0 <= j < |rs| :: rs[j] == Sweep(rs) && forall i | 0 <= i < j :: rs[i].Success?
  {
    if |rs| > 0 {
      var n := |rs| - 1;
      SweepFails(rs[..n]);
      assert forall i | 0 <= i < n :: rs[..n][i] == rs[i];
      if Sweep(rs[..n]).Failure? {
        var j :| 0 <= j < n && rs[..n][j] == Sweep(rs[..n]) && forall i | 0 <= i < j :: rs[..n][i].Success?;
        assert rs[j] == Sweep(rs);
      } else {
        assert forall i | 0 <= i < n :: rs[i].Success?;
      }
    }
  }

  /** Whatever a successful run returns was returned by one of its steps. */
  lemma {:induction false} SweepCollects<T>(rs: seq<Result<seq<T>>>, x: T)
    requires Sweep(rs).Success? && x in Sweep(rs).value
    ensures exists j | 0 <= j < |rs| :: rs[j].Success? && x in rs[j].value
  {
    var n := |rs| - 1;
    assert rs[..n] + [rs[n]] == rs;
    if x in Sweep(rs[..n]).value {
      SweepCollects(rs[..n], x);
      var j :| 0 <= j < n && rs[..n][j].Success? && x in rs[..n][j].value;
      assert rs[..n][j] == rs[j];
    }
  }

  /** Once a prefix of the steps has thrown, the run ends with that prefix's error. */
  lemma {:induction false} SweepPersists<T>(rs: seq<Result<seq<T>>>, j: nat)
    requires j <= |rs| && Sweep(rs[..j]).Failure?
    ensures Sweep(rs) == Sweep(rs[..j])
  {
    if j < |rs| {
      var n := |rs| - 1;
      assert rs[..n][..j] == rs[..j];
      SweepPersists(rs[..n], j);
    } else {
      assert rs[..j] == rs;
    }
  }

  /** The values of the present entries, in order: what appending only the non-nil results of a
      loop body collects. */
  function Somes<T>(os: seq<Option<T>>): seq<T>
  {
    if |os| == 0 then []
    else
      Somes(os[..|os| - 1]) +
        match os[|os| - 1]
        case Some(x) => [x]
        case None => []
  }

  lemma {:induction false} SomesMember<T>(os: seq<Option<T>>, x: T)
    requires x in Somes(os)
    ensures exists j | 0 <= j < |os| :: os[j] == Some(x)
  {
    var n := |os| - 1;
    if x in Somes(os[..n]) {
      SomesMember(os[..n], x);
      var j :| 0 <= j < n && os[..n][j] == Some(x);
      assert os[j] == Some(x);
    }
  }

  lemma {:induction false} SomesContain<T>(os: seq<Option<T>>, j: nat)
    requires j < |os| && os[j].Some?
    ensures os[j].value in Somes(os)
  {
    var n := |os| - 1;
    if j < n {
      SomesContain(os[..n], j);
      assert os[..n][j] == os[j];
    }
  }

  /** Present entries with pairwise different keys give a list with pairwise different keys. */
  lemma {:induction false} SomesDistinct<T>(os: seq<Option<T>>, key: T -> real)
    requires forall i, j | 0 <= i < j < |os| && os[i].Some? && os[j].Some? :: key(os[i].value) != key(os[j].value)
    ensures forall i, j | 0 <= i < j < |Somes(os)| :: key(Somes(os)[i]) != key(Somes(os)[j])
  {
    if |os| > 0 {
      var n := |os| - 1;
      assert forall i | 0 <= i < n :: os[..n][i] == os[i];
      SomesDistinct(os[..n], key);
      var prior := Somes(os[..n]);
      if os[n].Some? {
        forall x | x in prior ensures key(x) != key(os[n].value) {
          SomesMember(os[..n], x);
        }
        var all := Somes(os);
        assert all == prior + [os[n].value];
        forall i, j | 0 <= i < j < |all| ensures key(all[i]) != key(all[j]) {
          if j == |prior| {
            assert all[i] in prior;
          } else {
            assert all[i] == prior[i] && all[j] == prior[j];
          }
        }
      }
    }
  }
}
