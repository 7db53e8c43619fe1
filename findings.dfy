/** Two places where the eye monitor does not do what its comments say, each
    shown on a concrete sequence of calls, and a corrected timer for which the
    intended behaviour is proved. */
module EyeClosureFindings {
  import opened Wrappers
  import opened EyeClosure

  function Closed(now: real): Observation {
    Observation(false, false, now)
  }

  /** Eyes closed at 0, 1, 2 and 2.5 seconds: the totals are 0, 1, 3 and 5.5,
      so the alert "closed for more than 3 seconds" fires after 2.5 seconds. */
  lemma AlertBeforeThreeSecondsAsWritten()
    ensures Fired(Initial, [Closed(0.0), Closed(1000.0), Closed(2000.0), Closed(2500.0)])
            == [false, false, false, true]
  {
    var s1 := Step(Initial, Closed(0.0)).next;
    assert s1 == EyeState(Some(0.0), Some(0.0), 0.0, false);
    var s2 := Step(s1, Closed(1000.0)).next;
    assert s2 == EyeState(Some(0.0), Some(0.0), 1.0, false);
    var s3 := Step(s2, Closed(2000.0)).next;
    assert s3 == EyeState(Some(0.0), Some(0.0), 3.0, false);
    assert Step(s3, Closed(2500.0)).fired;
  }

  /** Eyes closed without a break at 0, 4, 5 and 6 seconds: the alert that is
      meant to be shown once fires at 4 and again at 6 seconds. */
  lemma RepeatedAlertAsWritten()
    ensures Fired(Initial, [Closed(0.0), Closed(4000.0), Closed(5000.0), Closed(6000.0)])
            == [false, true, false, true]
  {
    var s1 := Step(Initial, Closed(0.0)).next;
    assert s1 == EyeState(Some(0.0), Some(0.0), 0.0, false);
    var s2 := Step(s1, Closed(4000.0)).next;
    assert s2 == EyeState(Some(0.0), Some(0.0), 4.0, true);
    var s3 := Step(s2, Closed(5000.0)).next;
    assert s3 == EyeState(Some(0.0), Some(0.0), 9.0, false);
    assert Step(s3, Closed(6000.0)).fired;
  }

  /** The timer as intended: the total is the time since the streak began,
      and the alert flag stays set until an eye opens. */
  function CorrectedStep(s: EyeState, o: Observation): (r: StepResult)
    ensures !BothClosed(o) ==> r.next == Initial && !r.fired
    ensures BothClosed(o) ==>
      r.next.leftEyeClosedTime == r.next.rightEyeClosedTime
        == Some(if s.leftEyeClosedTime.Some? then s.leftEyeClosedTime.value else o.now)
    // the alert fires only after more than three seconds of closure ...
    ensures r.fired ==>
      BothClosed(o) && (o.now - r.next.leftEyeClosedTime.value) / MillisPerSecond > AlertSeconds
    // ... only while it has not yet fired in this streak ...
    ensures r.fired ==> !s.alertShown
    // ... and once that is reached the flag stays set until an eye opens
    ensures BothClosed(o) ==>
      (r.next.alertShown <==>
         s.alertShown || (o.now - r.next.leftEyeClosedTime.value) / MillisPerSecond > AlertSeconds)
  {
    if BothClosed(o) then
      var since := if s.leftEyeClosedTime.Some? then s.leftEyeClosedTime.value else o.now;
      var total := (o.now - since) / MillisPerSecond;
      var fired := total > AlertSeconds && !s.alertShown;
      StepResult(EyeState(Some(since), Some(since), total, s.alertShown || fired), fired)
    else
      StepResult(Initial, false)
  }

  function CorrectedRun(s: EyeState, obs: seq<Observation>): EyeState
    decreases |obs|
  {
    if obs == [] then s else CorrectedRun(CorrectedStep(s, obs[0]).next, obs[1..])
  }

  function CorrectedFired(s: EyeState, obs: seq<Observation>): (f: seq<bool>)
    decreases |obs|
    ensures |f| == |obs|
  {
    if obs == [] then [] else [CorrectedStep(s, obs[0]).fired] + CorrectedFired(CorrectedStep(s, obs[0]).next, obs[1..])
  }

  function CountTrue(f: seq<bool>): nat {
    if f == [] then 0 else (if f[0] then 1 else 0) + CountTrue(f[1..])
  }

  /** Over a closed streak the corrected timer raises the alert exactly when
      the flag goes from clear to set, so at most once. */
  lemma {:induction false} CorrectedAlertsOncePerStreak(s: EyeState, obs: seq<Observation>)
    requires AllClosed(obs)
    ensures CountTrue(CorrectedFired(s, obs))
            == if CorrectedRun(s, obs).alertShown && !s.alertShown then 1 else 0
    ensures s.alertShown ==> CorrectedRun(s, obs).alertShown
    decreases |obs|
  {
    if obs != [] {
      var t := CorrectedStep(s, obs[0]).next;
      assert AllClosed(obs[1..]) by {
        forall k | 0 <= k < |obs[1..]| ensures BothClosed(obs[1..][k]) {
          assert obs[1..][k] == obs[k + 1];
        }
      }
      CorrectedAlertsOncePerStreak(t, obs[1..]);
    }
  }

  /** Starting from a reset state, the streak start is the first closed frame. */
  lemma {:induction false} CorrectedStreakStart(s: EyeState, obs: seq<Observation>)
    requires AllClosed(obs) && obs != []
    ensures CorrectedRun(s, obs).leftEyeClosedTime
            == Some(if s.leftEyeClosedTime.Some? then s.leftEyeClosedTime.value else obs[0].now)
    decreases |obs|
  {
    if |obs| > 1 {
      CorrectedStreakStart(CorrectedStep(s, obs[0]).next, obs[1..]);
    }
  }

  /** A closed streak from the initial state, on a clock that does not run
      backwards, raises exactly one alert when its last frame is more than
      three seconds after its first, and none otherwise. */
  lemma CorrectedExactlyOneAlert(obs: seq<Observation>)
    requires AllClosed(obs) && NonDecreasing(obs) && obs != []
    ensures CountTrue(CorrectedFired(Initial, obs))
            == if (obs[|obs| - 1].now - obs[0].now) / MillisPerSecond > AlertSeconds then 1 else 0
  {
    CorrectedAlertsOncePerStreak(Initial, obs);
    CorrectedStreakStart(Initial, obs);
    CorrectedLastFrame(Initial, obs);
  }

  /** On a monotone clock, the flag after a closed streak is set iff it was set
      before or the last frame is more than three seconds into the streak. */
  lemma {:induction false} CorrectedLastFrame(s: EyeState, obs: seq<Observation>)
    requires AllClosed(obs) && NonDecreasing(obs) && obs != []
    requires s.leftEyeClosedTime.Some? ==> s.leftEyeClosedTime.value <= obs[0].now
    ensures CorrectedRun(s, obs).leftEyeClosedTime.Some?
    ensures CorrectedRun(s, obs).alertShown <==>
      s.alertShown
      || (obs[|obs| - 1].now - CorrectedRun(s, obs).leftEyeClosedTime.value) / MillisPerSecond > AlertSeconds
    decreases |obs|
  {
    CorrectedStreakStart(s, obs);
    var t := CorrectedStep(s, obs[0]).next;
    if |obs| > 1 {
      assert AllClosed(obs[1..]) && NonDecreasing(obs[1..]) by {
        forall k | 0 <= k < |obs[1..]| ensures obs[1..][k] == obs[k + 1] { }
      }
      assert obs[0].now <= obs[1].now <= obs[|obs| - 1].now;
      CorrectedLastFrame(t, obs[1..]);
      CorrectedAlertsOncePerStreak(t, obs[1..]);
      CorrectedStreakStart(t, obs[1..]);
    }
  }
}
