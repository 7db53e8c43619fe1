/** The per-frame analysis: the alerts it raises, what one frame does to the
    eye-closure state, and the session object that holds that state between
    frames and runs the monitors imperatively. */
module Detection {
  import opened Wrappers
  import opened Landmarks
  import opened EyeClosure

  /** The three `alert(...)` dialogs the analysis can raise. */
  datatype Alert = MultipleFaces | FaceMovement | EyeMovement {
    function Message(): string {
      match this
      case MultipleFaces => "Suspicious activity detected, No third person should be caught in front of the screen"
      case FaceMovement => "Suspicious activity detected from face movement, please look at the screen"
      case EyeMovement => "Suspicious activity detected from eye movement, please open your eyes"
    }
  }

  /** The eye-closure state after a frame and the alerts raised during it, in order. */
  datatype Outcome = Outcome(eyes: EyeState, alerts: seq<Alert>)

  predicate WellFormed(faces: seq<Face>) {
    forall k :: 0 <= k < |faces| ==> |faces[k]| >= MinLandmarks
  }

  /** The eye monitor's classification of a face: both eyes count as closed
      exactly when the landmark test says so. */
  function Observe(face: Face, now: real): (o: Observation)
    requires |face| >= MinLandmarks
    ensures BothClosed(o) <==> BothEyesClosed(face)
    ensures o.now == now
  {
    Observation(LeftEyeOpen(face), RightEyeOpen(face), now)
  }

  /** The alert the face-direction monitor raises for one face, if any. */
  function DirectionAlerts(face: Face): (a: seq<Alert>)
    requires |face| > NoseBase
    ensures a == [] || a == [FaceMovement]
    ensures a != [] <==> face[NoseBase].x < LowFraction || face[NoseBase].x > HighFraction
  {
    if FaceOffCenter(face) then [FaceMovement] else []
  }

  /** One face: the direction monitor, then the eye monitor. */
  function FaceOutcome(s: EyeState, face: Face, now: real): Outcome
    requires |face| >= MinLandmarks
  {
    var r := Step(s, Observe(face, now));
    Outcome(r.next, DirectionAlerts(face) + (if r.fired then [EyeMovement] else []))
  }

  /** The faces of a frame processed in list order. */
  function ProcessFaces(s: EyeState, faces: seq<Face>, now: real): (o: Outcome)
    requires WellFormed(faces)
    decreases |faces|
    ensures |o.alerts| <= 2 * |faces|
    ensures MultipleFaces !in o.alerts
    ensures faces == [] ==> o == Outcome(s, [])
    ensures Consistent(s) ==> Consistent(o.eyes)
  {
    if faces == [] then Outcome(s, [])
    else
      var before := ProcessFaces(s, faces[..|faces| - 1], now);
      var last := FaceOutcome(before.eyes, faces[|faces| - 1], now);
      Outcome(last.eyes, before.alerts + last.alerts)
  }

  /** What a frame does. `faces` is None when the model found no face at all. */
  function FrameOutcome(s: EyeState, faces: Option<seq<Face>>, now: real): (o: Outcome)
    requires faces.Some? && |faces.value| <= 1 ==> WellFormed(faces.value)
    // more than one face: a single alert, and no monitor runs
    ensures faces.Some? && |faces.value| > 1 ==> o == Outcome(s, [MultipleFaces])
    ensures MultipleFaces in o.alerts <==> faces.Some? && |faces.value| > 1
    // no face: nothing happens
    ensures faces.None? || faces == Some([]) ==> o == Outcome(s, [])
    // one face: direction first, then eye closure
    ensures faces.Some? && |faces.value| == 1 ==> o == FaceOutcome(s, faces.value[0], now)
    ensures Consistent(s) ==> Consistent(o.eyes)
  {
    if faces.Some? && |faces.value| > 1 then Outcome(s, [MultipleFaces])
    else if faces.Some? then ProcessFaces(s, faces.value, now)
    else Outcome(s, [])
  }

  /** The module-level variables of the analysis and its log of raised alerts. */
  class Session {
    var leftEyeClosedTime: Option<real>
    var rightEyeClosedTime: Option<real>
    var totalEyeClosureTime: real
    var alertShown: bool
    ghost var alerts: seq<Alert>

    function Eyes(): EyeState
      reads this
    {
      EyeState(leftEyeClosedTime, rightEyeClosedTime, totalEyeClosureTime, alertShown)
    }

    ghost predicate Valid()
      reads this
    {
      Consistent(Eyes())
    }

    constructor ()
      ensures Valid()
      ensures Eyes() == Initial && alerts == []
    {
      leftEyeClosedTime := None;
      rightEyeClosedTime := None;
      totalEyeClosureTime := 0.0;
      alertShown := false;
      alerts := [];
    }

    /** Raises the face-movement alert when the nose base is outside the
        middle 40% of the frame; changes nothing else. */
    method MonitorFaceDirection(face: Face)
      requires |face| > NoseBase
      modifies this`alerts
      ensures alerts == old(alerts) + DirectionAlerts(face)
    {
      var faceCenterX := face[NoseBase].x * VideoWidth;
      if faceCenterX < VideoWidth * LowFraction {
        alerts := alerts + [FaceMovement];
      } else if faceCenterX > VideoWidth * HighFraction {
        alerts := alerts + [FaceMovement];
      }
    }

    /** One call of the eye monitor at clock reading `now` (milliseconds). */
    method MonitorEyeClosure(face: Face, now: real)
      requires Valid()
      requires |face| >= MinLandmarks
      modifies this
      ensures Valid()
      ensures Eyes() == Step(old(Eyes()), Observe(face, now)).next
      ensures alerts == old(alerts) + if Step(old(Eyes()), Observe(face, now)).fired then [EyeMovement] else []
    {
      var leftEyeOpen := Abs(face[LeftEyeTop].y - face[LeftEyeBottom].y) > EyeOpenThreshold;
      var rightEyeOpen := Abs(face[RightEyeTop].y - face[RightEyeBottom].y) > EyeOpenThreshold;
      if !leftEyeOpen && !rightEyeOpen {
        if leftEyeClosedTime.None? && rightEyeClosedTime.None? {
          leftEyeClosedTime := Some(now);
          rightEyeClosedTime := Some(now);
        }
        totalEyeClosureTime := totalEyeClosureTime + (now - ToNumber(leftEyeClosedTime)) / MillisPerSecond;
      } else {
        leftEyeClosedTime := None;
        rightEyeClosedTime := None;
        totalEyeClosureTime := 0.0;
      }
      if totalEyeClosureTime > AlertSeconds && !alertShown {
        alerts := alerts + [EyeMovement];
        alertShown := true;
      } else {
        alertShown := false;
      }
    }

    /** One frame of results: with more than one face, a single alert and an
        early return; otherwise both monitors on every face, in list order. */
    method OnResults(faces: Option<seq<Face>>, now: real)
      requires Valid()
      requires faces.Some? && |faces.value| <= 1 ==> WellFormed(faces.value)
      modifies this
      ensures Valid()
      ensures Eyes() == FrameOutcome(old(Eyes()), faces, now).eyes
      ensures alerts == old(alerts) + FrameOutcome(old(Eyes()), faces, now).alerts
    {
      if faces.Some? && |faces.value| > 1 {
        alerts := alerts + [MultipleFaces];
        return;
      }
      if faces.Some? {
        var fs := faces.value;
        for i := 0 to |fs|
          invariant Valid()
          invariant Eyes() == ProcessFaces(old(Eyes()), fs[..i], now).eyes
          invariant alerts == old(alerts) + ProcessFaces(old(Eyes()), fs[..i], now).alerts
        {
          assert fs[..i + 1][..i] == fs[..i];
          MonitorFaceDirection(fs[i]);
          MonitorEyeClosure(fs[i], now);
        }
        assert fs[..|fs|] == fs;
      }
    }
  }
}
