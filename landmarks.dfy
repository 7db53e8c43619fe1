/** Landmark geometry and the two stateless classifiers of the frame analysis:
    the eye-open gap test and the face-direction test. */
module Landmarks {

  /** One normalized landmark produced by the face-mesh model. */
  datatype Point = Point(x: real, y: real)

  /** The landmarks of one detected face, in the model's fixed index order. */
  type Face = seq<Point>

  /** Width of the video frame in pixels. */
  const VideoWidth: real := 640.0

  /** Landmarks per face with iris refinement switched on. */
  const RefinedLandmarkCount: nat := 478

  const NoseTip: nat := 1
  const NoseBase: nat := 168
  const LeftEyeTop: nat := 159
  const LeftEyeBottom: nat := 145
  const RightEyeTop: nat := 386
  const RightEyeBottom: nat := 374

  /** A face must have at least this many landmarks for every index read per frame. */
  const MinLandmarks: nat := RightEyeTop + 1

  /** Every face of the refined model has all the landmarks the analysis reads. */
  lemma RefinedFacesSuffice()
    ensures RefinedLandmarkCount >= MinLandmarks && MinLandmarks > NoseBase
  {
  }

  /** An eye whose vertical landmark gap is at most this is closed. */
  const EyeOpenThreshold: real := 0.01

  /** Fractions of the frame width outside which the face counts as turned away. */
  const LowFraction: real := 0.3
  const HighFraction: real := 0.7

  /** `Math.abs` on reals. */
  function Abs(r: real): (a: real)
    ensures a >= 0.0
    ensures a == r || a == -r
  {
    if r < 0.0 then -r else r
  }

  /** Vertical distance between two landmarks of a face. */
  function Gap(face: Face, top: nat, bottom: nat): real
    requires top < |face| && bottom < |face|
  {
    Abs(face[top].y - face[bottom].y)
  }

  /** An eye is open exactly when its top and bottom landmarks are more than
      the threshold apart vertically, in either direction. */
  function EyeOpen(face: Face, top: nat, bottom: nat): (open: bool)
    requires top < |face| && bottom < |face|
    ensures open <==> face[top].y - face[bottom].y > EyeOpenThreshold
                      || face[bottom].y - face[top].y > EyeOpenThreshold
  {
    Gap(face, top, bottom) > EyeOpenThreshold
  }

  function LeftEyeOpen(face: Face): bool
    requires |face| >= MinLandmarks
  {
    EyeOpen(face, LeftEyeTop, LeftEyeBottom)
  }

  function RightEyeOpen(face: Face): bool
    requires |face| >= MinLandmarks
  {
    EyeOpen(face, RightEyeTop, RightEyeBottom)
  }

  /** Both eyes are closed exactly when, for each eye, the top and bottom
      landmarks are within the threshold of each other vertically. */
  function BothEyesClosed(face: Face): (closed: bool)
    requires |face| >= MinLandmarks
    ensures closed <==>
      && -EyeOpenThreshold <= face[LeftEyeTop].y - face[LeftEyeBottom].y <= EyeOpenThreshold
      && -EyeOpenThreshold <= face[RightEyeTop].y - face[RightEyeBottom].y <= EyeOpenThreshold
  {
    !LeftEyeOpen(face) && !RightEyeOpen(face)
  }

  /** Horizontal face position in pixels, taken from the nose base. */
  function FaceCenterX(face: Face): real
    requires |face| > NoseBase
  {
    face[NoseBase].x * VideoWidth
  }

  /** The face-direction alert condition. Although it compares pixels, it is
      the same test on the normalized x of the nose base. */
  function FaceOffCenter(face: Face): (off: bool)
    requires |face| > NoseBase
    ensures off <==> face[NoseBase].x < LowFraction || face[NoseBase].x > HighFraction
  {
    FaceCenterX(face) < VideoWidth * LowFraction || FaceCenterX(face) > VideoWidth * HighFraction
  }

  /** The nose tip is read but never used: replacing it changes nothing. */
  lemma NoseTipHasNoInfluence(face: Face, p: Point)
    requires |face| > NoseBase
    ensures FaceOffCenter(face[NoseTip := p]) == FaceOffCenter(face)
  {
  }
}
