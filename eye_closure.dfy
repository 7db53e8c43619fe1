/** The eye-closure timer of the frame analysis, as a pure transition function
    over the four module-level variables it keeps between frames. */
module EyeClosure {
  import opened Wrappers

  /** The cross-frame state: when each eye was first seen closed (null when
      not in a closed streak), the accumulated closure total in seconds, and
      whether the eye alert was raised on the previous call. */
  datatype EyeState = EyeState(
    leftEyeClosedTime: Option<real>,
    rightEyeClosedTime: Option<real>,
    totalEyeClosureTime: real,
    alertShown: bool)

  /** The values the variables hold when the page loads. */
  const Initial: EyeState := EyeState(None, None, 0.0, false)

  /** The total above which the eye alert is raised, in seconds. */
  const AlertSeconds: real := 3.0

  /** `performance.now()` counts milliseconds. */
  const MillisPerSecond: real := 1000.0

  /** One call's classification of the eyes and its clock reading. */
  datatype Observation = Observation(leftOpen: bool, rightOpen: bool, now: real)

  /** The state after one call and whether that call raised the eye alert. */
  datatype StepResult = StepResult(next: EyeState, fired: bool)

  predicate BothClosed(o: Observation) {
    !o.leftOpen && !o.rightOpen
  }

  /** JavaScript's numeric conversion of `number | null`: null becomes 0. */
  function ToNumber(t: Option<real>): real {
    if t.Some? then t.value else 0.0
  }

  /** The invariant every call keeps: both closed-since timestamps are null or
      both hold the same time; outside a closed streak the total is 0; and the
      alert flag is only ever left set with the total above the limit. */
  predicate Consistent(s: EyeState) {
    && s.leftEyeClosedTime == s.rightEyeClosedTime
    && (s.leftEyeClosedTime.None? ==> s.totalEyeClosureTime == 0.0)
    && (s.alertShown ==> s.totalEyeClosureTime > AlertSeconds)
  }

  /** One call of the eye monitor, as the code is written: a closed frame adds
      the whole time since the streak began to the total (the reference point
      never advances), and any call that does not raise the alert clears the
      alert flag. */
  function Step(s: EyeState, o: Observation): (r: StepResult)
    // an open eye resets the timer
    ensures !BothClosed(o) ==>
      r.next.leftEyeClosedTime.None? && r.next.rightEyeClosedTime.None?
      && r.next.totalEyeClosureTime == 0.0
    // the closed-since time is set only on a closed frame where it was null ...
    ensures r.next.leftEyeClosedTime.Some? && r.next.leftEyeClosedTime != s.leftEyeClosedTime
      ==> BothClosed(o) && s.leftEyeClosedTime.None? && s.rightEyeClosedTime.None?
          && r.next.leftEyeClosedTime == r.next.rightEyeClosedTime == Some(o.now)
    // ... where it is set to the current time ...
    ensures BothClosed(o) && s.leftEyeClosedTime.None? && s.rightEyeClosedTime.None? ==>
      r.next.leftEyeClosedTime == r.next.rightEyeClosedTime == Some(o.now)
    // ... and later closed frames keep it
    ensures BothClosed(o) && s.leftEyeClosedTime.Some? ==>
      r.next.leftEyeClosedTime == s.leftEyeClosedTime
      && r.next.rightEyeClosedTime == s.rightEyeClosedTime
    // the first closed frame of a streak adds nothing
    ensures BothClosed(o) && s.leftEyeClosedTime.None? && s.rightEyeClosedTime.None? ==>
      r.next.totalEyeClosureTime == s.totalEyeClosureTime
    // on a closed frame no earlier than the streak start the total cannot shrink
    ensures BothClosed(o) && s.leftEyeClosedTime.Some? && s.leftEyeClosedTime.value <= o.now ==>
      r.next.totalEyeClosureTime >= s.totalEyeClosureTime
    // the alert fires iff the total exceeds the limit and it did not fire last call
    ensures r.fired <==> r.next.totalEyeClosureTime > AlertSeconds && !s.alertShown
    ensures r.next.alertShown == r.fired
    ensures Consistent(s) ==> Consistent(r.next)
  {
    var (left, right, total) :=
      if BothClosed(o) then
        var left := if s.leftEyeClosedTime.None? && s.rightEyeClosedTime.None? then Some(o.now) else s.leftEyeClosedTime;
        var right := if s.leftEyeClosedTime.None? && s.rightEyeClosedTime.None? then Some(o.now) else s.rightEyeClosedTime;
        (left, right, s.totalEyeClosureTime + (o.now - ToNumber(left)) / MillisPerSecond)
      else
        (None, None, 0.0);
    var fired := total > AlertSeconds && !s.alertShown;
    StepResult(EyeState(left, right, total, fired), fired)
  }

  /** The state after a sequence of calls. */
  function Run(s: EyeState, obs: seq<Observation>): EyeState
    decreases |obs|
  {
    if obs == [] then s else Run(Step(s, obs[0]).next, obs[1..])
  }

  /** Whether each call of a sequence raised the eye alert. */
  function Fired(s: EyeState, obs: seq<Observation>): (f: seq<bool>)
    decreases |obs|
    ensures |f| == |obs|
  {
    if obs == [] then [] else [Step(s, obs[0]).fired] + Fired(Step(s, obs[0]).next, obs[1..])
  }

  lemma InitialConsistent()
    ensures Consistent(Initial)
  {
  }

  /** Every sequence of calls keeps the invariant. */
  lemma {:induction false} RunKeepsConsistent(s: EyeState, obs: seq<Observation>)
    requires Consistent(s)
    ensures Consistent(Run(s, obs))
    decreases |obs|
  {
    if obs != [] {
      RunKeepsConsistent(Step(s, obs[0]).next, obs[1..]);
    }
  }

  /** After any non-empty sequence of calls the alert flag says whether the
      last call raised the alert. */
  lemma {:induction false} AlertShownIsLastFired(s: EyeState, obs: seq<Observation>)
    requires obs != []
    ensures Run(s, obs).alertShown == Fired(s, obs)[|obs| - 1]
    decreases |obs|
  {
    if |obs| > 1 {
      AlertShownIsLastFired(Step(s, obs[0]).next, obs[1..]);
    }
  }

  /** The eye alert never fires on two consecutive calls. */
  lemma {:induction false} NeverTwoAlertsInARow(s: EyeState, obs: seq<Observation>, i: nat)
    requires i + 1 < |obs|
    ensures !(Fired(s, obs)[i] && Fired(s, obs)[i + 1])
    decreases |obs|
  {
    if i > 0 {
      NeverTwoAlertsInARow(Step(s, obs[0]).next, obs[1..], i - 1);
    }
  }

  predicate AllClosed(obs: seq<Observation>) {
    forall k :: 0 <= k < |obs| ==> BothClosed(obs[k])
  }

  predicate NonDecreasing(obs: seq<Observation>) {
    forall j, k :: 0 <= j < k < |obs| ==> obs[j].now <= obs[k].now
  }

  /** During a closed streak with a clock that does not run backwards, the
      closed-since time is kept and the total never decreases and stays
      non-negative. */
  lemma {:induction false} ClosedStreakTotalGrows(s: EyeState, obs: seq<Observation>)
    requires Consistent(s) && s.totalEyeClosureTime >= 0.0
    requires AllClosed(obs) && NonDecreasing(obs)
    requires obs != [] && s.leftEyeClosedTime.Some? ==> s.leftEyeClosedTime.value <= obs[0].now
    ensures Run(s, obs).totalEyeClosureTime >= s.totalEyeClosureTime >= 0.0
    ensures s.leftEyeClosedTime.Some? ==> Run(s, obs).leftEyeClosedTime == s.leftEyeClosedTime
    ensures obs != [] && s.leftEyeClosedTime.None? ==> Run(s, obs).leftEyeClosedTime == Some(obs[0].now)
    decreases |obs|
  {
    if obs != [] {
      var t := Step(s, obs[0]).next;
      assert t.leftEyeClosedTime.Some? && t.leftEyeClosedTime.value <= obs[0].now;
      ClosedStreakTotalGrows(t, obs[1..]);
    }
  }
}
