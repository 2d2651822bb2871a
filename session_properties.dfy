/**
 * What the handlers of the page promise, stated over the transition
 * functions the `App` methods are proved against.
 */
module SessionProperties {
  import opened Wrappers
  import opened Detection
  import Router
  import opened Session

  // ----- invariant -----

  /** A frame keeps the invariant: the message it may record is a proximity warning. */
  lemma {:induction false} FrameKeepsValid(s: AppState, ps: seq<Prediction>, now: int)
    requires ValidState(s)
    ensures ValidState(AfterFrame(s, ps, now))
  {
    FrameMessageFromPrediction(ps);
  }

  /** Every voice command keeps the invariant. */
  lemma CommandKeepsValid(s: AppState, c: Option<Router.Command>, kinds: seq<string>, g: Option<StreamId>)
    requires ValidState(s)
    ensures ValidState(AfterCommand(s, c, kinds, g))
  {
  }

  // ----- debounce across frames -----

  /**
   * A frame that spoke is followed by silence for the same predictions until
   * more than 7000 ms have passed; after that the warning is spoken again.
   */
  lemma {:induction false} FrameRepeat(s: AppState, ps: seq<Prediction>, t: int, t2: int)
    requires |AfterFrame(s, ps, t).spoken| > |s.spoken|
    ensures t2 - t <= REPEAT_INTERVAL ==>
      AfterFrame(AfterFrame(s, ps, t), ps, t2).spoken == AfterFrame(s, ps, t).spoken
    ensures t2 - t > REPEAT_INTERVAL ==>
      AfterFrame(AfterFrame(s, ps, t), ps, t2).spoken == AfterFrame(s, ps, t).spoken + [FrameMessage(ps)]
  {
  }

  /** A frame whose warning differs from the last one spoken speaks it at once. */
  lemma {:induction false} FrameSpeaksChangedWarning(s: AppState, ps: seq<Prediction>, now: int)
    requires exists k :: 0 <= k < |ps| && Alerting(ps[k])
    requires FrameMessage(ps) != s.lastSpoken
    ensures AfterFrame(s, ps, now).spoken == s.spoken + [FrameMessage(ps)]
    ensures AfterFrame(s, ps, now).lastSpoken == FrameMessage(ps)
    ensures AfterFrame(s, ps, now).lastSpokenTime == now
  {
    FrameMessageEmptyIff(ps);
  }

  /** A frame with no confident near object says nothing and keeps the debounce state. */
  lemma {:induction false} QuietFrame(s: AppState, ps: seq<Prediction>, now: int)
    requires forall k :: 0 <= k < |ps| ==> !Alerting(ps[k])
    ensures AfterFrame(s, ps, now) == s.(children := Overlay(ps))
  {
    FrameMessageEmptyIff(ps);
  }

  /**
   * Two frames each holding one confident person with box area 200, at 0 ms
   * and at 3000 ms: the warning is spoken once.
   */
  lemma PersonTwiceSpokenOnce(s: AppState)
    requires s.lastSpoken == ""
    ensures var p := Prediction("person", 0.9, BBox(0.0, 0.0, 10.0, 20.0));
      AfterFrame(AfterFrame(s, [p], 0), [p], 3000).spoken == s.spoken + ["Warning: person is near"]
  {
    var p := Prediction("person", 0.9, BBox(0.0, 0.0, 10.0, 20.0));
    assert [p][..0] == [];
    assert FrameMessage([p]) == "Warning: person is near";
  }

  // ----- switching -----

  /** Switching never touches the stream handle, the overlay, the buttons or the debounce state. */
  lemma SwitchKeepsSession(s: AppState, kinds: seq<string>, g: Option<StreamId>)
    ensures var r := AfterSwitch(s, kinds, g);
      r.stream == s.stream && r.modelLoaded == s.modelLoaded && r.children == s.children &&
      r.enableButtonDisabled == s.enableButtonDisabled && r.stopButtonDisabled == s.stopButtonDisabled &&
      r.lastSpoken == s.lastSpoken && r.lastSpokenTime == s.lastSpokenTime
  {
  }

  /** With at most one video input the switch only says so. */
  lemma SwitchWithoutSecondCamera(s: AppState, kinds: seq<string>, g: Option<StreamId>)
    requires VideoInputCount(kinds) <= 1
    ensures AfterSwitch(s, kinds, g) == s.(spoken := s.spoken + [NO_OTHER_CAMERA])
  {
  }

  /** With two video inputs the facing mode flips, whether or not the new stream is granted. */
  lemma SwitchFlips(s: AppState, kinds: seq<string>, g: Option<StreamId>)
    requires VideoInputCount(kinds) > 1
    ensures AfterSwitch(s, kinds, g).facingMode != s.facingMode
    ensures AfterSwitch(s, kinds, g).requests == s.requests + [AfterSwitch(s, kinds, g).facingMode]
    ensures AfterSwitch(s, kinds, g).spoken == s.spoken
  {
  }

  /** Two switches with two cameras restore the facing mode. */
  lemma SwitchTwiceRestores(s: AppState, kinds: seq<string>, g1: Option<StreamId>, g2: Option<StreamId>)
    requires VideoInputCount(kinds) > 1
    ensures AfterSwitch(AfterSwitch(s, kinds, g1), kinds, g2).facingMode == s.facingMode
  {
    ToggleInvolution(s.facingMode);
  }

  /**
   * The stream granted by a switch is never recorded in `stream`, so a later
   * stop stops the old tracks again and leaves the new ones running.
   */
  lemma SwitchThenStopLeavesNewStream(s: AppState, kinds: seq<string>, old_: StreamId, new_: StreamId)
    requires s.stream == Some(old_) && old_ != new_ && new_ !in s.stoppedStreams
    requires VideoInputCount(kinds) > 1
    ensures var r := AfterStop(AfterSwitch(s, kinds, Some(new_)));
      r.stream == Some(old_) && old_ in r.stoppedStreams && new_ !in r.stoppedStreams && r.videoSource == None
  {
  }

  // ----- enabling and stopping -----

  /** Without a loaded model, enabling changes nothing. */
  lemma EnableNeedsModel(s: AppState, g: Option<StreamId>)
    requires !s.modelLoaded
    ensures AfterEnable(s, g) == s
  {
  }

  /**
   * With a model, a granted stream replaces whatever stream was there, and
   * the replaced stream is not stopped.
   */
  lemma EnableReplacesStream(s: AppState, id: StreamId)
    requires s.modelLoaded
    ensures var r := AfterEnable(s, Some(id));
      r.stream == Some(id) && r.videoSource == Some(id) &&
      r.enableButtonDisabled && !r.stopButtonDisabled &&
      r.stoppedStreams == s.stoppedStreams && r.requests == s.requests + [s.facingMode]
  {
  }

  /** A refused request leaves everything but the request log as it was. */
  lemma EnableRefused(s: AppState)
    requires s.modelLoaded
    ensures AfterEnable(s, None) == s.(requests := s.requests + [s.facingMode])
  {
  }

  /**
   * Stopping with a stream empties the overlay, forgets the last alert and
   * resets the buttons, but keeps the stream handle and the last speech time.
   */
  lemma StopResets(s: AppState)
    requires s.stream.Some?
    ensures var r := AfterStop(s);
      r.children == [] && r.lastSpoken == "" && !r.enableButtonDisabled && r.stopButtonDisabled &&
      r.stream == s.stream && r.lastSpokenTime == s.lastSpokenTime && s.stream.value in r.stoppedStreams &&
      r.facingMode == s.facingMode && r.spoken == s.spoken
  {
  }

  /** Stopping without a stream changes nothing. */
  lemma StopWithoutStream(s: AppState)
    requires s.stream.None?
    ensures AfterStop(s) == s
  {
  }

  /** Stopping twice is stopping once. */
  lemma StopIdempotent(s: AppState)
    ensures AfterStop(AfterStop(s)) == AfterStop(s)
  {
  }

  /** After a stop the first warning of the next frame is spoken, whatever the time. */
  lemma {:induction false} StopClearsSuppression(s: AppState, ps: seq<Prediction>, now: int)
    requires s.stream.Some?
    requires exists k :: 0 <= k < |ps| && Alerting(ps[k])
    ensures AfterFrame(AfterStop(s), ps, now).spoken == s.spoken + [FrameMessage(ps)]
  {
    FrameMessageEmptyIff(ps);
  }

  // ----- voice commands -----

  /** A transcript that matches no phrase list does nothing and says nothing. */
  lemma UnmatchedCommand(s: AppState, kinds: seq<string>, g: Option<StreamId>)
    ensures AfterCommand(s, None, kinds, g) == s
  {
  }

  /** A routed command is acknowledged even when its action does nothing. */
  lemma CommandAcknowledged(s: AppState, kinds: seq<string>, g: Option<StreamId>)
    ensures AfterCommand(s, Some(Router.EnableCam), kinds, g).spoken == s.spoken + [ACK_ENABLE]
    ensures AfterCommand(s, Some(Router.StopCam), kinds, g).spoken == s.spoken + [ACK_STOP]
    ensures |AfterCommand(s, Some(Router.SwitchCamera), kinds, g).spoken| > |s.spoken|
    ensures AfterCommand(s, Some(Router.SwitchCamera), kinds, g).spoken[|s.spoken|] == ACK_SWITCH
  {
  }

  /** "please enable camera now" with a loaded model and a granted stream turns the camera on. */
  lemma PleaseEnableTurnsOn(s: AppState, kinds: seq<string>, id: StreamId)
    requires s.modelLoaded
    ensures var r := AfterCommand(s, Router.Route("please enable camera now"), kinds, Some(id));
      r.stream == Some(id) && r.spoken == s.spoken + [ACK_ENABLE]
  {
    Router.PleaseEnableCamera();
  }

  /** "stop camera on" does not stop the camera: it requests a new stream instead. */
  lemma StopCameraOnDoesNotStop(s: AppState, kinds: seq<string>, g: Option<StreamId>)
    ensures AfterCommand(s, Router.Route("stop camera on"), kinds, g) == Speak(AfterEnable(s, g), ACK_ENABLE)
  {
    Router.StopCameraOnEnables();
  }

  /** "stop webcam" runs the stop transition and acknowledges it. */
  lemma StopWebcamStopsCamera(s: AppState, kinds: seq<string>, g: Option<StreamId>)
    ensures AfterCommand(s, Router.Route("stop webcam"), kinds, g) == Speak(AfterStop(s), ACK_STOP)
  {
    Router.StopWebcamStops();
  }

  /** "hello" selects no action: nothing changes and nothing is said. */
  lemma HelloChangesNothing(s: AppState, kinds: seq<string>, g: Option<StreamId>)
    ensures AfterCommand(s, Router.Route("hello"), kinds, g) == s
  {
    Router.HelloIsUnmatched();
  }
}
