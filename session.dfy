/**
 * The page's mutable state and its handlers: model loading, enabling and
 * stopping the camera, switching between the two facing modes, one step of
 * the detection loop and the voice command handler.
 *
 * Each handler runs to completion. The platform calls it waits on become
 * inputs: the prediction list of a frame, the current time in milliseconds,
 * the device kinds `enumerateDevices` reports, and the stream `getUserMedia`
 * grants (`None` when it rejects). Speech is an append to the `spoken` log.
 */
module Session {
  import opened Wrappers
  import opened Detection
  import Router

  /** The camera facing mode passed to `getUserMedia`: `environment` or `user`. */
  datatype FacingMode = Environment | User

  /** A capture stream handed out by `getUserMedia`. */
  type StreamId = nat

  const MODEL_LOADED: string :=
    "Model loaded successfully. You can now give voice commands like \"enable webcam\", \"stop webcam\", or \"switch camera\"."
  const NO_OTHER_CAMERA: string := "No additional camera available for switching."
  const ACK_ENABLE: string := "Webcam enabled."
  const ACK_STOP: string := "Webcam stopped."
  const ACK_SWITCH: string := "Switching camera."

  /** The switch between the two facing modes. */
  function Toggle(m: FacingMode): (r: FacingMode)
    ensures r != m
  {
    if m == Environment then User else Environment
  }

  /** Toggling twice gives back the original mode. */
  lemma ToggleInvolution(m: FacingMode)
    ensures Toggle(Toggle(m)) == m
  {
  }

  /** The number of devices whose kind is `videoinput`. */
  function VideoInputCount(kinds: seq<string>): (n: nat)
    ensures n <= |kinds|
    ensures n == 0 <==> forall i :: 0 <= i < |kinds| ==> kinds[i] != "videoinput"
    ensures n == multiset(kinds)["videoinput"]
    decreases |kinds|
  {
    if |kinds| == 0 then 0
    else
      var front := kinds[..|kinds| - 1];
      assert forall i :: 0 <= i < |front| ==> front[i] == kinds[i];
      assert kinds == front + [kinds[|kinds| - 1]];
      VideoInputCount(front) + (if kinds[|kinds| - 1] == "videoinput" then 1 else 0)
  }

  /** Every global the handlers read or write, as one value. */
  datatype AppState = AppState(
    modelLoaded: bool,                // `model` is set
    stream: Option<StreamId>,         // the global `stream`
    videoSource: Option<StreamId>,    // `video.srcObject`
    stoppedStreams: set<StreamId>,    // streams whose tracks were stopped
    facingMode: FacingMode,
    requests: seq<FacingMode>,        // facing modes requested from `getUserMedia`, in order
    children: seq<OverlayEntry>,      // the overlay elements of the current frame
    lastSpoken: string,
    lastSpokenTime: int,
    enableButtonDisabled: bool,
    stopButtonDisabled: bool,
    spoken: seq<string>               // texts handed to speech synthesis, in order
  )

  /**
   * What every handler keeps: a stream exists only once the model is loaded,
   * and the last spoken alert is empty or a proximity warning.
   */
  predicate ValidState(s: AppState) {
    && (s.stream.Some? ==> s.modelLoaded)
    && (s.lastSpoken == "" || IsWarningText(s.lastSpoken))
  }

  function Speak(s: AppState, text: string): AppState {
    s.(spoken := s.spoken + [text])
  }

  /** The model has loaded: it is recorded and announced. */
  function AfterModelLoaded(s: AppState): AppState {
    Speak(s.(modelLoaded := true), MODEL_LOADED)
  }

  /**
   * `enableCam`: nothing without a model; otherwise a stream is requested for
   * the current facing mode and, when granted, becomes the stream and the
   * video source, and the enable button is disabled and the stop button enabled.
   * Nothing checks whether a stream is already active.
   */
  function AfterEnable(s: AppState, granted: Option<StreamId>): AppState {
    if !s.modelLoaded then s
    else
      var asked := s.(requests := s.requests + [s.facingMode]);
      match granted
      case None => asked
      case Some(id) =>
        asked.(stream := Some(id), videoSource := Some(id),
               enableButtonDisabled := true, stopButtonDisabled := false)
  }

  /** The debounce gate: speaks `message` and records it with the time, or changes nothing. */
  function AfterAnnounce(s: AppState, message: string, now: int): AppState {
    if ShouldSpeak(message, s.lastSpoken, s.lastSpokenTime, now)
    then Speak(s, message).(lastSpoken := message, lastSpokenTime := now)
    else s
  }

  /** One step of `predictWebcam`: the overlay is replaced, then the frame's message is gated. */
  function AfterFrame(s: AppState, predictions: seq<Prediction>, now: int): AppState {
    AfterAnnounce(s.(children := Overlay(predictions)), FrameMessage(predictions), now)
  }

  /**
   * `switchCamera`: with at most one video input it only says so. Otherwise
   * the current stream's tracks are stopped, the facing mode flips, a stream
   * is requested for the new mode and, when granted, only becomes the video
   * source; the global `stream` keeps the old handle.
   */
  function AfterSwitch(s: AppState, deviceKinds: seq<string>, granted: Option<StreamId>): AppState {
    if VideoInputCount(deviceKinds) <= 1 then Speak(s, NO_OTHER_CAMERA)
    else
      var stopped := if s.stream.Some? then s.stoppedStreams + {s.stream.value} else s.stoppedStreams;
      var mode := Toggle(s.facingMode);
      var asked := s.(stoppedStreams := stopped, facingMode := mode, requests := s.requests + [mode]);
      match granted
      case None => asked
      case Some(id) => asked.(videoSource := Some(id))
  }

  /**
   * `stopCam`: without a stream nothing happens. With one, its tracks are
   * stopped, the video source is cleared, the overlay emptied, the buttons
   * reset and the last spoken alert forgotten; the stream handle and the last
   * speech time stay.
   */
  function AfterStop(s: AppState): AppState {
    match s.stream
    case None => s
    case Some(id) =>
      s.(stoppedStreams := s.stoppedStreams + {id}, videoSource := None, children := [],
         enableButtonDisabled := false, stopButtonDisabled := true, lastSpoken := "")
  }

  /**
   * `recognition.onresult` once the transcript is routed to `command`: the
   * action runs and its acknowledgement is
   * spoken whatever the action did. `switchCamera` first waits for the device
   * list, so its acknowledgement is spoken before anything the switch says.
   */
  function AfterCommand(s: AppState, command: Option<Router.Command>, deviceKinds: seq<string>, granted: Option<StreamId>): AppState {
    match command
    case None => s
    case Some(EnableCam) => Speak(AfterEnable(s, granted), ACK_ENABLE)
    case Some(StopCam) => Speak(AfterStop(s), ACK_STOP)
    case Some(SwitchCamera) => AfterSwitch(Speak(s, ACK_SWITCH), deviceKinds, granted)
  }

  class App {
    var modelLoaded: bool
    var stream: Option<StreamId>
    var videoSource: Option<StreamId>
    var stoppedStreams: set<StreamId>
    var facingMode: FacingMode
    var requests: seq<FacingMode>
    var children: seq<OverlayEntry>
    var lastSpoken: string
    var lastSpokenTime: int
    var enableButtonDisabled: bool
    var stopButtonDisabled: bool
    var spoken: seq<string>

    function State(): AppState
      reads this
    {
      AppState(modelLoaded, stream, videoSource, stoppedStreams, facingMode, requests, children,
               lastSpoken, lastSpokenTime, enableButtonDisabled, stopButtonDisabled, spoken)
    }

    ghost predicate Valid()
      reads this
    {
      ValidState(State())
    }

    /** The page as loaded; the buttons' initial states come from the page markup. */
    constructor (enableDisabled: bool, stopDisabled: bool)
      ensures Valid()
      ensures State() == AppState(false, None, None, {}, Environment, [], [], "", 0,
                                  enableDisabled, stopDisabled, [])
    {
      modelLoaded := false;
      stream := None;
      videoSource := None;
      stoppedStreams := {};
      facingMode := Environment;
      requests := [];
      children := [];
      lastSpoken := "";
      lastSpokenTime := 0;
      enableButtonDisabled := enableDisabled;
      stopButtonDisabled := stopDisabled;
      spoken := [];
    }

    method Say(text: string)
      modifies this
      ensures State() == Speak(old(State()), text)
    {
      spoken := spoken + [text];
    }

    method OnModelLoaded()
      requires Valid()
      modifies this
      ensures Valid()
      ensures State() == AfterModelLoaded(old(State()))
    {
      modelLoaded := true;
      Say(MODEL_LOADED);
    }

    method EnableCam(granted: Option<StreamId>)
      requires Valid()
      modifies this
      ensures Valid()
      ensures State() == AfterEnable(old(State()), granted)
    {
      if !modelLoaded {
        return;
      }
      requests := requests + [facingMode];
      match granted {
        case None =>
        case Some(id) =>
          stream := Some(id);
          videoSource := Some(id);
          enableButtonDisabled := true;
          stopButtonDisabled := false;
      }
    }

    /** The debounce gate at the end of a frame. */
    method Announce(message: string, now: int)
      requires Valid()
      requires message == "" || IsWarningText(message)
      modifies this
      ensures Valid()
      ensures State() == AfterAnnounce(old(State()), message, now)
    {
      if message != "" && (message != lastSpoken || now - lastSpokenTime > REPEAT_INTERVAL) {
        Say(message);
        lastSpoken := message;
        lastSpokenTime := now;
      }
    }

    /**
     * One frame of the detection loop: the previous overlay is cleared, each
     * confident prediction adds its highlighter and label and may set the
     * pending warning, and the warning goes through the debounce gate.
     * Nothing checks that the camera is still on.
     */
    method PredictWebcam(predictions: seq<Prediction>, now: int)
      requires Valid()
      modifies this
      ensures Valid()
      ensures State() == AfterFrame(old(State()), predictions, now)
    {
      children := [];
      var message := "";
      var i := 0;
      while i < |predictions|
        invariant 0 <= i <= |predictions|
        invariant children == Overlay(predictions[..i])
        invariant message == FrameMessage(predictions[..i])
        invariant State() == old(State()).(children := children)
      {
        var p := predictions[i];
        ghost var before, drawn := message, children;
        if p.score > MIN_SCORE {
          children := children + [Highlighter(p.bbox), Label(p.cls, p.score, p.bbox)];
          var size := p.bbox.width * p.bbox.height;
          if p.cls == "person" && size > WARNING_THRESHOLD {
            message := "Warning: person is near";
          } else if size > WARNING_THRESHOLD {
            message := "Warning: " + p.cls + " is near";
          }
        }
        assert message == StepMessage(before, p) && children == drawn + Entries(p);
        assert predictions[..i + 1][..i] == predictions[..i];
        assert Overlay(predictions[..i + 1]) == Overlay(predictions[..i]) + Entries(p);
        assert FrameMessage(predictions[..i + 1]) == StepMessage(FrameMessage(predictions[..i]), p);
        i := i + 1;
      }
      assert predictions[..i] == predictions;
      Announce(message, now);
    }

    method SwitchCamera(deviceKinds: seq<string>, granted: Option<StreamId>)
      requires Valid()
      modifies this
      ensures Valid()
      ensures State() == AfterSwitch(old(State()), deviceKinds, granted)
    {
      if VideoInputCount(deviceKinds) <= 1 {
        Say(NO_OTHER_CAMERA);
        return;
      }
      if stream.Some? {
        stoppedStreams := stoppedStreams + {stream.value};
      }
      facingMode := Toggle(facingMode);
      requests := requests + [facingMode];
      match granted {
        case None =>
        case Some(id) => videoSource := Some(id);
      }
    }

    method StopCam()
      requires Valid()
      modifies this
      ensures Valid()
      ensures State() == AfterStop(old(State()))
    {
      if stream.Some? {
        stoppedStreams := stoppedStreams + {stream.value};
        videoSource := None;
        children := [];
        enableButtonDisabled := false;
        stopButtonDisabled := true;
        lastSpoken := "";
      }
    }

    /** The voice command handler for one final transcript. */
    method OnResult(transcript: string, deviceKinds: seq<string>, granted: Option<StreamId>)
      requires Valid()
      modifies this
      ensures Valid()
      ensures State() == AfterCommand(old(State()), Router.Route(transcript), deviceKinds, granted)
    {
      var command := Router.Route(transcript);
      match command {
        case None =>
        case Some(EnableCam) =>
          EnableCam(granted);
          Say(ACK_ENABLE);
        case Some(StopCam) =>
          StopCam();
          Say(ACK_STOP);
        case Some(SwitchCamera) =>
          Say(ACK_SWITCH);
          SwitchCamera(deviceKinds, granted);
      }
    }
  }
}
