/**
 * The live-stream control panel: a stream title typed by the user and a
 * button that starts and stops the stream. Whether the stream is on decides
 * the LIVE badge, the button, the preview and the stats panel. Connected
 * devices get a badge colour from their status.
 */
module LiveStream {

  /** The panel's two pieces of state. */
  datatype StreamState = StreamState(isStreaming: bool, streamTitle: string)

  /** The panel opens not streaming, with an empty title. */
  const Initial: StreamState := StreamState(false, "")

  /** The stream button: flips streaming and leaves the title alone. */
  function Toggle(s: StreamState): (r: StreamState)
    ensures r.isStreaming != s.isStreaming
    ensures r.streamTitle == s.streamTitle
  {
    s.(isStreaming := !s.isStreaming)
  }

  /** The title box: takes the typed value and leaves streaming alone. */
  function EditTitle(s: StreamState, value: string): (r: StreamState)
    ensures r.streamTitle == value
    ensures r.isStreaming == s.isStreaming
  {
    s.(streamTitle := value)
  }

  /** Pressing the stream button twice restores the state. */
  lemma ToggleTwice(s: StreamState)
    ensures Toggle(Toggle(s)) == s
  {
  }

  /** The state after `n` presses of the stream button. */
  function Presses(s: StreamState, n: nat): StreamState {
    if n == 0 then s else Toggle(Presses(s, n - 1))
  }

  /** After `n` presses the stream is on exactly when it started on and `n` is even, or started off and `n` is odd. */
  lemma {:induction false} PressesParity(s: StreamState, n: nat)
    ensures Presses(s, n).isStreaming == (s.isStreaming == (n % 2 == 0))
    ensures Presses(s, n).streamTitle == s.streamTitle
  {
    if n > 0 {
      PressesParity(s, n - 1);
    }
  }

  /** What the panel shows for a state. */
  datatype Rendered = Rendered(
    liveBadge: bool,
    buttonLabel: string,
    buttonClass: string,
    previewHeadline: string,
    statsPanel: bool)

  function Render(s: StreamState): (v: Rendered)
    ensures v.liveBadge <==> s.isStreaming
    ensures v.statsPanel <==> s.isStreaming
    ensures v.buttonLabel == "Stop Stream" <==> s.isStreaming
    ensures v.buttonLabel == "Start Stream" <==> !s.isStreaming
    ensures v.previewHeadline == "Live Stream Active" <==> s.isStreaming
    ensures v.previewHeadline == "Stream Offline" <==> !s.isStreaming
    ensures v.buttonClass == "bg-destructive" <==> s.isStreaming
    ensures v.buttonClass == "bg-primary" <==> !s.isStreaming
  {
    if s.isStreaming then
      Rendered(true, "Stop Stream", "bg-destructive", "Live Stream Active", true)
    else
      Rendered(false, "Start Stream", "bg-primary", "Stream Offline", false)
  }

  /** Editing the title never changes what the streaming-dependent parts show. */
  lemma EditTitleKeepsRender(s: StreamState, value: string)
    ensures Render(EditTitle(s, value)) == Render(s)
  {
  }

  /** Pressing the button changes every streaming-dependent part of the panel. */
  lemma ToggleChangesRender(s: StreamState)
    ensures Render(Toggle(s)).liveBadge != Render(s).liveBadge
    ensures Render(Toggle(s)).statsPanel != Render(s).statsPanel
    ensures Render(Toggle(s)).buttonLabel != Render(s).buttonLabel
    ensures Render(Toggle(s)).previewHeadline != Render(s).previewHeadline
    ensures Render(Toggle(s)).buttonClass != Render(s).buttonClass
  {
  }

  /** `getStatusColor` for devices: a switch with a default, so it answers for every string. */
  function DeviceStatusColor(status: string): (cls: string)
    ensures cls in {"bg-primary", "bg-destructive", "bg-muted"}
    ensures cls == "bg-primary" <==> status == "connected"
    ensures cls == "bg-destructive" <==> status == "streaming"
    ensures cls == "bg-muted" <==> status != "connected" && status != "streaming"
  {
    match status
    case "connected" => "bg-primary"
    case "streaming" => "bg-destructive"
    case "disconnected" => "bg-muted"
    case _ => "bg-muted"
  }

  /** The panel's state as the component holds it. */
  class StreamControl {
    var isStreaming: bool
    var streamTitle: string

    function State(): StreamState
      reads this
    {
      StreamState(isStreaming, streamTitle)
    }

    constructor ()
      ensures State() == Initial
      ensures !Render(State()).liveBadge && !Render(State()).statsPanel
    {
      isStreaming := false;
      streamTitle := "";
    }

    /** The title input's change handler. */
    method OnTitleInput(value: string)
      modifies this
      ensures State() == EditTitle(old(State()), value)
    {
      streamTitle := value;
    }

    /** The stream button's click handler. */
    method OnStreamButton()
      modifies this
      ensures State() == Toggle(old(State()))
    {
      isStreaming := !isStreaming;
    }
  }
}
