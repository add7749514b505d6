/** The webcam slice of the store (features/webcam/webcamSlice.ts): whether the
    webcam is active. */
module WebcamSlice {

  datatype WebcamState = WebcamState(isActive: bool)

  datatype WebcamAction = StartWebcam | StopWebcam

  function InitialState(): (s: WebcamState)
    ensures !s.isActive
  {
    WebcamState(false)
  }

  function Reduce(s: WebcamState, a: WebcamAction): WebcamState {
    match a
    case StartWebcam => s.(isActive := true)
    case StopWebcam => s.(isActive := false)
  }

  /** `startWebcam` sets the flag and `stopWebcam` clears it, from any state. */
  lemma ReduceResult(s: WebcamState, a: WebcamAction)
    ensures Reduce(s, a).isActive <==> a.StartWebcam?
  {
  }

  /** Both reducers are idempotent. */
  lemma ReduceIdempotent(s: WebcamState, a: WebcamAction)
    ensures Reduce(Reduce(s, a), a) == Reduce(s, a)
  {
  }

  function ReduceAll(s: WebcamState, actions: seq<WebcamAction>): WebcamState
    decreases |actions|
  {
    if actions == [] then s else ReduceAll(Reduce(s, actions[0]), actions[1..])
  }

  /** After any non-empty run of actions the flag records whether the last one started the webcam. */
  lemma {:induction false} LastActionDecides(s: WebcamState, actions: seq<WebcamAction>)
    requires actions != []
    ensures ReduceAll(s, actions).isActive <==> actions[|actions| - 1].StartWebcam?
    decreases |actions|
  {
    if |actions| > 1 {
      LastActionDecides(Reduce(s, actions[0]), actions[1..]);
    }
  }
}
