/** The face slice of the store (features/face/faceSlice.ts): the list of faces
    last published. A reducer is a function from the state and an action to the
    next state; assigning `state.faces` on the draft produces that next state. */
module FaceSlice {
  import Emotion

  /** One face as published by the component: rounded age, gender and the
      expression record in entry order. */
  datatype FaceInfo = FaceInfo(age: int, gender: string, expressions: seq<Emotion.Expression>)

  datatype FaceState = FaceState(faces: seq<FaceInfo>)

  datatype FaceAction = SetFaces(payload: seq<FaceInfo>) | ClearFaces

  function InitialState(): (s: FaceState)
    ensures s.faces == []
  {
    FaceState([])
  }

  function Reduce(s: FaceState, a: FaceAction): FaceState {
    match a
    case SetFaces(p) => s.(faces := p)
    case ClearFaces => s.(faces := [])
  }

  /** `setFaces(p)` makes the list exactly `p` and `clearFaces` empties it,
      whatever the list held before. */
  lemma ReduceResult(s: FaceState, a: FaceAction)
    ensures a.SetFaces? ==> Reduce(s, a).faces == a.payload
    ensures a.ClearFaces? ==> Reduce(s, a).faces == []
  {
  }

  /** Applying an action twice is applying it once. */
  lemma ReduceIdempotent(s: FaceState, a: FaceAction)
    ensures Reduce(Reduce(s, a), a) == Reduce(s, a)
  {
  }

  /** Publishing an empty list cannot be told apart from clearing. */
  lemma SetEmptyIsClear(s: FaceState)
    ensures Reduce(s, SetFaces([])) == Reduce(s, ClearFaces)
  {
  }

  /** The state after a run of actions. */
  function ReduceAll(s: FaceState, actions: seq<FaceAction>): FaceState
    decreases |actions|
  {
    if actions == [] then s else ReduceAll(Reduce(s, actions[0]), actions[1..])
  }

  /** After any non-empty run of actions the last one alone decides the state. */
  lemma {:induction false} LastActionDecides(s: FaceState, actions: seq<FaceAction>)
    requires actions != []
    ensures ReduceAll(s, actions) == Reduce(InitialState(), actions[|actions| - 1])
    decreases |actions|
  {
    if |actions| > 1 {
      LastActionDecides(Reduce(s, actions[0]), actions[1..]);
    }
  }
}
