/**
 * CreateProjectViews7: the one-action reducer over the project-view state,
 * its initial state, the edit handler whose dispatch is switched off, and
 * the three threshold-guarded "battery" increments.
 *
 * The reducer writes `[action.field]`, a key chosen at run time (the view
 * passes "name", "description", "benefits", "hrsWeek" and "rate", most of
 * which are not declared on ProjectData), so the state is a map from field
 * names to values.
 */
module CreateProjectView {

  /** A field value: the text of an input, or a number read with unary `+`. */
  datatype Value = Text(s: string) | Number(n: int)

  type ProjectState = map<string, Value>

  datatype Action = Action(kind: string, field: string, value: Value)

  /** The one action type the reducer handles. */
  const HandleTextKind: string := "HANDLE PROJECT VIEW 2 TEXT"

  /** `initialState`: username, selectedRole and description, all empty. */
  function InitialState(): (r: ProjectState)
    ensures r.Keys == {"username", "selectedRole", "description"}
    ensures forall k :: k in r ==> r[k] == Text("")
  {
    map["username" := Text(""), "selectedRole" := Text(""), "description" := Text("")]
  }

  /** `reducer`: the handled action sets its field to its value and keeps every other field; any other action leaves the state as it is. */
  function Reducer(state: ProjectState, action: Action): (r: ProjectState)
    ensures action.kind == HandleTextKind ==> r.Keys == state.Keys + {action.field}
    ensures action.kind == HandleTextKind ==> r[action.field] == action.value
    ensures action.kind == HandleTextKind ==> forall k :: k in state && k != action.field ==> r[k] == state[k]
    ensures action.kind != HandleTextKind ==> r == state
  {
    if action.kind == HandleTextKind then state[action.field := action.value] else state
  }

  /** Dispatching the same action twice is dispatching it once. */
  lemma ReducerIdempotent(state: ProjectState, action: Action)
    ensures Reducer(Reducer(state, action), action) == Reducer(state, action)
  {
  }

  /** Edits of two different fields can be dispatched in either order. */
  lemma ReducerCommutes(state: ProjectState, a: Action, b: Action)
    requires a.field != b.field
    ensures Reducer(Reducer(state, a), b) == Reducer(Reducer(state, b), a)
  {
  }

  /** The action type of the commented-out dispatch ("HANDLE INPUT TEXT") is not the one the reducer handles, so it would change nothing. */
  lemma CommentedDispatchIgnored(state: ProjectState, field: string, value: Value)
    ensures Reducer(state, Action("HANDLE INPUT TEXT", field, value)) == state
  {
  }

  /** An edit reported by one of the view's inputs: the value typed and the field it is for. */
  datatype Edit = Edit(value: Value, field: string)

  /** `handleUpdateState`: it only logs; the dispatch is commented out, so the reducer state stays as it is. */
  function HandleUpdateState(state: ProjectState, edit: Edit): ProjectState {
    state
  }

  /** The reducer state after a series of edits, each passed to `handleUpdateState`. */
  function StateAfterEdits(state: ProjectState, edits: seq<Edit>): ProjectState
    decreases |edits|
  {
    if edits == [] then state else StateAfterEdits(HandleUpdateState(state, edits[0]), edits[1..])
  }

  /** Whatever the user types, Next hands `onNext` the initial state. */
  lemma {:induction false} OnNextReceivesInitialState(edits: seq<Edit>)
    ensures StateAfterEdits(InitialState(), edits) == InitialState()
    decreases |edits|
  {
    if edits != [] {
      OnNextReceivesInitialState(edits[1..]);
    }
  }

  /** The three inputs that raise the battery. */
  datatype BatteryInput = NameTyped | RoleSelected | OneLinerTyped

  /** The level below which each input still raises the battery. */
  function Threshold(input: BatteryInput): int {
    match input
    case NameTyped => 20
    case RoleSelected => 99
    case OneLinerTyped => 70
  }

  /** `battery < threshold ? battery + 10 : battery`. */
  function BatteryAfter(input: BatteryInput, battery: int): (r: int)
    ensures r == battery || r == battery + 10
    ensures r == battery + 10 <==> battery < Threshold(input)
  {
    if battery < Threshold(input) then battery + 10 else battery
  }

  /** The battery after a series of inputs, the view re-rendering with the new level after each one. */
  function BatteryAfterAll(inputs: seq<BatteryInput>, battery: int): int
    decreases |inputs|
  {
    if inputs == [] then battery else BatteryAfterAll(inputs[1..], BatteryAfter(inputs[0], battery))
  }

  /** The battery never goes down, and it rises in steps of 10, at most one per input. */
  lemma {:induction false} BatteryRisesByTens(inputs: seq<BatteryInput>, battery: int)
    ensures BatteryAfterAll(inputs, battery) >= battery
    ensures (BatteryAfterAll(inputs, battery) - battery) % 10 == 0
    ensures BatteryAfterAll(inputs, battery) - battery <= 10 * |inputs|
    decreases |inputs|
  {
    if inputs != [] {
      BatteryRisesByTens(inputs[1..], BatteryAfter(inputs[0], battery));
    }
  }

  /** No input takes the battery past its threshold plus 9, so a level at or below that cap stays there. */
  lemma {:induction false} BatteryCapped(inputs: seq<BatteryInput>, battery: int, cap: int)
    requires battery <= cap
    requires forall k :: 0 <= k < |inputs| ==> Threshold(inputs[k]) + 9 <= cap
    ensures BatteryAfterAll(inputs, battery) <= cap
    decreases |inputs|
  {
    if inputs != [] {
      BatteryCapped(inputs[1..], BatteryAfter(inputs[0], battery), cap);
    }
  }

  /** Starting from at most 108, the battery stays at most 108; a role selection at 98 reaches exactly that. */
  lemma BatteryAtMost108(inputs: seq<BatteryInput>, battery: int)
    requires battery <= 108
    ensures BatteryAfterAll(inputs, battery) <= 108
    ensures BatteryAfter(RoleSelected, 98) == 108
  {
    BatteryCapped(inputs, battery, 108);
  }
}
