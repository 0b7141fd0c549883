/** The state the backend graph passes between its nodes: a string-keyed
    dictionary of JSON values. A node returns an update, and the graph
    writes each key of the update over the state. */
module AgentState {
  import opened Json

  type State = map<string, Json>

  /** `state.get(key, default)`. */
  function Get(state: State, key: string, default: Json): (v: Json)
    ensures key in state ==> v == state[key]
    ensures key !in state ==> v == default
  {
    if key in state then state[key] else default
  }

  /** A node's update applied to the state: the update's keys take its
      values, every other key keeps its own. */
  function Apply(state: State, update: State): (r: State)
    ensures r.Keys == state.Keys + update.Keys
    ensures forall k :: k in update ==> r[k] == update[k]
    ensures forall k :: k in state && k !in update ==> r[k] == state[k]
  {
    state + update
  }

  /** Applying a state's own superset leaves exactly that superset. */
  lemma ApplyExtension(state: State, update: State)
    requires state.Keys <= update.Keys
    ensures Apply(state, update) == update
  {
  }
}
