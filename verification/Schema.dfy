/** The flat topology an engine runs (src/schema.rs), and the JSON values payloads carry. */
module Schema {
  import opened Wrappers

  /** A 64-bit float by its bit pattern: floats are carried around, never interpreted. */
  datatype Double = Double(bits: nat)

  datatype Json =
    | JsonNull
    | JsonBool(b: bool)
    | JsonInteger(i: int)
    | JsonFloat(f: Double)
    | JsonString(s: string)
    | JsonArray(items: seq<Json>)
    | JsonObject(fields: map<string, Json>)

  datatype SignalDef = SignalDef(id: string, initialState: string, states: seq<string>)

  datatype ActionBinding = ActionBinding(onExit: seq<string>, onTransition: seq<string>, onEnter: seq<string>)

  datatype TransitionDef = TransitionDef(
    signalId: string,
    from: string,
    event: string,
    to: string,
    actions: ActionBinding,
    guard: Option<string>)

  /** `needs` is the source's `requires`: the fork groups a join waits on. */
  datatype ReactionDef = ReactionDef(
    fromSignal: string,
    fromState: string,
    toSignal: string,
    event: string,
    payload: Option<Json>,
    guard: Option<string>,
    joinGroup: Option<string>,
    needs: seq<string>,
    onFail: Option<string>)

  datatype PortDirection = In | Out | InOut

  datatype PortDef = PortDef(direction: PortDirection, signal: string, state: string, alias: Option<string>)

  datatype ConnectionDef = ConnectionDef(port: string, targetSignal: string)

  datatype ComponentDef = ComponentDef(
    params: seq<string>,
    ports: seq<PortDef>,
    signals: seq<SignalDef>,
    transitions: seq<TransitionDef>,
    reactions: seq<ReactionDef>)

  datatype InstanceDef = InstanceDef(component: string, bindings: map<string, string>, connections: seq<ConnectionDef>)

  datatype TopologySchema = TopologySchema(
    version: string,
    signals: seq<SignalDef>,
    transitions: seq<TransitionDef>,
    reactions: seq<ReactionDef>,
    components: Option<map<string, ComponentDef>>,
    instances: seq<InstanceDef>,
    includes: seq<string>)

  /** The wildcard of a transition's `from` and of a reaction's `from_state`. */
  const WILDCARD: string := "*"
}
