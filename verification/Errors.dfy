/** The engine's errors (src/error.rs) and trace events (src/trace.rs), without timestamps. */
module Errors {
  import opened Wrappers
  import opened Schema

  /** What a validation error complains about; the source formats it into a text. */
  datatype ValidationFault =
    | DuplicateSignal(id: string)
    | InvalidInitialState(state: string, id: string)
    | UnknownSignal(index: nat, id: string)
    | InvalidFrom(index: nat, state: string, id: string)
    | InvalidTo(index: nat, state: string, id: string)
    | OtherFault(text: string)

  /** An error text: one an action supplied, or the display of an error. */
  datatype Message = Text(text: string) | Display(error: EngineError)

  datatype EngineError =
    | ParseError(text: string)
    | ValidationError(fault: ValidationFault)
    | SignalNotFound(signal: string)
    | StateNotFound(signal: string, state: string)
    | TransitionNotFound(signal: string, event: string)
    | ActionNotFound(actionId: string)
    | ActionExecutionError(message: Message)
    | GuardEvaluationError(text: string)
    | GuardBlocked(signal: string, event: string, guard: string)
    | ReloadError(text: string)
    | PersistenceError(text: string)
    | CascadeDepthExceeded
    | ReactionSignalNotFound(signal: string)
    | ComponentNotFound(component: string)
    | MissingBinding(component: string, param: string)
    | DuplicateSignalAfterExpand(signal: string)
    | InvalidParamRef(component: string, param: string)
    | UnknownPort(component: string, port: string)
    | ConflictingPortConnection(component: string, port: string)
    | PortUnknownSignal(component: string, port: string, signal: string)
    | PortUnknownState(component: string, port: string, signal: string, state: string)
    | IncludeNotFound(path: string)
    | IncludeCycle(path: string)

  datatype TraceEvent =
    | EventReceived(signalId: string, event: string, payload: Option<Json>)
    | ActionStarted(signalId: string, actionId: string)
    | ActionSucceeded(signalId: string, actionId: string)
    | ActionFailed(signalId: string, actionId: string, message: Message)
    | StateChanged(signalId: string, from: string, to: string)
    | Rollbacked(signalId: string, from: string, to: string)
    | ReactionGuardEvaluated(signalId: string, reaction: ReactionHead, guard: string, outcome: Result<bool, string>)
    | ReactionCompensated(signalId: string, reaction: ReactionHead, actionId: string, message: Message)

  /** The four fields by which a trace event names a reaction. */
  datatype ReactionHead = ReactionHead(fromSignal: string, fromState: string, toSignal: string, event: string)

  function Head(r: ReactionDef): ReactionHead {
    ReactionHead(r.fromSignal, r.fromState, r.toSignal, r.event)
  }
}
