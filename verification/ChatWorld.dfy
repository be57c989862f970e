/** Everything outside the agentic loop: settings, signals, the model and the tools. */
module ChatWorld {
  import opened Wrappers
  import opened Transcript
  import opened ToolBatch

  /** A model reply; `truncated` says that the finish reason was Length. */
  datatype Reply =
    | Text(text: string)
    | Calls(calls: seq<ToolCall>, content: Option<string>, truncated: bool)

  datatype LlmError = ContextLengthExceeded | CostLimit | OtherError(reason: string)

  datatype LoopSignal = Proceed | Stop | InjectMessage(text: string)

  datatype LoopOutcome =
    | Response(text: string)
    | Stopped
    | MaxIterations
    | AwaitApproval(pending: PendingApproval)

  datatype LoopConfig = LoopConfig(maxIterations: nat, enableNudge: bool, maxNudges: nat)

  /** Any answer at any iteration (and attempt) is possible. */
  datatype World = World(
    maxToolIterations: nat,
    signal: nat -> LoopSignal,
    toolDefinitions: nat -> seq<string>,
    costAllowed: nat -> bool,
    systemPrompt: nat -> string,
    complete: (nat, nat) -> Result<string, LlmError>,
    completeWithTools: (nat, nat) -> Result<Reply, LlmError>,
    batch: nat -> Env,
    signalsToolIntent: string -> bool,
    stripToolCallText: string -> string)

  // Only the roles of these three notices matter here, not their wording.
  const NEARING_LIMIT := "nearing limit"
  const TOOL_INTENT_NUDGE := "call a tool"
  const TRUNCATED_NOTICE := "truncated"

  /** What the model answers: with no tools on offer the answer is always text. */
  function Answer(world: World, toolsOffered: bool, iteration: nat, attempt: nat): Result<Reply, LlmError> {
    if toolsOffered then world.completeWithTools(iteration, attempt)
    else match world.complete(iteration, attempt)
         case Ok(text) => Ok(Text(text))
         case Err(e) => Err(e)
  }

  function NudgeAt(world: World): nat {
    if world.maxToolIterations == 0 then 0 else world.maxToolIterations - 1
  }

  /** The notice added before the model call of an iteration. */
  function Notice(world: World, iteration: nat): seq<Message> {
    if iteration == NudgeAt(world) then [System(NEARING_LIMIT)] else []
  }

  /** The message injected by an iteration's signal. */
  function Injected(world: World, iteration: nat): seq<Message> {
    if world.signal(iteration).InjectMessage? then [User(world.signal(iteration).text)] else []
  }
}
