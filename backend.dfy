/** The generation backend, treated as an oracle. `generate_response` is a
    network call whose sampling and model selection are invisible here, so a
    run of the backend is modelled by a script: the reply to the n-th call of
    the run is `script(n)`, and every request is logged. Any behaviour of the
    real backend during one run is some script. */
module Backend {
  import opened Wrappers

  datatype Role = System | User | Assistant

  /** One entry of a chat history: `{"role": ..., "content": ...}`. */
  datatype Message = Message(role: Role, content: string)

  /** An exception as the modelled code inspects it: an API error that carries
      a `param` attribute, or any other exception (no `param`). */
  datatype Exception = ApiError(param: string) | RuntimeError(message: string)

  /** `hasattr(e, 'param') and e.param in ['max_tokens', 'security']`: the
      condition under which the debate truncates and the judge records an error. */
  predicate Recoverable(e: Exception)
  {
    e.ApiError? && (e.param == "max_tokens" || e.param == "security")
  }

  /** The `IndexError` Python raises when a list is indexed past its end. */
  const IndexError: Exception := RuntimeError("list index out of range")

  /** What one backend call does: return a text, or raise. */
  datatype Reply = Returned(text: string) | Raised(exception: Exception)

  /** The arguments of one backend call; `maxTokens == None` is the backend's
      own default. */
  datatype Request = Request(history: seq<Message>, maxTokens: Option<int>)

  class Oracle {
    const script: nat -> Reply
    var log: seq<Request>

    constructor (script: nat -> Reply)
      ensures this.script == script && log == []
    {
      this.script := script;
      log := [];
    }

    /** The reply to the `n`-th call of the run. */
    function ReplyTo(n: nat): Reply
    {
      script(n)
    }

    /** `generate_response(..., chat_history, n=1, max_tokens=...)`. */
    method Generate(history: seq<Message>, maxTokens: Option<int>) returns (reply: Reply)
      modifies this
      ensures log == old(log) + [Request(history, maxTokens)]
      ensures reply == ReplyTo(|old(log)|)
    {
      reply := script(|log|);
      log := log + [Request(history, maxTokens)];
    }
  }
}
