/**
 * The completion provider the merger and the validator talk to
 * (the `Complete` method of cli/internal/llm/client.go), reduced to what the
 * callers can observe: the calls they make, in order, and the answer or
 * error each call gets back.
 */
module Completion {
  import opened Wrappers

  /** `llm.CompletionOptions`. */
  datatype Options = Options(forceJSON: bool)

  /** The options every caller in this model passes. */
  const ForceJSON := Options(true)

  /** One request: the user prompt and the options. */
  datatype Call = Call(prompt: string, options: Options)

  /**
   * `llm.CompletionResponse`, reduced to its content; token usage, duration
   * and model name are carried along untouched by every caller.
   */
  datatype Response = Response(content: string)

  /**
   * The provider's behaviour: the answer to the `n`-th call (counting from
   * zero over the provider's whole life) with a given request.
   */
  type Oracle = (nat, Call) -> Result<Response>

  /** The calls a piece of work makes against the provider and what it ends with. */
  datatype Run<T> = Run(calls: seq<Call>, outcome: Result<T>)

  /** A completion provider: its fixed behaviour and the log of the calls made so far. */
  class Provider {
    const reply: Oracle
    var log: seq<Call>

    constructor (reply: Oracle)
      ensures this.reply == reply && log == []
    {
      this.reply := reply;
      log := [];
    }

    /** `Complete`: records the call and answers it as the oracle says. */
    method Complete(prompt: string, options: Options) returns (r: Result<Response>)
      modifies this
      ensures log == old(log) + [Call(prompt, options)]
      ensures r == reply(|old(log)|, Call(prompt, options))
    {
      r := reply(|log|, Call(prompt, options));
      log := log + [Call(prompt, options)];
    }
  }
}
