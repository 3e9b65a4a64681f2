/** How a call to a remote service ends. Every operation of the model reads the answers of its
    calls from a script, in order; quantifying over scripts covers every schedule of failures. */
module Calls {

  datatype Option<+T> = None | Some(value: T)

  /** `Served`: the call took effect and the caller learns so.
      `Refused`: the call had no effect and the caller sees an error.
      `Lost`: the call took effect, yet the caller sees an error. */
  datatype Fault = Served | Refused | Lost

  /** `text` is the part of an answer that the environment decides: the provisioning status that
      GetLoadBalancer reports, or the id that CreateInstance hands out. */
  datatype Reply = Reply(fault: Fault, text: string)

  // A service whose script has run out refuses every further call.
  function Answer(script: seq<Reply>): Reply {
    if script == [] then Reply(Refused, "") else script[0]
  }

  function Rest(script: seq<Reply>): seq<Reply> {
    if script == [] then [] else script[1..]
  }
}
