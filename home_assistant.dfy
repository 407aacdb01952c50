/** The Home Assistant service as the irrigation core sees it: entity states
    can be read and switches turned on and off, and any such call may fail
    (the client raises `HomeAssistantAPIError`, after its own retries). The
    network is replaced by a script: the reply to the k-th step of the
    run is `ReplyAt(script, k)`, so every pattern of successes and failures
    is one choice of script. Every call, and every `asyncio.sleep` of the
    processor, is recorded in `trace`, which is what the properties of the
    queue processor and the scheduler speak about. */
module HomeAssistant {

  /** What the core asks of the outside world. */
  datatype Action =
    | Read(entity: string)
    | On(entity: string)
    | Off(entity: string)
    | Wait(seconds: int)

  /** The outcome of one action: `Failure` stands for a raised
      `HomeAssistantAPIError`, `Success(state)` carries the entity's state
      text for a read (and is ignored for the other actions). */
  datatype Reply = Failure | Success(state: string)

  datatype Step = Step(action: Action, reply: Reply)

  /** The scripted reply to step `k`; once the script runs out every call fails. */
  function ReplyAt(script: seq<Reply>, k: nat): Reply {
    if k < |script| then script[k] else Failure
  }

  class HomeAssistantClient {
    /** The replies the service gives, step by step. */
    const script: seq<Reply>
    /** Every step taken so far, oldest first. */
    var trace: seq<Step>

    constructor(script: seq<Reply>)
      ensures this.script == script && trace == []
    {
      this.script := script;
      trace := [];
    }

    /** `get_state(entity)`: the entity's state text, or `Failure`. */
    method GetState(entity: string) returns (r: Reply)
      modifies this
      ensures r == ReplyAt(script, |old(trace)|)
      ensures trace == old(trace) + [Step(Read(entity), r)]
    {
      r := ReplyAt(script, |trace|);
      trace := trace + [Step(Read(entity), r)];
    }

    /** `turn_on(entity)`; `ok` is false where the client raises. */
    method TurnOn(entity: string) returns (ok: bool)
      modifies this
      ensures ok <==> ReplyAt(script, |old(trace)|).Success?
      ensures trace == old(trace) + [Step(On(entity), ReplyAt(script, |old(trace)|))]
    {
      var r := ReplyAt(script, |trace|);
      trace := trace + [Step(On(entity), r)];
      ok := r.Success?;
    }

    /** `turn_off(entity)`; `ok` is false where the client raises. */
    method TurnOff(entity: string) returns (ok: bool)
      modifies this
      ensures ok <==> ReplyAt(script, |old(trace)|).Success?
      ensures trace == old(trace) + [Step(Off(entity), ReplyAt(script, |old(trace)|))]
    {
      var r := ReplyAt(script, |trace|);
      trace := trace + [Step(Off(entity), r)];
      ok := r.Success?;
    }

    /** `asyncio.sleep(seconds)`: recorded, never fails. */
    method Sleep(seconds: int)
      modifies this
      ensures trace == old(trace) + [Step(Wait(seconds), Success(""))]
    {
      trace := trace + [Step(Wait(seconds), Success(""))];
    }
  }
}
