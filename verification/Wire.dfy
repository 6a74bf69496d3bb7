/**
 What a worker exchanges with its surroundings: the broker, the endpoint, the deactivation channel and
 its own timer. Every exchange is one event, stamped with the time it happened at.
 */
module Wire {
  import opened GoTypes
  import opened Ams

  datatype ConsumeError = ProjectNotFound | SubscriptionNotFound | NoNewMessages | OtherError

  /** The broker's answer to a pull. */
  datatype PullReply = Received(list: ReceivedMessagesList) | PullFailed(error: ConsumeError)

  datatype CancelableError = CancelableError(errMsg: ConsumeError, resource: string)

  /** One message as it is put into a request body. */
  datatype PushMsg = PushMsg(msg: Message, sub: string)

  /** What became of a POST: no answer at all, or an answer with a status code. */
  datatype PostReply = NoAnswer | StatusCode(code: int)

  datatype Event =
    | TimerFired
    | ContextCancelled
    | TickTaken
    | CancelSeen
    | TickDrained
    | Pulled(sub: string, max: int64, reply: PullReply)
    | PostIssued(destination: string, body: seq<PushMsg>)
    | PostAnswered(accepted: bool)
    | AckIssued(ackSub: string, ackId: nat)
    | AckAnswered(acked: bool)
    | ErrorHanded(error: CancelableError)
    | TimerReset

  datatype Timed = Timed(at: int, event: Event)

  /** How long a remote call took, and what it came back with. */
  datatype Answer<T> = Answer(delay: nat, value: T)

  /** The clock and the wire of one worker. */
  class Network {
    var now: int
    var trace: seq<Timed>

    constructor (now: int)
      ensures this.now == now && trace == []
    {
      this.now, trace := now, [];
    }

    method Wait(d: nat)
      modifies this`now
      ensures now == old(now) + d
    {
      now := now + d;
    }

    method Record(e: Event)
      modifies this`trace
      ensures trace == old(trace) + [Timed(now, e)]
    {
      trace := trace + [Timed(now, e)];
    }
  }
}
