/** The consumer of an AMS subscription (consumers/amshttpconsumer.go). */
module Consumers {
  import opened GoTypes
  import opened Ams
  import opened Wire

  datatype ConsumeResult = Messages(list: ReceivedMessagesList) | ConsumeFailed(error: ConsumeError)

  /** What Consume makes of the broker's answer: a list without messages becomes an error. */
  function Consumed(reply: PullReply): (r: ConsumeResult)
    ensures r.Messages? <==> reply.Received? && reply.list.recMsgs != []
    ensures r.Messages? ==> reply == Received(r.list)
    ensures reply.Received? && reply.list.recMsgs == [] ==> r == ConsumeFailed(NoNewMessages)
    ensures reply.PullFailed? ==> r == ConsumeFailed(reply.error)
  {
    match reply
    case PullFailed(e) => ConsumeFailed(e)
    case Received(list) => if list.IsEmpty() then ConsumeFailed(NoNewMessages) else Messages(list)
  }

  datatype AmsHttpConsumer = AmsHttpConsumer(fullSub: string, host: string)
  {
    function ResourceInfo(): string { "subscription " + fullSub + " from " + host }

    function ToCancelableError(e: ConsumeError): (ce: Option<CancelableError>)
      ensures ce.Some? <==> e.ProjectNotFound? || e.SubscriptionNotFound?
      ensures ce.Some? ==> ce.value.resource == fullSub && ce.value.errMsg == e
    {
      if e == ProjectNotFound then Some(CancelableError(ProjectNotFound, fullSub))
      else if e == SubscriptionNotFound then Some(CancelableError(SubscriptionNotFound, fullSub))
      else None
    }

    method Consume(net: Network, n: int64, answer: Answer<PullReply>) returns (r: ConsumeResult)
      modifies net
      ensures r == Consumed(answer.value)
      ensures r.Messages? <==> answer.value.Received? && answer.value.list.recMsgs != []
      ensures r.Messages? ==> answer.value == Received(r.list)
      ensures answer.value.Received? && answer.value.list.recMsgs == [] ==> r == ConsumeFailed(NoNewMessages)
      ensures answer.value.PullFailed? ==> r == ConsumeFailed(answer.value.error)
      ensures net.now == old(net.now) + answer.delay
      ensures net.trace == old(net.trace) + [Timed(net.now, Pulled(fullSub, n, answer.value))]
    {
      net.Wait(answer.delay);
      net.Record(Pulled(fullSub, n, answer.value));
      match answer.value
      case PullFailed(e) => r := ConsumeFailed(e);
      case Received(list) =>
        if list.IsEmpty() { r := ConsumeFailed(NoNewMessages); } else { r := Messages(list); }
    }

    method Ack(net: Network, id: nat, answer: Answer<bool>) returns (ok: bool)
      modifies net
      ensures ok == answer.value
      ensures net.now == old(net.now) + answer.delay
      ensures net.trace == old(net.trace)
                         + [Timed(old(net.now), AckIssued(fullSub, id)), Timed(net.now, AckAnswered(ok))]
    {
      net.Record(AckIssued(fullSub, id));
      net.Wait(answer.delay);
      net.Record(AckAnswered(answer.value));
      ok := answer.value;
    }
  }
}
