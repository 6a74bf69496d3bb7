/** The senders and the choice of message format (senders/). */
module Senders {
  import opened GoTypes
  import opened Ams
  import opened Wire

  datatype Format = Single | Multiple

  /** The configured maximum decides, not how many messages there are. */
  function DetermineMessageFormat(numberOfMessages: int64): Format
  {
    if numberOfMessages == 1 then Single else Multiple
  }

  datatype Sender =
    | HttpSender(endpoint: string, authZHeader: string)
    | MattermostSender(webhookUrl: string, username: string, channel: string)
  {
    function Destination(): string { if HttpSender? then endpoint else webhookUrl }

    /** The messages of msgs that a request in this format carries. */
    function Carried(msgs: seq<PushMsg>, format: Format): (body: seq<PushMsg>)
      requires msgs != []
      ensures body != [] && body <= msgs
      ensures body == msgs <==> |msgs| == 1 || (HttpSender? && format.Multiple?)
      ensures body != msgs ==> |body| == 1
    {
      if HttpSender? && format.Multiple? then msgs else [msgs[0]]
    }

    predicate Accepts(reply: PostReply)
    {
      && reply.StatusCode?
      && (reply.code == 200 || (HttpSender? && (reply.code == 201 || reply.code == 204 || reply.code == 102)))
    }

    method Send(net: Network, msgs: seq<PushMsg>, format: Format, answer: Answer<PostReply>) returns (ok: bool)
      requires HttpSender? && format.Single? ==> msgs != []
      modifies net
      ensures msgs != [] ==>
                && ok == Accepts(answer.value)
                && (ok <==> && answer.value.StatusCode?
                            && answer.value.code in if HttpSender? then {102, 200, 201, 204} else {200})
                && net.now == old(net.now) + answer.delay
                && net.trace == old(net.trace)
                     + [Timed(old(net.now), PostIssued(Destination(), Carried(msgs, format))),
                        Timed(net.now, PostAnswered(ok))]
      ensures MattermostSender? && msgs == [] ==> !ok && net.now == old(net.now) && net.trace == old(net.trace)
    {
      var body := msgs;
      match this {
        case HttpSender(_, _) =>
          if format == Single { body := [msgs[0]]; }
        case MattermostSender(_, _, _) =>
          if |msgs| == 0 { return false; }
          body := [msgs[0]];
      }
      net.Record(PostIssued(Destination(), body));
      net.Wait(answer.delay);
      ok := false;
      if answer.value.StatusCode? {
        var code := answer.value.code;
        ok := code == 200 || (HttpSender? && (code == 201 || code == 204 || code == 102));
      }
      net.Record(PostAnswered(ok));
    }
  }

  function New(cfg: PushConfig): Sender
  {
    match cfg.pushType
    case HttpEndpoint => HttpSender(cfg.pushEndpoint.uri, cfg.authorizationHeader)
    case Mattermost => MattermostSender(cfg.mattermostUrl, cfg.mattermostUsername, cfg.mattermostChannel)
  }
}
