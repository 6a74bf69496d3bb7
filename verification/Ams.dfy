/** Messages of the Argo Messaging Service and the push settings of a subscription (pkg/ams/v1, ams.proto). */
module Ams {
  import opened GoTypes
  import opened RetryPolicies

  datatype Message = Message(id: string, attr: map<string, string>, data: seq<byte>, pubTime: string)

  /** An ack id is modelled by the offset in the subscription's log that it stands for. */
  datatype ReceivedMessage = ReceivedMessage(ackId: nat, msg: Message)

  datatype ReceivedMessagesList = ReceivedMessagesList(recMsgs: seq<ReceivedMessage>)
  {
    predicate IsEmpty() { |recMsgs| <= 0 }

    function Last(): ReceivedMessage
      requires !IsEmpty()
    {
      recMsgs[|recMsgs| - 1]
    }
  }

  datatype PushType = HttpEndpoint | Mattermost

  /** An endpoint, with what url.ParseRequestURI answers for it. */
  datatype Endpoint = Endpoint(uri: string, parses: bool)

  datatype PushConfig = PushConfig(
    pushType: PushType,
    pushEndpoint: Endpoint,
    authorizationHeader: string,
    maxMessages: int64,
    retryPolicy: RetryConfig,
    mattermostUrl: string,
    mattermostUsername: string,
    mattermostChannel: string,
    base64Decode: bool)

  datatype Subscription = Subscription(fullName: string, fullTopic: string, pushConfig: PushConfig)
}
