/**
 Values shared by every part of the messaging backend: users, topics, messages
 and the identifiers derived from them.
 */
module Domain {

  datatype Option<+T> = None | Some(value: T)

  /** What happens to one request to a remote store: it may fail before or after taking effect. */
  datatype Fault = NoFault | Failed(applied: bool)

  type UserId = int

  /** A parsed topic: a conversation of two users, a group, or one user's system feed. */
  datatype Topic =
    | P2P(first: UserId, second: UserId)
    | Group(group: int)
    | System(user: UserId)

  /** The digest of message id, topic and sender that names an agent event. */
  datatype EventId = EventId(msgId: nat, topic: Topic, sender: UserId)

  /**
   The client-chosen idempotency key of a message. Agent replies derive it from
   the event they answer and the answering agent; `Absent` is the empty string,
   which no unique index covers.
   */
  datatype ClientId =
    | Absent
    | FromUser(text: string)
    | FromAgent(event: EventId, agent: int)

  /** A message as it arrives from the upstream log. */
  datatype Message = Message(
    sender: UserId, topic: Topic, client: ClientId, content: string, mentioned: seq<UserId>)

  /** The message is addressed to a conversation its sender takes part in, and can be deduplicated. */
  predicate WellFormed(m: Message) {
    && m.client != Absent
    && (m.topic.P2P? ==> m.topic.first != m.topic.second && m.sender in {m.topic.first, m.topic.second})
  }

  /** Two messages with the same client id are copies of one logical message. */
  predicate SameIdentity(m: Message, n: Message) {
    m.client == n.client ==> m.sender == n.sender && m.topic == n.topic
  }

  function EventOf(m: Message, msgId: nat): EventId {
    EventId(msgId, m.topic, m.sender)
  }

  /** There is always another number: an id for one more worker, relay or handler. */
  lemma {:induction false} FreshInt(busy: set<int>) returns (n: int)
    ensures forall b :: b in busy ==> b < n
  {
    n := 0;
    if b :| b in busy {
      var m := FreshInt(busy - {b});
      n := if m > b then m else b + 1;
      forall c | c in busy ensures c < n {
        assert c == b || c in busy - {b};
      }
    }
  }
}
