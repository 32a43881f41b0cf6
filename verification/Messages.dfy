/** Downlink messages, as far as sessions and connections look at them. */
module Messages {
  import opened Names

  datatype Qos = Unspecified | AtMostOnce | AtLeastOnce

  datatype Delivery = Delivery(qos: Qos, offline: bool)

  datatype Msg = Msg(id: Name, delivery: Option<Delivery>)

  /** The messages whose acknowledgement is tracked. */
  predicate NeedsAck(msg: Msg) {
    msg.delivery.Some? && msg.delivery.value.qos.AtLeastOnce?
  }

  /** What a connection answers when it is offered a message. */
  datatype Verdict = Inactive | Refused | Taken(seqID: nat)
}
