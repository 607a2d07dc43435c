/**
 * `publish_message`: in a dry run the text is only logged; otherwise a
 * webhook call is made whose failure is logged and swallowed. Either way
 * the message is recorded, in order, in the outbox's log.
 */
module Publishing {
  import opened Wrappers

  /** `Logged`: dry run, no webhook call. `Executed`: the webhook was called. */
  datatype Delivery = Logged | Executed

  datatype Post = Post(webhook: string, text: string, threadId: Option<string>, delivery: Delivery)

  function DeliveryFor(dryRun: bool): Delivery {
    if dryRun then Logged else Executed
  }

  class Outbox {
    var log: seq<Post>

    constructor ()
      ensures log == []
    {
      log := [];
    }

    method Publish(webhook: string, text: string, threadId: Option<string>, dryRun: bool)
      modifies this
      ensures log == old(log) + [Post(webhook, text, threadId, DeliveryFor(dryRun))]
    {
      log := log + [Post(webhook, text, threadId, DeliveryFor(dryRun))];
    }
  }
}
