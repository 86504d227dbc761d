/**
 * Short runs of the router from a fresh state, one per behaviour worth seeing
 * end to end. Each returns what a caller would observe afterwards.
 */
module RouterScenarios {
  import opened Wrappers
  import opened Messages
  import opened MessageRouting

  /**
   * Send Ask 1, deliver an Answer to it, then a second, late Answer: the caller's
   * result holds the first Answer, the second is ignored, and Ask 1 is no longer open.
   */
  method AnswerResolvesAskOnce() returns (outcome: Slot, stillOpen: bool)
    ensures outcome == Answered(Answer(2, 1))
    ensures !stillOpen
  {
    var router := new MessageRouter(10);
    router.SetMessageDispatcher();
    var sent := router.SendAskMessage(Ask(1), true);
    var h := sent.value;
    router.HandleAnswerMessage(Answer(2, 1));
    router.HandleAnswerMessage(Answer(3, 1));
    outcome := router.futures[h].slot;
    stillOpen := 1 in router.openAskMessages.entries;
  }

  /** With no dispatcher attached, a send fails with NotConnected and registers nothing. */
  method SendWhileDisconnected() returns (r: Result<BoundedMaps.Handle, RouterError>, openAsks: nat, sent: nat)
    ensures r == Failure(NotConnected)
    ensures openAsks == 0 && sent == 0
  {
    var router := new MessageRouter(10);
    r := router.SendAskMessage(Ask(1), true);
    openAsks := |router.openAskMessages.entries|;
    sent := |router.outbox|;
  }

  /**
   * Send Post 1 with a one-second timeout and let the timer fire: the caller's
   * result fails with TimedOut, yet Post 1 stays in openPostMessages, because the
   * Post cleanup removes the id from openAskMessages instead.
   */
  method PostTimeoutLeavesEntry() returns (outcome: Slot, stillOpen: bool)
    ensures outcome == Failed(TimedOut)
    ensures stillOpen
  {
    var router := new MessageRouter(1);
    router.SetMessageDispatcher();
    var sent := router.SendPostMessage(Post(1), true);
    var h := sent.value;
    router.TimeoutFires(h);
    outcome := router.futures[h].slot;
    stillOpen := 1 in router.openPostMessages.entries;
  }

  /**
   * Send Post 1 and deliver two Reacts to it: the first one resolves the caller's
   * result, the second finds the stale entry still in openPostMessages and is
   * ignored by the already completed slot.
   */
  method ReactLeavesPostEntry() returns (outcome: Slot, stillOpen: bool)
    ensures outcome == Answered(React(2, 1))
    ensures stillOpen
  {
    var router := new MessageRouter(0);
    router.SetMessageDispatcher();
    var sent := router.SendPostMessage(Post(1), true);
    var h := sent.value;
    router.HandleReactMessage(React(2, 1));
    router.HandleReactMessage(React(3, 1));
    outcome := router.futures[h].slot;
    stillOpen := 1 in router.openPostMessages.entries;
  }

  /** An Ask arriving before the interaction processor is registered gets no reply. */
  method InboundAskBeforeWiring() returns (sent: seq<Message>)
    ensures sent == []
  {
    var router := new MessageRouter(10);
    router.SetMessageDispatcher();
    router.RegisterMetaKnowledgeBase();
    router.HandleAskMessage(Ask(1), Some(Answer(2, 1)), true);
    sent := router.outbox;
  }

  /** Once both collaborators are registered, the processor's reply goes out. */
  method InboundAskAfterWiring() returns (sent: seq<Message>)
    ensures sent == [Answer(2, 1)]
  {
    var router := new MessageRouter(10);
    router.SetMessageDispatcher();
    router.RegisterMetaKnowledgeBase();
    router.RegisterInteractionProcessor();
    router.HandleAskMessage(Ask(1), Some(Answer(2, 1)), true);
    sent := router.outbox;
  }

  /** Attach, detach, attach: the smart connector hears ready, interrupted, restored. */
  method ReconnectNotifies() returns (ghost log: seq<Notification>)
    ensures log == [CommunicationReady, CommunicationInterrupted, CommunicationRestored]
  {
    var router := new MessageRouter(10);
    router.SetMessageDispatcher();
    router.UnsetMessageDispatcher();
    router.SetMessageDispatcher();
    log := router.notifications;
  }
}
