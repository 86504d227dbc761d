/**
 * MessageRouterImpl: turns outbound Ask and Post requests into single-assignment
 * results, matches inbound Answer and React replies to them, hands inbound Ask and
 * Post requests to the interaction processor, and tells the smart connector when
 * the message dispatcher comes and goes.
 *
 * The model is sequential: a reply arriving, a timer firing and a local call are
 * each one atomic step. Calls into collaborators (the dispatcher's `send`, the
 * interaction processor) appear as parameters that say how they turned out.
 */
module MessageRouting {
  import opened Wrappers
  import opened Messages
  import opened BoundedMaps

  /** Which correlation map a request belongs to. */
  datatype Kind = AskKind | PostKind

  /** Why a result slot failed. */
  datatype Failure = TimedOut | CapacityExceeded

  /** A single-assignment result slot (a `CompletableFuture`). */
  datatype Slot = Pending(timeoutArmed: bool) | Answered(reply: Message) | Failed(reason: Failure)

  /** The result a send handed out for the request `messageId`. */
  datatype Future = Future(kind: Kind, messageId: MessageId, slot: Slot)

  /** Callbacks on the owning smart connector. */
  datatype Notification = CommunicationReady | CommunicationRestored | CommunicationInterrupted

  /** Exceptions the router's own calls raise. */
  datatype RouterError = NotConnected | TransportFailed | Unsupported

  /** `complete` / `completeExceptionally`: a pending slot takes the outcome, a resolved one ignores it. */
  function Complete(s: Slot, outcome: Slot): (r: Slot)
    requires !outcome.Pending?
    ensures !r.Pending?
    ensures s.Pending? ==> r == outcome
    ensures !s.Pending? ==> r == s
  {
    if s.Pending? then outcome else s
  }

  /**
   * How the slots may change in one step: new ones are added at the end, and an
   * existing one changes only from pending to resolved, keeping its request.
   */
  ghost predicate SingleAssignment(before: seq<Future>, after: seq<Future>) {
    && |before| <= |after|
    && forall h | 0 <= h < |before| ::
         || after[h] == before[h]
         || (&& before[h].slot.Pending? && !after[h].slot.Pending?
             && after[h].kind == before[h].kind && after[h].messageId == before[h].messageId)
  }

  /**
   * Two single-assignment steps compose into one, and a slot already resolved
   * before them keeps its outcome across both.
   */
  lemma ResolvedForGood(before: seq<Future>, middle: seq<Future>, after: seq<Future>, h: Handle)
    requires SingleAssignment(before, middle) && SingleAssignment(middle, after)
    requires h < |before| && !before[h].slot.Pending?
    ensures SingleAssignment(before, after)
    ensures after[h] == before[h]
  {
  }

  /** The slots after an eviction: the evicted request's slot fails with CapacityExceeded, if still pending. */
  function FailEvicted(futures: seq<Future>, evicted: Option<(MessageId, Handle)>): (r: seq<Future>)
    ensures |r| == |futures|
    ensures forall j | 0 <= j < |futures| && (evicted.None? || j != evicted.value.1) :: r[j] == futures[j]
    ensures evicted.Some? && evicted.value.1 < |futures| ==>
      var h := evicted.value.1;
      && r[h].kind == futures[h].kind && r[h].messageId == futures[h].messageId
      && r[h].slot == if futures[h].slot.Pending? then Failed(CapacityExceeded) else futures[h].slot
  {
    if evicted.Some? && evicted.value.1 < |futures| then
      var h := evicted.value.1;
      futures[h := futures[h].(slot := Complete(futures[h].slot, Failed(CapacityExceeded)))]
    else futures
  }

  /** Adding a slot and failing an evicted one is a single-assignment step. */
  lemma FailEvictedIsSingleAssignment(futures: seq<Future>, added: Future, evicted: Option<(MessageId, Handle)>)
    ensures SingleAssignment(futures, FailEvicted(futures + [added], evicted))
  {
    var after := FailEvicted(futures + [added], evicted);
    forall h | 0 <= h < |futures|
      ensures || after[h] == futures[h]
              || (&& futures[h].slot.Pending? && !after[h].slot.Pending?
                  && after[h].kind == futures[h].kind && after[h].messageId == futures[h].messageId)
    {
      assert (futures + [added])[h] == futures[h];
    }
  }

  /** Each entry refers to a slot of the given kind that was created for the entry's own key. */
  ghost predicate Refers(entries: map<MessageId, Handle>, futures: seq<Future>, kind: Kind) {
    forall k | k in entries ::
      entries[k] < |futures| && futures[entries[k]].kind == kind && futures[entries[k]].messageId == k
  }

  ghost predicate AllPending(entries: map<MessageId, Handle>, futures: seq<Future>) {
    forall k | k in entries :: entries[k] < |futures| && futures[entries[k]].slot.Pending?
  }

  ghost predicate DistinctIds(futures: seq<Future>) {
    forall i, j | 0 <= i < j < |futures| :: futures[i].messageId != futures[j].messageId
  }

  /** An Ask request's id is in the Ask map exactly while its slot is pending. */
  ghost predicate TracksPendingAsks(entries: map<MessageId, Handle>, futures: seq<Future>) {
    forall h | 0 <= h < |futures| && futures[h].kind == AskKind ::
      futures[h].slot.Pending? <==> futures[h].messageId in entries
  }

  /** A pending Post request's id is in the Post map (resolved ones may stay there too). */
  ghost predicate KeepsPendingPosts(entries: map<MessageId, Handle>, futures: seq<Future>) {
    forall h | 0 <= h < |futures| && futures[h].kind == PostKind && futures[h].slot.Pending? ::
      futures[h].messageId in entries
  }

  /** What the router keeps true of its two maps and the slots they refer to. */
  ghost predicate Consistent(ask: map<MessageId, Handle>, post: map<MessageId, Handle>, futures: seq<Future>) {
    && Refers(ask, futures, AskKind)
    && Refers(post, futures, PostKind)
    && AllPending(ask, futures)
    && (DistinctIds(futures) ==> TracksPendingAsks(ask, futures) && KeepsPendingPosts(post, futures))
  }

  /** Resolving a pending slot and removing its id from the Ask map keeps the maps consistent. */
  lemma ResolveKeepsConsistent(ask: map<MessageId, Handle>, post: map<MessageId, Handle>,
                               futures: seq<Future>, h: Handle, outcome: Slot)
    requires Consistent(ask, post, futures) && h < |futures| && futures[h].slot.Pending? && !outcome.Pending?
    ensures Consistent(ask - {futures[h].messageId}, post, futures[h := futures[h].(slot := outcome)])
  {
    var id := futures[h].messageId;
    var after := futures[h := futures[h].(slot := outcome)];
    var ask' := ask - {id};
    assert forall j | 0 <= j < |after| :: after[j].kind == futures[j].kind && after[j].messageId == futures[j].messageId;
    forall k | k in ask' ensures ask'[k] < |after| && after[ask'[k]].slot.Pending? {
      assert ask[k] != h;
    }
    if DistinctIds(after) {
      assert DistinctIds(futures);
      forall j | 0 <= j < |after| && after[j].kind == AskKind
        ensures after[j].slot.Pending? <==> after[j].messageId in ask'
      {
        if j != h {
          assert futures[j].messageId != id;
        }
      }
    }
  }

  /**
   * Registering a new pending Ask slot under `id` (after evicting, when the Ask
   * map was full, the eldest entry and failing its slot) keeps the maps consistent.
   */
  lemma OpenAskKeepsConsistent(ask: map<MessageId, Handle>, post: map<MessageId, Handle>, futures: seq<Future>,
                               id: MessageId, armed: bool, evicted: Option<(MessageId, Handle)>)
    requires Consistent(ask, post, futures)
    requires evicted.Some? ==> evicted.value.0 in ask && evicted.value.1 == ask[evicted.value.0] && evicted.value.0 != id
    ensures Consistent(
              (if evicted.Some? then ask - {evicted.value.0} else ask)[id := |futures|], post,
              FailEvicted(futures + [Future(AskKind, id, Pending(armed))], evicted))
  {
    var h := |futures|;
    var grown := futures + [Future(AskKind, id, Pending(armed))];
    var after := FailEvicted(grown, evicted);
    var ask' := (if evicted.Some? then ask - {evicted.value.0} else ask)[id := h];
    assert forall j | 0 <= j < |futures| :: after[j].kind == futures[j].kind && after[j].messageId == futures[j].messageId;
    assert after[h] == grown[h];
    forall k | k in ask' ensures ask'[k] < |after| && after[ask'[k]].slot.Pending? {
      if k != id {
        assert evicted.Some? ==> ask[k] != evicted.value.1;
      }
    }
    if DistinctIds(after) {
      assert DistinctIds(futures) by {
        forall i, j | 0 <= i < j < |futures| ensures futures[i].messageId != futures[j].messageId {
          assert after[i].messageId == futures[i].messageId && after[j].messageId == futures[j].messageId;
        }
      }
      forall j | 0 <= j < |after| && after[j].kind == AskKind
        ensures after[j].slot.Pending? <==> after[j].messageId in ask'
      {
        if j < h && !(evicted.Some? && j == evicted.value.1) {
          assert after[j] == futures[j];
          assert futures[j].messageId != id by { assert after[h].messageId == id; }
          if evicted.Some? {
            assert futures[j].messageId != evicted.value.0 by {
              assert futures[evicted.value.1].messageId == evicted.value.0;
            }
          }
        }
      }
    }
  }

  /**
   * Registering a new pending Post slot under `id` (after evicting, when the Post
   * map was full, the eldest entry and failing its slot if still pending, whose
   * cleanup removes the evicted id from the Ask map) keeps the maps consistent.
   */
  lemma OpenPostKeepsConsistent(ask: map<MessageId, Handle>, post: map<MessageId, Handle>, futures: seq<Future>,
                                id: MessageId, armed: bool, evicted: Option<(MessageId, Handle)>)
    requires Consistent(ask, post, futures)
    requires evicted.Some? ==> evicted.value.0 in post && evicted.value.1 == post[evicted.value.0] && evicted.value.0 != id
    ensures Consistent(
              if evicted.Some? && futures[evicted.value.1].slot.Pending? then ask - {evicted.value.0} else ask,
              (if evicted.Some? then post - {evicted.value.0} else post)[id := |futures|],
              FailEvicted(futures + [Future(PostKind, id, Pending(armed))], evicted))
  {
    var h := |futures|;
    var grown := futures + [Future(PostKind, id, Pending(armed))];
    var after := FailEvicted(grown, evicted);
    var ask' := if evicted.Some? && futures[evicted.value.1].slot.Pending? then ask - {evicted.value.0} else ask;
    var post' := (if evicted.Some? then post - {evicted.value.0} else post)[id := h];
    assert forall j | 0 <= j < |futures| :: after[j].kind == futures[j].kind && after[j].messageId == futures[j].messageId;
    assert after[h] == grown[h];
    forall k | k in ask' ensures ask'[k] < |after| && after[ask'[k]].slot.Pending? {
      assert evicted.Some? ==> ask[k] != evicted.value.1;
    }
    if DistinctIds(after) {
      assert DistinctIds(futures) by {
        forall i, j | 0 <= i < j < |futures| ensures futures[i].messageId != futures[j].messageId {
          assert after[i].messageId == futures[i].messageId && after[j].messageId == futures[j].messageId;
        }
      }
      forall j | 0 <= j < |after| && after[j].kind == AskKind
        ensures after[j].slot.Pending? <==> after[j].messageId in ask'
      {
        assert after[j] == futures[j];
        if evicted.Some? {
          assert futures[j].messageId != evicted.value.0 by {
            assert futures[evicted.value.1].messageId == evicted.value.0;
          }
        }
      }
      forall j | 0 <= j < |after| && after[j].kind == PostKind && after[j].slot.Pending?
        ensures after[j].messageId in post'
      {
        if j < h {
          assert after[j] == futures[j];
          if evicted.Some? {
            assert futures[j].messageId != evicted.value.0 by {
              assert futures[evicted.value.1].messageId == evicted.value.0;
            }
          }
        }
      }
    }
  }

  /**
   * The callbacks owed to the smart connector after attaching, detaching, attaching,
   * ... the dispatcher: ready first, then interrupted and restored in turn.
   */
  ghost predicate ConnectivityHistory(log: seq<Notification>) {
    forall i | 0 <= i < |log| ::
      log[i] == if i == 0 then CommunicationReady
                else if i % 2 == 1 then CommunicationInterrupted
                else CommunicationRestored
  }

  /** However often the dispatcher comes and goes, "ready" is signalled at most once. */
  lemma {:induction false} ReadyAtMostOnce(log: seq<Notification>)
    requires ConnectivityHistory(log)
    ensures multiset(log)[CommunicationReady] == if log == [] then 0 else 1
  {
    if log != [] {
      assert log == [log[0]] + log[1..];
      assert CommunicationReady !in log[1..] by {
        forall i | 0 <= i < |log[1..]| ensures log[1..][i] != CommunicationReady {
          assert log[1..][i] == log[i + 1];
        }
      }
      assert multiset(log) == multiset{log[0]} + multiset(log[1..]);
    }
  }

  class MessageRouter {
    /** openAskMessages: pending Ask requests awaiting an Answer. */
    const openAskMessages: BoundedMap
    /** openPostMessages: pending Post requests awaiting a React. */
    const openPostMessages: BoundedMap
    /** The configured wait timeout in seconds; a value <= 0 arms no timer. */
    const waitInSeconds: int
    /** Every result slot handed out so far, indexed by Handle. */
    var futures: seq<Future>
    /** Whether messageDispatcherEndpoint is set. */
    var dispatcherAttached: bool
    var metaKnowledgeBaseRegistered: bool
    var interactionProcessorRegistered: bool
    /** smartConnectorReadyNotified */
    var readyNotified: bool
    /** The messages the dispatcher accepted, oldest first. */
    var outbox: seq<Message>
    /** The callbacks made on the smart connector, oldest first. */
    ghost var notifications: seq<Notification>

    ghost predicate Valid()
      reads this, openAskMessages, openPostMessages
    {
      && openAskMessages != openPostMessages
      && openAskMessages.Valid() && openPostMessages.Valid()
      && Consistent(openAskMessages.entries, openPostMessages.entries, futures)
      && ConnectivityHistory(notifications)
      && (readyNotified <==> notifications != [])
      && (dispatcherAttached <==> |notifications| % 2 == 1)
    }

    constructor (waitInSeconds: int)
      ensures Valid() && fresh(openAskMessages) && fresh(openPostMessages)
      ensures this.waitInSeconds == waitInSeconds
      ensures openAskMessages.entries == map[] && openPostMessages.entries == map[]
      ensures futures == [] && outbox == [] && notifications == []
      ensures !dispatcherAttached && !readyNotified
      ensures !metaKnowledgeBaseRegistered && !interactionProcessorRegistered
    {
      this.waitInSeconds := waitInSeconds;
      openAskMessages := new BoundedMap();
      openPostMessages := new BoundedMap();
      futures := [];
      dispatcherAttached := false;
      metaKnowledgeBaseRegistered := false;
      interactionProcessorRegistered := false;
      readyNotified := false;
      outbox := [];
      notifications := [];
    }

    /**
     * `complete` or `completeExceptionally` on slot `h`, followed by the
     * `whenComplete` cleanup of the send that created it. Both cleanups remove the
     * request's id from openAskMessages, the Post one included.
     */
    method CompleteFuture(h: Handle, outcome: Slot)
      requires Valid() && h < |futures| && !outcome.Pending?
      modifies this`futures, openAskMessages
      ensures Valid()
      ensures SingleAssignment(old(futures), futures)
      ensures futures == old(futures)[h := old(futures[h]).(slot := Complete(old(futures[h].slot), outcome))]
      ensures old(futures[h].slot).Pending? ==>
        && openAskMessages.order == Without(old(openAskMessages.order), futures[h].messageId)
        && openAskMessages.entries == old(openAskMessages.entries) - {futures[h].messageId}
      ensures !old(futures[h].slot).Pending? ==>
        && openAskMessages.order == old(openAskMessages.order)
        && openAskMessages.entries == old(openAskMessages.entries)
    {
      var f := futures[h];
      if f.slot.Pending? {
        ResolveKeepsConsistent(openAskMessages.entries, openPostMessages.entries, futures, h, outcome);
        futures := futures[h := f.(slot := outcome)];
        openAskMessages.Remove(f.messageId);
      }
    }

    /**
     * The registration part of sendAskMessage: a new pending slot, its timer armed
     * iff the wait timeout is positive, is put into openAskMessages under `id`.
     * When that evicts the eldest entry, the evicted slot fails with
     * CapacityExceeded and its cleanup runs.
     */
    method OpenAsk(id: MessageId) returns (h: Handle)
      requires Valid()
      modifies this`futures, openAskMessages
      ensures Valid()
      ensures SingleAssignment(old(futures), futures)
      ensures h == |old(futures)|
      ensures futures == FailEvicted(old(futures) + [Future(AskKind, id, Pending(waitInSeconds > 0))],
                                     old(openAskMessages.EvictedBy(id)))
      ensures openAskMessages.order == InsertOrder(old(openAskMessages.order), id)
      ensures openAskMessages.entries ==
        (var evicted := old(openAskMessages.EvictedBy(id));
         if evicted.Some? then old(openAskMessages.entries) - {evicted.value.0} else old(openAskMessages.entries))[id := h]
      ensures futures[h] == Future(AskKind, id, Pending(waitInSeconds > 0))
    {
      h := |futures|;
      ghost var ask0, post0, futures0 := openAskMessages.entries, openPostMessages.entries, futures;
      var evicted := openAskMessages.Put(id, h);
      futures := FailEvicted(futures + [Future(AskKind, id, Pending(waitInSeconds > 0))], evicted);
      OpenAskKeepsConsistent(ask0, post0, futures0, id, waitInSeconds > 0, evicted);
      FailEvictedIsSingleAssignment(futures0, Future(AskKind, id, Pending(waitInSeconds > 0)), evicted);
      // Failing the evicted slot runs its cleanup, which removes the evicted id
      // from openAskMessages: the put above has already dropped it.
    }

    /**
     * The registration part of sendPostMessage: as OpenAsk, over openPostMessages,
     * except that an evicted slot fails only if still pending, and the cleanup that
     * failure runs removes the evicted id from openAskMessages (line 149).
     */
    method OpenPost(id: MessageId) returns (h: Handle)
      requires Valid()
      modifies this`futures, openAskMessages, openPostMessages
      ensures Valid()
      ensures SingleAssignment(old(futures), futures)
      ensures h == |old(futures)|
      ensures futures == FailEvicted(old(futures) + [Future(PostKind, id, Pending(waitInSeconds > 0))],
                                     old(openPostMessages.EvictedBy(id)))
      ensures openPostMessages.order == InsertOrder(old(openPostMessages.order), id)
      ensures openPostMessages.entries ==
        (var evicted := old(openPostMessages.EvictedBy(id));
         if evicted.Some? then old(openPostMessages.entries) - {evicted.value.0} else old(openPostMessages.entries))[id := h]
      ensures
        var evicted := old(openPostMessages.EvictedBy(id));
        var failsVictim := evicted.Some? && old(futures[evicted.value.1].slot).Pending?;
        && openAskMessages.order ==
             (if failsVictim then Without(old(openAskMessages.order), evicted.value.0) else old(openAskMessages.order))
        && openAskMessages.entries ==
             (if failsVictim then old(openAskMessages.entries) - {evicted.value.0} else old(openAskMessages.entries))
      ensures futures[h] == Future(PostKind, id, Pending(waitInSeconds > 0))
    {
      h := |futures|;
      ghost var ask0, post0, futures0 := openAskMessages.entries, openPostMessages.entries, futures;
      var evicted := openPostMessages.Put(id, h);
      var victimPending := evicted.Some? && futures[evicted.value.1].slot.Pending?;
      futures := FailEvicted(futures + [Future(PostKind, id, Pending(waitInSeconds > 0))], evicted);
      OpenPostKeepsConsistent(ask0, post0, futures0, id, waitInSeconds > 0, evicted);
      FailEvictedIsSingleAssignment(futures0, Future(PostKind, id, Pending(waitInSeconds > 0)), evicted);
      if victimPending {
        // The evicted slot was pending, so failing it ran its cleanup (line 149).
        openAskMessages.Remove(evicted.value.0);
      }
    }

    /**
     * sendAskMessage: fails with NotConnected, changing nothing, when no dispatcher
     * is attached. Otherwise registers a pending slot under the message id (timer
     * armed iff the wait timeout is positive), failing the evicted slot if that
     * overflows the map, and only then hands the message to the dispatcher; when
     * the dispatcher rejects it the error propagates and the entry stays.
     */
    method SendAskMessage(m: AskMessage, transportAccepts: bool) returns (r: Result<Handle, RouterError>)
      requires Valid()
      modifies this`futures, this`outbox, openAskMessages
      ensures Valid()
      ensures SingleAssignment(old(futures), futures)
      ensures !dispatcherAttached ==>
        && r == Failure(NotConnected)
        && futures == old(futures) && outbox == old(outbox)
        && openAskMessages.order == old(openAskMessages.order)
        && openAskMessages.entries == old(openAskMessages.entries)
      ensures dispatcherAttached ==>
        var h := |old(futures)|;
        var evicted := old(openAskMessages.EvictedBy(m.messageId));
        && futures == FailEvicted(old(futures) + [Future(AskKind, m.messageId, Pending(waitInSeconds > 0))], evicted)
        && openAskMessages.order == InsertOrder(old(openAskMessages.order), m.messageId)
        && openAskMessages.entries ==
             (if evicted.Some? then old(openAskMessages.entries) - {evicted.value.0}
              else old(openAskMessages.entries))[m.messageId := h]
        && outbox == (if transportAccepts then old(outbox) + [m] else old(outbox))
        && r == (if transportAccepts then Success(h) else Failure(TransportFailed))
      ensures dispatcherAttached ==>
        && m.messageId in openAskMessages.entries
        && futures[openAskMessages.entries[m.messageId]] == Future(AskKind, m.messageId, Pending(waitInSeconds > 0))
    {
      if !dispatcherAttached {
        return Failure(NotConnected);
      }
      var h := OpenAsk(m.messageId);
      if transportAccepts {
        outbox := outbox + [m];
        r := Success(h);
      } else {
        r := Failure(TransportFailed);
      }
    }

    /**
     * sendPostMessage: as sendAskMessage, over openPostMessages. When the put
     * evicts an entry, its slot fails only if still pending, and the cleanup that
     * failure runs removes the evicted id from openAskMessages (line 149).
     */
    method SendPostMessage(m: PostMessage, transportAccepts: bool) returns (r: Result<Handle, RouterError>)
      requires Valid()
      modifies this`futures, this`outbox, openAskMessages, openPostMessages
      ensures Valid()
      ensures SingleAssignment(old(futures), futures)
      ensures !dispatcherAttached ==>
        && r == Failure(NotConnected)
        && futures == old(futures) && outbox == old(outbox)
        && openAskMessages.order == old(openAskMessages.order)
        && openAskMessages.entries == old(openAskMessages.entries)
        && openPostMessages.order == old(openPostMessages.order)
        && openPostMessages.entries == old(openPostMessages.entries)
      ensures dispatcherAttached ==>
        var h := |old(futures)|;
        var evicted := old(openPostMessages.EvictedBy(m.messageId));
        var failsVictim := evicted.Some? && old(futures[evicted.value.1].slot).Pending?;
        && futures == FailEvicted(old(futures) + [Future(PostKind, m.messageId, Pending(waitInSeconds > 0))], evicted)
        && openPostMessages.order == InsertOrder(old(openPostMessages.order), m.messageId)
        && openPostMessages.entries ==
             (if evicted.Some? then old(openPostMessages.entries) - {evicted.value.0}
              else old(openPostMessages.entries))[m.messageId := h]
        && openAskMessages.order ==
             (if failsVictim then Without(old(openAskMessages.order), evicted.value.0) else old(openAskMessages.order))
        && openAskMessages.entries ==
             (if failsVictim then old(openAskMessages.entries) - {evicted.value.0} else old(openAskMessages.entries))
        && outbox == (if transportAccepts then old(outbox) + [m] else old(outbox))
        && r == (if transportAccepts then Success(h) else Failure(TransportFailed))
      ensures dispatcherAttached ==>
        && m.messageId in openPostMessages.entries
        && futures[openPostMessages.entries[m.messageId]] == Future(PostKind, m.messageId, Pending(waitInSeconds > 0))
    {
      if !dispatcherAttached {
        return Failure(NotConnected);
      }
      var h := OpenPost(m.messageId);
      if transportAccepts {
        outbox := outbox + [m];
        r := Success(h);
      } else {
        r := Failure(TransportFailed);
      }
    }

    /**
     * The timer armed by a send fires: a slot still pending with its timer armed
     * fails with TimedOut and its cleanup runs; any other slot is left alone.
     */
    method TimeoutFires(h: Handle)
      requires Valid() && h < |futures|
      modifies this`futures, openAskMessages
      ensures Valid()
      ensures SingleAssignment(old(futures), futures)
      ensures old(futures[h].slot) == Pending(true) ==>
        && futures == old(futures)[h := old(futures[h]).(slot := Failed(TimedOut))]
        && openAskMessages.order == Without(old(openAskMessages.order), futures[h].messageId)
        && openAskMessages.entries == old(openAskMessages.entries) - {futures[h].messageId}
      ensures old(futures[h].slot) != Pending(true) ==>
        && futures == old(futures)
        && openAskMessages.order == old(openAskMessages.order)
        && openAskMessages.entries == old(openAskMessages.entries)
    {
      if futures[h].slot == Pending(true) {
        CompleteFuture(h, Failed(TimedOut));
      }
    }

    /**
     * handleAnswerMessage: an Answer whose Ask id is not in openAskMessages changes
     * nothing; otherwise the pending slot of that Ask takes the Answer and its
     * cleanup removes the id from openAskMessages.
     */
    method HandleAnswerMessage(a: AnswerMessage)
      requires Valid()
      modifies this`futures, openAskMessages
      ensures Valid()
      ensures SingleAssignment(old(futures), futures)
      ensures a.replyToAsk !in old(openAskMessages.entries) ==>
        && futures == old(futures)
        && openAskMessages.order == old(openAskMessages.order)
        && openAskMessages.entries == old(openAskMessages.entries)
      ensures a.replyToAsk in old(openAskMessages.entries) ==>
        var h := old(openAskMessages.entries)[a.replyToAsk];
        && old(futures[h].slot).Pending?
        && futures == old(futures)[h := old(futures[h]).(slot := Answered(a))]
        && a.replyToAsk !in openAskMessages.entries
        && openAskMessages.order == Without(old(openAskMessages.order), a.replyToAsk)
        && openAskMessages.entries == old(openAskMessages.entries) - {a.replyToAsk}
    {
      var future := openAskMessages.Get(a.replyToAsk);
      if future.Some? {
        CompleteFuture(future.value, Answered(a));
      }
    }

    /**
     * handleReactMessage: a React whose Post id is not in openPostMessages changes
     * nothing; otherwise that Post's slot takes the React if still pending, and
     * then its cleanup removes the id from openAskMessages. The entry itself stays
     * in openPostMessages.
     */
    method HandleReactMessage(a: ReactMessage)
      requires Valid()
      modifies this`futures, openAskMessages
      ensures Valid()
      ensures SingleAssignment(old(futures), futures)
      ensures a.replyToPost !in old(openPostMessages.entries) ==>
        && futures == old(futures)
        && openAskMessages.order == old(openAskMessages.order)
        && openAskMessages.entries == old(openAskMessages.entries)
      ensures a.replyToPost in old(openPostMessages.entries) ==>
        var h := old(openPostMessages.entries)[a.replyToPost];
        && futures == old(futures)[h := old(futures[h]).(slot := Complete(old(futures[h].slot), Answered(a)))]
        && a.replyToPost in openPostMessages.entries
        && (old(futures[h].slot).Pending? ==>
              && openAskMessages.order == Without(old(openAskMessages.order), a.replyToPost)
              && openAskMessages.entries == old(openAskMessages.entries) - {a.replyToPost})
        && (!old(futures[h].slot).Pending? ==>
              && openAskMessages.order == old(openAskMessages.order)
              && openAskMessages.entries == old(openAskMessages.entries))
    {
      var future := openPostMessages.Get(a.replyToPost);
      if future.Some? {
        CompleteFuture(future.value, Answered(a));
      }
    }

    /**
     * handleAskMessage: dropped unless both the meta-knowledge base and the
     * interaction processor are registered. Otherwise `reply` is what the
     * processor produced in reply to `m` (None when it failed), and it goes out
     * through the dispatcher attached on entry; a missing dispatcher or a
     * rejected send is swallowed.
     */
    method HandleAskMessage(m: AskMessage, reply: Option<AnswerMessage>, transportAccepts: bool)
      requires Valid() && (reply.Some? ==> reply.value.replyToAsk == m.messageId)
      modifies this`outbox
      ensures Valid()
      ensures !(metaKnowledgeBaseRegistered && interactionProcessorRegistered) ==> outbox == old(outbox)
      ensures metaKnowledgeBaseRegistered && interactionProcessorRegistered ==>
        outbox == old(outbox) + (if reply.Some? && dispatcherAttached && transportAccepts then [reply.value] else [])
    {
      var dispatcher := dispatcherAttached;
      if metaKnowledgeBaseRegistered && interactionProcessorRegistered {
        if reply.Some? && dispatcher && transportAccepts {
          outbox := outbox + [reply.value];
        }
      }
    }

    /** handlePostMessage: as handleAskMessage, with the processor's React reply. */
    method HandlePostMessage(m: PostMessage, reply: Option<ReactMessage>, transportAccepts: bool)
      requires Valid() && (reply.Some? ==> reply.value.replyToPost == m.messageId)
      modifies this`outbox
      ensures Valid()
      ensures !(metaKnowledgeBaseRegistered && interactionProcessorRegistered) ==> outbox == old(outbox)
      ensures metaKnowledgeBaseRegistered && interactionProcessorRegistered ==>
        outbox == old(outbox) + (if reply.Some? && dispatcherAttached && transportAccepts then [reply.value] else [])
    {
      var dispatcher := dispatcherAttached;
      if metaKnowledgeBaseRegistered && interactionProcessorRegistered {
        if reply.Some? && dispatcher && transportAccepts {
          outbox := outbox + [reply.value];
        }
      }
    }

    /** handleErrorMessage: not implemented; every call fails with Unsupported. */
    method HandleErrorMessage(m: ErrorMessage) returns (r: Outcome<RouterError>)
      ensures r == Fail(Unsupported)
    {
      r := Fail(Unsupported);
    }

    /** registerMetaKnowledgeBase: one-shot wiring. */
    method RegisterMetaKnowledgeBase()
      requires Valid() && !metaKnowledgeBaseRegistered
      modifies this`metaKnowledgeBaseRegistered
      ensures Valid() && metaKnowledgeBaseRegistered
    {
      metaKnowledgeBaseRegistered := true;
    }

    /** registerInteractionProcessor: one-shot wiring. */
    method RegisterInteractionProcessor()
      requires Valid() && !interactionProcessorRegistered
      modifies this`interactionProcessorRegistered
      ensures Valid() && interactionProcessorRegistered
    {
      interactionProcessorRegistered := true;
    }

    /**
     * setMessageDispatcher: attaches a dispatcher, which must be absent, and tells
     * the smart connector: ready the first time ever, restored every later time.
     */
    method SetMessageDispatcher()
      requires Valid() && !dispatcherAttached
      modifies this`dispatcherAttached, this`readyNotified, this`notifications
      ensures Valid() && dispatcherAttached && readyNotified
      ensures notifications ==
        old(notifications) + [if old(readyNotified) then CommunicationRestored else CommunicationReady]
    {
      dispatcherAttached := true;
      if !readyNotified {
        notifications := notifications + [CommunicationReady];
        readyNotified := true;
      } else {
        notifications := notifications + [CommunicationRestored];
      }
    }

    /** unsetMessageDispatcher: detaches the dispatcher, which must be present, and reports the interruption. */
    method UnsetMessageDispatcher()
      requires Valid() && dispatcherAttached
      modifies this`dispatcherAttached, this`notifications
      ensures Valid() && !dispatcherAttached
      ensures notifications == old(notifications) + [CommunicationInterrupted]
    {
      dispatcherAttached := false;
      notifications := notifications + [CommunicationInterrupted];
    }
  }
}
