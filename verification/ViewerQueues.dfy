/** The viewer's event handler and user-interface callbacks, as far as they work on the two queues. */
module ViewerQueues {
  import opened Words
  import opened Viewer

  class Queues {
    const console: bool
    var session: bool
    var eventQueue: seq<Event>
    var messageQueue: seq<Id>
    var inHand: Option<Id>
    var processing: bool
    var finalized: bool
    var nextId: Id
    var droppedFrames: nat

    // What has happened so far.
    ghost var arrived: seq<Event>
    ghost var handled: seq<Event>
    ghost var consumed: seq<Id>
    ghost var released: seq<Id>
    ghost var processed: nat
    ghost var flushed: nat

    ghost function Now(): State
      reads this
    {
      State(console, session, eventQueue, messageQueue, inHand, processing, finalized, nextId, droppedFrames,
            arrived, handled, consumed, released, processed, flushed)
    }

    constructor (console: bool)
      ensures Now() == Initial(console)
    {
      this.console := console;
      session, processing, finalized := false, true, false;
      eventQueue, messageQueue, inHand, nextId, droppedFrames := [], [], None, 0, 0;
      arrived, handled, consumed, released, processed, flushed := [], [], [], [], 0, 0;
    }

    /** Olimex_Mod_MPU6050_EventHandler::start. */
    method StartSession()
      requires !finalized
      modifies this
      ensures Now() == Apply(old(Now()), Start)
    {
      session := true;
      PushEvent(Connect);
    }

    /** Olimex_Mod_MPU6050_EventHandler::notify for a sensor message; duplicated is false when no
        buffer is left for a duplicate. */
    method NotifySensorMessage(duplicated: bool)
      requires !finalized && session
      modifies this
      ensures Now() == Apply(old(Now()), Notify(duplicated))
    {
      if console {
        return;
      }
      if !duplicated {
        droppedFrames := droppedFrames + 1;
        nextId := nextId + 1;
        return;
      }
      PushEvent(Message);
      messageQueue := [nextId] + messageQueue;
      nextId := nextId + 1;
    }

    /** Olimex_Mod_MPU6050_EventHandler::notify for a session message. */
    method NotifySessionMessage()
      requires !finalized
      modifies this
      ensures Now() == Apply(old(Now()), NotifySession)
    {
      PushEvent(SessionMessage);
    }

    /** Olimex_Mod_MPU6050_EventHandler::end. */
    method EndSession()
      requires !finalized
      modifies this
      ensures Now() == Apply(old(Now()), End)
    {
      PushEvent(Disconnect);
    }

    method PushEvent(e: Event)
      modifies this
      ensures Now() == Arrive(old(Now()), e)
    {
      eventQueue := eventQueue + [e];
      arrived := arrived + [e];
    }

    /** process_cb up to the end of its locked region: it goes on with a message only for a message
        event, and an unknown event stops it for good. */
    method ProcessEvent() returns (more: bool)
      requires CountMessages(eventQueue) == |messageQueue| && !finalized && processing && inHand.None?
      modifies this
      ensures Now() == Apply(old(Now()), Process)
      ensures more == inHand.Some?
      ensures old(eventQueue) != [] && old(eventQueue)[0] == Message ==>
                inHand == Some(old(messageQueue)[0])
    {
      if eventQueue == [] {
        return false;
      }
      var event := eventQueue[0];
      if event == Message {
        MessageEventHasMessage(Now());
      }
      hide CountMessages;
      eventQueue := eventQueue[1..];
      handled := handled + [event];
      match event {
        case Connect => return false;
        case Disconnect => return false;
        case SessionMessage => return false;
        case Message =>
          TakeMessage();
          return true;
        case Invalid =>
          processing := false;
          return false;
      }
    }

    method TakeMessage()
      requires messageQueue != []
      modifies this`messageQueue, this`inHand, this`consumed, this`processed
      ensures messageQueue == old(messageQueue)[1..] && inHand == Some(old(messageQueue)[0])
      ensures consumed == old(consumed) + [old(messageQueue)[0]] && processed == old(processed) + 1
    {
      var message := messageQueue[0];
      messageQueue := messageQueue[1..];
      inHand := Some(message);
      consumed := consumed + [message];
      processed := processed + 1;
    }

    /** The rest of process_cb: the message is shown and released; a failure to print stops it. */
    method ReleaseMessage(printed: bool)
      requires !finalized && inHand.Some?
      modifies this
      ensures Now() == Apply(old(Now()), Finish(printed))
    {
      released := released + [inHand.value];
      inHand := None;
      if !printed {
        processing := false;
      }
    }

    /** idle_finalize_ui_cb: releases what is still queued. */
    method FinalizeUi()
      requires !finalized && inHand.None?
      modifies this
      ensures Now() == Apply(old(Now()), Finalize)
    {
      hide CountMessages, Arrive, NotifyMessage, TakeEvent;
      ghost var all, consumedBefore, releasedBefore := messageQueue, consumed, released;
      ghost var out: seq<Id> := [];
      while messageQueue != []
        invariant out + messageQueue == all
        invariant consumed == consumedBefore + out && released == releasedBefore + out
        modifies this`messageQueue, this`consumed, this`released
        decreases |messageQueue|
      {
        ghost var front := messageQueue[0];
        released := released + [front];
        consumed := consumed + [front];
        messageQueue := messageQueue[1..];
        out := out + [front];
      }
      flushed := |out|;
      finalized := true;
    }
  }
}
