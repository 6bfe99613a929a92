/**
  The websocket_endpoint of main.py: register the connection, then read
  frames "<target_id>:<message>" until the client goes away, pairing the
  sender with each target and relaying the message to the target's handle.
*/
module Relay {
  import opened Wrappers
  import opened Decimal
  import opened Frames
  import opened Registry

  /** What the loop body (lines 89-95) can raise besides WebSocketDisconnect. */
  datatype Fault =
    | Malformed(error: FrameError)    // ValueError from the split or from int()
    | UnknownSender(clientId: int)    // KeyError in update_chat_pairs: the sender has no peer set

  /** The send a parsed frame turns into: the sender's message on the target's handle, if it has one. */
  function Relayed<H>(active: map<int, H>, sender: int, target: int, message: string): (r: Option<Send<H>>)
    ensures r.None? <==> target !in active
    ensures r.Some? ==> r.value.to == target && r.value.handle == active[target]
    ensures r.Some? ==> r.value.text == SaysText(sender, message)
  {
    if target in active then Some(Send(target, active[target], SaysText(sender, message))) else None
  }

  /**
    One pass of the loop body (lines 89-95) for a frame received from clientId:
    a malformed frame raises before the pairing is touched; otherwise the
    pairing is updated and the relayed text goes to the target if it is
    connected, and nowhere if it is not.
  */
  method RouteFrame<H>(manager: ConnectionManager<H>, clientId: int, data: string)
    returns (r: Result<Option<Send<H>>, Fault>)
    requires manager.Valid()
    modifies manager
    ensures manager.Valid()
    ensures manager.activeConnections == old(manager.activeConnections)
    ensures ParseFrame(data).Err? ==>
      r == Err(Malformed(ParseFrame(data).error)) && manager.chatPairs == old(manager.chatPairs)
    ensures ParseFrame(data).Ok? && clientId !in old(manager.chatPairs) ==>
      r == Err(UnknownSender(clientId)) && manager.chatPairs == old(manager.chatPairs)
    ensures ParseFrame(data).Ok? && clientId in old(manager.chatPairs) ==>
      var (target, message) := ParseFrame(data).value;
      && manager.chatPairs == AddPairing(old(manager.chatPairs), clientId, target)
      && r == Ok(Relayed(manager.activeConnections, clientId, target, message))
  {
    var parsed := ParseFrame(data);
    if parsed.Err? {
      return Err(Malformed(parsed.error));
    }
    var (target, message) := parsed.value;
    var found := manager.UpdateChatPairs(clientId, target);
    if !found {
      return Err(UnknownSender(clientId));
    }
    var sent := manager.SendPersonalMessage(SaysText(clientId, message), target);
    r := Ok(sent);
  }

  /** What receive_text gives the loop: a text frame, or the WebSocketDisconnect it raises. */
  datatype Event = Received(data: string) | Closed

  /** How the endpoint's loop ends. */
  datatype Ending =
    | Disconnected        // WebSocketDisconnect was caught and disconnect ran (lines 96-98)
    | Raised(fault: Fault) // another exception left the endpoint; disconnect did not run
    | Waiting             // the events ran out; the loop is still waiting for a frame

  /** What the loop body makes of one event: a frame to route, or the end of the loop. */
  datatype Step = Route(frame: (int, string)) | Stop(ending: Ending)

  /** Lines 89-91 and 96: a close ends the loop, a malformed frame raises, any other frame is routed. */
  function StepOf(event: Event): (s: Step)
    ensures s.Stop? ==> s.ending != Waiting && !(s.ending.Raised? && s.ending.fault.UnknownSender?)
  {
    match event
    case Closed => Stop(Disconnected)
    case Received(data) =>
      match ParseFrame(data)
      case Err(e) => Stop(Raised(Malformed(e)))
      case Ok(frame) => Route(frame)
  }

  /** Which step each event gives, in terms of what the frame parses to. */
  lemma StepOfCases(event: Event)
    ensures StepOf(event) == Stop(Disconnected) <==> event.Closed?
    ensures StepOf(event).Route? <==> event.Received? && ParseFrame(event.data).Ok?
    ensures StepOf(event).Route? ==> ParseFrame(event.data) == Ok(StepOf(event).frame)
    ensures StepOf(event).Stop? && StepOf(event).ending.Raised? <==> event.Received? && ParseFrame(event.data).Err?
    ensures StepOf(event).Stop? && StepOf(event).ending.Raised? ==>
      StepOf(event).ending.fault == Malformed(ParseFrame(event.data).error)
  {
  }

  /**
    The frames the loop routes, in order, and how it ends, for a given stream
    of events: it stops at the first close and at the first malformed frame,
    and on its own it never raises KeyError.
  */
  function Session(events: seq<Event>): (r: (seq<(int, string)>, Ending))
    ensures |r.0| <= |events|
    ensures !(r.1.Raised? && r.1.fault.UnknownSender?)
  {
    if events == [] then ([], Waiting)
    else match StepOf(events[0])
      case Stop(ending) => ([], ending)
      case Route(frame) =>
        var (rest, ending) := Session(events[1..]);
        ([frame] + rest, ending)
  }

  /** The i-th frame a session routes is what its i-th event parses to. */
  lemma {:induction false} SessionRoutesEvents(events: seq<Event>)
    ensures forall i :: 0 <= i < |Session(events).0| ==> StepOf(events[i]) == Route(Session(events).0[i])
  {
    if events != [] && StepOf(events[0]).Route? {
      var tail := events[1..];
      SessionRoutesEvents(tail);
      var frames := Session(events).0;
      var rest := Session(tail).0;
      assert Session(events) == ([StepOf(events[0]).frame] + rest, Session(tail).1);
      forall i | 1 <= i < |frames|
        ensures StepOf(events[i]) == Route(frames[i])
      {
        assert tail[i - 1] == events[i];
        assert frames[i] == rest[i - 1];
      }
    }
  }

  /**
    A session is still waiting exactly when it routed every event; otherwise
    the event right after the routed ones is the close or malformed frame
    that ended it.
  */
  lemma {:induction false} SessionEnds(events: seq<Event>)
    ensures Session(events).1 == Waiting <==> |Session(events).0| == |events|
    ensures Session(events).1 != Waiting ==>
      |Session(events).0| < |events| && StepOf(events[|Session(events).0|]) == Stop(Session(events).1)
  {
    if events != [] && StepOf(events[0]).Route? {
      var tail := events[1..];
      SessionEnds(tail);
      var n := |Session(tail).0|;
      assert Session(events) == ([StepOf(events[0]).frame] + Session(tail).0, Session(tail).1);
      if Session(tail).1 != Waiting {
        assert events[n + 1] == tail[n];
      }
    }
  }

  /** Events after the one that ends the loop are never read. */
  lemma {:induction false} SessionIgnoresLaterEvents(events: seq<Event>, later: seq<Event>)
    requires Session(events).1 != Waiting
    ensures Session(events + later) == Session(events)
  {
    var all := events + later;
    assert events != [];
    assert all[0] == events[0] && all[1..] == events[1..] + later;
    match StepOf(events[0])
    case Stop(ending) =>
      assert Session(all) == ([], ending);
    case Route(frame) =>
      assert Session(events) == ([frame] + Session(events[1..]).0, Session(events[1..]).1);
      assert Session(all) == ([frame] + Session(all[1..]).0, Session(all[1..]).1);
      SessionIgnoresLaterEvents(events[1..], later);
  }


  /** The ids a sequence of parsed frames is addressed to. */
  function Targets(frames: seq<(int, string)>): set<int> {
    set i | 0 <= i < |frames| :: frames[i].0
  }

  /** The sends of the relayed frames, in order; frames to unconnected targets send nothing. */
  function RelayAll<H>(active: map<int, H>, sender: int, frames: seq<(int, string)>): (r: seq<Send<H>>)
    ensures |r| <= |frames|
    ensures forall i :: 0 <= i < |r| ==>
      r[i].to in active && r[i].handle == active[r[i].to] && r[i].to in Targets(frames)
  {
    if frames == [] then []
    else
      var init := frames[..|frames| - 1];
      var (target, message) := frames[|frames| - 1];
      assert Targets(init) <= Targets(frames) by {
        forall t | t in Targets(init) ensures t in Targets(frames) {
          var i :| 0 <= i < |init| && init[i].0 == t;
          assert frames[i].0 == t;
        }
      }
      assert target == frames[|frames| - 1].0;
      RelayAll(active, sender, init) +
        (match Relayed(active, sender, target, message) case Some(s) => [s] case None => [])
  }

  /** A session addressing only connected clients relays every frame, in order, to its target. */
  lemma {:induction false} RelayAllToPresentTargets<H>(active: map<int, H>, sender: int, frames: seq<(int, string)>)
    requires forall i :: 0 <= i < |frames| ==> frames[i].0 in active
    ensures |RelayAll(active, sender, frames)| == |frames|
    ensures forall i :: 0 <= i < |frames| ==>
      RelayAll(active, sender, frames)[i] == Send(frames[i].0, active[frames[i].0], SaysText(sender, frames[i].1))
  {
    if frames != [] {
      var init := frames[..|frames| - 1];
      var last := frames[|frames| - 1];
      RelayAllToPresentTargets(active, sender, init);
      var sent := Send(last.0, active[last.0], SaysText(sender, last.1));
      assert RelayAll(active, sender, frames) == RelayAll(active, sender, init) + [sent];
      forall i | 0 <= i < |frames|
        ensures RelayAll(active, sender, frames)[i] == Send(frames[i].0, active[frames[i].0], SaysText(sender, frames[i].1))
      {
        if i < |init| {
          assert frames[i] == init[i];
        }
      }
    }
  }

  /** A session addressing only clients that have no handle delivers nothing. */
  lemma {:induction false} RelayAllToAbsentTargets<H>(active: map<int, H>, sender: int, frames: seq<(int, string)>)
    requires forall i :: 0 <= i < |frames| ==> frames[i].0 !in active
    ensures RelayAll(active, sender, frames) == []
  {
    if frames != [] {
      RelayAllToAbsentTargets(active, sender, frames[..|frames| - 1]);
    }
  }

  /** The pairing map after update_chat_pairs(sender, t) for the target t of each frame in turn. */
  function PairAll(pairs: map<int, set<int>>, sender: int, frames: seq<(int, string)>): (r: map<int, set<int>>)
    requires sender in pairs
    ensures r.Keys == pairs.Keys
  {
    if frames == [] then pairs
    else AddPairing(PairAll(pairs, sender, frames[..|frames| - 1]), sender, frames[|frames| - 1].0)
  }

  /** The sender's peer set grows by exactly the targets it addressed. */
  lemma {:induction false} PairAllPeers(pairs: map<int, set<int>>, sender: int, frames: seq<(int, string)>)
    requires sender in pairs
    ensures PairAll(pairs, sender, frames)[sender] == pairs[sender] + Targets(frames)
  {
    if frames != [] {
      var init := frames[..|frames| - 1];
      var last := frames[|frames| - 1];
      PairAllPeers(pairs, sender, init);
      assert Targets(frames) == Targets(init) + {last.0} by {
        forall t | t in Targets(frames) ensures t in Targets(init) + {last.0} {
          var i :| 0 <= i < |frames| && frames[i].0 == t;
          if i < |init| {
            assert init[i].0 == t;
          }
        }
        forall t | t in Targets(init) ensures t in Targets(frames) {
          var i :| 0 <= i < |init| && init[i].0 == t;
          assert frames[i].0 == t;
        }
      }
    }
  }

  /** One step of Session on a suffix of the events. */
  lemma SessionStep(events: seq<Event>, i: nat)
    requires i < |events|
    ensures StepOf(events[i]).Stop? ==> Session(events[i..]) == ([], StepOf(events[i]).ending)
    ensures StepOf(events[i]).Route? ==>
      Session(events[i..]) == ([StepOf(events[i]).frame] + Session(events[i + 1..]).0, Session(events[i + 1..]).1)
  {
    assert events[i..][0] == events[i];
    assert events[i..][1..] == events[i + 1..];
  }

  /** Routing one more frame extends the session's frames by that frame. */
  lemma SessionAdvance(events: seq<Event>, i: nat, done: seq<(int, string)>)
    requires i < |events| && StepOf(events[i]).Route?
    requires Session(events) == (done + Session(events[i..]).0, Session(events[i..]).1)
    ensures Session(events) ==
      ((done + [StepOf(events[i]).frame]) + Session(events[i + 1..]).0, Session(events[i + 1..]).1)
  {
    SessionStep(events, i);
    ShiftFrame(Session(events), Session(events[i..]), Session(events[i + 1..]), done, StepOf(events[i]).frame);
  }

  /** Moving one frame from the unread part of a session to the routed part. */
  lemma ShiftFrame<F, E>(whole: (seq<F>, E), suffix: (seq<F>, E), rest: (seq<F>, E), done: seq<F>, frame: F)
    requires whole == (done + suffix.0, suffix.1)
    requires suffix == ([frame] + rest.0, rest.1)
    ensures whole == ((done + [frame]) + rest.0, rest.1)
  {
    assert done + ([frame] + rest.0) == (done + [frame]) + rest.0;
  }

  /** RelayAll and PairAll take one more frame by one more step. */
  lemma RelayStep<H>(active: map<int, H>, pairs: map<int, set<int>>, sender: int,
                     done: seq<(int, string)>, frame: (int, string))
    requires sender in pairs
    ensures RelayAll(active, sender, done + [frame]) ==
      RelayAll(active, sender, done) +
        (match Relayed(active, sender, frame.0, frame.1) case Some(s) => [s] case None => [])
    ensures PairAll(pairs, sender, done + [frame]) == AddPairing(PairAll(pairs, sender, done), sender, frame.0)
  {
    assert (done + [frame])[..|done|] == done;
  }

  /**
    One pass of the loop body for a registered client: receive_text's result
    is either the close (nothing changes) or a frame handed to RouteFrame.
  */
  method HandleEvent<H>(manager: ConnectionManager<H>, clientId: int, event: Event)
    returns (sent: Option<Send<H>>, step: Step)
    requires manager.Valid() && clientId in manager.chatPairs
    modifies manager
    ensures manager.Valid()
    ensures step == StepOf(event)
    ensures manager.activeConnections == old(manager.activeConnections)
    ensures step.Route? ==>
      && manager.chatPairs == AddPairing(old(manager.chatPairs), clientId, step.frame.0)
      && sent == Relayed(manager.activeConnections, clientId, step.frame.0, step.frame.1)
    ensures step.Stop? ==> manager.chatPairs == old(manager.chatPairs) && sent == None
  {
    match event
    case Closed =>
      sent, step := None, Stop(Disconnected);
    case Received(data) =>
      var r := RouteFrame(manager, clientId, data);
      match r
      case Err(fault) =>
        sent, step := None, Stop(Raised(fault));
      case Ok(s) =>
        sent, step := s, Route(ParseFrame(data).value);
  }

  /**
    The while loop of websocket_endpoint (lines 87-95) for a registered
    client: route frames until a close or an exception. Only the pairing map
    changes, and the sends are the relayed messages of the routed frames.
  */
  method ReadLoop<H>(manager: ConnectionManager<H>, clientId: int, events: seq<Event>)
    returns (sends: seq<Send<H>>, ending: Ending)
    requires manager.Valid() && clientId in manager.activeConnections
    modifies manager
    ensures manager.Valid()
    ensures ending == Session(events).1
    ensures manager.activeConnections == old(manager.activeConnections)
    ensures manager.chatPairs == PairAll(old(manager.chatPairs), clientId, Session(events).0)
    ensures sends == RelayAll(old(manager.activeConnections), clientId, Session(events).0)
  {
    ghost var active := manager.activeConnections;
    ghost var pairs := manager.chatPairs;
    ghost var done: seq<(int, string)> := [];
    sends := [];
    ending := Waiting;
    var i := 0;
    assert events[i..] == events;
    assert done + Session(events).0 == Session(events).0;
    while ending == Waiting && i < |events|
      invariant 0 <= i <= |events|
      invariant manager.Valid()
      invariant manager.activeConnections == active
      invariant clientId in pairs
      invariant manager.chatPairs == PairAll(pairs, clientId, done)
      invariant sends == RelayAll(active, clientId, done)
      invariant ending == Waiting ==>
        Session(events) == (done + Session(events[i..]).0, Session(events[i..]).1)
      invariant ending != Waiting ==> Session(events) == (done, ending)
      decreases |events| - i, if ending == Waiting then 1 else 0
    {
      var sent, step := HandleEvent(manager, clientId, events[i]);
      match step
      case Stop(e) =>
        SessionStep(events, i);
        assert done + [] == done;
        ending := e;
      case Route(frame) =>
        SessionAdvance(events, i, done);
        RelayStep(active, pairs, clientId, done, frame);
        done := done + [frame];
        sends := sends + (match sent case Some(s) => [s] case None => []);
        i := i + 1;
    }
    if ending == Waiting {
      assert events[i..] == [];
      assert done + [] == done;
    }
  }

  /**
    websocket_endpoint for one connection, its events processed in order and
    other connections idle meanwhile: connect, run the read loop, and call
    disconnect on WebSocketDisconnect. A malformed frame ends the endpoint
    with the exception and leaves the client registered. On disconnect the
    client's peers are exactly the targets it addressed, so those of them
    still connected get the departure notice.
  */
  method Endpoint<H>(manager: ConnectionManager<H>, websocket: H, clientId: int, events: seq<Event>)
    returns (sends: seq<Send<H>>, ending: Ending)
    requires manager.Valid()
    modifies manager
    ensures manager.Valid()
    ensures ending == Session(events).1
    ensures
      var frames := Session(events).0;
      var active := old(manager.activeConnections)[clientId := websocket];
      var pairs := PairAll(old(manager.chatPairs)[clientId := {}], clientId, frames);
      var relayed := RelayAll(active, clientId, frames);
      if ending == Disconnected then
        && manager.activeConnections == active - {clientId}
        && manager.chatPairs == pairs - {clientId}
        && |relayed| <= |sends| && sends[..|relayed|] == relayed
        && IsDepartureFanOut(sends[|relayed|..], LeftText(clientId), Targets(frames), active - {clientId})
      else
        && manager.activeConnections == active
        && manager.chatPairs == pairs
        && sends == relayed
  {
    manager.Connect(websocket, clientId);
    ghost var connected := manager.chatPairs;
    sends, ending := ReadLoop(manager, clientId, events);
    if ending == Disconnected {
      PairAllPeers(connected, clientId, Session(events).0);
      var notices := manager.Disconnect(clientId);
      assert (sends + notices)[..|sends|] == sends && (sends + notices)[|sends|..] == notices;
      sends := sends + notices;
    }
  }

  /** The texts of the two-client walk-through, as the model writes and parses them. */
  lemma WalkthroughTexts()
    ensures ParseFrame("2:hi") == Ok((2, "hi"))
    ensures SaysText(1, "hi") == "Client #1 says: hi"
    ensures LeftText(2) == "Client #2 left the chat"
  {
    assert IntToString(1) == "1" && IntToString(2) == "2";
    FrameRoundTrip(2, "hi");
    assert IntToString(2) + ":" + "hi" == "2:hi";
  }

  /**
    The two-client walk-through: 1 and 2 connect; 1 sends "2:hi" and 2 gets
    "Client #1 says: hi"; 2 disconnects and 1 gets "Client #2 left the chat";
    1 sends "2:hi" again and nothing is delivered, with no error.
  */
  method Walkthrough() returns (first: Result<Option<Send<string>>, Fault>, notices: seq<Send<string>>,
                                second: Result<Option<Send<string>>, Fault>)
    ensures first == Ok(Some(Send(2, "socket-2", "Client #1 says: hi")))
    ensures notices == [Send(1, "socket-1", "Client #2 left the chat")]
    ensures second == Ok(None)
  {
    WalkthroughTexts();
    var manager := new ConnectionManager<string>();
    manager.Connect("socket-1", 1);
    manager.Connect("socket-2", 2);
    first := RouteFrame(manager, 1, "2:hi");
    assert manager.chatPairs[2] == {1};
    notices := manager.Disconnect(2);
    FanOutToOne(notices, LeftText(2), 1, manager.activeConnections);
    second := RouteFrame(manager, 1, "2:hi");
  }
}
