/**
  The ConnectionManager of main.py: a registry of live connection handles and
  of the peers each client has chatted with. Handles are opaque (type H); the
  sends the Python code performs are returned as Send records instead.
*/
module Registry {
  import opened Wrappers
  import opened Frames

  /** One intended send_text: to which client id, on which handle, what text. */
  datatype Send<H> = Send(to: int, handle: H, text: string)

  /** The ids a sequence of sends goes to. */
  function Recipients<H>(sends: seq<Send<H>>): set<int> {
    set i | 0 <= i < |sends| :: sends[i].to
  }

  lemma RecipientsAppend<H>(sends: seq<Send<H>>, last: Send<H>)
    ensures Recipients(sends + [last]) == Recipients(sends) + {last.to}
  {
    var longer := sends + [last];
    forall t | t in Recipients(longer)
      ensures t in Recipients(sends) + {last.to}
    {
      var i :| 0 <= i < |longer| && longer[i].to == t;
      if i < |sends| {
        assert sends[i].to == t;
      }
    }
    forall t | t in Recipients(sends)
      ensures t in Recipients(longer)
    {
      var i :| 0 <= i < |sends| && sends[i].to == t;
      assert longer[i].to == t;
    }
    assert longer[|sends|].to == last.to;
  }

  /** No client id receives two of the sends. */
  ghost predicate DistinctRecipients<H>(sends: seq<Send<H>>) {
    forall i, j :: 0 <= i < j < |sends| ==> sends[i].to != sends[j].to
  }

  /** Sends that go to pairwise distinct ids are as many as their recipients. */
  lemma {:induction false} DistinctRecipientsCount<H>(sends: seq<Send<H>>)
    requires DistinctRecipients(sends)
    ensures |Recipients(sends)| == |sends|
  {
    if sends != [] {
      var init := sends[..|sends| - 1];
      var last := sends[|sends| - 1];
      assert DistinctRecipients(init);
      DistinctRecipientsCount(init);
      assert Recipients(sends) == Recipients(init) + {last.to};
      assert last.to !in Recipients(init);
    }
  }

  /**
    The notices disconnect(id) schedules (lines 43-48), given the former peer
    set and the connections left after id's own entry is gone: one notice per
    peer that is still connected, on that peer's handle, saying that id left.
  */
  ghost predicate IsDepartureFanOut<H>(notices: seq<Send<H>>, text: string, peers: set<int>, active: map<int, H>) {
    && DistinctRecipients(notices)
    && Recipients(notices) == peers * active.Keys
    && (forall i :: 0 <= i < |notices| ==>
          notices[i].to in active && notices[i].handle == active[notices[i].to] && notices[i].text == text)
  }

  /** The fan-out reaches exactly the connected peers, once each, and never the departing id. */
  lemma DepartureFanOutReach<H>(notices: seq<Send<H>>, id: int, peers: set<int>, active: map<int, H>)
    requires IsDepartureFanOut(notices, LeftText(id), peers, active)
    requires id !in active
    ensures |notices| == |peers * active.Keys|
    ensures forall p :: p in peers && p in active <==> exists n :: n in notices && n.to == p
    ensures forall n :: n in notices ==> n.to != id
  {
    DistinctRecipientsCount(notices);
    forall n | n in notices
      ensures n.to in Recipients(notices)
    {
      var i :| 0 <= i < |notices| && notices[i] == n;
    }
    forall p | p in peers && p in active
      ensures exists n :: n in notices && n.to == p
    {
      assert p in Recipients(notices);
      var i :| 0 <= i < |notices| && notices[i].to == p;
      assert notices[i] in notices;
    }
  }

  /** A client paired with a single connected peer sends it exactly one notice. */
  lemma FanOutToOne<H>(notices: seq<Send<H>>, text: string, peer: int, active: map<int, H>)
    requires IsDepartureFanOut(notices, text, {peer}, active)
    requires peer in active
    ensures notices == [Send(peer, active[peer], text)]
  {
    DistinctRecipientsCount(notices);
    assert Recipients(notices) == {peer};
    assert notices[0].to in Recipients(notices);
  }

  /** Some element of a nonempty set; which one is left open, as Python's set iteration order is. */
  method Pick<T>(s: set<T>) returns (x: T)
    requires s != {}
    ensures x in s
  {
    x :| x in s;
  }

  /**
    The loop of disconnect (lines 43-48): one notice per peer that still has a
    handle. The peer set is walked in an unspecified order, as a Python set is.
  */
  method DepartureNotices<H>(text: string, peers: set<int>, active: map<int, H>) returns (notices: seq<Send<H>>)
    ensures IsDepartureFanOut(notices, text, peers, active)
  {
    notices := [];
    var pending := peers;
    while pending != {}
      invariant pending <= peers
      invariant DistinctRecipients(notices)
      invariant Recipients(notices) == (peers - pending) * active.Keys
      invariant forall i :: 0 <= i < |notices| ==>
        notices[i].to in active && notices[i].handle == active[notices[i].to] && notices[i].text == text
      decreases pending
    {
      var targetId := Pick(pending);
      if targetId in active {
        var notice := Send(targetId, active[targetId], text);
        assert targetId !in Recipients(notices);
        RecipientsAppend(notices, notice);
        notices := notices + [notice];
      }
      pending := pending - {targetId};
    }
  }

  /**
    update_chat_pairs(a, b) on the pairing map, for a registered a
    (lines 70-72): b joins a's set, and a joins b's set when b has one.
  */
  function AddPairing(pairs: map<int, set<int>>, a: int, b: int): (r: map<int, set<int>>)
    requires a in pairs
    ensures r.Keys == pairs.Keys
    ensures r[a] == pairs[a] + {b}
    ensures b in pairs && b != a ==> r[b] == pairs[b] + {a}
    ensures forall k :: k in pairs && k != a && k != b ==> r[k] == pairs[k]
  {
    var added := pairs[a := pairs[a] + {b}];
    if b in added then added[b := added[b] + {a}] else added
  }

  /** Pairing is recorded in both directions exactly when the target had an entry. */
  lemma AddPairingSymmetry(pairs: map<int, set<int>>, a: int, b: int)
    requires a in pairs
    ensures b in AddPairing(pairs, a, b)[a]
    ensures b in AddPairing(pairs, a, b) <==> b in pairs
    ensures b in pairs ==> a in AddPairing(pairs, a, b)[b]
  {
  }

  /** A repeated update_chat_pairs(a, b) changes nothing. */
  lemma AddPairingIdempotent(pairs: map<int, set<int>>, a: int, b: int)
    requires a in pairs
    ensures AddPairing(AddPairing(pairs, a, b), a, b) == AddPairing(pairs, a, b)
  {
  }

  class ConnectionManager<H> {
    /** client id -> live handle (main.py:19) */
    var activeConnections: map<int, H>
    /** client id -> ids it has chatted with (main.py:21) */
    var chatPairs: map<int, set<int>>

    /** Every registered client has a peer set and every peer set belongs to a registered client. */
    ghost predicate Valid()
      reads this
    {
      activeConnections.Keys == chatPairs.Keys
    }

    /** __init__: both maps empty. */
    constructor ()
      ensures Valid()
      ensures activeConnections == map[] && chatPairs == map[]
    {
      activeConnections := map[];
      chatPairs := map[];
    }

    /**
      connect without the accept(): the handle replaces any earlier one for
      clientId and the peer set starts empty again.
    */
    method Connect(websocket: H, clientId: int)
      requires Valid()
      modifies this
      ensures Valid()
      ensures activeConnections == old(activeConnections)[clientId := websocket]
      ensures chatPairs == old(chatPairs)[clientId := {}]
    {
      activeConnections := activeConnections[clientId := websocket];
      chatPairs := chatPairs[clientId := {}];
    }

    /**
      disconnect: when clientId is registered, drop its handle, schedule one
      departure notice for each former peer that is still connected, and drop
      its peer set; the peers' own sets are left as they are. An unregistered
      clientId is a no-op.
    */
    method Disconnect(clientId: int) returns (notices: seq<Send<H>>)
      requires Valid()
      modifies this
      ensures Valid()
      ensures activeConnections == old(activeConnections) - {clientId}
      ensures chatPairs == old(chatPairs) - {clientId}
      ensures clientId !in old(activeConnections) ==> notices == []
      ensures clientId in old(activeConnections) ==>
        IsDepartureFanOut(notices, LeftText(clientId), old(chatPairs)[clientId], activeConnections)
    {
      notices := [];
      if clientId in activeConnections {
        activeConnections := activeConnections - {clientId};
        var peers := if clientId in chatPairs then chatPairs[clientId] else {};
        notices := DepartureNotices(LeftText(clientId), peers, activeConnections);
        chatPairs := chatPairs - {clientId};
      }
    }

    /**
      send_personal_message: exactly one send of message on clientId's handle
      when it has one, and none otherwise; the registry is only read.
    */
    method SendPersonalMessage(message: string, clientId: int) returns (sent: Option<Send<H>>)
      ensures sent.None? <==> clientId !in activeConnections
      ensures sent.Some? ==> sent.value == Send(clientId, activeConnections[clientId], message)
    {
      if clientId in activeConnections {
        sent := Some(Send(clientId, activeConnections[clientId], message));
      } else {
        sent := None;
      }
    }

    /**
      update_chat_pairs: found is false where Python raises KeyError because
      clientId has no peer set, and then nothing has changed.
    */
    method UpdateChatPairs(clientId: int, targetId: int) returns (found: bool)
      requires Valid()
      modifies this
      ensures Valid()
      ensures found <==> clientId in old(chatPairs)
      ensures activeConnections == old(activeConnections)
      ensures chatPairs == if found then AddPairing(old(chatPairs), clientId, targetId) else old(chatPairs)
    {
      found := clientId in chatPairs;
      if found {
        chatPairs := chatPairs[clientId := chatPairs[clientId] + {targetId}];
        if targetId in chatPairs {
          chatPairs := chatPairs[targetId := chatPairs[targetId] + {clientId}];
        }
      }
    }
  }
}
