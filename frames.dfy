/**
  The application-level text formats of main.py: the inbound frame
  "<target_id>:<message>" that websocket_endpoint splits and parses, the
  relayed text "Client #<sender> says: <message>" and the departure text
  "Client #<id> left the chat" that disconnect sends to peers.
*/
module Frames {
  import opened Wrappers
  import opened Decimal

  /**
    s.split(sep, 1) followed by unpacking into two names: the text before the
    first sep and everything after it, or None where the unpacking raises
    ValueError because sep does not occur.
  */
  function SplitAtFirst(s: string, sep: char): (r: Option<(string, string)>)
    ensures r.None? <==> sep !in s
    ensures r.Some? ==> s == r.value.0 + [sep] + r.value.1 && sep !in r.value.0
  {
    if |s| == 0 then None
    else if s[0] == sep then Some(([], s[1..]))
    else
      match SplitAtFirst(s[1..], sep)
      case None => None
      case Some((head, tail)) => Some(([s[0]] + head, tail))
  }

  /** Splitting head + sep + tail at the first sep gives back head and tail when head holds no sep. */
  lemma {:induction false} SplitAtFirstOfJoin(head: string, sep: char, tail: string)
    requires sep !in head
    ensures SplitAtFirst(head + [sep] + tail, sep) == Some((head, tail))
  {
    var s := head + [sep] + tail;
    if head != [] {
      assert s[0] == head[0] != sep;
      assert s[1..] == head[1..] + [sep] + tail;
      SplitAtFirstOfJoin(head[1..], sep, tail);
      assert [head[0]] + head[1..] == head;
    }
  }

  /** Why a frame fails in the two statements at main.py:90-91; both are ValueError in Python. */
  datatype FrameError =
    | NotEnoughValues        // no ':' in the frame, so the unpacking of the split fails
    | InvalidLiteral(literal: string)   // the text before the first ':' is not an int() literal

  /** Lines 90-91: split at the first ':' and parse the target with int(). */
  function ParseFrame(data: string): (r: Result<(int, string), FrameError>)
    ensures r == Err(NotEnoughValues) <==> ':' !in data
    ensures r.Err? && r.error.InvalidLiteral? ==>
      var k := |r.error.literal|;
      k < |data| && data[..k] == r.error.literal && data[k] == ':' &&
      ':' !in r.error.literal && !IsIntLiteral(r.error.literal)
    ensures r.Ok? ==>
      var k := |data| - |r.value.1| - 1;
      0 <= k && data[k] == ':' && data[k + 1..] == r.value.1 &&
      ':' !in data[..k] && ParseInt(data[..k]) == Some(r.value.0)
  {
    match SplitAtFirst(data, ':')
    case None => Err(NotEnoughValues)
    case Some((head, payload)) =>
      assert data[..|head|] == head && data[|head| + 1..] == payload;
      match ParseInt(head)
      case None => Err(InvalidLiteral(head))
      case Some(target) => Ok((target, payload))
  }

  /**
    Every frame a client can mean is read back as meant: for any integer target
    and any payload, including payloads that contain ':' themselves.
  */
  lemma FrameRoundTrip(target: int, payload: string)
    ensures ParseFrame(IntToString(target) + ":" + payload) == Ok((target, payload))
  {
    var head := IntToString(target);
    assert forall i :: 0 <= i < |head| ==> head[i] != ':';
    SplitAtFirstOfJoin(head, ':', payload);
    ParseIntOfIntToString(target);
  }

  /** A text str() writes holds no space, so the first space after it ends it. */
  lemma IntToStringHasNoSpace(n: int)
    ensures ' ' !in IntToString(n)
  {
    var s := IntToString(n);
    assert forall i :: 0 <= i < |s| ==> s[i] != ' ';
  }

  const ClientPrefix := "Client #"

  /** "Client #<n> <rest>": the shape of every text the server writes to a client. */
  function ClientText(n: int, rest: string): string {
    ClientPrefix + IntToString(n) + [' '] + rest
  }

  /**
    How a reader takes such a text apart: the prefix, then digits that int()
    reads back as n, then one space, then the rest.
  */
  lemma ClientTextShape(n: int, rest: string)
    ensures var r, k := ClientText(n, rest), |ClientPrefix| + |IntToString(n)|;
      && |r| == k + 1 + |rest|
      && r[..|ClientPrefix|] == ClientPrefix
      && ParseInt(r[|ClientPrefix|..k]) == Some(n)
      && r[k] == ' '
      && r[k + 1..] == rest
  {
    ParseIntOfIntToString(n);
    var digits := IntToString(n);
    var r := ClientText(n, rest);
    assert r[|ClientPrefix|..|ClientPrefix| + |digits|] == digits;
  }

  /** A text of that shape determines its id and its rest. */
  lemma ClientTextInjective(n1: int, r1: string, n2: int, r2: string)
    ensures ClientText(n1, r1) == ClientText(n2, r2) ==> n1 == n2 && r1 == r2
  {
    var t1, t2 := ClientText(n1, r1), ClientText(n2, r2);
    assert t1[|ClientPrefix|..] == IntToString(n1) + [' '] + r1;
    assert t2[|ClientPrefix|..] == IntToString(n2) + [' '] + r2;
    IntToStringHasNoSpace(n1);
    IntToStringHasNoSpace(n2);
    SplitAtFirstOfJoin(IntToString(n1), ' ', r1);
    SplitAtFirstOfJoin(IntToString(n2), ' ', r2);
    if t1 == t2 {
      IntToStringInjective(n1, n2);
    }
  }

  /** The text relayed to the target of a frame (line 95): "Client #<sender> says: <message>". */
  function SaysText(sender: int, message: string): string {
    ClientText(sender, "says: " + message)
  }

  /** The text sent to each peer of a departing client (line 47): "Client #<id> left the chat". */
  function LeftText(id: int): string {
    ClientText(id, "left the chat")
  }

  /** A relayed text: the prefix, the sender's id readable back by int(), a space, "says: " and the message. */
  lemma SaysTextShape(sender: int, message: string)
    ensures var r, k := SaysText(sender, message), |ClientPrefix| + |IntToString(sender)|;
      && |r| == k + 7 + |message|
      && r[..|ClientPrefix|] == ClientPrefix
      && ParseInt(r[|ClientPrefix|..k]) == Some(sender)
      && r[k] == ' '
      && r[k + 1..] == "says: " + message
  {
    ClientTextShape(sender, "says: " + message);
  }

  /** A departure text: the prefix, the departing id readable back by int(), a space and "left the chat". */
  lemma LeftTextShape(id: int)
    ensures var r, k := LeftText(id), |ClientPrefix| + |IntToString(id)|;
      && |r| == k + 14
      && r[..|ClientPrefix|] == ClientPrefix
      && ParseInt(r[|ClientPrefix|..k]) == Some(id)
      && r[k] == ' '
      && r[k + 1..] == "left the chat"
  {
    ClientTextShape(id, "left the chat");
  }

  /** A relayed text determines its sender and its message. */
  lemma SaysTextInjective(s1: int, m1: string, s2: int, m2: string)
    requires SaysText(s1, m1) == SaysText(s2, m2)
    ensures s1 == s2 && m1 == m2
  {
    ClientTextInjective(s1, "says: " + m1, s2, "says: " + m2);
    assert m1 == ("says: " + m1)[6..];
    assert m2 == ("says: " + m2)[6..];
  }

  /** A departure text determines who left. */
  lemma LeftTextInjective(i1: int, i2: int)
    requires LeftText(i1) == LeftText(i2)
    ensures i1 == i2
  {
    ClientTextInjective(i1, "left the chat", i2, "left the chat");
  }

  /** No relayed message can be mistaken for a departure notice. */
  lemma SaysTextIsNotLeftText(sender: int, message: string, id: int)
    ensures SaysText(sender, message) != LeftText(id)
  {
    ClientTextInjective(sender, "says: " + message, id, "left the chat");
    assert ("says: " + message)[0] != "left the chat"[0];
  }
}
