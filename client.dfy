/**
 The per-connection session (internal/client.go): the message record, the
 session's identity, the keepalive constants, the broker listener and the
 inbound reader. The outbound writer is in module ClientWriter.

 A session's connection, its broker handle and its Hub back-pointer are not
 state of this model: the reader and the listener are modelled as loops over
 the sequence of things they receive, returning what they hand on.
 */
module ChatClient {
  import Decimal

  /** A user id (`int64` in the source; the model does no arithmetic on it). */
  type UserId = int

  /** The wire and Hub message: `{"from": .., "to": .., "Content": ..}`. */
  datatype Message = Message(From: UserId, To: UserId, Content: string)

  datatype Option<T> = None | Some(value: T)

  /**
   One session. Object identity stands for the Go `*Client` pointer; the Hub
   keeps the state of the session's outbound queue (open or closed).
   */
  class Client {
    const userId: UserId

    constructor (userId: UserId)
      ensures this.userId == userId
    {
      this.userId := userId;
    }
  }

  // ---------------------------------------------------------------------------
  // Keepalive constants, as `time.Duration` values (nanoseconds).

  const Second: int := 1_000_000_000
  /** Time allowed to write a message to the peer. */
  const WriteWait: int := 10 * Second
  /** Time allowed to read the next pong from the peer. */
  const PongWait: int := 60 * Second
  /** Ping period: nine tenths of the pong wait. */
  const PingPeriod: int := (PongWait * 9) / 10
  /** Largest inbound frame the reader accepts, in bytes. */
  const MaxMessageSize: nat := 512

  /** The ping period is 54 s and strictly shorter than the 60 s pong wait. */
  lemma PingPeriodBeforePongWait()
    ensures PingPeriod == 54 * Second
    ensures 0 < PingPeriod < PongWait
  {
  }

  // ---------------------------------------------------------------------------
  // Broker listener (SubscribeToRedis).

  /** The broker topic a session subscribes to: "user_" and the decimal user id. */
  function Topic(userId: UserId): (topic: string)
    ensures |topic| > 5 && topic[..5] == "user_"
    ensures Decimal.IsCanonicalDecimal(topic[5..]) && Decimal.ParseInt(topic[5..]) == userId
  {
    Decimal.IntStringRoundTrip(userId);
    assert ("user_" + Decimal.IntString(userId))[5..] == Decimal.IntString(userId);
    "user_" + Decimal.IntString(userId)
  }

  /** Two sessions share a topic only when they belong to the same user. */
  lemma TopicInjective(a: UserId, b: UserId)
    requires Topic(a) == Topic(b)
    ensures a == b
  {
    assert Topic(a)[5..] == Decimal.IntString(a);
    assert Topic(b)[5..] == Decimal.IntString(b);
    Decimal.IntStringInjective(a, b);
  }

  /**
   The topic is pinned down by its contract: any "user_" string whose
   suffix is a canonical decimal denoting the user id is that topic, byte for
   byte, so the listener subscribes to exactly `fmt.Sprintf("user_%d", id)`.
   */
  lemma TopicIsUnique(userId: UserId, t: string)
    requires |t| > 5 && t[..5] == "user_"
    requires Decimal.IsCanonicalDecimal(t[5..]) && Decimal.ParseInt(t[5..]) == userId
    ensures t == Topic(userId)
  {
    Decimal.CanonicalIsPrinted(t[5..]);
    var topic := Topic(userId);
    assert t == t[..5] + t[5..] && topic == topic[..5] + topic[5..];
    Decimal.CanonicalIsPrinted(topic[5..]);
  }

  /**
   The message the listener synthesises from a broker payload: sender and
   recipient are both the session's own user.
   */
  function BrokerMessage(userId: UserId, payload: string): (m: Message)
    ensures m.From == userId && m.To == userId
    ensures m.Content == payload
  {
    Message(userId, userId, payload)
  }

  /**
   The listener loop: subscribes to the session's topic and, for every payload
   the broker delivers, submits one message to the Hub's route input.
   `payloads` is what the broker delivered before the subscription ended;
   `submitted` is what was sent to the Hub, in order.
   */
  method SubscribeToRedis(c: Client, payloads: seq<string>) returns (topic: string, submitted: seq<Message>)
    ensures topic == Topic(c.userId)
    ensures |submitted| == |payloads|
    ensures forall i :: 0 <= i < |payloads| ==>
              submitted[i].From == c.userId && submitted[i].To == c.userId && submitted[i].Content == payloads[i]
  {
    topic := "user_" + Decimal.IntString(c.userId);
    submitted := [];
    for i := 0 to |payloads|
      invariant |submitted| == i
      invariant forall j :: 0 <= j < i ==> submitted[j] == BrokerMessage(c.userId, payloads[j])
    {
      var message := Message(c.userId, c.userId, payloads[i]);
      submitted := submitted + [message];
    }
  }

  // ---------------------------------------------------------------------------
  // Inbound reader (readPump).

  /**
   One result of `ReadJSON`: a frame of `size` bytes that decoded to a message
   or did not, or a connection error (closure, deadline expiry).
   */
  datatype ReadResult = Frame(size: nat, decoded: Option<Message>) | ConnectionError

  /** What the reader does, in order. */
  datatype ReaderEffect =
    | Forward(msg: Message)          // `hub.broadcast <- &msg`
    | CloseConnection                // deferred `conn.Close()`
    | SendUnregister(client: Client) // deferred `hub.unregister <- c`

  /** A read the reader accepts: within the read limit and decoded. */
  predicate Accepted(r: ReadResult) {
    r.Frame? && r.size <= MaxMessageSize && r.decoded.Some?
  }

  /** Number of leading results the reader accepts. */
  function AcceptedPrefix(results: seq<ReadResult>): (k: nat)
    ensures k <= |results|
    ensures forall i :: 0 <= i < k ==> Accepted(results[i])
    ensures k < |results| ==> !Accepted(results[k])
  {
    if results == [] || !Accepted(results[0]) then 0 else 1 + AcceptedPrefix(results[1..])
  }

  /**
   The reader's effects for a sequence of results: each accepted message is
   forwarded to the Hub unchanged (its `From` is not compared with the
   session's user); the first rejected read ends the loop, after which the
   connection is closed and the session sent to unregister, once.
   */
  function ReaderSpec(c: Client, results: seq<ReadResult>): (effects: seq<ReaderEffect>)
    ensures var k := AcceptedPrefix(results);
      && |effects| == (if k < |results| then k + 2 else k)
      && (forall i :: 0 <= i < k ==> effects[i] == Forward(results[i].decoded.value))
      && (k < |results| ==> effects[k] == CloseConnection && effects[k + 1] == SendUnregister(c))
  {
    if results == [] then []
    else if !Accepted(results[0]) then [CloseConnection, SendUnregister(c)]
    else [Forward(results[0].decoded.value)] + ReaderSpec(c, results[1..])
  }

  /** The reader loop over the results the connection delivers. */
  method ReadPump(c: Client, results: seq<ReadResult>) returns (effects: seq<ReaderEffect>)
    ensures effects == ReaderSpec(c, results)
  {
    effects := [];
    var i := 0;
    while i < |results|
      invariant 0 <= i <= |results|
      invariant forall j :: 0 <= j < i ==> Accepted(results[j])
      invariant |effects| == i
      invariant forall j :: 0 <= j < i ==> effects[j] == Forward(results[j].decoded.value)
    {
      var r := results[i];
      if !Accepted(r) {
        effects := effects + [CloseConnection, SendUnregister(c)];
        assert AcceptedPrefix(results) == i;
        return;
      }
      effects := effects + [Forward(r.decoded.value)];
      i := i + 1;
    }
    assert AcceptedPrefix(results) == i;
  }

  /** Number of unregister requests among the reader's effects. */
  function Unregisters(effects: seq<ReaderEffect>): nat {
    if effects == [] then 0
    else (if effects[0].SendUnregister? then 1 else 0) + Unregisters(effects[1..])
  }

  /**
   Whatever ends the reader, the session is sent to unregister exactly once,
   as the last effect, right after the connection is closed; while every
   read is accepted, nothing is sent to unregister.
   */
  lemma {:induction false} ReaderUnregistersOnce(c: Client, results: seq<ReadResult>)
    ensures var effects := ReaderSpec(c, results);
      && Unregisters(effects) == (if AcceptedPrefix(results) < |results| then 1 else 0)
      && (Unregisters(effects) == 1 ==>
            |effects| >= 2 && effects[|effects| - 1] == SendUnregister(c) && effects[|effects| - 2] == CloseConnection)
  {
    if results != [] && Accepted(results[0]) {
      ReaderUnregistersOnce(c, results[1..]);
      var rest := ReaderSpec(c, results[1..]);
      assert ReaderSpec(c, results) == [Forward(results[0].decoded.value)] + rest;
      assert ([Forward(results[0].decoded.value)] + rest)[1..] == rest;
    } else if results != [] {
      var effects := ReaderSpec(c, results);
      assert effects[1..] == [SendUnregister(c)];
      assert effects[1..][1..] == [];
      assert Unregisters(effects[1..]) == 1;
    }
  }
}
