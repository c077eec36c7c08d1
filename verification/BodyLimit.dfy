/**
 The request-size middleware of `src/netcorenoc/api/body_limit.py`, over every stream of client messages.
 A stream is what the client has sent so far; a reader that comes to its end waits.
 */
module BodyLimit {
  import opened Wrappers

  datatype Message = Request(size: nat, more: bool) | Disconnect

  /** The body bytes of a stream's messages. */
  function Bytes(stream: seq<Message>): nat {
    if stream == [] then 0
    else
      var last := stream[|stream| - 1];
      Bytes(stream[..|stream| - 1]) + if last.Request? then last.size else 0
  }

  /** A message after which there is no more body to wait for. */
  predicate Final(m: Message) {
    m.Disconnect? || !m.more
  }

  /** A whole request: a final message, and only body messages before it. */
  ghost predicate Complete(stream: seq<Message>) {
    && stream != [] && (stream[|stream| - 1].Disconnect? || !stream[|stream| - 1].more)
    && forall i :: 0 <= i < |stream| - 1 ==> stream[i].Request? && stream[i].more
  }

  datatype Outcome = Refused | Waiting | Called(replay: seq<Message>, rest: seq<Message>)

  ghost predicate TooMuch(client: seq<Message>, limit: nat) {
    exists n :: 0 <= n <= |client| && Bytes(client[..n]) > limit && forall i :: 0 <= i < n - 1 ==> !Final(client[i])
  }

  lemma {:induction false} BytesGrow(a: seq<Message>, b: seq<Message>)
    ensures Bytes(a) <= Bytes(a + b)
  {
    if b == [] {
      assert a + b == a;
    } else {
      assert (a + b)[..|a + b| - 1] == a + b[..|b| - 1];
      BytesGrow(a, b[..|b| - 1]);
    }
  }

  /** The bytes of a stream are those of its messages: a body message's own, and none for a disconnect. */
  lemma {:induction false} BytesTell(a: seq<Message>, b: seq<Message>)
    ensures Bytes(a + b) == Bytes(a) + Bytes(b)
    ensures forall size, more :: Bytes([Request(size, more)]) == size
    ensures Bytes([Disconnect]) == 0
  {
    assert [Disconnect][..0] == [];
    forall size, more
      ensures Bytes([Request(size, more)]) == size
    {
      assert [Request(size, more)][..0] == [];
    }
    if b == [] {
      assert a + b == a;
    } else {
      assert (a + b)[..|a + b| - 1] == a + b[..|b| - 1];
      BytesTell(a, b[..|b| - 1]);
    }
  }

  /** The buffering branch of `__call__`: refused exactly when the declared length or the request's bytes
      exceed the limit; the application called exactly when a whole request within the limit has come,
      and then what it can read is what the client sent. */
  method Buffer(client: seq<Message>, declared: Option<int>, limit: nat) returns (outcome: Outcome)
    ensures outcome == Refused <==> (declared != None && declared.value > limit) || TooMuch(client, limit)
    ensures outcome.Called? ==>
              && outcome.replay + outcome.rest == client
              && Complete(outcome.replay) && Bytes(outcome.replay) <= limit
    ensures outcome == Waiting ==> forall i :: 0 <= i < |client| ==> !Final(client[i])
  {
    if declared != None && declared.value > limit {
      return Refused;
    }
    hide Bytes, TooMuch, Complete;
    NoBytes();
    var messages := [];
    var size := 0;
    while |messages| < |client|
      invariant |messages| <= |client| && messages == client[..|messages|]
      invariant forall i :: 0 <= i < |messages| ==> !Final(client[i])
      invariant size == Bytes(messages) <= limit
      decreases |client| - |messages|
    {
      var message := client[|messages|];
      ghost var before := messages;
      messages := messages + [message];
      assert messages == client[..|messages|];
      OneMessageMore(before, message);
      if message.Disconnect? {
        Whole(client, |messages|, limit);
        return Called(messages, client[|messages|..]);
      }
      size := size + message.size;
      if size > limit {
        Exceeded(client, |messages|, limit);
        return Refused;
      }
      if !message.more {
        Whole(client, |messages|, limit);
        return Called(messages, client[|messages|..]);
      }
    }
    assert messages == client;
    Unfinished(client, limit);
    return Waiting;
  }

  lemma NoBytes()
    ensures Bytes([]) == 0
  {
  }

  lemma OneMessageMore(stream: seq<Message>, m: Message)
    ensures Bytes(stream + [m]) == Bytes(stream) + if m.Request? then m.size else 0
  {
    assert (stream + [m])[..|stream|] == stream;
  }

  lemma Exceeded(client: seq<Message>, n: nat, limit: nat)
    requires 0 < n <= |client| && Bytes(client[..n]) > limit && forall i :: 0 <= i < n - 1 ==> !Final(client[i])
    ensures TooMuch(client, limit)
  {
  }

  lemma Unfinished(client: seq<Message>, limit: nat)
    requires Bytes(client) <= limit
    ensures !TooMuch(client, limit)
  {
    assert client[..|client|] == client;
    Within(client, |client|, limit);
  }

  lemma Within(client: seq<Message>, n: nat, limit: nat)
    requires n <= |client| && Bytes(client[..n]) <= limit
    ensures forall k :: 0 <= k <= n ==> Bytes(client[..k]) <= limit
  {
    forall k | 0 <= k <= n
      ensures Bytes(client[..k]) <= limit
    {
      assert client[..n] == client[..k] + client[k..n];
      BytesGrow(client[..k], client[k..n]);
    }
  }

  /** Once a whole request is in within the limit, nothing later can refuse it. */
  lemma Settled(client: seq<Message>, n: nat, limit: nat)
    requires 0 < n <= |client| && Final(client[n - 1]) && Bytes(client[..n]) <= limit
    ensures !TooMuch(client, limit)
  {
    Within(client, n, limit);
  }

  lemma Whole(client: seq<Message>, n: nat, limit: nat)
    requires 0 < n <= |client| && Final(client[n - 1]) && Bytes(client[..n]) <= limit
    requires forall i :: 0 <= i < n - 1 ==> !Final(client[i])
    ensures !TooMuch(client, limit) && Complete(client[..n]) && client[..n] + client[n..] == client
  {
    Settled(client, n, limit);
  }

  /** `replayed`: what the application's reads return, in order. */
  class Replay {
    var buffered: seq<Message>
    var client: seq<Message>
    ghost var given: seq<Message>

    constructor (replay: seq<Message>, rest: seq<Message>)
      ensures buffered == replay && client == rest && given == []
    {
      buffered, client, given := replay, rest, [];
    }

    /** `next(replay, None) or await receive()`: with everything given before, the stream in order. */
    method Receive() returns (message: Option<Message>)
      modifies this
      ensures message != None ==> given == old(given) + [message.value]
      ensures message == None ==> given == old(given) && old(buffered + client) == []
      ensures given + buffered + client == old(given + buffered + client)
    {
      if buffered != [] {
        message := Some(buffered[0]);
        buffered := buffered[1..];
      } else if client != [] {
        message := Some(client[0]);
        client := client[1..];
      } else {
        return None;
      }
      given := given + [message.value];
    }
  }

  // ---------- the wider routes ----------

  /** `_counted`, over a whole stream: what each read returns. */
  function Counted(client: seq<Message>, limit: nat): (seen: seq<Message>)
    ensures |seen| == |client|
  {
    if client == [] then []
    else
      var m := client[|client| - 1];
      Counted(client[..|client| - 1], limit)
      + [if m.Request? && Bytes(client) > limit then Disconnect else m]
  }

  /** Read by read: a body message that takes the bytes sent so far beyond the ceiling is read as a disconnect,
      and every other message as it is. */
  lemma {:induction false} CountedTells(client: seq<Message>, limit: nat, i: nat)
    requires i < |client|
    ensures Counted(client, limit)[i] ==
            if client[i].Request? && Bytes(client[..i + 1]) > limit then Disconnect else client[i]
  {
    if i == |client| - 1 {
      assert client[..i + 1] == client;
    } else {
      CountedTells(client[..|client| - 1], limit, i);
      assert client[..|client| - 1][..i + 1] == client[..i + 1];
    }
  }

  class Counter {
    const limit: nat
    var size: nat

    constructor (limit: nat)
      ensures this.limit == limit && size == 0
    {
      this.limit := limit;
      size := 0;
    }

    /** One read, after `past` has been read. */
    method Receive(message: Message, ghost past: seq<Message>) returns (seen: Message)
      requires size == Bytes(past)
      modifies this
      ensures size == Bytes(past + [message])
      ensures Counted(past + [message], limit) == Counted(past, limit) + [seen]
    {
      assert (past + [message])[..|past|] == past;
      if message.Request? {
        size := size + message.size;
        if size > limit {
          return Disconnect;
        }
      }
      return message;
    }
  }

  /** On a wider route what is delivered never exceeds the ceiling, each message is the client's own or a
      disconnect, and after the first body message that is cut every later one is. */
  lemma {:induction false} CountedHolds(client: seq<Message>, limit: nat)
    ensures Bytes(Counted(client, limit)) <= limit
    ensures Bytes(client) <= limit ==> Counted(client, limit) == client
    ensures forall i :: 0 <= i < |client| ==>
              Counted(client, limit)[i] == client[i] || Counted(client, limit)[i] == Disconnect
    ensures forall i, j :: 0 <= i <= j < |client| && client[i].Request? && Counted(client, limit)[i] == Disconnect
              ==> Counted(client, limit)[j] == Disconnect
  {
    if client != [] {
      var rest, m := client[..|client| - 1], client[|client| - 1];
      assert client == rest + [m];
      CountedHolds(rest, limit);
      BytesGrow(rest, [m]);
      var seen := Counted(client, limit);
      assert seen[..|seen| - 1] == Counted(rest, limit);
    }
  }
}
