/**
 The one frame of a handoff (crates/adapters/src/handoff.rs, `frame` and
 `read_line`): a JSON line of limited length that carries the request whole, and
 the activation token if it fits.
 */
module Frames {
  import opened Text
  import opened Wrappers

  const LIMIT: nat := 65536
  const TOKEN_LIMIT: nat := 4096

  datatype Message<R> = Message(request: R, token: Option<Bytes>)

  /** The JSON library: what it writes has no line break, and it reads back what it wrote. */
  datatype Codec<!R> = Codec(encode: Message<R> -> Bytes, decode: Bytes -> Option<Message<R>>)

  ghost predicate Faithful<R(!new)>(c: Codec<R>) {
    forall m :: c.decode(c.encode(m)) == Some(m) && '\n' !in c.encode(m)
  }

  predicate Admissible(token: Bytes) {
    token != [] && |token| <= TOKEN_LIMIT && (0 as char) !in token
  }

  function Admitted(token: Option<Bytes>): Option<Bytes> {
    if token.Some? && Admissible(token.value) then token else None
  }

  /** A token goes along if it is neither empty nor too long and no byte of it is zero. */
  lemma {:induction false} AdmittedExactly(token: Bytes)
    ensures Admitted(None) == None
    ensures Admitted(Some(token)) ==
      if 1 <= |token| <= 4096 && forall k :: 0 <= k < |token| ==> token[k] as int != 0 then Some(token) else None
  {
    if i :| 0 <= i < |token| && token[i] as int == 0 {
      assert (0 as char) in token;
    }
  }

  function Line<R>(c: Codec<R>, m: Message<R>): Bytes {
    c.encode(m) + ['\n']
  }

  predicate Fits<R>(c: Codec<R>, m: Message<R>) {
    |Line(c, m)| <= LIMIT
  }

  /**
   The request is never cut: the token is dropped where both do not fit, and the frame fails where the
   request does not.
   */
  method Frame<R>(c: Codec<R>, request: R, token: Option<Bytes>) returns (frame: Option<Bytes>, ghost sent: Message<R>)
    ensures frame.Some? ==> frame.value == c.encode(sent) + ['\n'] && sent.request == request && |frame.value| <= 65536
    ensures sent.token == if Fits(c, Message(request, Admitted(token))) then Admitted(token) else None
    ensures frame.None? <==> !Fits(c, Message(request, Admitted(token))) && !Fits(c, Message(request, None))
  {
    var message := Message(request, Admitted(token));
    while true
      invariant message == Message(request, Admitted(token))
        || (message == Message(request, None) && !Fits(c, Message(request, Admitted(token))))
      decreases message.token.Some?
    {
      var bytes := c.encode(message) + ['\n'];
      if |bytes| <= LIMIT {
        return Some(bytes), message;
      }
      if message.token.None? {
        return None, message;
      }
      message := message.(token := None);
    }
  }

  /** The first line among the first `LIMIT` bytes of a stream, or an error where it does not end there. */
  method ReadLine(stream: Bytes) returns (line: Option<Bytes>)
    ensures line.Some? ==> IsLine(line.value) && line.value <= stream && |line.value| <= 65536
    ensures line.None? <==> forall k :: 0 <= k < |stream| && k < 65536 ==> stream[k] != '\n'
  {
    var n := 0;
    while n < |Taken(stream)|
      invariant n <= |Taken(stream)| && '\n' !in stream[..n]
    {
      if stream[n] == '\n' {
        assert stream[..n + 1][..n] == stream[..n];
        return Some(stream[..n + 1]);
      }
      n := n + 1;
    }
    return None;
  }

  predicate IsLine(line: Bytes) {
    line != [] && line[|line| - 1] == '\n' && '\n' !in line[..|line| - 1]
  }

  function Taken(stream: Bytes): (t: Bytes)
    ensures t <= stream
  {
    if |stream| <= LIMIT then stream else stream[..LIMIT]
  }

  /** Whatever follows it on the stream, the frame is read whole and gives the message. */
  method Exchange<R(
      !new)>(c: Codec<R>, request: R, token: Option<Bytes>, rest: Bytes) returns (received: Option<Message<R>>)
    requires Faithful(c)
    ensures received.Some? ==> received.value.request == request
    ensures received.Some? ==> received.value.token == None || received.value.token == Admitted(token)
    ensures received.Some? <==> Fits(c, Message(request, Admitted(token))) || Fits(c, Message(request, None))
    ensures Fits(c, Message(request, Admitted(token))) ==> received == Some(Message(request, Admitted(token)))
  {
    var frame, sent := Frame(c, request, token);
    if frame.None? {
      return None;
    }
    ghost var body := c.encode(sent);
    var stream := frame.value + rest;
    assert Taken(stream)[|body|] == '\n';
    var line := ReadLine(stream);
    LineIsFrame(body, rest, line.value);
    var text := line.value[..|line.value| - 1];
    received := c.decode(text);
  }

  lemma {:induction false} LineIsFrame(body: Bytes, rest: Bytes, line: Bytes)
    requires '\n' !in body && IsLine(line) && line <= body + ['\n'] + rest
    ensures line[..|line| - 1] == body
  {
    var stream := body + ['\n'] + rest;
    forall k | 0 <= k < |body| ensures stream[k] != '\n' {
      assert body[k] in body;
    }
    forall k | 0 <= k < |line| - 1 ensures stream[k] != '\n' {
      assert line[..|line| - 1][k] in line[..|line| - 1];
    }
    assert stream[|body|] == '\n' && stream[|line| - 1] == '\n';
  }
}
