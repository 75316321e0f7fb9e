/**
  The `POST /question` handler: a cache-aside lookup that, on a miss,
  streams the upstream completion to the caller chunk by chunk and caches the
  joined answer once the stream has finished.
 */
module QuestionHandler {
  import opened Wrappers
  import opened JsString
  import opened BoundedCache

  /** A response body: plain text, or the object Fastify serialises as JSON. */
  datatype Body = Text(text: string) | Json(message: string)

  /** What the handler does to the upstream stream and to the response, in order. */
  datatype Event =
    | Pull                            // one next() of the `for await` loop on the stream
    | WriteHead(status: nat)          // reply.raw.writeHead(status, ...)
    | Write(chunk: string)            // reply.raw.write(chunk)
    | End                             // reply.raw.end()
    | Send(status: nat, body: Body)   // reply.status(status).send(body)

  const InternalError: Body := Json("Internal Server Error")

  /**
    What `prompt(question)` produces: the chunks it yields in order, and
    optionally the index of the `next()` call that throws instead of
    yielding (0 when the completion request itself fails).
   */
  datatype Upstream = Upstream(chunks: seq<string>, failAt: Option<nat>)

  /** The outcome of one `next()` on the stream. */
  datatype Step = Yield(chunk: string) | Done | Throw

  /** The `i`-th `next()` of the stream, after `i` chunks have been yielded. */
  function Next(u: Upstream, i: nat): Step
  {
    if u.failAt == Some(i) then Throw
    else if i < |u.chunks| then Yield(u.chunks[i])
    else Done
  }

  /** The stream throws before it finishes. */
  predicate Fails(u: Upstream)
  {
    u.failAt.Some? && u.failAt.value <= |u.chunks|
  }

  /** How many chunks the stream yields before it finishes or throws. */
  function Yielded(u: Upstream): nat
  {
    if Fails(u) then u.failAt.value else |u.chunks|
  }

  /** The stream yields its chunks in order and then stops as `Fails` says. */
  lemma NextInOrder(u: Upstream, i: nat)
    requires i <= Yielded(u)
    ensures Yielded(u) <= |u.chunks|
    ensures i < Yielded(u) ==> Next(u, i) == Yield(u.chunks[i])
    ensures i == Yielded(u) ==> Next(u, i) == if Fails(u) then Throw else Done
  {
  }

  /** `if (cached)`: a missing entry and the empty string are both falsy. */
  predicate Truthy(cached: Option<string>)
  {
    cached.Some? && cached.value != ""
  }

  /** For each chunk in order: the `next()` that yields it, then its `Write`. */
  function Relay(chunks: seq<string>): seq<Event>
  {
    if chunks == [] then []
    else Relay(chunks[..|chunks| - 1]) + [Pull, Write(chunks[|chunks| - 1])]
  }

  /** How a miss closes the response: `end()`, or the 500 body after a throw. */
  function Closing(u: Upstream): Event
  {
    if Fails(u) then Send(500, InternalError) else End
  }

  /**
    The events of a miss for stream `u`: the header, the relayed chunks, the
    final `next()` that ends or throws, then the closing call.
   */
  function MissReply(u: Upstream): seq<Event>
  {
    [WriteHead(200)] + Relay(u.chunks[..Yielded(u)]) + [Pull, Closing(u)]
  }

  /** The answer text one event carries: a written chunk or a text body. */
  function Payload(e: Event): string
  {
    match e
    case Write(c) => c
    case Send(_, Text(t)) => t
    case _ => ""
  }

  /** The payload of each event, in order. */
  function Payloads(events: seq<Event>): seq<string>
  {
    seq(|events|, i requires 0 <= i < |events| => Payload(events[i]))
  }

  /** The answer text the caller receives, over all events in order. */
  function AnswerText(events: seq<Event>): string
  {
    Join(Payloads(events))
  }

  lemma {:induction false} RelayLength(chunks: seq<string>)
    ensures |Relay(chunks)| == 2 * |chunks|
    decreases |chunks|
  {
    if chunks != [] {
      RelayLength(chunks[..|chunks| - 1]);
    }
  }

  lemma {:induction false} RelayAt(chunks: seq<string>, i: nat)
    requires i < |chunks|
    ensures |Relay(chunks)| == 2 * |chunks|
    ensures Relay(chunks)[2 * i] == Pull
    ensures Relay(chunks)[2 * i + 1] == Write(chunks[i])
    decreases |chunks|
  {
    var front := chunks[..|chunks| - 1];
    RelayLength(chunks);
    RelayLength(front);
    if i < |front| {
      RelayAt(front, i);
    }
  }

  lemma AnswerTextAppend(a: seq<Event>, b: seq<Event>)
    ensures AnswerText(a + b) == AnswerText(a) + AnswerText(b)
  {
    assert Payloads(a + b) == Payloads(a) + Payloads(b);
    JoinAppend(Payloads(a), Payloads(b));
  }

  /** Two events carry their payloads in order. */
  lemma AnswerTextPair(e: Event, f: Event)
    ensures AnswerText([e, f]) == Payload(e) + Payload(f)
  {
    var ps := Payloads([e, f]);
    assert ps == [Payload(e), Payload(f)];
    assert ps[..1] == [Payload(e)] && ps[..1][..0] == [];
    assert Join(ps[..1]) == "" + Payload(e) == Payload(e);
    assert Join(ps) == Join(ps[..1]) + Payload(f);
  }

  /** The text delivered by the relayed chunks is the joined chunks. */
  lemma {:induction false} RelayDeliversJoin(chunks: seq<string>)
    ensures AnswerText(Relay(chunks)) == Join(chunks)
    decreases |chunks|
  {
    if chunks != [] {
      var front := chunks[..|chunks| - 1];
      var c := chunks[|chunks| - 1];
      RelayDeliversJoin(front);
      AnswerTextAppend(Relay(front), [Pull, Write(c)]);
      AnswerTextPair(Pull, Write(c));
    }
  }

  /**
    A miss answers with one 200 header, then for each yielded chunk in the
    order the stream yields it a `next()` followed by its write, then the last
    `next()`, then `end()` or, when that `next()` throws, the 500 error body.
   */
  lemma MissReplyInOrder(u: Upstream)
    ensures var r := MissReply(u);
            var n := Yielded(u);
            && |r| == 2 * n + 3
            && r[0] == WriteHead(200)
            && (forall i :: 0 <= i < n ==> r[2 * i + 1] == Pull && r[2 * i + 2] == Write(u.chunks[i]))
            && r[2 * n + 1] == Pull
            && r[2 * n + 2] == if Fails(u) then Send(500, InternalError) else End
  {
    var ys := u.chunks[..Yielded(u)];
    RelayLength(ys);
    forall i | 0 <= i < Yielded(u)
      ensures MissReply(u)[2 * i + 1] == Pull && MissReply(u)[2 * i + 2] == Write(u.chunks[i])
    {
      RelayAt(ys, i);
    }
  }

  /** A miss delivers the text of the chunks yielded before the stream stopped. */
  lemma MissReplyText(u: Upstream)
    ensures AnswerText(MissReply(u)) == Join(u.chunks[..Yielded(u)])
  {
    var ys := u.chunks[..Yielded(u)];
    AnswerTextAppend([WriteHead(200)] + Relay(ys), [Pull, Closing(u)]);
    AnswerTextPair(Pull, Closing(u));
    AnswerTextAppend([WriteHead(200)], Relay(ys));
    assert [WriteHead(200)][..0] == [];
    RelayDeliversJoin(ys);
  }

  /** A completed miss delivers exactly the joined chunks to the caller. */
  lemma CompletedMissDeliversJoin(u: Upstream)
    requires !Fails(u)
    ensures AnswerText(MissReply(u)) == Join(u.chunks)
  {
    MissReplyText(u);
    assert u.chunks[..Yielded(u)] == u.chunks;
  }

  /**
    A failed miss has delivered the chunks yielded before the failure (they
    are not retracted) and ends with the 500 error body after the 200 header.
   */
  lemma FailedMissDeliversPrefix(u: Upstream)
    requires Fails(u)
    ensures AnswerText(MissReply(u)) == Join(u.chunks[..u.failAt.value])
    ensures MissReply(u)[0] == WriteHead(200)
    ensures MissReply(u)[|MissReply(u)| - 1] == Send(500, InternalError)
  {
    MissReplyText(u);
  }

  /**
    The `try` block up to the cache fill: write the 200 header, drive the
    stream, write and record each chunk, then `end()` the response. Returns
    the events so far, the recorded chunks and whether the stream threw
    (which skips `end()`).
   */
  method StreamToCaller(upstream: Upstream) returns (events: seq<Event>, chunks: seq<string>, failed: bool)
    ensures failed == Fails(upstream)
    ensures chunks == upstream.chunks[..Yielded(upstream)]
    ensures events == [WriteHead(200)] + Relay(chunks) + [Pull] + (if failed then [] else [End])
  {
    chunks := [];
    events := [WriteHead(200), Pull];
    var step := Next(upstream, 0);
    NextInOrder(upstream, 0);
    while step.Yield?
      invariant |chunks| <= Yielded(upstream) <= |upstream.chunks|
      invariant chunks == upstream.chunks[..|chunks|]
      invariant events == [WriteHead(200)] + Relay(chunks) + [Pull]
      invariant step == Next(upstream, |chunks|)
      decreases Yielded(upstream) - |chunks|
    {
      NextInOrder(upstream, |chunks|);
      chunks := chunks + [step.chunk];
      events := events + [Write(step.chunk)];
      assert chunks[..|chunks| - 1] + [chunks[|chunks| - 1]] == chunks;
      step := Next(upstream, |chunks|);
      events := events + [Pull];
    }
    NextInOrder(upstream, |chunks|);
    failed := step.Throw?;
    if !failed {
      events := events + [End];
    }
  }

  /**
    `app.post('/question', ...)` for `question`, with `upstream` standing for
    the stream `prompt(question)` produces. Returns everything the handler
    does to the stream and to the response, in order.
   */
  method Handle(lru: Lru, question: string, upstream: Upstream) returns (events: seq<Event>)
    requires lru.Valid()
    modifies lru
    ensures lru.Valid()
    ensures Truthy(old(lru.Get(question))) ==>
              && events == [Send(200, Text(old(lru.entries)[question]))]
              && lru.entries == old(lru.entries)
    ensures !Truthy(old(lru.Get(question))) ==> events == MissReply(upstream)
    ensures !Truthy(old(lru.Get(question))) && Fails(upstream) ==>
              lru.entries == old(lru.entries)
    ensures !Truthy(old(lru.Get(question))) && !Fails(upstream) ==>
              SetOutcome(old(lru.entries), lru.entries, question, Join(upstream.chunks))
  {
    var cached := lru.Get(question);
    if Truthy(cached) {
      return [Send(200, Text(cached.value))];
    }

    var chunks, failed;
    events, chunks, failed := StreamToCaller(upstream);
    if failed {
      events := events + [Send(500, InternalError)];
      return;
    }
    assert chunks == upstream.chunks;

    var fullText := Join(chunks);
    var _ := lru.Set(question, fullText);
  }
}
