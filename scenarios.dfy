/**
  Scenarios proved from the handler's contract alone: particular streams
  against a fresh cache, and the general repeated question.
 */
module Scenarios {
  import opened Wrappers
  import opened JsString
  import opened BoundedCache
  import opened QuestionHandler

  /**
    "ping" streams "p", "o", "n", "g": the first caller gets four writes in
    that order, the cache then holds "pong", and a second caller is answered
    from the cache without touching the stream.
   */
  method PingTwice() returns (first: seq<Event>, second: seq<Event>)
    ensures first == [WriteHead(200), Pull, Write("p"), Pull, Write("o"),
                      Pull, Write("n"), Pull, Write("g"), Pull, End]
    ensures second == [Send(200, Text("pong"))]
  {
    var lru := new Lru();
    var ping := Upstream(["p", "o", "n", "g"], None);
    first := Handle(lru, "ping", ping);
    PingFacts();
    SetOutcomeKeepsOthers(map[], lru.entries, "ping", "pong");
    second := Handle(lru, "ping", Upstream(["x"], None));
  }

  /** The reply and the stored value for the "ping" stream. */
  lemma PingFacts()
    ensures var ping := Upstream(["p", "o", "n", "g"], None);
            && MissReply(ping) == [WriteHead(200), Pull, Write("p"), Pull, Write("o"),
                                   Pull, Write("n"), Pull, Write("g"), Pull, End]
            && Join(ping.chunks) == "pong"
  {
    var ping := Upstream(["p", "o", "n", "g"], None);
    assert ping.chunks[..Yielded(ping)] == ["p", "o", "n", "g"];
    assert Relay(["p", "o", "n", "g"]) ==
           [Pull, Write("p"), Pull, Write("o"), Pull, Write("n"), Pull, Write("g")] by {
      assert ["p", "o", "n", "g"][..3] == ["p", "o", "n"];
      assert ["p", "o", "n"][..2] == ["p", "o"];
      assert ["p", "o"][..1] == ["p"];
      assert ["p"][..0] == [];
    }
    assert Join(["p", "o", "n", "g"]) == "pong" by {
      assert ["p", "o", "n", "g"][..3] == ["p", "o", "n"];
      assert ["p", "o", "n"][..2] == ["p", "o"];
      assert ["p", "o"][..1] == ["p"];
      assert ["p"][..0] == [];
    }
  }

  /**
    Any completed miss with a non-empty answer is followed by a hit: a
    repeated question is answered from the cache with exactly the text the
    first caller received through the stream, and the stream of the second
    request is never asked for a chunk.
   */
  method AskTwice(lru: Lru, question: string, u1: Upstream, u2: Upstream)
    returns (first: seq<Event>, second: seq<Event>)
    requires lru.Valid() && !Truthy(lru.Get(question))
    requires !Fails(u1) && Join(u1.chunks) != ""
    modifies lru
    ensures first == MissReply(u1)
    ensures second == [Send(200, Text(AnswerText(first)))]
  {
    first := Handle(lru, question, u1);
    SetOutcomeKeepsOthers(old(lru.entries), lru.entries, question, Join(u1.chunks));
    CompletedMissDeliversJoin(u1);
    second := Handle(lru, question, u2);
  }

  /**
    "fail-case" yields "partial" and then throws: the caller has received
    "partial" after the 200 header, then the 500 error body, and nothing is
    cached for the question.
   */
  method FailCase() returns (events: seq<Event>, cached: Option<string>)
    ensures events == [WriteHead(200), Pull, Write("partial"), Pull, Send(500, InternalError)]
    ensures cached == None
  {
    var lru := new Lru();
    var u := Upstream(["partial"], Some(1));
    events := Handle(lru, "fail-case", u);
    assert u.chunks[..Yielded(u)] == ["partial"];
    assert Relay(["partial"]) == [Pull, Write("partial")] by {
      assert ["partial"][..0] == [];
    }
    cached := lru.Get("fail-case");
  }

  /**
    A stream that yields nothing caches the empty answer, which is falsy: the
    next request for the question goes upstream again and overwrites the
    entry with the new answer.
   */
  method EmptyAnswerIsMiss() returns (first: seq<Event>, second: seq<Event>, cached: Option<string>)
    ensures first == [WriteHead(200), Pull, End]
    ensures second == [WriteHead(200), Pull, Write("a"), Pull, End]
    ensures cached == Some("a")
  {
    var lru := new Lru();
    var empty := Upstream([], None);
    first := Handle(lru, "q", empty);
    assert empty.chunks[..Yielded(empty)] == [];
    SetOutcomeKeepsOthers(map[], lru.entries, "q", "");
    assert lru.entries == map["q" := ""];
    var u := Upstream(["a"], None);
    second := Handle(lru, "q", u);
    assert u.chunks[..Yielded(u)] == ["a"];
    assert ["a"][..0] == [];
    assert Relay(["a"]) == [Pull, Write("a")];
    assert Join(["a"]) == "a";
    SetOutcomeKeepsOthers(map["q" := ""], lru.entries, "q", "a");
    cached := lru.Get("q");
  }
}
