/** The whole pipeline: the syllabus walk driving the real per-subtopic
    step, with only the chat model and the classifier left as parameters. */
module Pipeline {
  import opened JsonValues
  import opened QuestionGenerator
  import opened Topics

  /** The generator the walk calls: `generate_question_bank` over the given
      chat model and classifier. */
  function Generator(llm: Request -> LlmReply, classify: Json -> ClassifierReply): (gen: Request -> GenOutcome)
    // a call raises exactly when the chat model raises or a reply record is not an object
    ensures forall req :: gen(req).Raised? <==>
              || llm(req).LlmRaised?
              || !AllObjects(Normalise(llm(req).decoded))
  {
    (req: Request) => GenerateQuestionBank(req.topic, req.subtopic, req.count, llm, classify).outcome
  }

  /** The step raises exactly when the chat model raises or its reply
      normalises to a record that is not an object; otherwise it returns
      `{"questions": ...}` with one enriched record per reply record. */
  lemma GeneratorOutcome(llm: Request -> LlmReply, classify: Json -> ClassifierReply, req: Request)
    ensures Generator(llm, classify)(req).Raised? <==>
              || llm(req).LlmRaised?
              || !AllObjects(Normalise(llm(req).decoded))
    ensures Generator(llm, classify)(req).Returned? ==>
              && ShapedResult(Generator(llm, classify)(req).value)
              && Questions(Generator(llm, classify)(req).value)
                 == Enrich(Normalise(llm(req).decoded), classify)
  {
    var s := GenerateQuestionBank(req.topic, req.subtopic, req.count, llm, classify);
    assert Request(req.topic, req.subtopic, req.count) == req;
    if llm(req).Content? {
      var records := Normalise(llm(req).decoded);
      var k := FirstNonObject(records);
      assert k < |records| <==> !AllObjects(records);
    }
  }

  /** The real step always satisfies what the walk asks of its generator,
      so the walk over it needs no assumption about the services. */
  lemma {:induction false} GeneratorShaped(reqs: seq<Request>, llm: Request -> LlmReply,
                                           classify: Json -> ClassifierReply)
    ensures Shaped(reqs, Generator(llm, classify))
  {
    var gen := Generator(llm, classify);
    forall i | 0 <= i < FirstRaise(reqs, gen)
      ensures ShapedResult(gen(reqs[i]).value)
    {
      GeneratorOutcome(llm, classify, reqs[i]);
    }
  }

  /** The records the chat model's replies normalise to, call after call:
      what the walk would aggregate without enrichment. */
  function Replied(reqs: seq<Request>, llm: Request -> LlmReply): seq<Json>
  {
    if |reqs| == 0 then []
    else
      var last := llm(reqs[|reqs| - 1]);
      Replied(reqs[..|reqs| - 1], llm) + (if last.Content? then Normalise(last.decoded) else [])
  }

  /** A finished walk over the real step aggregates exactly the replies'
      records, in order, none dropped: each one with only its Bloom level
      set, to the classifier's answer for that record's own question. */
  lemma {:induction false} AggregateEnriched(reqs: seq<Request>, llm: Request -> LlmReply,
                                             classify: Json -> ClassifierReply)
    requires Clean(reqs, Generator(llm, classify))
    ensures |Gathered(reqs, Generator(llm, classify))| == |Replied(reqs, llm)|
    ensures forall m :: 0 <= m < |Replied(reqs, llm)| ==>
              && Replied(reqs, llm)[m].JObject?
              && EnrichedWith(Gathered(reqs, Generator(llm, classify))[m], Replied(reqs, llm)[m],
                              BloomLevel(classify(Payload(Replied(reqs, llm)[m].fields))))
    decreases |reqs|
  {
    if |reqs| > 0 {
      var gen := Generator(llm, classify);
      var init := reqs[..|reqs| - 1];
      var last := reqs[|reqs| - 1];
      assert Clean(init, gen) by {
        forall i | 0 <= i < |init| ensures gen(init[i]).Returned? && ShapedResult(gen(init[i]).value) {
          assert init[i] == reqs[i];
        }
      }
      AggregateEnriched(init, llm, classify);
      GeneratorOutcome(llm, classify, last);
      var records := Normalise(llm(last).decoded);
      var qs := Questions(gen(last).value);
      assert qs == Enrich(records, classify);
      var g, rep := Gathered(reqs, gen), Replied(reqs, llm);
      var g0, rep0 := Gathered(init, gen), Replied(init, llm);
      assert g == g0 + qs;
      assert rep == rep0 + records;
      forall m | 0 <= m < |rep|
        ensures rep[m].JObject?
        ensures EnrichedWith(g[m], rep[m], BloomLevel(classify(Payload(rep[m].fields))))
      {
        if m >= |rep0| {
          var n := m - |rep0|;
          assert g[m] == qs[n] && rep[m] == records[n];
        } else {
          assert g[m] == g0[m] && rep[m] == rep0[m];
        }
      }
    }
  }

  /** Every record of a finished walk over the real step carries the Bloom
      level the classifier gave for that record's own question text. */
  lemma AggregateClassified(reqs: seq<Request>, llm: Request -> LlmReply,
                            classify: Json -> ClassifierReply)
    requires Clean(reqs, Generator(llm, classify))
    ensures forall m :: 0 <= m < |Gathered(reqs, Generator(llm, classify))| ==>
              var e := Gathered(reqs, Generator(llm, classify))[m];
              && e.JObject?
              && BloomKey in e.fields
              && e.fields[BloomKey] == BloomLevel(classify(Payload(e.fields)))
  {
    AggregateEnriched(reqs, llm, classify);
    var g, rep := Gathered(reqs, Generator(llm, classify)), Replied(reqs, llm);
    forall m | 0 <= m < |g|
      ensures g[m].JObject? && BloomKey in g[m].fields
      ensures g[m].fields[BloomKey] == BloomLevel(classify(Payload(g[m].fields)))
    {
      assert QuestionKey != BloomKey;
      assert Payload(g[m].fields) == Payload(rep[m].fields);
    }
  }

  /** With the classifier failing on every call (unreachable, non-200, or no
      `bloom_level`), the walk still aggregates every reply record, none
      dropped, each with Bloom level `"Unknown"` and otherwise unchanged. */
  lemma UnreachableClassifier(reqs: seq<Request>, llm: Request -> LlmReply,
                              classify: Json -> ClassifierReply)
    requires forall p :: !Delivered(classify(p))
    requires Clean(reqs, Generator(llm, classify))
    ensures |Gathered(reqs, Generator(llm, classify))| == |Replied(reqs, llm)|
    ensures forall m :: 0 <= m < |Replied(reqs, llm)| ==>
              EnrichedWith(Gathered(reqs, Generator(llm, classify))[m], Replied(reqs, llm)[m], Unknown)
  {
    AggregateEnriched(reqs, llm, classify);
  }

  /** The sample syllabus the client script posts: one topic with two
      subtopics makes two calls, in subtopic order, each for two questions
      per part. */
  lemma SampleSyllabus()
    ensures Requests([SyllabusEntry("Big data", ["Introduction to Big Data", "Data Storage Solutions"])])
            == [Request("Big data", "Introduction to Big Data", 2),
                Request("Big data", "Data Storage Solutions", 2)]
  {
    var e := SyllabusEntry("Big data", ["Introduction to Big Data", "Data Storage Solutions"]);
    RequestsSingle(e);
  }
}
