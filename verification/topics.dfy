/** The syllabus walk (`create_question_banks`): one generator call per
    (topic, subtopic) pair, topics in input order and subtopics in input
    order, each asking for `PerPart` questions per part; the `questions`
    lists the calls return are concatenated into one aggregate. A call that
    raises ends the walk: nothing catches it.

    The generator is a parameter, `gen`, answering each request. */
module Topics {
  import opened JsonValues
  import opened QuestionGenerator

  /** One syllabus item: a topic and its subtopics, in order. */
  datatype SyllabusEntry = SyllabusEntry(topic: string, subtopics: seq<string>)

  /** The walk ends with the aggregate document, or with the exception the
      generator raised for request `at`. */
  datatype Walk = Finished(aggregate: Json) | Aborted(at: Request, fault: Fault)

  /** Questions asked for in each part by every generator call. */
  const PerPart: int := 2

  // ---------------------------------------------------------------------
  // The requests of a walk

  /** The requests for one topic's subtopics. */
  function TopicRequests(topic: string, subtopics: seq<string>): (r: seq<Request>)
    ensures |r| == |subtopics|
    ensures forall j :: 0 <= j < |r| ==> r[j] == Request(topic, subtopics[j], PerPart)
  {
    if |subtopics| == 0 then []
    else [Request(topic, subtopics[0], PerPart)] + TopicRequests(topic, subtopics[1..])
  }

  /** The requests of a whole syllabus, in the order the walk makes them. */
  function Requests(syllabus: seq<SyllabusEntry>): (r: seq<Request>)
    ensures forall k :: 0 <= k < |r| ==> r[k].count == PerPart
  {
    if |syllabus| == 0 then []
    else
      var last := syllabus[|syllabus| - 1];
      Requests(syllabus[..|syllabus| - 1]) + TopicRequests(last.topic, last.subtopics)
  }

  /** The number of (topic, subtopic) pairs of a syllabus. */
  function SubtopicCount(syllabus: seq<SyllabusEntry>): nat
  {
    if |syllabus| == 0 then 0
    else SubtopicCount(syllabus[..|syllabus| - 1]) + |syllabus[|syllabus| - 1].subtopics|
  }

  lemma {:induction false} TopicRequestsAppend(topic: string, a: seq<string>, b: seq<string>)
    ensures TopicRequests(topic, a + b) == TopicRequests(topic, a) + TopicRequests(topic, b)
  {
    var l, r := TopicRequests(topic, a + b), TopicRequests(topic, a) + TopicRequests(topic, b);
    assert |l| == |r|;
    forall j | 0 <= j < |l| ensures l[j] == r[j] {
      if j < |a| {
        assert (a + b)[j] == a[j];
      } else {
        assert (a + b)[j] == b[j - |a|];
      }
    }
  }

  /** The requests of two syllabi one after the other are the first's
      requests followed by the second's: topic order is kept. */
  lemma {:induction false} RequestsAppend(s: seq<SyllabusEntry>, t: seq<SyllabusEntry>)
    ensures Requests(s + t) == Requests(s) + Requests(t)
    decreases |t|
  {
    if |t| == 0 {
      assert s + t == s;
    } else {
      var t' := t[..|t| - 1];
      assert (s + t)[..|s + t| - 1] == s + t';
      assert (s + t)[|s + t| - 1] == t[|t| - 1];
      RequestsAppend(s, t');
    }
  }

  /** A syllabus makes exactly one request per (topic, subtopic) pair. */
  lemma {:induction false} RequestsLength(syllabus: seq<SyllabusEntry>)
    ensures |Requests(syllabus)| == SubtopicCount(syllabus)
  {
    if |syllabus| > 0 {
      RequestsLength(syllabus[..|syllabus| - 1]);
    }
  }

  /** The requests split around entry `i`, at its subtopic `j`: earlier
      topics, then entry `i`'s first `j` subtopics, then the rest of entry
      `i`, then later topics. */
  lemma RequestsSplit(syllabus: seq<SyllabusEntry>, i: nat, j: nat)
    requires i < |syllabus|
    requires j <= |syllabus[i].subtopics|
    ensures Requests(syllabus) ==
              Requests(syllabus[..i])
              + TopicRequests(syllabus[i].topic, syllabus[i].subtopics[..j])
              + TopicRequests(syllabus[i].topic, syllabus[i].subtopics[j..])
              + Requests(syllabus[i + 1..])
  {
    var e := syllabus[i];
    var before, after := syllabus[..i], syllabus[i + 1..];
    assert syllabus == before + ([e] + after);
    RequestsAppend(before, [e] + after);
    RequestsAppend([e], after);
    RequestsSingle(e);
    assert e.subtopics == e.subtopics[..j] + e.subtopics[j..];
    TopicRequestsAppend(e.topic, e.subtopics[..j], e.subtopics[j..]);
  }

  lemma RequestsSingle(e: SyllabusEntry)
    ensures Requests([e]) == TopicRequests(e.topic, e.subtopics)
  {
    assert [e][..0] == [];
  }

  /** Subtopic `j` of entry `i` is requested at position
      `SubtopicCount(syllabus[..i]) + j`, with the entry's topic, the
      subtopic and `PerPart`: topics in input order, subtopics in input
      order within a topic. */
  lemma RequestAt(syllabus: seq<SyllabusEntry>, i: nat, j: nat)
    requires i < |syllabus|
    requires j < |syllabus[i].subtopics|
    ensures SubtopicCount(syllabus[..i]) + j < |Requests(syllabus)|
    ensures Requests(syllabus)[SubtopicCount(syllabus[..i]) + j] ==
              Request(syllabus[i].topic, syllabus[i].subtopics[j], PerPart)
  {
    RequestsSplit(syllabus, i, 0);
    RequestsLength(syllabus[..i]);
    assert syllabus[i].subtopics[..0] == [];
    assert syllabus[i].subtopics[0..][j] == syllabus[i].subtopics[j];
  }

  /** A request is made exactly when it names an entry's topic, one of that
      entry's subtopics, and `PerPart`. */
  lemma {:induction false} RequestsMembers(syllabus: seq<SyllabusEntry>, r: Request)
    ensures r in Requests(syllabus) <==>
              exists i, j :: 0 <= i < |syllabus| && 0 <= j < |syllabus[i].subtopics|
                             && r == Request(syllabus[i].topic, syllabus[i].subtopics[j], PerPart)
  {
    if |syllabus| > 0 {
      var n := |syllabus| - 1;
      var init, last := syllabus[..n], syllabus[n];
      RequestsMembers(init, r);
      if r in Requests(syllabus) {
        if r in Requests(init) {
          var i, j :| 0 <= i < |init| && 0 <= j < |init[i].subtopics|
                      && r == Request(init[i].topic, init[i].subtopics[j], PerPart);
          assert init[i] == syllabus[i];
        } else {
          var j :| 0 <= j < |last.subtopics| && TopicRequests(last.topic, last.subtopics)[j] == r;
          assert syllabus[n].subtopics[j] == last.subtopics[j];
        }
      } else {
        forall i, j | 0 <= i < |syllabus| && 0 <= j < |syllabus[i].subtopics|
          ensures r != Request(syllabus[i].topic, syllabus[i].subtopics[j], PerPart)
        {
          if i < n {
            assert init[i] == syllabus[i];
          } else {
            assert TopicRequests(last.topic, last.subtopics)[j]
                   == Request(syllabus[i].topic, syllabus[i].subtopics[j], PerPart);
          }
        }
      }
    }
  }

  /** A syllabus makes no request exactly when every topic has no subtopics
      (an empty syllabus included). */
  lemma {:induction false} NoRequests(syllabus: seq<SyllabusEntry>)
    ensures Requests(syllabus) == [] <==>
              forall i :: 0 <= i < |syllabus| ==> syllabus[i].subtopics == []
  {
    if |syllabus| > 0 {
      var n := |syllabus| - 1;
      NoRequests(syllabus[..n]);
      assert forall i :: 0 <= i < n ==> syllabus[..n][i] == syllabus[i];
    }
  }

  // ---------------------------------------------------------------------
  // Outcomes of the generator calls

  /** `result.get("questions", [])` is a list: the result is an object and
      its `questions`, when present, is an array. */
  predicate ShapedResult(v: Json)
  {
    v.JObject? && (QuestionsKey in v.fields ==> v.fields[QuestionsKey].JArray?)
  }

  /** The records a call result contributes; a result without `questions`
      contributes none. */
  function Questions(result: Json): (qs: seq<Json>)
    requires ShapedResult(result)
    ensures QuestionsKey !in result.fields ==> qs == []
    ensures QuestionsKey in result.fields ==> qs == result.fields[QuestionsKey].items
  {
    Get(result.fields, QuestionsKey, JArray([])).items
  }

  /** The walk reads back from a `{"questions": records}` document exactly
      the records it holds. */
  lemma QuestionsRoundTrip(records: seq<Json>)
    ensures ShapedResult(QuestionsDoc(records))
    ensures Questions(QuestionsDoc(records)) == records
  {
  }

  /** Position of the first request whose call raises, or the request count
      when none does. */
  function FirstRaise(reqs: seq<Request>, gen: Request -> GenOutcome): (k: nat)
    ensures k <= |reqs|
    ensures forall i :: 0 <= i < k ==> gen(reqs[i]).Returned?
    ensures k < |reqs| ==> gen(reqs[k]).Raised?
  {
    if |reqs| == 0 then 0
    else
      var k := FirstRaise(reqs[..|reqs| - 1], gen);
      if k < |reqs| - 1 then k
      else if gen(reqs[|reqs| - 1]).Raised? then |reqs| - 1
      else |reqs|
  }

  /** Every call returns a well-shaped result. */
  predicate Clean(reqs: seq<Request>, gen: Request -> GenOutcome)
  {
    forall i :: 0 <= i < |reqs| ==> gen(reqs[i]).Returned? && ShapedResult(gen(reqs[i]).value)
  }

  /** Every call made before the first raising one returns a well-shaped
      result (the calls after it are never made). */
  predicate Shaped(reqs: seq<Request>, gen: Request -> GenOutcome)
  {
    forall i :: 0 <= i < FirstRaise(reqs, gen) ==> ShapedResult(gen(reqs[i]).value)
  }

  /** The concatenation of the calls' `questions` lists, in call order. */
  function Gathered(reqs: seq<Request>, gen: Request -> GenOutcome): (r: seq<Json>)
    requires Clean(reqs, gen)
    // every aggregated record is a record some call returned, unmodified
    ensures forall x :: x in r ==>
              exists i :: 0 <= i < |reqs| && x in Questions(gen(reqs[i]).value)
  {
    if |reqs| == 0 then []
    else Gathered(reqs[..|reqs| - 1], gen) + Questions(gen(reqs[|reqs| - 1]).value)
  }

  /** The sum of the calls' `questions` lengths. */
  function QuestionTotal(reqs: seq<Request>, gen: Request -> GenOutcome): nat
    requires Clean(reqs, gen)
  {
    if |reqs| == 0 then 0
    else |Questions(gen(reqs[0]).value)| + QuestionTotal(reqs[1..], gen)
  }

  lemma {:induction false} FirstRaiseAppend(a: seq<Request>, b: seq<Request>, gen: Request -> GenOutcome)
    ensures FirstRaise(a, gen) < |a| ==> FirstRaise(a + b, gen) == FirstRaise(a, gen)
    ensures FirstRaise(a, gen) == |a| ==> FirstRaise(a + b, gen) == |a| + FirstRaise(b, gen)
    decreases |b|
  {
    if |b| == 0 {
      assert a + b == a;
    } else {
      var b' := b[..|b| - 1];
      assert (a + b)[..|a + b| - 1] == a + b';
      FirstRaiseAppend(a, b', gen);
    }
  }

  lemma CleanHasNoRaise(reqs: seq<Request>, gen: Request -> GenOutcome)
    requires Clean(reqs, gen)
    ensures FirstRaise(reqs, gen) == |reqs|
  {
  }

  /** Gathering distributes over the request order: the aggregate of two
      runs of calls is the first's aggregate followed by the second's. */
  lemma {:induction false} GatheredAppend(a: seq<Request>, b: seq<Request>, gen: Request -> GenOutcome)
    requires Clean(a + b, gen)
    ensures Clean(a, gen) && Clean(b, gen)
    ensures Gathered(a + b, gen) == Gathered(a, gen) + Gathered(b, gen)
    decreases |b|
  {
    assert forall i :: 0 <= i < |a| ==> (a + b)[i] == a[i];
    assert forall i :: 0 <= i < |b| ==> (a + b)[|a| + i] == b[i];
    if |b| == 0 {
      assert a + b == a;
    } else {
      var b' := b[..|b| - 1];
      assert (a + b)[..|a + b| - 1] == a + b';
      GatheredAppend(a, b', gen);
    }
  }

  /** The aggregate holds as many records as all calls returned together. */
  lemma {:induction false} GatheredLength(reqs: seq<Request>, gen: Request -> GenOutcome)
    requires Clean(reqs, gen)
    ensures |Gathered(reqs, gen)| == QuestionTotal(reqs, gen)
    decreases |reqs|
  {
    if |reqs| > 0 {
      assert reqs == [reqs[0]] + reqs[1..];
      GatheredAppend([reqs[0]], reqs[1..], gen);
      assert [reqs[0]][..0] == [];
      GatheredLength(reqs[1..], gen);
    }
  }

  /** Record `m` of call `i`'s result sits in the aggregate right after the
      records of the calls before it, unmodified. */
  lemma GatheredAt(reqs: seq<Request>, gen: Request -> GenOutcome, i: nat, m: nat)
    requires Clean(reqs, gen)
    requires i < |reqs|
    requires m < |Questions(gen(reqs[i]).value)|
    ensures Clean(reqs[..i], gen)
    ensures |Gathered(reqs[..i], gen)| + m < |Gathered(reqs, gen)|
    ensures Gathered(reqs, gen)[|Gathered(reqs[..i], gen)| + m] == Questions(gen(reqs[i]).value)[m]
  {
    assert reqs == reqs[..i] + ([reqs[i]] + reqs[i + 1..]);
    GatheredAppend(reqs[..i], [reqs[i]] + reqs[i + 1..], gen);
    GatheredAppend([reqs[i]], reqs[i + 1..], gen);
    assert [reqs[i]][..0] == [];
  }

  /** The requests made once subtopic `j` of entry `i` has been visited are
      a prefix of the syllabus's requests. */
  lemma WalkPrefix(syllabus: seq<SyllabusEntry>, i: nat, j: nat)
    requires i < |syllabus| && j < |syllabus[i].subtopics|
    ensures var e := syllabus[i];
            var done := Requests(syllabus[..i]) + TopicRequests(e.topic, e.subtopics[..j]);
            && done + [Request(e.topic, e.subtopics[j], PerPart)]
               == Requests(syllabus[..i]) + TopicRequests(e.topic, e.subtopics[..j + 1])
            && Requests(syllabus) == done + [Request(e.topic, e.subtopics[j], PerPart)]
                                     + (TopicRequests(e.topic, e.subtopics[j + 1..]) + Requests(syllabus[i + 1..]))
  {
    var e := syllabus[i];
    assert e.subtopics[..j + 1] == e.subtopics[..j] + [e.subtopics[j]];
    TopicRequestsAppend(e.topic, e.subtopics[..j], [e.subtopics[j]]);
    assert TopicRequests(e.topic, [e.subtopics[j]]) == [Request(e.topic, e.subtopics[j], PerPart)];
    RequestsSplit(syllabus, i, j + 1);
  }

  /** One step of the inner loop: the next call made is the next request,
      and whether it raises decides where the first raise is. */
  lemma WalkStep(syllabus: seq<SyllabusEntry>, i: nat, j: nat, before: seq<Request>,
                 gen: Request -> GenOutcome)
    requires i < |syllabus| && j < |syllabus[i].subtopics|
    requires before == Requests(syllabus[..i]) + TopicRequests(syllabus[i].topic, syllabus[i].subtopics[..j])
    requires Clean(before, gen)
    ensures var req := Request(syllabus[i].topic, syllabus[i].subtopics[j], PerPart);
            && before + [req] == Requests(syllabus[..i]) + TopicRequests(syllabus[i].topic, syllabus[i].subtopics[..j + 1])
            && |before| < |Requests(syllabus)|
            && Requests(syllabus)[..|before| + 1] == before + [req]
            && Requests(syllabus)[|before|] == req
            && (gen(req).Raised? ==> FirstRaise(Requests(syllabus), gen) == |before|)
            && (gen(req).Returned? ==> FirstRaise(Requests(syllabus), gen) > |before|)
  {
    var e := syllabus[i];
    var req := Request(e.topic, e.subtopics[j], PerPart);
    var calls := before + [req];
    var rest := TopicRequests(e.topic, e.subtopics[j + 1..]) + Requests(syllabus[i + 1..]);
    WalkPrefix(syllabus, i, j);
    var all := Requests(syllabus);
    assert all == calls + rest;
    assert all[..|calls|] == calls;
    assert calls[..|before|] == before;
    CleanHasNoRaise(before, gen);
    FirstRaiseAppend(calls, rest, gen);
  }

  /** A syllabus without subtopics makes no call and gathers nothing. */
  lemma NoSubtopicsNoCalls(syllabus: seq<SyllabusEntry>, gen: Request -> GenOutcome)
    ensures (forall i :: 0 <= i < |syllabus| ==> syllabus[i].subtopics == []) ==>
              && Requests(syllabus) == []
              && FirstRaise(Requests(syllabus), gen) == |Requests(syllabus)|
              && Gathered(Requests(syllabus), gen) == []
  {
    NoRequests(syllabus);
  }

  // ---------------------------------------------------------------------
  // The walk

  /** A returning call that follows clean calls keeps the calls clean, and
      its records extend the aggregate. */
  lemma ExtendStep(syllabus: seq<SyllabusEntry>, before: seq<Request>, req: Request,
                   gen: Request -> GenOutcome)
    requires Shaped(Requests(syllabus), gen)
    requires Clean(before, gen) && gen(req).Returned?
    requires |before| < FirstRaise(Requests(syllabus), gen)
    requires Requests(syllabus)[|before|] == req
    ensures Clean(before + [req], gen)
    ensures Gathered(before + [req], gen) == Gathered(before, gen) + Questions(gen(req).value)
  {
    assert ShapedResult(gen(Requests(syllabus)[|before|]).value);
    assert (before + [req])[..|before|] == before;
  }

  /** The inner loop of `create_question_banks`: the calls for entry `i`'s
      subtopics, in order, appended to the calls already made for the
      entries before it. It stops with `Some(Aborted(..))` at the first
      raising call. */
  method VisitTopic(syllabus: seq<SyllabusEntry>, i: nat, gen: Request -> GenOutcome,
                    calls0: seq<Request>, aggregated0: seq<Json>)
    returns (stop: Option<Walk>, calls: seq<Request>, aggregated: seq<Json>)
    requires i < |syllabus|
    requires Shaped(Requests(syllabus), gen)
    requires calls0 == Requests(syllabus[..i]) && Clean(calls0, gen)
    requires aggregated0 == Gathered(calls0, gen)
    ensures stop.None? ==>
              && calls == Requests(syllabus[..i + 1])
              && Clean(calls, gen)
              && aggregated == Gathered(calls, gen)
    ensures stop.Some? ==>
              var k := FirstRaise(Requests(syllabus), gen);
              && k < |Requests(syllabus)|
              && calls == Requests(syllabus)[..k + 1]
              && stop.value == Aborted(Requests(syllabus)[k], gen(Requests(syllabus)[k]).fault)
  {
    var entry := syllabus[i];
    calls, aggregated := calls0, aggregated0;
    var j := 0;
    while j < |entry.subtopics|
      invariant 0 <= j <= |entry.subtopics|
      invariant calls == Requests(syllabus[..i]) + TopicRequests(entry.topic, entry.subtopics[..j])
      invariant Clean(calls, gen)
      invariant aggregated == Gathered(calls, gen)
    {
      var req := Request(entry.topic, entry.subtopics[j], PerPart);
      var outcome := gen(req);
      ghost var before := calls;
      WalkStep(syllabus, i, j, before, gen);
      calls := calls + [req];
      if outcome.Raised? {
        return Some(Aborted(req, outcome.fault)), calls, aggregated;
      }
      ExtendStep(syllabus, before, req, gen);
      aggregated := aggregated + Questions(outcome.value);
      j := j + 1;
    }
    assert entry.subtopics[..j] == entry.subtopics;
    assert syllabus[..i + 1][..i] == syllabus[..i];
    stop := None;
  }

  /** `create_question_banks(syllabus)`: the calls it makes, in order, and
      how it ends. */
  method CreateQuestionBanks(syllabus: seq<SyllabusEntry>, gen: Request -> GenOutcome)
    returns (w: Walk, calls: seq<Request>)
    requires Shaped(Requests(syllabus), gen)
    // no call raises: every request is made and the records are concatenated
    ensures FirstRaise(Requests(syllabus), gen) == |Requests(syllabus)| ==>
              && calls == Requests(syllabus)
              && Clean(calls, gen)
              && w == Finished(QuestionsDoc(Gathered(calls, gen)))
    // the first raising call ends the walk; no later request is made
    ensures FirstRaise(Requests(syllabus), gen) < |Requests(syllabus)| ==>
              var k := FirstRaise(Requests(syllabus), gen);
              && calls == Requests(syllabus)[..k + 1]
              && w == Aborted(Requests(syllabus)[k], gen(Requests(syllabus)[k]).fault)
    // no subtopic anywhere (an empty syllabus included): no call, no records
    ensures (forall i :: 0 <= i < |syllabus| ==> syllabus[i].subtopics == []) ==>
              calls == [] && w == Finished(QuestionsDoc([]))
  {
    NoSubtopicsNoCalls(syllabus, gen);
    var aggregated: seq<Json> := [];
    calls := [];
    var i := 0;
    while i < |syllabus|
      invariant 0 <= i <= |syllabus|
      invariant calls == Requests(syllabus[..i])
      invariant Clean(calls, gen)
      invariant aggregated == Gathered(calls, gen)
    {
      var stop;
      stop, calls, aggregated := VisitTopic(syllabus, i, gen, calls, aggregated);
      if stop.Some? {
        return stop.value, calls;
      }
      i := i + 1;
    }
    assert syllabus[..i] == syllabus;
    CleanHasNoRaise(calls, gen);
    w := Finished(QuestionsDoc(aggregated));
  }
}
