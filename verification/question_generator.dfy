/** One subtopic's step of the pipeline (`generate_question_bank`): ask the
    chat model for questions, normalise its decoded reply into a record
    list, tag each record with a Bloom level from the classifier service,
    and wrap the records as `{"questions": [...]}`.

    The chat model and the classifier are parameters: `llm` answers a
    request with a raised exception or with the outcome of decoding its
    reply text; `classify` answers one classifier payload. */
module QuestionGenerator {
  import opened JsonValues

  const QuestionKey := "Question"
  const BloomKey := "Bloom_Taxonomy"
  const QuestionsKey := "questions"
  const TextKey := "text"
  const BloomLevelKey := "bloom_level"
  const StatusOk := 200
  /** The Bloom level recorded whenever the classifier gives none. */
  const Unknown: Json := JString("Unknown")

  /** What the chat model is asked for. The prompt text built from these
      three values is not modelled; the model's answer depends on them only. */
  datatype Request = Request(topic: string, subtopic: string, count: int)

  /** The chat model call: it raised, or it returned content whose JSON
      decode gave `Some(value)` or raised (`None`). */
  datatype LlmReply = LlmRaised | Content(decoded: Option<Json>)

  /** One POST to the classifier: the call raised, or a response arrived
      with a status code and a body whose JSON decode gave `Some(value)` or
      raised (`None`). */
  datatype ClassifierReply =
    | PostRaised
    | Response(status: int, body: Option<Json>)

  /** Why a step raised instead of returning. */
  datatype Fault =
    | GenerationFailed        // the chat model call raised
    | NotAnObject(index: nat) // record `index` has no `.get`: it is not an object

  datatype GenOutcome = Raised(fault: Fault) | Returned(value: Json)

  /** A step's outcome, with the classifier payloads it sent, in order. */
  datatype Step = Step(outcome: GenOutcome, classified: seq<Json>)

  // ---------------------------------------------------------------------
  // Normalisation of the decoded reply

  /** The record list built from the decoded reply: a list is kept as it
      is, any other value becomes a one-element list, and a failed decode
      gives no records (the failure does not escape). */
  function Normalise(decoded: Option<Json>): (records: seq<Json>)
    ensures decoded.None? ==> records == []
    ensures decoded.Some? && decoded.value.JArray? ==> records == decoded.value.items
    ensures decoded.Some? && !decoded.value.JArray? ==> records == [decoded.value]
  {
    match decoded
    case None => []
    case Some(JArray(items)) => items
    case Some(v) => [v]
  }

  /** `x` is a record exactly when it is an element of a decoded list or is
      the decoded non-list value itself. */
  lemma NormaliseMembers(decoded: Option<Json>, x: Json)
    ensures x in Normalise(decoded) <==>
              || (decoded.Some? && decoded.value.JArray? && x in decoded.value.items)
              || (decoded == Some(x) && !x.JArray?)
  {
  }

  /** Index of the first record that is not an object, or the record count
      when every record is one. */
  function FirstNonObject(records: seq<Json>): (k: nat)
    ensures k <= |records|
    ensures forall i :: 0 <= i < k ==> records[i].JObject?
    ensures k < |records| ==> !records[k].JObject?
  {
    if |records| == 0 then 0
    else if !records[0].JObject? then 0
    else 1 + FirstNonObject(records[1..])
  }

  predicate AllObjects(records: seq<Json>)
  {
    forall i :: 0 <= i < |records| ==> records[i].JObject?
  }

  // ---------------------------------------------------------------------
  // Bloom classification

  /** The text sent for a record: its `Question` value, or `""` without one. */
  function QuestionText(record: map<string, Json>): Json
  {
    Get(record, QuestionKey, JString(""))
  }

  /** The classifier request body for a record: `{"text": <question text>}`. */
  function Payload(record: map<string, Json>): (p: Json)
    ensures p.JObject? && p.fields.Keys == {TextKey}
    ensures QuestionKey in record ==> p.fields[TextKey] == record[QuestionKey]
    ensures QuestionKey !in record ==> p.fields[TextKey] == JString("")
  {
    JObject(map[TextKey := QuestionText(record)])
  }

  /** The classifier delivered a level: status 200 and a decoded object body
      holding `bloom_level`. */
  predicate Delivered(reply: ClassifierReply)
  {
    && reply.Response?
    && reply.status == StatusOk
    && reply.body.Some?
    && reply.body.value.JObject?
    && BloomLevelKey in reply.body.value.fields
  }

  /** The Bloom level recorded for one classifier reply. */
  function BloomLevel(reply: ClassifierReply): (level: Json)
    ensures Delivered(reply) ==> level == reply.body.value.fields[BloomLevelKey]
    ensures !Delivered(reply) ==> level == Unknown
  {
    match reply
    case PostRaised => Unknown
    case Response(status, body) =>
      if status != StatusOk then Unknown
      else match body
        case None => Unknown
        case Some(JObject(fields)) => Get(fields, BloomLevelKey, Unknown)
        case Some(_) => Unknown
  }

  /** Each way the call can fail leaves the level `"Unknown"`: the POST
      raising, a non-200 status, a body that does not decode, a body that
      is not an object, and an object body without `bloom_level`. */
  lemma UnknownOnFailure(reply: ClassifierReply)
    requires || reply.PostRaised?
             || (reply.Response? && reply.status != StatusOk)
             || (reply.Response? && reply.body.None?)
             || (reply.Response? && reply.body.Some? && !reply.body.value.JObject?)
             || (reply.Response? && reply.body.Some? && reply.body.value.JObject?
                 && BloomLevelKey !in reply.body.value.fields)
    ensures BloomLevel(reply) == Unknown
  {
  }

  /** `e` is record `q` with only its Bloom level set to `level`: the same
      keys plus `Bloom_Taxonomy`, every other key bound as before. */
  predicate EnrichedWith(e: Json, q: Json, level: Json)
  {
    && q.JObject?
    && e.JObject?
    && e.fields.Keys == q.fields.Keys + {BloomKey}
    && (forall k :: k in q.fields && k != BloomKey ==> e.fields[k] == q.fields[k])
    && e.fields[BloomKey] == level
  }

  /** The classifier payloads for the records, one per record, in order. */
  function Payloads(records: seq<Json>): (ps: seq<Json>)
    requires AllObjects(records)
    ensures |ps| == |records|
    ensures forall i :: 0 <= i < |records| ==> ps[i] == Payload(records[i].fields)
  {
    if |records| == 0 then []
    else [Payload(records[0].fields)] + Payloads(records[1..])
  }

  /** The enrichment loop: each record gets the Bloom level the classifier
      gives for its payload. */
  function Enrich(records: seq<Json>, classify: Json -> ClassifierReply): (r: seq<Json>)
    requires AllObjects(records)
    ensures |r| == |records|
    ensures forall i :: 0 <= i < |records| ==>
              EnrichedWith(r[i], records[i], BloomLevel(classify(Payload(records[i].fields))))
  {
    if |records| == 0 then []
    else
      var q := records[0].fields;
      [JObject(q[BloomKey := BloomLevel(classify(Payload(q)))])] + Enrich(records[1..], classify)
  }

  /** Enrichment is the identity on records that already carry the level
      the classifier gives them: it writes no other key. */
  lemma {:induction false} EnrichFixesClassified(records: seq<Json>, classify: Json -> ClassifierReply)
    requires AllObjects(records)
    requires forall i :: 0 <= i < |records| ==>
               && BloomKey in records[i].fields
               && records[i].fields[BloomKey] == BloomLevel(classify(Payload(records[i].fields)))
    ensures Enrich(records, classify) == records
  {
    if |records| > 0 {
      var q := records[0].fields;
      assert q[BloomKey := BloomLevel(classify(Payload(q)))] == q;
      EnrichFixesClassified(records[1..], classify);
    }
  }

  /** Enriching twice is enriching once: the payload depends only on
      `Question`, which enrichment never writes. */
  lemma EnrichIdempotent(records: seq<Json>, classify: Json -> ClassifierReply)
    requires AllObjects(records)
    ensures AllObjects(Enrich(records, classify))
    ensures Enrich(Enrich(records, classify), classify) == Enrich(records, classify)
  {
    var e := Enrich(records, classify);
    forall i | 0 <= i < |e|
      ensures Payload(e[i].fields) == Payload(records[i].fields)
    {
      assert QuestionKey != BloomKey;
    }
    EnrichFixesClassified(e, classify);
  }

  /** The `{"questions": records}` document. */
  function QuestionsDoc(records: seq<Json>): (doc: Json)
    ensures doc.JObject? && doc.fields.Keys == {QuestionsKey}
    ensures doc.fields[QuestionsKey] == JArray(records)
  {
    JObject(map[QuestionsKey := JArray(records)])
  }

  // ---------------------------------------------------------------------
  // The step

  /** `generate_question_bank(topic, subtopic, count)`. */
  function GenerateQuestionBank(topic: string, subtopic: string, count: int,
                                llm: Request -> LlmReply,
                                classify: Json -> ClassifierReply): (s: Step)
    // a raising chat model call propagates before any classifier call
    ensures llm(Request(topic, subtopic, count)).LlmRaised? ==>
              s == Step(Raised(GenerationFailed), [])
    ensures llm(Request(topic, subtopic, count)).Content? ==>
              var records := Normalise(llm(Request(topic, subtopic, count)).decoded);
              var k := FirstNonObject(records);
              // one classifier call per record reached, in record order
              && |s.classified| == k
              && (forall i :: 0 <= i < k ==> s.classified[i] == Payload(records[i].fields))
              // a non-object record raises where `.get` is called on it
              && (k < |records| ==> s.outcome == Raised(NotAnObject(k)))
              // otherwise the single key "questions" holds the enriched records
              && (k == |records| ==>
                    && s.outcome.Returned?
                    && s.outcome.value.JObject?
                    && s.outcome.value.fields.Keys == {QuestionsKey}
                    && s.outcome.value.fields[QuestionsKey].JArray?
                    && |s.outcome.value.fields[QuestionsKey].items| == |records|
                    && (forall i :: 0 <= i < |records| ==>
                          EnrichedWith(s.outcome.value.fields[QuestionsKey].items[i], records[i],
                                       BloomLevel(classify(s.classified[i])))))
  {
    match llm(Request(topic, subtopic, count))
    case LlmRaised => Step(Raised(GenerationFailed), [])
    case Content(decoded) =>
      var records := Normalise(decoded);
      var k := FirstNonObject(records);
      var sent := Payloads(records[..k]);
      if k < |records| then Step(Raised(NotAnObject(k)), sent)
      else Step(Returned(QuestionsDoc(Enrich(records, classify))), sent)
  }
}
