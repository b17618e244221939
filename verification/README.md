# questionAI question pipeline, in Dafny

This project models how questionAI builds a question bank for a syllabus. A syllabus is an ordered list of topics, and each topic has an ordered list of subtopics. `create_question_banks` visits every (topic, subtopic) pair in order. For each pair it calls `generate_question_bank`, which does four things:
- it asks a chat model for two questions per part;
- it normalises the decoded reply into a list of question records;
- it tags each record with a `Bloom_Taxonomy` level from a classifier service, falling back to `"Unknown"`;
- it returns the records as `{"questions": [...]}`.

The walk concatenates every call's `questions` list into one aggregate `{"questions": [...]}`.

The two external services are parameters of the model:
- `llm: Request -> LlmReply` answers a (topic, subtopic, count) request. It either raises or returns content. When it returns content, the JSON decode of that content gives `Some(value)`, or `None` if the decode raised.
- `classify: Json -> ClassifierReply` answers one `{"text": ...}` payload. The POST either raises or gets a response with a status code. That response's body decodes to `Some(value)`, or to `None` if the decode raised.

Files:
- `json.dfy` (module `JsonValues`): decoded JSON values and `Option`.
- `question_generator.dfy` (module `QuestionGenerator`): normalisation, Bloom enrichment and the per-subtopic step.
- `topics.dfy` (module `Topics`): the requests a syllabus makes, the aggregation, and the walk itself. The walk is two methods, one per loop of the source.
- `pipeline.dfy` (module `Pipeline`): the walk driving the real per-subtopic step.

What the code does, and so what the model does:
- No exception from the chat model call (question_generator.py:56) is caught, so one raising call ends the walk. `Topics.CreateQuestionBanks` returns `Aborted` at the first raising call, and it makes no later call.
- No record is validated or dropped. Every record the reply normalises to reaches the aggregate.
- Any decoded value that is not a list becomes a one-element list, scalars included. A record that is not an object makes `question.get` raise outside the `try` (question_generator.py:71). The model treats that as the step raising (`NotAnObject`), which also ends the walk.
- Nothing bounds the record count. The aggregate holds whatever the replies held.
- The Bloom level is whatever JSON value the classifier returns under `bloom_level`, not necessarily a string.

## Model

| member | source | states |
|---|---|---|
| QuestionGenerator.Normalise | question_generator.py:60-66 | A decoded list is kept as the record sequence, in order. Any other decoded value becomes a one-element sequence. A failed decode gives the empty sequence and nothing escapes. |
| QuestionGenerator.NormaliseMembers | question_generator.py:61-63 | A value is a record if and only if it is an element of the decoded list, or it is the decoded non-list value itself. |
| QuestionGenerator.FirstNonObject | question_generator.py:70-71 | Locates the first record that is not an object, where `question.get` raises. Every earlier record is an object. |
| QuestionGenerator.Payload | question_generator.py:71-72 | The classifier payload is the single-key object `{"text": ...}`. It holds the record's `Question` value, or `""` when the record has no `Question`. |
| QuestionGenerator.Payloads | question_generator.py:70-72 | One classifier payload per record, in record order. |
| QuestionGenerator.BloomLevel | question_generator.py:73-83 | When the status is 200 and the decoded body is an object holding `bloom_level`, the level is that value. In every other case it is `"Unknown"`. |
| QuestionGenerator.UnknownOnFailure | question_generator.py:75-83 | Each failure gives `"Unknown"`: the POST raising, a non-200 status, an undecodable body, a non-object body, or a missing `bloom_level`. |
| QuestionGenerator.Enrich | question_generator.py:70-84 | Keeps the record count and order. Each record gains `Bloom_Taxonomy`, set to the level the classifier gave for that record's payload. Every other key keeps its value. |
| QuestionGenerator.EnrichFixesClassified | question_generator.py:84 | Enrichment writes only `Bloom_Taxonomy`. Records that already hold their classified level come back unchanged. |
| QuestionGenerator.EnrichIdempotent | question_generator.py:70-84 | Enriching twice gives the same records as enriching once, because the payload depends only on `Question`, which enrichment never writes. |
| QuestionGenerator.QuestionsDoc | question_generator.py:87 | The result document has the single key `questions`, bound to the list of records. |
| QuestionGenerator.GenerateQuestionBank | question_generator.py:56-92 | If the chat model raises, the step raises before any classifier call. Otherwise there is one classifier call per record, in order, until a non-object record raises. If every record is an object, the result has the single key `questions`, bound to the enriched records. |
| Topics.TopicRequests | topics.py:27-30 | One request per subtopic of a topic, in subtopic order. Each request carries the topic, the subtopic and count 2. |
| Topics.Requests | topics.py:25-30 | The walk's calls for a whole syllabus: each topic's subtopic requests, topic after topic. Its contract states that every request asks for count 2; `RequestAt` and `RequestsMembers` state the order and the pairs. |
| Topics.RequestsAppend | topics.py:25-30 | The requests of two syllabi in sequence are the first's requests followed by the second's, so topic order is kept. |
| Topics.RequestsLength | topics.py:25-30 | A syllabus makes exactly one request per (topic, subtopic) pair. |
| Topics.RequestAt | topics.py:25-30 | Subtopic `j` of topic `i` is requested at position (number of subtopics before topic `i`) + `j`. The request carries that topic, that subtopic and count 2. |
| Topics.RequestsMembers | topics.py:25-30 | A request is made if and only if it names a syllabus topic, one of that topic's subtopics, and count 2. |
| Topics.NoRequests | topics.py:25-27 | A syllabus makes no call if and only if every topic has an empty subtopic list. The empty syllabus is included. |
| Topics.Questions | topics.py:32 | A call result without `questions` contributes no records. Otherwise it contributes exactly its `questions` list. |
| Topics.QuestionsRoundTrip | topics.py:32 | Reading `questions` back from a `{"questions": records}` document gives exactly those records. |
| Topics.FirstRaise | topics.py:30 | Locates the first call that raises. Every earlier call returned. |
| Topics.Gathered | topics.py:32-35 | The `extend` aggregation of the calls' `questions` lists. Its contract states that every aggregated record is a record some call returned, unmodified; `GatheredAt` states where each one sits. |
| Topics.GatheredAppend | topics.py:35 | The aggregate of two runs of calls is the first run's aggregate followed by the second's. |
| Topics.GatheredLength | topics.py:35 | The aggregate length equals the sum of the calls' `questions` lengths. |
| Topics.GatheredAt | topics.py:32-35 | Record `m` of call `i` appears unmodified in the aggregate, right after all the records of earlier calls. |
| Topics.VisitTopic | topics.py:27-35 | The inner loop over one topic's subtopics. If no call raises, it leaves the calls equal to the requests of the topics so far, and the aggregate equal to their concatenated records. Otherwise it stops after the first raising call of the whole syllabus, with that call's exception. |
| Topics.CreateQuestionBanks | topics.py:22-42 | With no raising call, the walk makes every request in syllabus order and returns `{"questions": ...}`, bound to the in-order concatenation of the calls' records. Otherwise it makes the requests up to and including the first raising one and aborts with that call's exception. A syllabus with no subtopic anywhere, the empty syllabus included, makes no call and yields `{"questions": []}`. |
| Pipeline.Generator | topics.py:30 | The walk's generator is `generate_question_bank(topic, subtopic, count)` for each request. A call raises exactly when the chat model raises or a reply record is not an object. |
| Pipeline.GeneratorOutcome | question_generator.py:56-92 | The real step raises if and only if the chat model raises or a reply record is not an object. Otherwise its `questions` are the enriched, normalised reply. |
| Pipeline.GeneratorShaped | topics.py:30-35 | Every result of the real step has the shape the walk reads: an object whose `questions` is a list. |
| Pipeline.AggregateEnriched | question_generator.py:60-92 | A completed walk over the real step aggregates exactly the records the replies normalise to, in order, with none dropped. Each one gains only `Bloom_Taxonomy`, set to the classifier's answer for that record's own `{"text": Question}` payload. |
| Pipeline.AggregateClassified | question_generator.py:70-84 | Every record in a completed walk's aggregate is an object whose `Bloom_Taxonomy` is the level the classifier gave for that record's own question text. |
| Pipeline.UnreachableClassifier | question_generator.py:73-84 | If the classifier never delivers a level, the aggregate still holds every reply record, in order. Each record is unchanged except that its `Bloom_Taxonomy` is `"Unknown"`. |
| Pipeline.SampleSyllabus | test.py:4-12 | The client's sample syllabus (one topic, two subtopics) makes two calls in subtopic order, each for 2 questions per part. |

## Left out

- Prompt construction (question_generator.py:28-53): the chat model sees only the (topic, subtopic, count) request. The prompt text is not modelled.
- The chat model client and its call (question_generator.py:25, 56): this is a network client. It becomes the `llm` parameter.
- `json.loads` (question_generator.py:61) and `response.json()` (question_generator.py:76): no JSON parser is modelled. Only the decode outcome is, as `Option<Json>`.
- The POST to the classifier (question_generator.py:74): this is network I/O. It becomes the `classify` parameter.
- The services are modelled as functions of their request. A service that answers the same request differently on a repeated call is not modelled.
- Logging (`print`), `load_dotenv` (question_generator.py:8) and the pacing `time.sleep(5)` (topics.py:38): these are side effects with nothing to state about the data.
- JSON objects are maps. The key insertion order of Python dicts is not kept, including where `Bloom_Taxonomy` lands in a record's key order. JSON numbers are kept as their text, because the pipeline only passes them through.
- Topics.CreateQuestionBanks: it requires that every call result made before the first raise is an object whose `questions`, if present, is a list. The source would raise on a non-object result, or `extend` by iterating another kind of `questions` value; neither path is modelled. The real step always meets this requirement (Pipeline.GeneratorShaped).
- The walk's syllabus entries are well-typed. server.py:44-46 validates them before `create_question_banks` runs, so the `KeyError` paths at topics.py:26-27 are not modelled.
- server.py (routing, MongoDB, password hashing, token issuance), blooms_classifier.py (pickled scikit-learn models behind the classifier endpoint) and test.py (a client script) are not part of this model. The one exception is the sample syllabus from test.py, which `Pipeline.SampleSyllabus` states.
