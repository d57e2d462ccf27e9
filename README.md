# Solana agent pipeline and trigger scheduler, in Dafny

This project models the two pieces of the agent that make decisions.

**One content cycle, `run_pipeline`** (pipeline.py). The cycle makes these calls in order:
- it gathers chain data and reads the wallet balance, and stops when the balance is below 0.1 SOL;
- it builds a short-term memory and recalls long-term memories;
- it generates a post, strips its surrounding double quotes, scores it and renders a video;
- it keeps posts scored 7 or more in long-term memory;
- it looks up or creates the `Solana_Insights` user;
- for posts scored 3 or more, it publishes through the API. When the API answers `None`, it tries the cookie session once and digs `data.create_tweet.tweet_results.result.rest_id` out of that response;
- it records a `Post` row only when a channel gave an identifier.

The collaborators are one input value, `Pipeline.Collaborators`. It holds what each service answers and which call raises, if one does. `Pipeline.RunPipeline` works on a `Pipeline.Database` object: users, posts, memories and the next user id. It is proved to make exactly the calls `Pipeline.Calls(env)` and to exit as `Pipeline.ExpectedExit(env)`. It is also proved to change the three tables as `Pipeline.Stored`, `Pipeline.WithAgent` and `Pipeline.PublishedId` say. The lemmas in `PipelineFacts` state what those specification functions mean, in terms of the gate, the two thresholds and the channel outcomes.

**The scheduler in `main`** (run_pipeline.py). After one initial run, whose exception is caught, an endless loop repeats cycles:
- draw an activation time within ten minutes and an active duration of five to ten minutes;
- poll the clock until activation;
- then, until deactivation, fire the pipeline whenever the clock reaches the next run time, and draw a new next run time thirty seconds to three minutes later.

The clock, the random draws and the outcomes of the runs are input streams:
- each `datetime.now()` is one `Scheduler.Probe`: a reading, or an exception at that point;
- each `random.uniform` is a draw in `0..1000`;
- each run is `Returned` or `Raised`.

`Scheduler.Serve` returns the cycles it went through. Each cycle comes with the stretch of the three streams it read, a ghost `Scheduler.Span`. The stretches follow one another from the start of every stream. Only the last cycle is interrupted, and it stops where one of the streams has run out. Running out of a stream stands for the process being interrupted.

## Model

| member | source | states |
|---|---|---|
| Json.Get | pipeline.py:112-116 | a `.get` chain never yields a `None` leaf as found, and raises (`NotAnObject`) on a non-dict |
| Json.GetFoundIff | pipeline.py:112-116 | the chain yields the leaf `v` iff `v` is not `None` and strict navigation along the keys reaches `v` |
| Json.GetMissingKey | pipeline.py:112-116 | a key absent at any depth, below levels that are all dicts, makes the chain yield `None` without raising |
| Json.GetNotObject | pipeline.py:112-116 | a non-dict met above the leaf makes the chain raise |
| Json.GetEmptyObject | pipeline.py:112-115 | once a key is absent, the `{}` defaults carry the chain to `None` |
| Json.GetNest | pipeline.py:112-116 | a response built around a leaf gives that leaf back; a `null` leaf reads as `None` |
| Json.GetNullLeaf | pipeline.py:112-116 | a `null` leaf under levels that are all dicts reads as `None`, never as found |
| Json.ExtractRestIdOfNest | pipeline.py:112-118 | the well-formed fallback response yields its `rest_id` |
| Quotes.StripQuotes | pipeline.py:71 | the result is a contiguous slice of the text, with only quotes removed on either side, and neither starts nor ends with a quote |
| Quotes.StripQuotesUnique | pipeline.py:71 | any split of the text into quotes, a trimmed middle and quotes has the stripped text as its middle |
| Quotes.StripQuotesIdempotent | pipeline.py:71 | stripping twice is stripping once |
| Quotes.StripQuotesFixpoint | pipeline.py:71 | stripping leaves a text unchanged iff it neither starts nor ends with a quote |
| Pipeline.FindUser | pipeline.py:89 | `.filter(username == name).first()`: the first row with the name, or none iff no row has it |
| Pipeline.WithAgent | pipeline.py:89-93 | after lookup-or-create the agent exists, the old rows are kept as a prefix and at most one row is added |
| Pipeline.Agent | pipeline.py:89-93 | the row found is named `Solana_Insights` |
| Pipeline.WithAgentCount | pipeline.py:89-93 | a table without the agent gains exactly one agent row; a table with agent rows keeps their count |
| Pipeline.WithAgentExactlyOne | pipeline.py:89-93 | a table with at most one agent row ends with exactly one |
| Pipeline.WithAgentIdempotent | pipeline.py:89-93 | lookup-or-create is idempotent; an existing agent is reused as it is, a new one gets the next id |
| Pipeline.PublishedId | pipeline.py:96-128 | an identifier recorded for the post is never `None` |
| Pipeline.PlanAscending | pipeline.py:44-128 | the calls of a cycle follow the program order of their call sites |
| Pipeline.FailureBeforeUserStep | pipeline.py:44-86 | a call raising before the user lookup ends the cycle right after it: nothing stored, no user step, nothing published |
| Pipeline.StageFailure | pipeline.py:58-86 | a call raising in the memory, drafting or storing steps ends the cycle with the calls made so far and nothing stored or published |
| Pipeline.FailureWhilePublishing | pipeline.py:96-111 | a publishing call that raises ends the cycle with nothing recorded |
| Pipeline.GateClosed | pipeline.py:50-56 | below 0.1 SOL, with nothing raised, the cycle returns right after the balance check |
| Pipeline.NoFailure | pipeline.py:96-132 | with no call raising, every planned call is made, and the cycle finishes unless the fallback is called and the `.get` chain meets a non-dict, either the response itself or a value under one of its keys |
| Pipeline.Database.AddUser | pipeline.py:91-93 | the new user row gets a fresh id, and user ids stay distinct |
| Pipeline.Database.LookupOrCreateAgent | pipeline.py:89-93 | the user table becomes `WithAgent` of the old one, and the agent returned is the table's agent row |
| Pipeline.Database.AddPost | pipeline.py:107-108 | one post row is appended |
| Pipeline.Database.AddMemory | pipeline.py:86 | one memory is appended |
| Pipeline.Gather | pipeline.py:44-56 | the cycle stops here iff the balance is below 0.1 SOL or a gathering call raises, with the calls and the exit of the whole cycle |
| Pipeline.Recall | pipeline.py:58-67 | the cycle stops here iff a memory call raises, with the calls made |
| Pipeline.Compose | pipeline.py:69-81 | the cycle stops here iff a drafting call raises; otherwise the content is the stripped draft |
| Pipeline.Keep | pipeline.py:83-86 | the memory is appended iff the score is at least 7 and both calls return; the cycle stops here iff one of them raises |
| Pipeline.Draft | pipeline.py:58-86 | the cycle reaches the user lookup iff no call before it raises; the memory table gains the stripped post exactly when `Stored` |
| Pipeline.Publish | pipeline.py:95-128 | the publishing calls complete the cycle's calls; exactly one post row, under the agent and the obtained id, is appended iff `PublishedId` has one |
| Pipeline.RunPipeline | pipeline.py:24-132 | the calls made, the exit, and the new memory, user and post tables, each as the specification functions give them; the next user id grows by one exactly when a user was created |
| PipelineFacts.PlanMember | pipeline.py:44-128 | a call is planned iff the branches reach its call site |
| PipelineFacts.PreludeMember | pipeline.py:44-93 | the calls before the user lookup are those up to `store_memory`, the store pair only for a score of at least 7 |
| PipelineFacts.UptoMember | pipeline.py:44-128 | cutting the calls after the raising one keeps exactly the calls that come no later |
| PipelineFacts.CalledIff | pipeline.py:44-128 | a collaborator is called iff its call site is reached and no earlier call raised |
| PipelineFacts.UserStepIff | pipeline.py:54-93 | the user lookup is reached iff the gate passed and no call before it raised |
| PipelineFacts.CallsAscending | pipeline.py:44-128 | the calls made come in program order |
| PipelineFacts.CallsDistinct | pipeline.py:44-128 | no call site is called twice in a cycle (`create_embedding` has two sites), so `store_memory` and each channel are called at most once |
| PipelineFacts.GateShortCircuit | pipeline.py:54-56 | below 0.1 SOL nothing from the short-term memory on is called, nothing is stored, no user is created and nothing is published |
| PipelineFacts.StoreIff | pipeline.py:84-86 | `store_memory` is called iff the gate passed, the score is at least 7 and nothing before it raised; the memory is kept iff that call returns |
| PipelineFacts.StoredIff | pipeline.py:84-86 | the memory is kept iff the gate passed, the score is at least 7 and no call up to `store_memory` raised |
| PipelineFacts.StoredRegardlessOfPublishing | pipeline.py:84-97 | whatever happens while publishing, the memory is kept iff the gate passed and the score is at least 7 |
| PipelineFacts.StoreBeforePublish | pipeline.py:84-97 | when a significant post is published, `store_memory` was called before the primary channel |
| PipelineFacts.PublishIff | pipeline.py:96-97 | the primary channel is tried iff the user step is reached and the score is at least 3 |
| PipelineFacts.QuietBelowPublishThreshold | pipeline.py:96 | below a score of 3 neither channel is called and no post is recorded |
| PipelineFacts.PrimaryWins | pipeline.py:97-108 | a non-`None` answer from the primary channel skips the fallback, and the post is recorded under that id |
| PipelineFacts.FallbackOnce | pipeline.py:109-128 | a `None` answer leads to the fallback; the post is recorded iff the fallback returns and the nested `rest_id` is found, under that id |
| PipelineFacts.PostNeedsId | pipeline.py:96-128 | a post is recorded only after a channel was called and gave that id |
| Scheduler.Uniform | run_pipeline.py:19-33 | `random.uniform(lo, hi)` lies in `[lo, hi]` |
| Scheduler.UniformCovers | run_pipeline.py:19-33 | both ends of the range can be drawn, and a larger draw never gives a smaller value |
| Scheduler.ActivationTime | run_pipeline.py:19-21 | the activation time lies within the next ten minutes |
| Scheduler.ActiveDuration | run_pipeline.py:25-27 | the active duration lies between five and ten minutes |
| Scheduler.NextRunTime | run_pipeline.py:31-33 | the next run time lies thirty seconds to three minutes ahead |
| Scheduler.Idle | run_pipeline.py:95-97 | the idle loop ends only on a reading at or after activation, and every earlier reading was before it; a failed reading ends the cycle, and it is the last reading taken; running out of readings ends it only after every reading was before activation |
| Scheduler.Turn | run_pipeline.py:106-121 | one turn fires a run exactly when the guard reading is before deactivation, the next reading has reached the run time and an outcome is left; the run is admitted at the guard reading, starts at the firing reading and takes the next outcome; the next run time is drawn with the next draw, thirty seconds to three minutes after the completion reading; when the turn ends the cycle, `TurnEnded` says at which of its readings: deactivation at the guard reading, a crash at the last reading taken, interruption exactly where a stream ran out |
| Scheduler.AppendRun | run_pipeline.py:106-121 | a run admitted inside the window after the previous one fired, fired at the first reading that found it due, keeps the window's rules and punctuality for all runs |
| Scheduler.RunsDrawnAppend | run_pipeline.py:120 | a run whose time was drawn with the next draw keeps the runs' times drawn with successive draws |
| Scheduler.Active | run_pipeline.py:103-128 | every run was admitted before deactivation and at or after activation, fires at least thirty seconds after the previous one and takes the next outcome; each fires at the first line-107 check that reaches its run time, the run times drawn with successive draws from the reading after the previous run; the first run is due at the time drawn before the loop; `ActiveRead` pins the loop's last turn: its guard reading, the run time it waited for, and the reading or stream at which the loop ended (deactivation at that guard, a crash at the last reading taken, interruption where a stream ran out) |
| Scheduler.Step | run_pipeline.py:106-121 | one turn of the active loop either leaves the loop waiting at a later guard with its invariant (`Looping`) kept, or ends it with everything `Active` promises |
| Scheduler.LoopWaits | run_pipeline.py:106-107 | a turn whose check finds the run time not reached keeps the loop invariant, two readings on |
| Scheduler.LoopFires | run_pipeline.py:106-121 | a turn that fires a run and draws the next run time keeps the loop invariant with the run appended |
| Scheduler.LoopEnds | run_pipeline.py:103-128 | a turn that ends the loop without a run leaves what `Active` promises |
| Scheduler.LoopEndsAfterRun | run_pipeline.py:103-128 | a turn that fires a run and then ends the loop leaves what `Active` promises, with the run appended |
| Scheduler.Activate | run_pipeline.py:95-128 | no run fires before activation plus thirty seconds, the first run time is drawn from the reading after activation, and the window's rules and punctuality hold for the runs; on deactivation the last reading is the deactivating guard and the pending run time was waited for since it was drawn; `WindowRead` says how far the idle loop, the first scheduling and the active loop read and where the window ended |
| Scheduler.RunCycle | run_pipeline.py:84-128 | one pass of the outer loop keeps the window's rules (`WindowOk`) and fires its runs punctually; `CycleRead` states the stretch of the streams it read: the reading that began it, the two draws of the window, and where its window ended, with a crash at the last reading taken and an interruption only where a stream ran out |
| Scheduler.RunsAfter | run_pipeline.py:103-121 | the k-th run of a window fires at least `30 * (k + 1)` seconds after activation |
| Scheduler.RunsPerWindow | run_pipeline.py:86-121 | at most twenty runs fit in one window |
| Scheduler.SpacedAppend | run_pipeline.py:106-121 | joining two spaced run sequences, with thirty seconds at the seam, gives a spaced sequence |
| Scheduler.RunsJoin | run_pipeline.py:83-128 | the runs of a new cycle continue the earlier runs, spaced out and with the next outcomes |
| Scheduler.CyclesAppend | run_pipeline.py:83-133 | a new settled cycle extends a history of cycles that all ran to their end |
| Scheduler.CycleJoins | run_pipeline.py:83-133 | a new cycle, read from the clock after the history, extends the history |
| Scheduler.SpansJoin | run_pipeline.py:83-133 | a cycle read from where the previous one stopped extends the trace of consecutive stretches |
| Scheduler.ServeStep | run_pipeline.py:83-133 | a cycle as `RunCycle` promises it, run from where the loop stands, keeps the loop's state (`Serving`): history, trace and interruption |
| Scheduler.Serve | run_pipeline.py:68-133 | the initial run's outcome is caught; every cycle but the last ended by deactivation or a caught crash; every cycle keeps the window's rules and fires its runs punctually; all runs take the successive outcomes and fire at least thirty seconds apart; the cycles read consecutive stretches of the streams from their start, and the last one was interrupted where a stream ran out |

## Left out

- The collaborators' internals are not part of this model: Solana RPC, the language models, embeddings and vector retrieval, video rendering, and the two posting clients. Each is an input: what it answers, or that it raises.
- engines/video_maker.py and engines/prompts.py are not part of this model. They are media and prompt-text wrappers with no decision logic.
- Floating point: the balance is in lamports (0.1 SOL is 100,000,000). `random.uniform` is a draw `u` in `0..1000` standing for `u / 1000`. `timedelta` values are whole seconds, truncated.
- Wall clock and sleeping: `datetime.now()` is a stream of readings, assumed never to go backwards. `time.sleep(60)` and `time.sleep(1)` only space those readings and are not modelled.
- The `datetime.now()` calls that only feed `print` (run_pipeline.py lines 100, 108, 124 and 130) consume no reading. All logging is left out.
- The startup of `main` (run_pipeline.py:37-66) is left out: environment loading, database creation and seeding, and account setup.
- The undefined `private_key_hex` in `main` is not encoded. A run is an abstract outcome, `Returned` or `Raised`. With the code as written every run would raise and be caught.
- Embedding vectors and the retrieved memories' contents are not modelled. A memory is its content and score.
- Database commit failures are not modelled, nor a raising user query. Any collaborator call may raise, but the user step and `db.add`/`db.commit` always succeed.
- Scheduler.Serve: the process never ends on its own. The model ends it when an input stream runs out, and this stands for interruption.
- Scheduler.Turn: the reading the loop guard admits (run_pipeline.py:106) and the reading that fires the run (line 107) are distinct. The model promises that the admitted reading is before deactivation. The firing reading may fall after deactivation by the time between the two readings.

