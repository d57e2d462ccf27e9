/**
 * One content cycle of the agent (`run_pipeline` in pipeline.py): gather
 * data, pass the balance gate, draft and score a post, keep significant
 * posts in long-term memory, publish through the API with the session
 * channel as fallback, and record the published post in the database.
 *
 * The collaborators (Solana RPC, language models, embeddings, video
 * rendering, the two posting clients) are not modelled: what each of them
 * answers, and which one raises, is the input `Collaborators`.
 */
module Pipeline {
  import opened Wrappers
  import opened Json
  import opened Quotes

  /** 0.1 SOL, the balance below which the cycle stops, in lamports. */
  const MinBalance: int := 100_000_000
  /** Score from which a post is kept in long-term memory. */
  const StoreThreshold: int := 7
  /** Score from which a post is published. */
  const PublishThreshold: int := 3
  const AgentName: string := "Solana_Insights"
  const AgentEmail: string := "solana_insights@example.com"
  const PostKind: string := "text"

  /** Each collaborator call site of `run_pipeline`, in program order. */
  datatype Step =
    | CollectData       // collect_sol_data
    | FormatData        // format_post_list
    | CheckBalance      // get_wallet_balance
    | SynthesizeMemory  // generate_short_term_memory
    | EmbedMemory       // create_embedding of the short-term memory
    | RetrieveMemories  // retrieve_relevant_memories
    | GeneratePost      // generate_post
    | ScorePost         // score_significance
    | MakeVideo         // generate_video
    | EmbedPost         // create_embedding of the new post
    | StoreMemory       // store_memory
    | SendViaApi        // send_post_API, the primary channel
    | SendViaSession    // send_post, the fallback channel

  /** What the collaborators answer during one cycle. */
  datatype Collaborators = Collaborators(
    balance: int,             // wallet balance in lamports
    draft: string,            // generate_post's text, before stripping
    score: int,               // score_significance's rating
    apiResult: Json,          // send_post_API's result; Null stands for None
    sessionResponse: Json,    // send_post's decoded response
    failing: Option<Step>)    // the call that raises, if one does

  datatype User = User(id: nat, username: string, email: string)
  datatype Post = Post(content: string, userId: nat, username: string, kind: string, tweetId: Json)
  /** A long-term memory entry; the embedding vector is not modelled. */
  datatype Memory = Memory(content: string, score: int)

  /** How `run_pipeline` ends: it returns (early or not), or an exception escapes. */
  datatype Exit =
    | LowBalance               // returned at the balance gate
    | Finished                 // returned at the end
    | Raised(step: Step)       // a collaborator raised
    | MalformedResponse        // `.get` on a non-dict in the fallback response raised

  /* ---------------------------------------------------------------------- */
  /* Users: `db.query(User).filter(User.username == name).first()`          */
  /* ---------------------------------------------------------------------- */

  /** The position of the first user with the given name. */
  function FindUser(users: seq<User>, name: string): (r: Option<nat>)
    ensures r.Some? ==> r.value < |users| && users[r.value].username == name
    ensures r.Some? ==> forall k | 0 <= k < r.value :: users[k].username != name
    ensures r.None? ==> forall k | 0 <= k < |users| :: users[k].username != name
    decreases |users|
  {
    if users == [] then None
    else if users[0].username == name then Some(0)
    else match FindUser(users[1..], name)
      case None => None
      case Some(i) => Some(i + 1)
  }

  /** How many users carry the name. */
  function CountNamed(users: seq<User>, name: string): nat
    decreases |users|
  {
    if users == [] then 0
    else (if users[|users| - 1].username == name then 1 else 0) + CountNamed(users[..|users| - 1], name)
  }

  /** The user table after the lookup-or-create of the agent's account. */
  function WithAgent(users: seq<User>, nextId: nat): (r: seq<User>)
    ensures FindUser(r, AgentName).Some?
    ensures users <= r && |r| <= |users| + 1
  {
    if FindUser(users, AgentName).Some? then users
    else
      var r := users + [User(nextId, AgentName, AgentEmail)];
      assert r[|users|].username == AgentName;
      r
  }

  /** The agent's account, once it exists. */
  function Agent(users: seq<User>): (u: User)
    requires FindUser(users, AgentName).Some?
    ensures u.username == AgentName
  {
    users[FindUser(users, AgentName).value]
  }

  lemma {:induction false} CountNamedZero(users: seq<User>, name: string)
    ensures CountNamed(users, name) == 0 <==> forall k | 0 <= k < |users| :: users[k].username != name
    decreases |users|
  {
    if users != [] {
      var init := users[..|users| - 1];
      CountNamedZero(init, name);
      assert forall k | 0 <= k < |init| :: init[k] == users[k];
    }
  }

  /**
   * Lookup-or-create leaves at least one agent account and never a second
   * one: a table with no such account gains exactly one, a table with some
   * keeps the count it had.
   */
  lemma WithAgentCount(users: seq<User>, nextId: nat)
    ensures CountNamed(WithAgent(users, nextId), AgentName)
         == if CountNamed(users, AgentName) == 0 then 1 else CountNamed(users, AgentName)
  {
    CountNamedZero(users, AgentName);
    if FindUser(users, AgentName).None? {
      var r := WithAgent(users, nextId);
      assert r[..|r| - 1] == users;
    }
  }

  /** So a table with at most one agent account ends with exactly one. */
  lemma WithAgentExactlyOne(users: seq<User>, nextId: nat)
    requires CountNamed(users, AgentName) <= 1
    ensures CountNamed(WithAgent(users, nextId), AgentName) == 1
  {
    WithAgentCount(users, nextId);
  }

  /** Lookup-or-create is idempotent, and an existing account is reused as it is. */
  lemma WithAgentIdempotent(users: seq<User>, nextId: nat, laterId: nat)
    ensures WithAgent(WithAgent(users, nextId), laterId) == WithAgent(users, nextId)
    ensures FindUser(users, AgentName).Some? ==> Agent(WithAgent(users, nextId)) == Agent(users)
    ensures FindUser(users, AgentName).None? ==> Agent(WithAgent(users, nextId)) == User(nextId, AgentName, AgentEmail)
  {
    if FindUser(users, AgentName).None? {
      var r := WithAgent(users, nextId);
      assert forall k | 0 <= k < |users| :: r[k] == users[k];
      assert FindUser(r, AgentName) == Some(|users|);
    }
  }

  /* ---------------------------------------------------------------------- */
  /* Which collaborators are called                                          */
  /* ---------------------------------------------------------------------- */

  /** The calls before the balance gate. */
  const Gathering: seq<Step> := [CollectData, FormatData, CheckBalance]

  /** The calls that build the memory context. */
  const Recalling: seq<Step> := [SynthesizeMemory, EmbedMemory, RetrieveMemories]

  /** The calls that produce the post. */
  const Composing: seq<Step> := [GeneratePost, ScorePost, MakeVideo]

  /** The calls that keep a significant post in long-term memory. */
  function Keeping(env: Collaborators): seq<Step> {
    if env.score >= StoreThreshold then [EmbedPost, StoreMemory] else []
  }

  /** The calls after the gate and before the user lookup. */
  function Drafting(env: Collaborators): seq<Step> {
    Recalling + Composing + Keeping(env)
  }

  /** The calls of the two-tier publish. */
  function Publishing(env: Collaborators): seq<Step> {
    if env.score >= PublishThreshold then
      [SendViaApi] + (if env.apiResult == Null then [SendViaSession] else [])
    else []
  }

  /** The calls made when no collaborator raises. */
  function Plan(env: Collaborators): seq<Step> {
    [CollectData, FormatData, CheckBalance]
    + (if env.balance < MinBalance then [] else Drafting(env) + Publishing(env))
  }

  /** The first position of `x` in `s`. */
  function IndexOf(s: seq<Step>, x: Step): (i: nat)
    requires x in s
    ensures i < |s| && s[i] == x && x !in s[..i]
    decreases |s|
  {
    if s[0] == x then 0
    else
      var i := IndexOf(s[1..], x);
      assert s[..i + 1] == [s[0]] + s[1..][..i];
      i + 1
  }

  /** The calls of `s` that happen when `failing` raises: everything up to and including it. */
  function Upto(s: seq<Step>, failing: Option<Step>): (r: seq<Step>)
    ensures r <= s
    ensures failing.Some? && failing.value in s ==> |r| > 0 && r[|r| - 1] == failing.value && failing.value !in r[..|r| - 1]
    ensures !(failing.Some? && failing.value in s) ==> r == s
  {
    if failing.Some? && failing.value in s then
      var i := IndexOf(s, failing.value);
      assert s[..i + 1][..i] == s[..i];
      s[..i + 1]
    else s
  }

  /** The calls made during the cycle, in order. */
  function Calls(env: Collaborators): seq<Step> {
    Upto(Plan(env), env.failing)
  }

  predicate FailsAmong(env: Collaborators, steps: seq<Step>) {
    env.failing.Some? && env.failing.value in steps
  }

  /** The calls before the user lookup when the gate passes. */
  function Prelude(env: Collaborators): seq<Step> {
    [CollectData, FormatData, CheckBalance] + Drafting(env)
  }

  /** The gate passed and no call before the user lookup raised. */
  predicate UserStepReached(env: Collaborators) {
    env.balance >= MinBalance && !FailsAmong(env, Prelude(env))
  }

  /** `store_memory` ran to completion: it is the last call before the user lookup. */
  predicate Stored(env: Collaborators) {
    UserStepReached(env) && env.score >= StoreThreshold
  }

  /** The identifier under which the post was published, if it was. */
  function PublishedId(env: Collaborators): (r: Option<Json>)
    ensures r.Some? ==> r.value != Null
  {
    if !UserStepReached(env) || env.score < PublishThreshold || env.failing == Some(SendViaApi) then None
    else if env.apiResult != Null then Some(env.apiResult)
    else if env.failing == Some(SendViaSession) then None
    else match ExtractRestId(env.sessionResponse)
      case Found(id) => Some(id)
      case _ => None
  }

  /** How the cycle ends. */
  function ExpectedExit(env: Collaborators): Exit {
    if FailsAmong(env, Plan(env)) then Raised(env.failing.value)
    else if env.balance < MinBalance then LowBalance
    else if SendViaSession in Plan(env) && ExtractRestId(env.sessionResponse).NotAnObject? then MalformedResponse
    else Finished
  }

  /** The position of each step in the program text of `run_pipeline`. */
  function Rank(s: Step): nat {
    match s
    case CollectData => 0
    case FormatData => 1
    case CheckBalance => 2
    case SynthesizeMemory => 3
    case EmbedMemory => 4
    case RetrieveMemories => 5
    case GeneratePost => 6
    case ScorePost => 7
    case MakeVideo => 8
    case EmbedPost => 9
    case StoreMemory => 10
    case SendViaApi => 11
    case SendViaSession => 12
  }

  predicate Ascending(s: seq<Step>) {
    forall i | 0 < i < |s| :: Rank(s[i - 1]) < Rank(s[i])
  }

  lemma {:induction false} AscendingBelow(s: seq<Step>, m: nat, k: nat)
    requires Ascending(s) && m < k < |s|
    ensures Rank(s[m]) < Rank(s[k])
    decreases k - m
  {
    if m + 1 < k {
      AscendingBelow(s, m, k - 1);
    }
  }

  lemma {:induction false} AscendingConcat(a: seq<Step>, b: seq<Step>)
    requires Ascending(a) && Ascending(b)
    requires |a| > 0 && |b| > 0 ==> Rank(a[|a| - 1]) < Rank(b[0])
    ensures Ascending(a + b)
  {
    var s := a + b;
    forall i | 0 < i < |s| ensures Rank(s[i - 1]) < Rank(s[i]) {
      if i < |a| {
        assert s[i - 1] == a[i - 1] && s[i] == a[i];
      } else if i == |a| {
        assert s[i - 1] == a[|a| - 1] && s[i] == b[0];
      } else {
        assert s[i - 1] == b[i - 1 - |a|] && s[i] == b[i - |a|];
      }
    }
  }

  lemma DraftingAscending(env: Collaborators)
    ensures Ascending(Drafting(env)) && Rank(Drafting(env)[|Drafting(env)| - 1]) <= Rank(StoreMemory)
  {
    var keeping := Keeping(env);
    AscendingConcat(Recalling, Composing);
    AscendingConcat(Recalling + Composing, keeping);
  }

  lemma PublishingAscending(env: Collaborators)
    ensures Ascending(Publishing(env)) && (|Publishing(env)| > 0 ==> Publishing(env)[0] == SendViaApi)
  {
  }

  /** The calls follow the program text, so no call site is reached twice. */
  lemma PlanAscending(env: Collaborators)
    ensures Ascending(Plan(env))
  {
    if env.balance >= MinBalance {
      DraftingAscending(env);
      PublishingAscending(env);
      AscendingConcat(Drafting(env), Publishing(env));
      AscendingConcat([CollectData, FormatData, CheckBalance], Drafting(env) + Publishing(env));
    }
  }

  lemma FirstOccurrence(env: Collaborators, k: nat)
    requires k < |Plan(env)|
    ensures Plan(env)[k] !in Plan(env)[..k]
  {
    var p := Plan(env);
    PlanAscending(env);
    forall m | 0 <= m < k ensures p[m] != p[k] {
      AscendingBelow(p, m, k);
    }
  }

  lemma UptoHit(s: seq<Step>, k: nat)
    requires k < |s| && s[k] !in s[..k]
    ensures Upto(s, Some(s[k])) == s[..k + 1]
  {
    var i := IndexOf(s, s[k]);
    NotInPrefix(s, k, s[k]);
    NotInPrefix(s, i, s[k]);
  }

  lemma NotInPrefix(s: seq<Step>, k: nat, x: Step)
    requires k <= |s| && x !in s[..k]
    ensures forall m | 0 <= m < k :: s[m] != x
  {
    forall m | 0 <= m < k ensures s[m] != x {
      assert s[..k][m] == s[m];
    }
  }

  /** A call before the user lookup raised: the cycle made no change and ends with that exception. */
  lemma FailureBeforeUserStep(env: Collaborators, k: nat)
    requires k < |Prelude(env)| && env.failing == Some(Prelude(env)[k])
    requires k >= 3 ==> env.balance >= MinBalance
    ensures Calls(env) == Prelude(env)[..k + 1]
    ensures !UserStepReached(env) && !Stored(env) && PublishedId(env) == None
    ensures ExpectedExit(env) == Raised(env.failing.value)
  {
    var p := Plan(env);
    assert p[..k + 1] == Prelude(env)[..k + 1];

    assert p[k] == Prelude(env)[k];
    FirstOccurrence(env, k);
    UptoHit(p, k);
  }

  /** The first stage after the gate, followed by the rest. */
  lemma DraftingStages(env: Collaborators)
    ensures Drafting(env) == [] + Recalling + (Composing + Keeping(env))
  {
  }

  /**
   * The `j`-th call of a stage after the gate raised: the calls are the
   * earlier stages and that stage up to the raise.
   */
  lemma StageFailure(env: Collaborators, earlier: seq<Step>, stage: seq<Step>, after: seq<Step>, j: nat, done: seq<Step>)
    requires env.balance >= MinBalance && Drafting(env) == earlier + stage + after
    requires j < |stage| && env.failing == Some(stage[j]) && done == stage[..j + 1]
    ensures Calls(env) == Gathering + (earlier + done)
    ensures earlier == [] ==> Calls(env) == Gathering + done
    ensures !UserStepReached(env) && !Stored(env) && PublishedId(env) == None
    ensures ExpectedExit(env) == Raised(env.failing.value)
  {
    var k := |Gathering| + |earlier| + j;
    assert Prelude(env) == Gathering + (earlier + stage + after);
    StagePrefix(Gathering, earlier, stage, after, j, done);
    FailureBeforeUserStep(env, k);
    if earlier == [] {
      assert earlier + done == done;
    }
  }

  /** Cutting a sequence of stages inside one of them. */
  lemma StagePrefix(g: seq<Step>, earlier: seq<Step>, stage: seq<Step>, after: seq<Step>, j: nat, done: seq<Step>)
    requires j < |stage| && done == stage[..j + 1]
    ensures |g + (earlier + stage + after)| > |g| + |earlier| + j
    ensures (g + (earlier + stage + after))[|g| + |earlier| + j] == stage[j]
    ensures (g + (earlier + stage + after))[..|g| + |earlier| + j + 1] == g + (earlier + done)
  {
    var s, k := g + (earlier + stage + after), |g| + |earlier| + j;
    assert s[k] == stage[j];
    forall m | 0 <= m < k + 1 ensures s[m] == (g + (earlier + done))[m] {
      if m >= |g| + |earlier| {
        assert s[m] == stage[m - |g| - |earlier|];
      }
    }
  }

  /** A publishing call raised: the post is not recorded and the cycle ends with that exception. */
  lemma FailureWhilePublishing(env: Collaborators, k: nat)
    requires UserStepReached(env)
    requires k < |Publishing(env)| && env.failing == Some(Publishing(env)[k])
    ensures Calls(env) == Prelude(env) + Publishing(env)[..k + 1]
    ensures Calls(env) == Prelude(env) + (if k == 0 then [SendViaApi] else [SendViaApi, SendViaSession])
    ensures PublishedId(env) == None && ExpectedExit(env) == Raised(env.failing.value)
  {
    var p := Plan(env);
    var n := |Prelude(env)|;
    assert p[..n + k] == Prelude(env) + Publishing(env)[..k];
    assert p[..n + k + 1] == Prelude(env) + Publishing(env)[..k + 1];
    FirstOccurrence(env, n + k);
    UptoHit(p, n + k);
  }

  /** Below the threshold, with nothing raised, the cycle stops right after the balance check. */
  lemma GateClosed(env: Collaborators)
    requires env.balance < MinBalance && !FailsAmong(env, Gathering)
    ensures Calls(env) == Gathering && ExpectedExit(env) == LowBalance && !UserStepReached(env)
  {
    assert Plan(env) == Gathering;
  }

  /** No call raised: every planned call is made. */
  lemma NoFailure(env: Collaborators)
    requires UserStepReached(env) && !FailsAmong(env, Publishing(env))
    ensures Calls(env) == Plan(env) == Prelude(env) + Publishing(env)
    ensures ExpectedExit(env)
         == if SendViaSession in Publishing(env) && ExtractRestId(env.sessionResponse).NotAnObject?
            then MalformedResponse else Finished
  {
  }

  /* ---------------------------------------------------------------------- */
  /* The database session and the memory store                              */
  /* ---------------------------------------------------------------------- */

  /** The `db` session: the user and post tables, and the long-term memory that `store_memory` writes. */
  class Database {
    var users: seq<User>
    var posts: seq<Post>
    var memories: seq<Memory>
    /** The id the next inserted user receives. */
    var nextId: nat

    /** User ids are distinct and below `nextId`. */
    ghost predicate Valid()
      reads this
    {
      && (forall k | 0 <= k < |users| :: users[k].id < nextId)
      && (forall i, j | 0 <= i < j < |users| :: users[i].id != users[j].id)
    }

    constructor (users0: seq<User>, posts0: seq<Post>, memories0: seq<Memory>, nextId0: nat)
      requires forall k | 0 <= k < |users0| :: users0[k].id < nextId0
      requires forall i, j | 0 <= i < j < |users0| :: users0[i].id != users0[j].id
      ensures Valid()
      ensures users == users0 && posts == posts0 && memories == memories0 && nextId == nextId0
    {
      users, posts, memories, nextId := users0, posts0, memories0, nextId0;
    }

    /** `db.add(User(...)); db.commit()`: the new row receives a fresh id. */
    method AddUser(username: string, email: string) returns (user: User)
      requires Valid()
      modifies this`users, this`nextId
      ensures Valid()
      ensures user == User(old(nextId), username, email)
      ensures users == old(users) + [user] && nextId == old(nextId) + 1
    {
      user := User(nextId, username, email);
      users := users + [user];
      nextId := nextId + 1;
    }

    /** `db.query(User).filter(User.username == "Solana_Insights").first()`, or a new row when there is none. */
    method LookupOrCreateAgent() returns (agent: User)
      requires Valid()
      modifies this`users, this`nextId
      ensures Valid()
      ensures users == WithAgent(old(users), old(nextId)) && agent == Agent(users)
      ensures nextId == if users == old(users) then old(nextId) else old(nextId) + 1
    {
      var found := FindUser(users, AgentName);
      if found.Some? {
        agent := users[found.value];
      } else {
        agent := AddUser(AgentName, AgentEmail);
      }
      WithAgentIdempotent(old(users), old(nextId), old(nextId));
    }

    /** `db.add(Post(...)); db.commit()`. */
    method AddPost(post: Post)
      modifies this`posts
      ensures posts == old(posts) + [post]
    {
      posts := posts + [post];
    }

    /** `store_memory(db, content, embedding, score)`. */
    method AddMemory(memory: Memory)
      modifies this`memories
      ensures memories == old(memories) + [memory]
    {
      memories := memories + [memory];
    }
  }

  /* ---------------------------------------------------------------------- */
  /* run_pipeline                                                            */
  /* ---------------------------------------------------------------------- */

  /**
   * Steps 1-2 of `run_pipeline`: gather the chain data and read the balance.
   * `stop` is the cycle's exit when it ends here.
   */
  method Gather(env: Collaborators) returns (stop: Option<Exit>, calls: seq<Step>)
    ensures stop.Some? <==> (env.balance < MinBalance || FailsAmong(env, Gathering))
    ensures stop.Some? ==> calls == Calls(env) && stop.value == ExpectedExit(env) && !UserStepReached(env)
    ensures stop.None? ==> calls == Gathering
  {
    calls := [CollectData];
    if env.failing == Some(CollectData) { FailureBeforeUserStep(env, 0); return Some(Raised(CollectData)), calls; }
    calls := calls + [FormatData];
    if env.failing == Some(FormatData) { FailureBeforeUserStep(env, 1); return Some(Raised(FormatData)), calls; }
    calls := calls + [CheckBalance];
    if env.failing == Some(CheckBalance) { FailureBeforeUserStep(env, 2); return Some(Raised(CheckBalance)), calls; }
    if env.balance < MinBalance {
      GateClosed(env);
      return Some(LowBalance), calls;
    }
    return None, calls;
  }

  /** Steps 3-5 of `run_pipeline`: summarise the data into a memory and recall related ones. */
  method Recall(env: Collaborators) returns (stop: Option<Exit>, calls: seq<Step>)
    requires env.balance >= MinBalance && !FailsAmong(env, Gathering)
    ensures stop.Some? <==> FailsAmong(env, Recalling)
    ensures stop.Some? ==> Gathering + calls == Calls(env) && stop.value == ExpectedExit(env) && !UserStepReached(env)
    ensures stop.None? ==> calls == Recalling
  {
    DraftingStages(env);
    calls := [SynthesizeMemory];
    if env.failing == Some(SynthesizeMemory) { StageFailure(env, [], Recalling, Composing + Keeping(env), 0, calls); return Some(Raised(SynthesizeMemory)), calls; }
    calls := calls + [EmbedMemory];
    if env.failing == Some(EmbedMemory) { StageFailure(env, [], Recalling, Composing + Keeping(env), 1, calls); return Some(Raised(EmbedMemory)), calls; }
    calls := calls + [RetrieveMemories];
    if env.failing == Some(RetrieveMemories) { StageFailure(env, [], Recalling, Composing + Keeping(env), 2, calls); return Some(Raised(RetrieveMemories)), calls; }
    return None, calls;
  }

  /** Steps 6-8: the new post, stripped of surrounding quotes, its score and its video. */
  method Compose(env: Collaborators) returns (stop: Option<Exit>, calls: seq<Step>, content: string)
    requires env.balance >= MinBalance && !FailsAmong(env, Gathering) && !FailsAmong(env, Recalling)
    ensures stop.Some? <==> FailsAmong(env, Composing)
    ensures stop.Some? ==> Calls(env) == Gathering + (Recalling + calls) && stop.value == ExpectedExit(env) && !UserStepReached(env)
    ensures stop.None? ==> calls == Composing && content == StripQuotes(env.draft)
  {
    calls, content := [GeneratePost], [];
    if env.failing == Some(GeneratePost) { StageFailure(env, Recalling, Composing, Keeping(env), 0, calls); return Some(Raised(GeneratePost)), calls, content; }
    content := StripQuotes(env.draft);
    calls := calls + [ScorePost];
    if env.failing == Some(ScorePost) { StageFailure(env, Recalling, Composing, Keeping(env), 1, calls); return Some(Raised(ScorePost)), calls, content; }
    calls := calls + [MakeVideo];
    if env.failing == Some(MakeVideo) { StageFailure(env, Recalling, Composing, Keeping(env), 2, calls); return Some(Raised(MakeVideo)), calls, content; }
    return None, calls, content;
  }

  /** Step 9: a significant post goes to long-term memory. */
  method Keep(db: Database, env: Collaborators, content: string) returns (stop: Option<Exit>, calls: seq<Step>)
    requires env.balance >= MinBalance
    requires !FailsAmong(env, Gathering) && !FailsAmong(env, Recalling) && !FailsAmong(env, Composing)
    modifies db`memories
    ensures stop.Some? <==> FailsAmong(env, Keeping(env))
    ensures stop.Some? ==> Calls(env) == Gathering + (Recalling + Composing + calls) && stop.value == ExpectedExit(env) && !UserStepReached(env)
    ensures stop.None? ==> calls == Keeping(env) && UserStepReached(env)
    ensures db.memories == old(db.memories) + (if Stored(env) then [Memory(content, env.score)] else [])
  {
    calls := [];
    if env.score >= StoreThreshold {
      calls := calls + [EmbedPost];
      if env.failing == Some(EmbedPost) { StageFailure(env, Recalling + Composing, Keeping(env), [], 0, calls); return Some(Raised(EmbedPost)), calls; }
      calls := calls + [StoreMemory];
      if env.failing == Some(StoreMemory) { StageFailure(env, Recalling + Composing, Keeping(env), [], 1, calls); return Some(Raised(StoreMemory)), calls; }
      db.AddMemory(Memory(content, env.score));
    }
    return None, calls;
  }

  /**
   * Steps 3-9 of `run_pipeline`: draft, score and render the post, and keep
   * it in long-term memory when it is significant. `stop` is the cycle's
   * exit when it ends here.
   */
  method Draft(db: Database, env: Collaborators) returns (stop: Option<Exit>, calls: seq<Step>, content: string)
    requires env.balance >= MinBalance && !FailsAmong(env, Gathering)
    modifies db`memories
    ensures stop.Some? <==> !UserStepReached(env)
    ensures stop.Some? ==> Gathering + calls == Calls(env) && stop.value == ExpectedExit(env)
    ensures stop.None? ==> Gathering + calls == Prelude(env) && content == StripQuotes(env.draft)
    ensures db.memories == old(db.memories)
                           + (if Stored(env) then [Memory(StripQuotes(env.draft), env.score)] else [])
  {
    var more;
    stop, calls := Recall(env);
    content := [];
    if stop.Some? {
      return;
    }
    stop, more, content := Compose(env);
    calls := calls + more;
    if stop.Some? {
      return;
    }
    stop, more := Keep(db, env, content);
    calls := calls + more;
  }

  /**
   * Step 11: the two-tier publish and the record of the published post.
   * `sent` are the publishing calls made.
   */
  method Publish(db: Database, env: Collaborators, content: string, agent: User) returns (exit: Exit, sent: seq<Step>)
    requires UserStepReached(env)
    modifies db`posts
    ensures Calls(env) == Prelude(env) + sent && exit == ExpectedExit(env)
    ensures db.posts == old(db.posts)
                        + (if PublishedId(env).Some?
                           then [Post(content, agent.id, agent.username, PostKind, PublishedId(env).value)]
                           else [])
  {
    sent := [];
    if env.score >= PublishThreshold {
      // the primary channel
      sent := [SendViaApi];
      if env.failing == Some(SendViaApi) {
        FailureWhilePublishing(env, 0);
        return Raised(SendViaApi), sent;
      }
      if env.apiResult != Null {
        db.AddPost(Post(content, agent.id, agent.username, PostKind, env.apiResult));
      } else {
        // the fallback channel, tried once
        sent := [SendViaApi, SendViaSession];
        if env.failing == Some(SendViaSession) {
          FailureWhilePublishing(env, 1);
          return Raised(SendViaSession), sent;
        }
        var restId := ExtractRestId(env.sessionResponse);
        if restId.NotAnObject? {
          NoFailure(env);
          return MalformedResponse, sent;
        }
        if restId.Found? {
          db.AddPost(Post(content, agent.id, agent.username, PostKind, restId.value));
        }
      }
    }
    NoFailure(env);
    return Finished, sent;
  }

  /** `run_pipeline`: one content cycle against the database `db`. */
  method RunPipeline(db: Database, env: Collaborators) returns (exit: Exit, calls: seq<Step>)
    requires db.Valid()
    modifies db
    ensures db.Valid()
    ensures calls == Calls(env) && exit == ExpectedExit(env)
    ensures db.memories == old(db.memories)
                           + (if Stored(env) then [Memory(StripQuotes(env.draft), env.score)] else [])
    ensures db.users == if UserStepReached(env) then WithAgent(old(db.users), old(db.nextId)) else old(db.users)
    ensures db.nextId == if db.users == old(db.users) then old(db.nextId) else old(db.nextId) + 1
    ensures db.posts == old(db.posts)
                        + (if PublishedId(env).Some?
                           then [Post(StripQuotes(env.draft), Agent(db.users).id, AgentName, PostKind, PublishedId(env).value)]
                           else [])
  {
    var stop, content, drafted;
    stop, calls := Gather(env);
    if stop.Some? {
      return stop.value, calls;
    }
    stop, drafted, content := Draft(db, env);
    calls := calls + drafted;
    if stop.Some? {
      return stop.value, calls;
    }

    // Step 10: look up or create the agent's account
    var agent := db.LookupOrCreateAgent();

    var sent;
    exit, sent := Publish(db, env, content, agent);
    calls := calls + sent;
  }
}
