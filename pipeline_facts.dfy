/**
 * What one `run_pipeline` cycle does, stated over the collaborators'
 * behaviour: which calls it makes, when it stores a memory, when and on
 * which channel it publishes, and which identifier the recorded post gets.
 * `Pipeline.RunPipeline` is proved to make exactly `Calls(env)` and to
 * change the database as `Stored(env)` and `PublishedId(env)` say; the
 * lemmas here state what those mean.
 */
module PipelineFacts {
  import opened Wrappers
  import opened Json
  import opened Pipeline

  /** Whether `run_pipeline` reaches the call site of `x` when no call raises, read off its branches. */
  predicate Planned(env: Collaborators, x: Step) {
    match x
    case CollectData | FormatData | CheckBalance => true
    case SynthesizeMemory | EmbedMemory | RetrieveMemories | GeneratePost | ScorePost | MakeVideo =>
      env.balance >= MinBalance
    case EmbedPost | StoreMemory => env.balance >= MinBalance && env.score >= StoreThreshold
    case SendViaApi => env.balance >= MinBalance && env.score >= PublishThreshold
    case SendViaSession => env.balance >= MinBalance && env.score >= PublishThreshold && env.apiResult == Null
  }

  /** The call that raises is reached and comes before `x` in program order. */
  predicate RaisesBefore(env: Collaborators, x: Step) {
    env.failing.Some? && Planned(env, env.failing.value) && Rank(env.failing.value) < Rank(x)
  }

  /** The planned calls are exactly those whose call site the branches reach. */
  lemma PlanMember(env: Collaborators, x: Step)
    ensures x in Plan(env) <==> Planned(env, x)
  {
    if env.balance >= MinBalance {
      assert Plan(env) == Gathering + (Recalling + Composing + Keeping(env) + Publishing(env));
    } else {
      assert Plan(env) == Gathering;
    }
  }

  /** The calls before the user lookup are those ranked up to `store_memory`, the store pair only for a significant post. */
  lemma PreludeMember(env: Collaborators, x: Step)
    ensures x in Prelude(env)
        <==> Rank(x) <= Rank(StoreMemory) && (Rank(x) >= Rank(EmbedPost) ==> env.score >= StoreThreshold)
  {
    assert Prelude(env) == Gathering + (Recalling + Composing + Keeping(env));
  }

  /** In an ascending sequence, position order and rank order agree. */
  lemma AscendingOrder(s: seq<Step>, m: nat, i: nat)
    requires Ascending(s) && m < |s| && i < |s|
    ensures m <= i <==> Rank(s[m]) <= Rank(s[i])
  {
    if m < i {
      AscendingBelow(s, m, i);
    } else if i < m {
      AscendingBelow(s, i, m);
    }
  }

  /** Cutting an ascending sequence after the raising call keeps exactly the calls ranked up to it. */
  lemma UptoMember(s: seq<Step>, failing: Option<Step>, x: Step)
    requires Ascending(s)
    ensures x in Upto(s, failing)
        <==> x in s && !(failing.Some? && failing.value in s && Rank(failing.value) < Rank(x))
  {
    if failing.Some? && failing.value in s {
      var i := IndexOf(s, failing.value);
      assert Upto(s, failing) == s[..i + 1];
      if x in s[..i + 1] {
        var m :| 0 <= m <= i && s[..i + 1][m] == x;
        AscendingOrder(s, m, i);
      } else if x in s {
        var m :| 0 <= m < |s| && s[m] == x;
        NotInPrefix(s, i + 1, x);
        AscendingOrder(s, m, i);
      }
    }
  }

  /** A collaborator is called iff it is planned and no earlier call raised. */
  lemma CalledIff(env: Collaborators, x: Step)
    ensures x in Calls(env) <==> Planned(env, x) && !RaisesBefore(env, x)
  {
    PlanAscending(env);
    UptoMember(Plan(env), env.failing, x);
    PlanMember(env, x);
    if env.failing.Some? {
      PlanMember(env, env.failing.value);
    }
  }

  /** The user lookup is reached iff the gate passed and no call before it raised. */
  lemma UserStepIff(env: Collaborators)
    ensures UserStepReached(env) <==> env.balance >= MinBalance && !RaisesBefore(env, SendViaApi)
  {
    if env.failing.Some? {
      PreludeMember(env, env.failing.value);
    }
  }

  /** The calls are made in program order. */
  lemma CallsAscending(env: Collaborators)
    ensures Ascending(Calls(env))
  {
    var c, p := Calls(env), Plan(env);
    PlanAscending(env);
    forall i | 0 < i < |c| ensures Rank(c[i - 1]) < Rank(c[i]) {
      assert c[i - 1] == p[i - 1] && c[i] == p[i];
    }
  }

  /**
   * No call site is called twice in one cycle (`create_embedding` has two
   * sites), so `store_memory` and each channel are called at most once.
   */
  lemma CallsDistinct(env: Collaborators)
    ensures forall i, j | 0 <= i < j < |Calls(env)| :: Calls(env)[i] != Calls(env)[j]
  {
    var c := Calls(env);
    CallsAscending(env);
    forall i, j | 0 <= i < j < |c| ensures c[i] != c[j] {
      AscendingBelow(c, i, j);
    }
  }

  /**
   * Below the balance threshold the cycle stops after reading the balance:
   * nothing from the memory step on is called, nothing is stored and
   * nothing is published.
   */
  lemma GateShortCircuit(env: Collaborators)
    requires env.balance < MinBalance
    ensures Calls(env) <= Gathering
    ensures forall x | x in Calls(env) :: Rank(x) < Rank(SynthesizeMemory)
    ensures !UserStepReached(env) && !Stored(env) && PublishedId(env) == None
    ensures ExpectedExit(env) == if FailsAmong(env, Gathering) then Raised(env.failing.value) else LowBalance
  {
    assert Plan(env) == Gathering;
  }

  /**
   * `store_memory` is called iff the gate passed, the score is at least 7
   * and no earlier call raised; the memory is kept iff that call is made
   * and returns.
   */
  lemma StoreIff(env: Collaborators)
    ensures StoreMemory in Calls(env)
        <==> env.balance >= MinBalance && env.score >= StoreThreshold && !RaisesBefore(env, StoreMemory)
    ensures Stored(env) <==> StoreMemory in Calls(env) && env.failing != Some(StoreMemory)
  {
    CalledIff(env, StoreMemory);
    StoredIff(env);
  }

  /** The memory is kept iff the gate passed, the score is at least 7 and no call up to `store_memory` raised. */
  lemma StoredIff(env: Collaborators)
    ensures Stored(env)
        <==> env.balance >= MinBalance && env.score >= StoreThreshold && !RaisesBefore(env, StoreMemory)
             && env.failing != Some(StoreMemory)
  {
    UserStepIff(env);
    assert RaisesBefore(env, SendViaApi)
       <==> RaisesBefore(env, StoreMemory) || (env.failing == Some(StoreMemory) && Planned(env, StoreMemory));
  }

  /**
   * The memory is kept whatever happens while publishing: when no call
   * before the user lookup raises, it depends only on the balance and the
   * score, not on either channel's answer or on a publishing call raising.
   */
  lemma StoredRegardlessOfPublishing(env: Collaborators)
    requires env.failing.None? || env.failing.value == SendViaApi || env.failing.value == SendViaSession
    ensures Stored(env) <==> env.balance >= MinBalance && env.score >= StoreThreshold
  {
    UserStepIff(env);
  }

  /** When the cycle publishes a significant post, `store_memory` has already been called. */
  lemma StoreBeforePublish(env: Collaborators)
    requires SendViaApi in Calls(env) && env.score >= StoreThreshold
    ensures Stored(env) && StoreMemory in Calls(env)
    ensures IndexOf(Calls(env), StoreMemory) < IndexOf(Calls(env), SendViaApi)
  {
    CalledIff(env, SendViaApi);
    CalledIff(env, StoreMemory);
    StoreIff(env);
    var c := Calls(env);
    var s, a := IndexOf(c, StoreMemory), IndexOf(c, SendViaApi);
    CallsAscending(env);
    AscendingOrder(c, a, s);
  }

  /** The primary channel is tried iff the cycle reaches the user lookup with a score of at least 3. */
  lemma PublishIff(env: Collaborators)
    ensures SendViaApi in Calls(env) <==> UserStepReached(env) && env.score >= PublishThreshold
  {
    CalledIff(env, SendViaApi);
    UserStepIff(env);
  }

  /** A post scored below 3 is neither sent on either channel nor recorded. */
  lemma QuietBelowPublishThreshold(env: Collaborators)
    requires env.score < PublishThreshold
    ensures SendViaApi !in Calls(env) && SendViaSession !in Calls(env) && PublishedId(env) == None
  {
    CalledIff(env, SendViaApi);
    CalledIff(env, SendViaSession);
  }

  /**
   * The primary channel answered with an id: the fallback is not called and
   * the post is recorded under that id.
   */
  lemma PrimaryWins(env: Collaborators)
    requires SendViaApi in Calls(env) && env.failing != Some(SendViaApi) && env.apiResult != Null
    ensures SendViaSession !in Calls(env)
    ensures PublishedId(env) == Some(env.apiResult)
  {
    PublishIff(env);
    CalledIff(env, SendViaSession);
  }

  /**
   * The primary channel answered `None`: the fallback is called (once, as
   * every call), and the post is recorded iff the fallback returned and the
   * nested `rest_id` is present, under that id.
   */
  lemma FallbackOnce(env: Collaborators)
    requires SendViaApi in Calls(env) && env.failing != Some(SendViaApi) && env.apiResult == Null
    ensures SendViaSession in Calls(env)
    ensures PublishedId(env).Some?
        <==> env.failing != Some(SendViaSession) && ExtractRestId(env.sessionResponse).Found?
    ensures PublishedId(env).Some? ==> ExtractRestId(env.sessionResponse) == Found(PublishedId(env).value)
  {
    PublishIff(env);
    CalledIff(env, SendViaSession);
  }

  /** A post is recorded only after a channel was called and gave an id. */
  lemma PostNeedsId(env: Collaborators)
    ensures PublishedId(env).Some? ==> SendViaApi in Calls(env) && env.score >= PublishThreshold
    ensures PublishedId(env).Some? && SendViaSession in Calls(env)
            ==> env.apiResult == Null && ExtractRestId(env.sessionResponse) == Found(PublishedId(env).value)
    ensures PublishedId(env).Some? && SendViaSession !in Calls(env) ==> PublishedId(env) == Some(env.apiResult)
  {
    PublishIff(env);
    CalledIff(env, SendViaApi);
    CalledIff(env, SendViaSession);
  }
}
