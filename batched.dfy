/**
 * The replay-optimised projector. Within one batch (one unit of work) the
 * handlers never touch the repository's rows: they stage summaries in the
 * unit of work's resources, keyed by the account id string, and register
 * prepare-commit hooks. At commit the hooks run in registration order; a
 * save hook writes whatever summary is staged under its key at that moment,
 * or nothing if the key has been removed, and a delete hook deletes by id.
 */
module Batched {
  import opened Wrappers
  import opened JavaUtil
  import opened BigDecimals
  import opened Api
  import opened Query
  import opened Repository

  /** A prepare-commit hook: `saveModel(key)` or `uow -> repository.deleteById(id)`. */
  datatype Hook = SaveHook(key: string) | DeleteHook(accountId: UUID)

  /** A call that reaches the repository at commit. */
  datatype Call = SaveCall(summary: Summary) | DeleteCall(accountId: UUID)

  /** The unit of work's per-batch state: its resources map and its hook list. */
  datatype Batch = Batch(resources: map<string, Summary>, hooks: seq<Hook>)

  const EmptyBatch: Batch := Batch(map[], [])

  /** The resources key of an account: `accountIdString()`. */
  function Key(id: UUID): string {
    ToString(id)
  }

  /** Every staged summary sits under its own id string. */
  predicate StagedByKey(resources: map<string, Summary>) {
    forall k :: k in resources ==> Key(resources[k].accountId) == k
  }

  /**
   * `getOrComputeResource(key, ...)` for a credit or a debit: the staged
   * summary if there is one; otherwise a save hook is registered and the
   * summary is loaded from the repository, which throws if it is missing.
   * The hook is registered before the load, so it is there even when the
   * load throws.
   */
  function Load(st: Store, b: Batch, id: UUID): (r: (Result<Summary, ProjectionError>, seq<Hook>))
    ensures Key(id) in b.resources ==> r == (Success(b.resources[Key(id)]), b.hooks)
    ensures Key(id) !in b.resources ==>
      && r.1 == b.hooks + [SaveHook(Key(id))]
      && r.0 == (if id in st then Success(st[id]) else Failure(NoSummaryFound(id)))
  {
    var k := Key(id);
    if k in b.resources then (Success(b.resources[k]), b.hooks)
    else (match FindById(st, id)
          case Some(s) => Success(s)
          case None => Failure(NoSummaryFound(id)), b.hooks + [SaveHook(k)])
  }

  /** What a handler does to the batch, or the exception it throws. */
  function Handle(st: Store, b: Batch, e: Event): (r: Result<Batch, ProjectionError>)
    ensures r.Failure? <==> (e.Credited? || e.Debited?) && Key(e.accountId) !in b.resources && e.accountId !in st
    ensures r.Success? ==> |b.hooks| <= |r.value.hooks| <= |b.hooks| + 1 && r.value.hooks[..|b.hooks|] == b.hooks
    ensures r.Success? && (e.Credited? || e.Debited?) ==>
      (|r.value.hooks| == |b.hooks| + 1 <==> Key(e.accountId) !in b.resources)
    ensures r.Success? && e.Cancelled? ==>
      (|r.value.hooks| == |b.hooks| + 1 <==> Key(e.accountId) !in b.resources)
    ensures r.Success? && e.Cancelled? ==> Key(e.accountId) !in r.value.resources
    ensures r.Success? && !e.Cancelled? ==> Key(e.accountId) in r.value.resources
    ensures e.Created? ==> var k := Key(e.accountId);
      r == Success(Batch(b.resources[k := NewSummary(e.accountId)], b.hooks + [SaveHook(k)]))
    ensures r.Success? && (e.Credited? || e.Debited?) ==> var k := Key(e.accountId);
      var before := if k in b.resources then b.resources[k] else st[e.accountId];
      && r.value.resources == b.resources[k := ApplyChange(before, ChangeOf(e))]
      && r.value.hooks == b.hooks + (if k in b.resources then [] else [SaveHook(k)])
    ensures e.Cancelled? ==> var k := Key(e.accountId);
      r == Success(if k in b.resources then Batch(b.resources - {k}, b.hooks)
                   else Batch(b.resources, b.hooks + [DeleteHook(e.accountId)]))
  {
    var k := Key(e.accountId);
    match e
    case Created(id) =>
      Success(Batch(b.resources[k := NewSummary(id)], b.hooks + [SaveHook(k)]))
    case Credited(id, a) =>
      var (loaded, hooks) := Load(st, b, id);
      if loaded.Failure? then Failure(loaded.error)
      else Success(Batch(b.resources[k := loaded.value.Credited(a)], hooks))
    case Debited(id, a) =>
      var (loaded, hooks) := Load(st, b, id);
      if loaded.Failure? then Failure(loaded.error)
      else Success(Batch(b.resources[k := loaded.value.Debited(a)], hooks))
    case Cancelled(id) =>
      if k in b.resources then Success(Batch(b.resources - {k}, b.hooks))
      else Success(Batch(b.resources, b.hooks + [DeleteHook(id)]))
  }

  /**
   * A handler touches the resources only under its event's key, and keeps
   * every staged summary under its own id string.
   */
  lemma HandleFrame(st: Store, b: Batch, e: Event)
    requires Handle(st, b, e).Success?
    ensures var r := Handle(st, b, e).value;
      && (forall k :: k != Key(e.accountId) ==> (k in r.resources <==> k in b.resources))
      && (forall k :: k != Key(e.accountId) && k in b.resources ==> r.resources[k] == b.resources[k])
      && (KeyedById(st) && StagedByKey(b.resources) ==> StagedByKey(r.resources))
  {
  }

  /** The batch after handling the events in order, from an empty unit of work. */
  function HandleAll(st: Store, es: seq<Event>): Result<Batch, ProjectionError> {
    if es == [] then Success(EmptyBatch)
    else
      match HandleAll(st, es[..|es| - 1])
      case Failure(err) => Failure(err)
      case Success(b) => Handle(st, b, es[|es| - 1])
  }

  /**
   * The repository call a hook makes, given the resources at commit time:
   * at most one, about the hook's own account when summaries are staged
   * under their own keys; only a save hook whose key has been removed makes
   * none.
   */
  function CallOf(resources: map<string, Summary>, h: Hook): (cs: seq<Call>)
    ensures |cs| <= 1
    ensures cs == [] <==> h.SaveHook? && h.key !in resources
    ensures StagedByKey(resources) ==> forall c :: c in cs ==> Concerns(h, Target(c))
    ensures h.DeleteHook? ==> cs == [DeleteCall(h.accountId)]
    ensures h.SaveHook? && h.key in resources ==> cs == [SaveCall(resources[h.key])]
  {
    match h
    case SaveHook(k) => if k in resources then [SaveCall(resources[k])] else []
    case DeleteHook(id) => [DeleteCall(id)]
  }

  /**
   * The repository calls made by running the hooks in registration order:
   * a save writes a staged summary, a delete comes from a delete hook, and
   * when every save hook still finds its key staged each hook makes its call.
   */
  function CommitCalls(resources: map<string, Summary>, hooks: seq<Hook>): (cs: seq<Call>)
    ensures |cs| <= |hooks|
    ensures forall c :: c in cs ==> (c.SaveCall? ==> c.summary in resources.Values)
    ensures forall c :: c in cs ==> (c.DeleteCall? ==> DeleteHook(c.accountId) in hooks)
    ensures (forall i :: 0 <= i < |hooks| ==> hooks[i].DeleteHook? || hooks[i].key in resources) ==> |cs| == |hooks|
  {
    if hooks == [] then []
    else CommitCalls(resources, hooks[..|hooks| - 1]) + CallOf(resources, hooks[|hooks| - 1])
  }

  function PerformCall(st: Store, c: Call): Store {
    match c
    case SaveCall(s) => Save(st, s)
    case DeleteCall(id) => DeleteById(st, id)
  }

  /** The repository after the calls, in order. */
  function Perform(st: Store, calls: seq<Call>): Store {
    if calls == [] then st else PerformCall(Perform(st, calls[..|calls| - 1]), calls[|calls| - 1])
  }

  lemma CommitCallsStep(resources: map<string, Summary>, hooks: seq<Hook>, i: nat)
    requires i < |hooks|
    ensures CommitCalls(resources, hooks[..i + 1]) == CommitCalls(resources, hooks[..i]) + CallOf(resources, hooks[i])
  {
    assert hooks[..i + 1][..i] == hooks[..i];
  }

  lemma PerformStep(st: Store, calls: seq<Call>, c: Call)
    ensures Perform(st, calls + [c]) == PerformCall(Perform(st, calls), c)
  {
    assert (calls + [c])[..|calls|] == calls;
  }

  /** The repository calls one batch makes at commit, or the exception that ended it. */
  function BatchCalls(st: Store, es: seq<Event>): Result<seq<Call>, ProjectionError> {
    match HandleAll(st, es)
    case Failure(err) => Failure(err)
    case Success(b) => Success(CommitCalls(b.resources, b.hooks))
  }

  /** The repository after one batch is handled and committed. */
  function BatchResult(st: Store, es: seq<Event>): Result<Store, ProjectionError> {
    match BatchCalls(st, es)
    case Failure(err) => Failure(err)
    case Success(calls) => Success(Perform(st, calls))
  }

  class OptimizedAccountSummaryProjector {
    var repository: Store
    var resources: map<string, Summary>
    var hooks: seq<Hook>

    constructor (repository: Store)
      ensures this.repository == repository && resources == map[] && hooks == []
    {
      this.repository := repository;
      this.resources := map[];
      this.hooks := [];
    }

    function CurrentBatch(): Batch
      reads this
    {
      Batch(resources, hooks)
    }

    /** `getAccountSummaryFor(id)`: the stored summary, or `IllegalStateException`. */
    method GetAccountSummaryFor(accountId: UUID) returns (r: Result<Summary, ProjectionError>)
      ensures r.Success? <==> accountId in repository
      ensures r.Success? ==> r.value == repository[accountId]
      ensures r.Failure? ==> r.error == NoSummaryFound(accountId)
    {
      match FindById(repository, accountId)
      case Some(s) => r := Success(s);
      case None => r := Failure(NoSummaryFound(accountId));
    }

    /**
     * Stages a fresh zero-balance summary, replacing any staged one, and
     * registers a save hook. The repository is not consulted.
     */
    method OnCreated(accountId: UUID)
      modifies this`resources, this`hooks
      ensures resources == old(resources)[Key(accountId) := NewSummary(accountId)]
      ensures hooks == old(hooks) + [SaveHook(Key(accountId))]
      ensures Handle(repository, old(CurrentBatch()), Created(accountId)) == Success(CurrentBatch())
    {
      var k := Key(accountId);
      resources := resources[k := NewSummary(accountId)];
      hooks := hooks + [SaveHook(k)];
    }

    /**
     * Adds the amount to the staged summary. A summary not yet staged is
     * loaded from the repository after a save hook has been registered.
     */
    method OnCredited(accountId: UUID, amount: Decimal) returns (outcome: Outcome)
      modifies this`resources, this`hooks
      ensures var k := Key(accountId);
        && (outcome.Handled? <==> k in old(resources) || accountId in repository)
        && hooks == (if k in old(resources) then old(hooks) else old(hooks) + [SaveHook(k)])
        && (outcome.Handled? ==> resources == old(resources)[k :=
              (if k in old(resources) then old(resources)[k] else repository[accountId]).Credited(amount)])
        && (outcome.Threw? ==> resources == old(resources) && outcome.error == NoSummaryFound(accountId))
      ensures Handle(repository, old(CurrentBatch()), Credited(accountId, amount))
        == if outcome.Handled? then Success(CurrentBatch()) else Failure(outcome.error)
    {
      var k := Key(accountId);
      var summary: Summary;
      if k in resources {
        summary := resources[k];
      } else {
        hooks := hooks + [SaveHook(k)];
        var loaded := GetAccountSummaryFor(accountId);
        if loaded.Failure? {
          return Threw(loaded.error);
        }
        summary := loaded.value;
        resources := resources[k := summary];
      }
      summary := summary.Credited(amount);
      resources := resources[k := summary];
      outcome := Handled;
    }

    /**
     * Subtracts the amount from the staged summary. A summary not yet staged
     * is loaded from the repository after a save hook has been registered.
     */
    method OnDebited(accountId: UUID, amount: Decimal) returns (outcome: Outcome)
      modifies this`resources, this`hooks
      ensures var k := Key(accountId);
        && (outcome.Handled? <==> k in old(resources) || accountId in repository)
        && hooks == (if k in old(resources) then old(hooks) else old(hooks) + [SaveHook(k)])
        && (outcome.Handled? ==> resources == old(resources)[k :=
              (if k in old(resources) then old(resources)[k] else repository[accountId]).Debited(amount)])
        && (outcome.Threw? ==> resources == old(resources) && outcome.error == NoSummaryFound(accountId))
      ensures Handle(repository, old(CurrentBatch()), Debited(accountId, amount))
        == if outcome.Handled? then Success(CurrentBatch()) else Failure(outcome.error)
    {
      var k := Key(accountId);
      var summary: Summary;
      if k in resources {
        summary := resources[k];
      } else {
        hooks := hooks + [SaveHook(k)];
        var loaded := GetAccountSummaryFor(accountId);
        if loaded.Failure? {
          return Threw(loaded.error);
        }
        summary := loaded.value;
        resources := resources[k := summary];
      }
      summary := summary.Debited(amount);
      resources := resources[k := summary];
      outcome := Handled;
    }

    /**
     * Removes the staged summary; only when nothing was staged is a delete
     * hook registered.
     */
    method OnCancelled(accountId: UUID)
      modifies this`resources, this`hooks
      ensures var k := Key(accountId);
        && resources == old(resources) - {k}
        && hooks == if k in old(resources) then old(hooks) else old(hooks) + [DeleteHook(accountId)]
      ensures Handle(repository, old(CurrentBatch()), Cancelled(accountId)) == Success(CurrentBatch())
    {
      var k := Key(accountId);
      var wasStaged := k in resources;
      resources := resources - {k};
      if !wasStaged {
        assert resources == old(resources);
        hooks := hooks + [DeleteHook(accountId)];
      }
      assert Handle(repository, old(CurrentBatch()), Cancelled(accountId)) == Success(Batch(resources, hooks));
    }

    /**
     * Commits the unit of work: runs the hooks in registration order against
     * the resources as they stand, then discards the batch state.
     */
    method Commit() returns (calls: seq<Call>)
      modifies this
      ensures calls == CommitCalls(old(resources), old(hooks))
      ensures repository == Perform(old(repository), calls)
      ensures resources == map[] && hooks == []
    {
      var staged, registered := resources, hooks;
      var i := 0;
      calls := [];
      while i < |registered|
        invariant 0 <= i <= |registered|
        invariant calls == CommitCalls(staged, registered[..i])
        invariant repository == Perform(old(repository), calls)
      {
        CommitCallsStep(staged, registered, i);
        match registered[i] {
          case SaveHook(k) =>
            if k in staged {
              var s := staged[k];
              PerformStep(old(repository), calls, SaveCall(s));
              repository := Save(repository, s);
              calls := calls + [SaveCall(s)];
            }
          case DeleteHook(id) =>
            PerformStep(old(repository), calls, DeleteCall(id));
            repository := DeleteById(repository, id);
            calls := calls + [DeleteCall(id)];
        }
        i := i + 1;
      }
      assert registered[..i] == registered;
      resources := map[];
      hooks := [];
    }
  }

  /** A Created is handled the same whatever the repository holds. */
  lemma CreatedIgnoresRepository(st1: Store, st2: Store, b: Batch, id: UUID)
    ensures Handle(st1, b, Created(id)) == Handle(st2, b, Created(id))
  {
  }

  /** Different accounts have different resource keys. */
  lemma KeyInjective(a: UUID, b: UUID)
    ensures Key(a) == Key(b) <==> a == b
  {
    if Key(a) == Key(b) {
      ToStringInjective(a, b);
    }
  }

  /** Handling events from a repository keyed by id keeps every summary staged under its own id string. */
  lemma {:induction false} HandleAllStagedByKey(st: Store, es: seq<Event>)
    requires KeyedById(st) && HandleAll(st, es).Success?
    ensures StagedByKey(HandleAll(st, es).value.resources)
  {
    if es != [] {
      var init := es[..|es| - 1];
      HandleAllStagedByKey(st, init);
      HandleFrame(st, HandleAll(st, init).value, es[|es| - 1]);
    }
  }

  /** A hook registered for the account `id`: its save hook, or a delete of it. */
  predicate Concerns(h: Hook, id: UUID) {
    h == SaveHook(Key(id)) || h == DeleteHook(id)
  }

  /** The hooks registered for the account `id`, in registration order. */
  function HooksOf(hooks: seq<Hook>, id: UUID): (r: seq<Hook>)
    ensures |r| <= |hooks|
    ensures forall i :: 0 <= i < |r| ==> Concerns(r[i], id) && r[i] in hooks
  {
    if hooks == [] then []
    else
      var h := hooks[|hooks| - 1];
      HooksOf(hooks[..|hooks| - 1], id) + (if Concerns(h, id) then [h] else [])
  }

  lemma HooksOfAppend(hooks: seq<Hook>, h: Hook, id: UUID)
    ensures HooksOf(hooks + [h], id) == HooksOf(hooks, id) + (if Concerns(h, id) then [h] else [])
  {
    assert (hooks + [h])[..|hooks|] == hooks;
  }

  lemma HooksOfSave(id: UUID)
    ensures HooksOf([SaveHook(Key(id))], id) == [SaveHook(Key(id))]
  {
    HooksOfAppend([], SaveHook(Key(id)), id);
    assert [] + [SaveHook(Key(id))] == [SaveHook(Key(id))];
  }

  /** What a batch holds for one account: the summary staged for it, if any, and its hooks. */
  datatype AccountView = AccountView(staged: Option<Summary>, hooks: seq<Hook>)

  function ViewOf(b: Batch, id: UUID): AccountView {
    var k := Key(id);
    AccountView(if k in b.resources then Some(b.resources[k]) else None, HooksOf(b.hooks, id))
  }

  /**
   * What a handler does for its own account depends only on what the batch
   * holds for that account.
   */
  lemma HandleSameView(st: Store, b: Batch, c: Batch, e: Event)
    requires ViewOf(b, e.accountId) == ViewOf(c, e.accountId)
    ensures Handle(st, b, e).Success? <==> Handle(st, c, e).Success?
    ensures Handle(st, b, e).Success? ==>
      ViewOf(Handle(st, b, e).value, e.accountId) == ViewOf(Handle(st, c, e).value, e.accountId)
  {
    var id := e.accountId;
    var h := if e.Cancelled? then DeleteHook(id) else SaveHook(Key(id));
    HooksOfAppend(b.hooks, h, id);
    HooksOfAppend(c.hooks, h, id);
  }

  /** A handler for another account leaves what the batch holds for this one as it was. */
  lemma HandleKeepsOtherView(st: Store, b: Batch, e: Event, id: UUID)
    requires e.accountId != id && Handle(st, b, e).Success?
    ensures ViewOf(Handle(st, b, e).value, id) == ViewOf(b, id)
  {
    KeyInjective(e.accountId, id);
    HandleFrame(st, b, e);
    var h := if e.Cancelled? then DeleteHook(e.accountId) else SaveHook(Key(e.accountId));
    HooksOfAppend(b.hooks, h, id);
  }

  /**
   * Accounts do not interfere within a batch: when the batch succeeds, the
   * account's own events handled alone succeed too and leave the same staged
   * summary and the same hooks for it, whatever other accounts' events are
   * interleaved with them.
   */
  lemma {:induction false} AccountIsolation(st: Store, es: seq<Event>, id: UUID)
    requires HandleAll(st, es).Success?
    ensures HandleAll(st, EventsOf(es, id)).Success?
    ensures ViewOf(HandleAll(st, es).value, id) == ViewOf(HandleAll(st, EventsOf(es, id)).value, id)
  {
    if es != [] {
      var init, e := es[..|es| - 1], es[|es| - 1];
      AccountIsolation(st, init, id);
      var own := EventsOf(init, id);
      var b := HandleAll(st, init).value;
      assert HandleAll(st, es) == Handle(st, b, e);
      if e.accountId == id {
        assert EventsOf(es, id) == own + [e];
        assert HandleAll(st, own + [e]) == Handle(st, HandleAll(st, own).value, e) by {
          assert (own + [e])[..|own|] == own;
        }
        HandleSameView(st, b, HandleAll(st, own).value, e);
      } else {
        assert EventsOf(es, id) == own;
        HandleKeepsOtherView(st, b, e, id);
      }
    }
  }

  /** The account a repository call writes or deletes. */
  function Target(c: Call): UUID {
    match c
    case SaveCall(s) => s.accountId
    case DeleteCall(id) => id
  }

  /** The calls about the account `id`, in order. */
  function CallsFor(calls: seq<Call>, id: UUID): (r: seq<Call>)
    ensures |r| <= |calls|
    ensures forall i :: 0 <= i < |r| ==> Target(r[i]) == id && r[i] in calls
  {
    if calls == [] then []
    else
      var c := calls[|calls| - 1];
      CallsFor(calls[..|calls| - 1], id) + (if Target(c) == id then [c] else [])
  }

  lemma {:induction false} CallsForAppend(a: seq<Call>, b: seq<Call>, id: UUID)
    ensures CallsFor(a + b, id) == CallsFor(a, id) + CallsFor(b, id)
  {
    if b == [] {
      assert a + b == a;
    } else {
      var init := b[..|b| - 1];
      CallsForAppend(a, init, id);
      assert (a + b)[..|a + b| - 1] == a + init;
    }
  }

  lemma CommitCallsAppend(resources: map<string, Summary>, hooks: seq<Hook>, h: Hook)
    ensures CommitCalls(resources, hooks + [h]) == CommitCalls(resources, hooks) + CallOf(resources, h)
  {
    assert (hooks + [h])[..|hooks|] == hooks;
  }

  /** A hook's call is about an account exactly when the hook is registered for it. */
  lemma CallsForCallOf(resources: map<string, Summary>, h: Hook, id: UUID)
    requires StagedByKey(resources)
    ensures CallsFor(CallOf(resources, h), id) == if Concerns(h, id) then CallOf(resources, h) else []
  {
    var cs := CallOf(resources, h);
    if cs != [] {
      assert cs[..0] == [];
      assert cs[0] in cs;
      KeyInjective(Target(cs[0]), id);
    }
  }

  /** At commit, the calls about an account are exactly the calls its own hooks make. */
  lemma {:induction false} CommitCallsFor(resources: map<string, Summary>, hooks: seq<Hook>, id: UUID)
    requires StagedByKey(resources)
    ensures CallsFor(CommitCalls(resources, hooks), id) == CommitCalls(resources, HooksOf(hooks, id))
  {
    if hooks != [] {
      var init, h := hooks[..|hooks| - 1], hooks[|hooks| - 1];
      CommitCallsFor(resources, init, id);
      var cs := CallOf(resources, h);
      CallsForAppend(CommitCalls(resources, init), cs, id);
      CallsForCallOf(resources, h, id);
      if Concerns(h, id) {
        CommitCallsAppend(resources, HooksOf(init, id), h);
      } else {
        assert HooksOf(hooks, id) == HooksOf(init, id);
      }
    }
  }

  /** The row an account ends with depends only on the calls about it. */
  lemma {:induction false} PerformFor(st: Store, calls: seq<Call>, id: UUID)
    ensures FindById(Perform(st, calls), id) == FindById(Perform(st, CallsFor(calls, id)), id)
  {
    if calls != [] {
      var init, c := calls[..|calls| - 1], calls[|calls| - 1];
      PerformFor(st, init, id);
      var own := CallsFor(init, id);
      if Target(c) == id {
        assert CallsFor(calls, id) == own + [c];
        PerformStep(st, own, c);
      } else {
        assert CallsFor(calls, id) == own;
      }
    }
  }

  /** A batch of one account's Created and Cancelled: the summary is unstaged and the save hook stays behind. */
  lemma CreateThenCancelAlone(st: Store, id: UUID)
    ensures HandleAll(st, [Created(id), Cancelled(id)]) == Success(Batch(map[], [SaveHook(Key(id))]))
    ensures BatchCalls(st, [Created(id), Cancelled(id)]) == Success([])
    ensures BatchResult(st, [Created(id), Cancelled(id)]) == Success(st)
  {
    var es := [Created(id), Cancelled(id)];
    var k := Key(id);
    assert HandleAll(st, es[..1]) == Success(Batch(map[k := NewSummary(id)], [SaveHook(k)])) by {
      assert es[..1][..0] == [];
    }
    assert map[k := NewSummary(id)] - {k} == map[];
    assert CommitCalls(map[], [SaveHook(k)]) == [] by {
      assert [SaveHook(k)][..0] == [];
    }
  }

  /**
   * An account left with no staged summary and its one save hook registered
   * gets no repository call at commit: the hook finds its key removed, so
   * the account's row is what it was before the batch.
   */
  lemma UnstagedSaveMakesNoCall(st: Store, es: seq<Event>, id: UUID)
    requires KeyedById(st) && HandleAll(st, es).Success?
    requires ViewOf(HandleAll(st, es).value, id) == AccountView(None, [SaveHook(Key(id))])
    ensures BatchCalls(st, es).Success? && CallsFor(BatchCalls(st, es).value, id) == []
    ensures BatchResult(st, es).Success? && FindById(BatchResult(st, es).value, id) == FindById(st, id)
  {
    var b := HandleAll(st, es).value;
    var k := Key(id);
    HandleAllStagedByKey(st, es);
    CommitCallsFor(b.resources, b.hooks, id);
    assert CommitCalls(b.resources, [SaveHook(k)]) == [] by {
      assert [SaveHook(k)][..0] == [];
    }
    PerformFor(st, CommitCalls(b.resources, b.hooks), id);
  }

  /**
   * In any batch, an account that is created and then cancelled, with no
   * other event of its own in between, gets no repository call at all: its
   * row is what it was before the batch.
   */
  lemma CreateThenCancelMakesNoCall(st: Store, id: UUID, es: seq<Event>)
    requires KeyedById(st) && HandleAll(st, es).Success?
    requires EventsOf(es, id) == [Created(id), Cancelled(id)]
    ensures BatchCalls(st, es).Success? && CallsFor(BatchCalls(st, es).value, id) == []
    ensures BatchResult(st, es).Success? && FindById(BatchResult(st, es).value, id) == FindById(st, id)
  {
    assert ViewOf(HandleAll(st, es).value, id) == AccountView(None, [SaveHook(Key(id))]) by {
      AccountIsolation(st, es, id);
      CreateThenCancelAlone(st, id);
      HooksOfSave(id);
    }
    UnstagedSaveMakesNoCall(st, es, id);
  }

  /** A credit or a debit of a staged account changes only its staged summary and registers nothing. */
  lemma ChangeOfStaged(st: Store, b: Batch, e: Event)
    requires (e.Credited? || e.Debited?) && Key(e.accountId) in b.resources
    ensures var k := Key(e.accountId);
      Handle(st, b, e) == Success(Batch(b.resources[k := ApplyChange(b.resources[k], ChangeOf(e))], b.hooks))
  {
  }

  lemma ChangesOfLast(s: Summary, es: seq<Event>)
    requires es != [] && forall i :: 0 <= i < |es| ==> es[i].Credited? || es[i].Debited?
    ensures ApplyChanges(s, ChangesOf(es)) == ApplyChange(ApplyChanges(s, ChangesOf(es[..|es| - 1])), ChangeOf(es[|es| - 1]))
  {
    assert ChangesOf(es)[..|es| - 1] == ChangesOf(es[..|es| - 1]);
  }

  lemma OnlyChangesOfPrefix(es: seq<Event>, id: UUID)
    requires es != [] && OnlyChangesOf(es, id)
    ensures OnlyChangesOf(es[..|es| - 1], id)
  {
  }

  /** The batch of one stored account's credits and debits alone. */
  lemma {:induction false} ChangesStageOnceAlone(st: Store, id: UUID, es: seq<Event>)
    requires id in st && es != [] && OnlyChangesOf(es, id)
    ensures HandleAll(st, es) == Success(Batch(map[Key(id) := ApplyChanges(st[id], ChangesOf(es))], [SaveHook(Key(id))]))
  {
    var init, last := es[..|es| - 1], es[|es| - 1];
    var k := Key(id);
    ChangesOfLast(st[id], es);
    var before := ApplyChanges(st[id], ChangesOf(init));
    if init == [] {
      assert before == st[id];
      assert HandleAll(st, es) == Handle(st, EmptyBatch, last);
      assert map[][k := ApplyChange(st[id], ChangeOf(last))] == map[k := ApplyChange(st[id], ChangeOf(last))];
    } else {
      OnlyChangesOfPrefix(es, id);
      ChangesStageOnceAlone(st, id, init);
      var b := Batch(map[k := before], [SaveHook(k)]);
      ChangeOfStaged(st, b, last);
      assert b.resources[k := ApplyChange(before, ChangeOf(last))] == map[k := ApplyChange(before, ChangeOf(last))];
    }
  }

  /** A batch of one stored account's credits and debits followed by its Cancelled, alone. */
  lemma ChangesThenCancelAlone(st: Store, id: UUID, es: seq<Event>)
    requires id in st && |es| >= 2 && es[|es| - 1] == Cancelled(id) && OnlyChangesOf(es[..|es| - 1], id)
    ensures HandleAll(st, es) == Success(Batch(map[], [SaveHook(Key(id))]))
  {
    var init := es[..|es| - 1];
    var k := Key(id);
    ChangesStageOnceAlone(st, id, init);
    assert map[k := ApplyChanges(st[id], ChangesOf(init))] - {k} == map[];
  }

  /**
   * In any batch, a stored account whose own events are credits and debits
   * followed by its Cancelled is left with nothing staged and the one save
   * hook its load registered.
   */
  lemma ChangesThenCancelView(st: Store, id: UUID, es: seq<Event>)
    requires id in st && HandleAll(st, es).Success?
    requires |EventsOf(es, id)| >= 2 && EventsOf(es, id)[|EventsOf(es, id)| - 1] == Cancelled(id)
    requires OnlyChangesOf(EventsOf(es, id)[..|EventsOf(es, id)| - 1], id)
    ensures ViewOf(HandleAll(st, es).value, id) == AccountView(None, [SaveHook(Key(id))])
  {
    var own := EventsOf(es, id);
    var alone := Batch(map[], [SaveHook(Key(id))]);
    assert HandleAll(st, own) == Success(alone) by {
      ChangesThenCancelAlone(st, id, own);
    }
    assert ViewOf(alone, id) == AccountView(None, [SaveHook(Key(id))]) by {
      HooksOfSave(id);
    }
    AccountIsolation(st, es, id);
  }

  /**
   * In any batch, a stored account whose own events are one or more credits
   * and debits followed by its Cancelled, whatever other accounts' events
   * are interleaved with them, gets neither a save nor a delete: the cancel
   * removes the staged summary, so the save hook registered on the load
   * finds nothing, and no delete hook is registered because a summary was
   * staged. Its row is what it was before the batch.
   */
  lemma ChangesThenCancelMakesNoCall(st: Store, id: UUID, es: seq<Event>)
    requires KeyedById(st) && id in st && HandleAll(st, es).Success?
    requires |EventsOf(es, id)| >= 2 && EventsOf(es, id)[|EventsOf(es, id)| - 1] == Cancelled(id)
    requires OnlyChangesOf(EventsOf(es, id)[..|EventsOf(es, id)| - 1], id)
    ensures BatchCalls(st, es).Success? && CallsFor(BatchCalls(st, es).value, id) == []
    ensures BatchResult(st, es).Success? && FindById(BatchResult(st, es).value, id) == FindById(st, id)
  {
    ChangesThenCancelView(st, id, es);
    UnstagedSaveMakesNoCall(st, es, id);
  }

  /**
   * In any batch, a stored account whose own events are only credits and
   * debits, whatever other accounts' events are interleaved with them, has
   * exactly one hook, a save hook, and its final summary staged.
   */
  lemma ChangesStageOnce(st: Store, id: UUID, es: seq<Event>)
    requires id in st && HandleAll(st, es).Success?
    requires EventsOf(es, id) != [] && OnlyChangesOf(EventsOf(es, id), id)
    ensures var b := HandleAll(st, es).value;
      && Key(id) in b.resources
      && b.resources[Key(id)] == ApplyChanges(st[id], ChangesOf(EventsOf(es, id)))
      && HooksOf(b.hooks, id) == [SaveHook(Key(id))]
  {
    AccountIsolation(st, es, id);
    ChangesStageOnceAlone(st, id, EventsOf(es, id));
    HooksOfSave(id);
  }

  /**
   * ...so at commit the only call about it is one save, with the stored
   * balance plus its credits minus its debits, and that is its row after
   * the commit.
   */
  lemma SavedOnceWithFinalBalance(st: Store, id: UUID, es: seq<Event>)
    requires KeyedById(st) && id in st && HandleAll(st, es).Success?
    requires EventsOf(es, id) != [] && OnlyChangesOf(EventsOf(es, id), id)
    ensures var final := ApplyChanges(st[id], ChangesOf(EventsOf(es, id)));
      && BatchCalls(st, es).Success? && CallsFor(BatchCalls(st, es).value, id) == [SaveCall(final)]
      && BatchResult(st, es).Success? && FindById(BatchResult(st, es).value, id) == Some(final)
      && Value(final.balance) == Value(st[id].balance) + Net(ChangesOf(EventsOf(es, id)))
  {
    var b := HandleAll(st, es).value;
    var final := ApplyChanges(st[id], ChangesOf(EventsOf(es, id)));
    ChangesStageOnce(st, id, es);
    ApplyChangesBalance(st[id], ChangesOf(EventsOf(es, id)));
    SavedOnce(st, es, id, final);
  }

  /** A batch whose only call about the account is one save leaves that summary as its row. */
  lemma SavedOnce(st: Store, es: seq<Event>, id: UUID, final: Summary)
    requires KeyedById(st) && HandleAll(st, es).Success? && final.accountId == id
    requires var b := HandleAll(st, es).value;
      Key(id) in b.resources && b.resources[Key(id)] == final && HooksOf(b.hooks, id) == [SaveHook(Key(id))]
    ensures BatchCalls(st, es).Success? && CallsFor(BatchCalls(st, es).value, id) == [SaveCall(final)]
    ensures BatchResult(st, es).Success? && FindById(BatchResult(st, es).value, id) == Some(final)
  {
    var b := HandleAll(st, es).value;
    var k := Key(id);
    HandleAllStagedByKey(st, es);
    CommitCallsFor(b.resources, b.hooks, id);
    assert CommitCalls(b.resources, [SaveHook(k)]) == [SaveCall(final)] by {
      assert [SaveHook(k)][..0] == [];
    }
    PerformFor(st, CommitCalls(b.resources, b.hooks), id);
    PerformStep(st, [], SaveCall(final));
    assert [] + [SaveCall(final)] == [SaveCall(final)];
  }

  lemma AppendLast(p: seq<Event>, es: seq<Event>)
    requires es != []
    ensures p + es == (p + es[..|es| - 1]) + [es[|es| - 1]]
  {
    assert es == es[..|es| - 1] + [es[|es| - 1]];
  }

  /** One more credit or debit of the only staged account. */
  lemma StagedStep(st: Store, q: seq<Event>, id: UUID, before: Summary, e: Event)
    requires HandleAll(st, q) == Success(Batch(map[Key(id) := before], [SaveHook(Key(id))]))
    requires (e.Credited? || e.Debited?) && e.accountId == id
    ensures HandleAll(st, q + [e]) == Success(Batch(map[Key(id) := ApplyChange(before, ChangeOf(e))], [SaveHook(Key(id))]))
  {
    var k := Key(id);
    var b := Batch(map[k := before], [SaveHook(k)]);
    assert (q + [e])[..|q|] == q;
    ChangeOfStaged(st, b, e);
    assert b.resources[k := ApplyChange(before, ChangeOf(e))] == map[k := ApplyChange(before, ChangeOf(e))];
  }

  /** Credits and debits of an account that is the only one staged, with its save hook registered. */
  lemma {:induction false} StagedThenChanged(st: Store, p: seq<Event>, es: seq<Event>, id: UUID, s: Summary)
    requires HandleAll(st, p) == Success(Batch(map[Key(id) := s], [SaveHook(Key(id))]))
    requires OnlyChangesOf(es, id)
    ensures HandleAll(st, p + es) == Success(Batch(map[Key(id) := ApplyChanges(s, ChangesOf(es))], [SaveHook(Key(id))]))
  {
    if es == [] {
      assert p + es == p;
    } else {
      var init, last := es[..|es| - 1], es[|es| - 1];
      OnlyChangesOfPrefix(es, id);
      StagedThenChanged(st, p, init, id, s);
      var before := ApplyChanges(s, ChangesOf(init));
      var q := p + init;
      AppendLast(p, es);
      StagedStep(st, q, id, before, last);
      ChangesOfLast(s, es);
    }
  }

  /** The batch of one account's Created followed by its credits and debits alone. */
  lemma CreatedThenChangedAlone(st: Store, id: UUID, es: seq<Event>)
    requires OnlyChangesOf(es, id)
    ensures HandleAll(st, [Created(id)] + es)
      == Success(Batch(map[Key(id) := ApplyChanges(NewSummary(id), ChangesOf(es))], [SaveHook(Key(id))]))
  {
    assert [Created(id)][..0] == [];
    StagedThenChanged(st, [Created(id)], es, id, NewSummary(id));
  }

  /** What that batch holds for the account: its final summary staged and one save hook. */
  lemma CreatedThenChangedView(st: Store, id: UUID, es: seq<Event>)
    requires OnlyChangesOf(es, id)
    ensures HandleAll(st, [Created(id)] + es).Success?
    ensures ViewOf(HandleAll(st, [Created(id)] + es).value, id)
      == AccountView(Some(ApplyChanges(NewSummary(id), ChangesOf(es))), [SaveHook(Key(id))])
  {
    CreatedThenChangedAlone(st, id, es);
    HooksOfSave(id);
  }

  /**
   * In any batch, an account whose own events are a Created followed only by
   * credits and debits, whatever other accounts' events are interleaved
   * with them, has one hook, a save hook, and its final summary staged.
   */
  lemma CreatedThenChangedStagesOnce(st: Store, id: UUID, es: seq<Event>)
    requires HandleAll(st, es).Success?
    requires |EventsOf(es, id)| > 0 && EventsOf(es, id)[0] == Created(id)
    requires OnlyChangesOf(EventsOf(es, id)[1..], id)
    ensures var b := HandleAll(st, es).value;
      && Key(id) in b.resources
      && b.resources[Key(id)] == ApplyChanges(NewSummary(id), ChangesOf(EventsOf(es, id)[1..]))
      && HooksOf(b.hooks, id) == [SaveHook(Key(id))]
  {
    var own := EventsOf(es, id);
    AccountIsolation(st, es, id);
    assert own == [Created(id)] + own[1..];
    CreatedThenChangedView(st, id, own[1..]);
  }

  /**
   * ...so at commit the only call about it is one save, with the credits
   * minus the debits as its balance, and that is its row after the commit.
   */
  lemma CreatedThenChangedSavedOnce(st: Store, id: UUID, es: seq<Event>)
    requires KeyedById(st) && HandleAll(st, es).Success?
    requires |EventsOf(es, id)| > 0 && EventsOf(es, id)[0] == Created(id)
    requires OnlyChangesOf(EventsOf(es, id)[1..], id)
    ensures var final := ApplyChanges(NewSummary(id), ChangesOf(EventsOf(es, id)[1..]));
      && BatchCalls(st, es).Success? && CallsFor(BatchCalls(st, es).value, id) == [SaveCall(final)]
      && BatchResult(st, es).Success? && FindById(BatchResult(st, es).value, id) == Some(final)
      && Value(final.balance) == Net(ChangesOf(EventsOf(es, id)[1..]))
  {
    var final := ApplyChanges(NewSummary(id), ChangesOf(EventsOf(es, id)[1..]));
    CreatedThenChangedStagesOnce(st, id, es);
    ApplyChangesBalance(NewSummary(id), ChangesOf(EventsOf(es, id)[1..]));
    SavedOnce(st, es, id, final);
  }

  /**
   * Each Created registers its own save hook, so two Created events for one
   * account in a batch save it twice: a write is coalesced only across
   * credits and debits.
   */
  lemma CreatedTwiceSavesTwice(st: Store, id: UUID)
    ensures BatchCalls(st, [Created(id), Created(id)]) == Success([SaveCall(NewSummary(id)), SaveCall(NewSummary(id))])
  {
    var es := [Created(id), Created(id)];
    var k := Key(id);
    assert HandleAll(st, es[..1]) == Success(Batch(map[k := NewSummary(id)], [SaveHook(k)])) by {
      assert es[..1][..0] == [];
    }
    var hooks := [SaveHook(k), SaveHook(k)];
    assert [SaveHook(k)] + [SaveHook(k)] == hooks;
    assert map[k := NewSummary(id)][k := NewSummary(id)] == map[k := NewSummary(id)];
    assert HandleAll(st, es) == Success(Batch(map[k := NewSummary(id)], hooks));
    var r := map[k := NewSummary(id)];
    assert CommitCalls(r, hooks[..1]) == [SaveCall(NewSummary(id))] by {
      assert hooks[..1][..0] == [];
    }
    assert CallOf(r, hooks[1]) == [SaveCall(NewSummary(id))];
    assert CommitCalls(r, hooks) == CommitCalls(r, hooks[..1]) + CallOf(r, hooks[1]);
    assert [SaveCall(NewSummary(id))] + [SaveCall(NewSummary(id))] == [SaveCall(NewSummary(id)), SaveCall(NewSummary(id))];
    assert BatchCalls(st, es) == Success(CommitCalls(r, hooks));
  }
}
