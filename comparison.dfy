/**
 * How the replay-optimised projector relates to the write-through one.
 * Both start from the same repository and see the same batch of events.
 * When every event succeeds under write-through, the batched projector
 * leaves the same repository after its commit, provided no account that was
 * already stored receives another event and then a Cancelled in the same
 * batch. The divergence lemmas show that this proviso and the success of
 * write-through are both needed.
 */
module Comparison {
  import opened Wrappers
  import opened JavaUtil
  import opened BigDecimals
  import opened Api
  import opened Query
  import opened Repository
  import opened WriteThrough
  import opened Batched

  /**
   * No account that is stored when the batch starts is cancelled after a
   * Created, a credit or a debit of it earlier in the same batch.
   */
  predicate CancelSafe(st: Store, es: seq<Event>) {
    forall i, j ::
      (0 <= j < i < |es| && es[i].Cancelled? && es[i].accountId in st && es[j].accountId == es[i].accountId)
      ==> es[j].Cancelled?
  }

  /** Some event before the end of the prefix created, credited or debited the account. */
  predicate Touched(p: seq<Event>, id: UUID) {
    exists j :: 0 <= j < |p| && p[j].accountId == id && !p[j].Cancelled?
  }

  /** Among the hooks for the account, the last one is a save hook. */
  predicate SavedLast(hooks: seq<Hook>, id: UUID) {
    if hooks == [] then false
    else
      var h := hooks[|hooks| - 1];
      if h == SaveHook(Key(id)) then true
      else if h == DeleteHook(id) then false
      else SavedLast(hooks[..|hooks| - 1], id)
  }

  /**
   * The row a commit leaves for the account: the effect of the last hook
   * that makes a call about it, or the stored row if none does.
   */
  function Resolve(st: Store, resources: map<string, Summary>, hooks: seq<Hook>, id: UUID): Option<Summary> {
    if hooks == [] then FindById(st, id)
    else
      var h := hooks[|hooks| - 1];
      if h == DeleteHook(id) then None
      else if h == SaveHook(Key(id)) && Key(id) in resources then Some(resources[Key(id)])
      else Resolve(st, resources, hooks[..|hooks| - 1], id)
  }

  /** The row one hook's call leaves for the account, given the row before it. */
  lemma CommitStep(st: Store, resources: map<string, Summary>, cs: seq<Call>, h: Hook, id: UUID)
    requires StagedByKey(resources)
    ensures FindById(Perform(st, cs + CallOf(resources, h)), id)
      == if h == DeleteHook(id) then None
         else if h == SaveHook(Key(id)) && Key(id) in resources then Some(resources[Key(id)])
         else FindById(Perform(st, cs), id)
  {
    match h
    case SaveHook(k) =>
      if k in resources {
        var s := resources[k];
        PerformStep(st, cs, SaveCall(s));
        KeyInjective(s.accountId, id);
      } else {
        assert cs + [] == cs;
      }
    case DeleteHook(other) =>
      PerformStep(st, cs, DeleteCall(other));
  }

  /** Running the hooks of a batch leaves, for every account, the row `Resolve` names. */
  lemma {:induction false} CommitResolves(st: Store, resources: map<string, Summary>, hooks: seq<Hook>, id: UUID)
    requires StagedByKey(resources)
    ensures FindById(Perform(st, CommitCalls(resources, hooks)), id) == Resolve(st, resources, hooks, id)
  {
    if hooks != [] {
      var init, h := hooks[..|hooks| - 1], hooks[|hooks| - 1];
      CommitResolves(st, resources, init, id);
      var cs := CommitCalls(resources, init);
      assert CommitCalls(resources, hooks) == cs + CallOf(resources, h);
      CommitStep(st, resources, cs, h, id);
    }
  }

  lemma {:induction false} ResolveStaged(st: Store, resources: map<string, Summary>, hooks: seq<Hook>, id: UUID)
    requires Key(id) in resources && SavedLast(hooks, id)
    ensures Resolve(st, resources, hooks, id) == Some(resources[Key(id)])
  {
    var h := hooks[|hooks| - 1];
    if h != SaveHook(Key(id)) {
      ResolveStaged(st, resources, hooks[..|hooks| - 1], id);
    }
  }

  lemma {:induction false} ResolveUnstaged(st: Store, resources: map<string, Summary>, hooks: seq<Hook>, id: UUID)
    requires Key(id) !in resources
    ensures Resolve(st, resources, hooks, id) == if DeleteHook(id) in hooks then None else FindById(st, id)
  {
    if hooks != [] {
      var init, h := hooks[..|hooks| - 1], hooks[|hooks| - 1];
      assert hooks == init + [h];
      ResolveUnstaged(st, resources, init, id);
    }
  }

  /** A hook for another account changes nothing the invariant says about this one. */
  lemma OtherHook(hooks: seq<Hook>, h: Hook, id: UUID)
    requires h != SaveHook(Key(id)) && h != DeleteHook(id)
    ensures SavedLast(hooks + [h], id) == SavedLast(hooks, id)
    ensures DeleteHook(id) in hooks + [h] <==> DeleteHook(id) in hooks
  {
    assert (hooks + [h])[..|hooks|] == hooks;
  }

  lemma TouchedGrows(p: seq<Event>, e: Event, id: UUID)
    requires Touched(p, id)
    ensures Touched(p + [e], id)
  {
    var j :| 0 <= j < |p| && p[j].accountId == id && !p[j].Cancelled?;
    assert (p + [e])[j] == p[j];
  }

  /**
   * What ties, for one account, the batch handled so far to the repository
   * write-through has produced from the same events: a staged summary is
   * the row write-through holds, and its save hook comes after any delete
   * hook; an account with nothing staged has the row the pending delete
   * hooks leave.
   */
  predicate InvAt(st: Store, p: seq<Event>, b: Batch, w: Store, id: UUID) {
    var k := Key(id);
    && (k in b.resources ==>
          && SavedLast(b.hooks, id)
          && id in w && w[id] == b.resources[k]
          && (id in st ==> Touched(p, id)))
    && (k !in b.resources ==>
          FindById(w, id) == if DeleteHook(id) in b.hooks then None else FindById(st, id))
  }

  ghost predicate Inv(st: Store, p: seq<Event>, b: Batch, w: Store) {
    StagedByKey(b.resources) && forall id :: InvAt(st, p, b, w, id)
  }

  /** A handler for another account keeps the invariant for this one. */
  lemma StepOther(st: Store, p: seq<Event>, b: Batch, w: Store, e: Event, id: UUID)
    requires id != e.accountId
    requires Handle(st, b, e).Success? && Apply(w, e).Success?
    requires InvAt(st, p, b, w, id)
    ensures InvAt(st, p + [e], Handle(st, b, e).value, Apply(w, e).value, id)
  {
    var b', w' := Handle(st, b, e).value, Apply(w, e).value;
    KeyInjective(id, e.accountId);
    HandleFrame(st, b, e);
    assert b'.hooks == b.hooks || b'.hooks == b.hooks + [SaveHook(Key(e.accountId))]
      || b'.hooks == b.hooks + [DeleteHook(e.accountId)];
    if b'.hooks != b.hooks {
      OtherHook(b.hooks, b'.hooks[|b.hooks|], id);
      assert b'.hooks == b.hooks + [b'.hooks[|b.hooks|]];
    }
    if Key(id) in b.resources && id in st {
      TouchedGrows(p, e, id);
    }
  }

  /** A handler for the account keeps the invariant for it. */
  lemma StepSame(st: Store, p: seq<Event>, b: Batch, w: Store, e: Event)
    requires KeyedById(st)
    requires Handle(st, b, e).Success? && Apply(w, e).Success?
    requires InvAt(st, p, b, w, e.accountId)
    requires e.Cancelled? && e.accountId in st ==> !Touched(p, e.accountId)
    ensures InvAt(st, p + [e], Handle(st, b, e).value, Apply(w, e).value, e.accountId)
  {
    var id, k := e.accountId, Key(e.accountId);
    var p' := p + [e];
    assert p'[|p|] == e;
    match e
    case Created(_) =>
      assert Touched(p', id);
    case Credited(_, _) =>
      assert Touched(p', id);
    case Debited(_, _) =>
      assert Touched(p', id);
    case Cancelled(_) =>
      if k !in b.resources {
        assert DeleteHook(id) in b.hooks + [DeleteHook(id)];
      }
  }

  /** A credit or a debit that write-through can apply never throws in the batched projector. */
  lemma HandleSucceeds(st: Store, p: seq<Event>, b: Batch, w: Store, e: Event)
    requires Apply(w, e).Success?
    requires InvAt(st, p, b, w, e.accountId)
    ensures Handle(st, b, e).Success?
  {
  }

  /** A prefix of a run that write-through completes completes too. */
  lemma {:induction false} ApplyAllPrefix(st: Store, es: seq<Event>, n: nat)
    requires n <= |es| && ApplyAll(st, es).Success?
    ensures ApplyAll(st, es[..n]).Success?
  {
    if n < |es| {
      var init := es[..|es| - 1];
      assert init[..n] == es[..n];
      ApplyAllPrefix(st, init, n);
    } else {
      assert es[..n] == es;
    }
  }

  /** The invariant holds after every prefix of the batch. */
  lemma {:induction false} Simulation(st: Store, es: seq<Event>, n: nat)
    requires KeyedById(st) && CancelSafe(st, es)
    requires n <= |es| && ApplyAll(st, es[..n]).Success?
    ensures HandleAll(st, es[..n]).Success?
    ensures Inv(st, es[..n], HandleAll(st, es[..n]).value, ApplyAll(st, es[..n]).value)
  {
    if n == 0 {
      assert es[..0] == [];
      forall id
        ensures InvAt(st, es[..0], EmptyBatch, st, id)
      {
      }
    } else {
      var m := n - 1;
      var p, e := es[..m], es[m];
      assert es[..n][..m] == p;
      assert es[..n] == p + [e];
      Simulation(st, es, m);
      var b, w := HandleAll(st, p).value, ApplyAll(st, p).value;
      assert ApplyAll(st, es[..n]) == Apply(w, e);
      HandleSucceeds(st, p, b, w, e);
      assert HandleAll(st, es[..n]) == Handle(st, b, e);
      HandleFrame(st, b, e);
      forall id
        ensures InvAt(st, es[..n], Handle(st, b, e).value, Apply(w, e).value, id)
      {
        if id == e.accountId {
          StepSame(st, p, b, w, e);
        } else {
          StepOther(st, p, b, w, e, id);
        }
      }
    }
  }

  /**
   * When write-through applies every event of a batch, and the batch has
   * no cancel-after-change of a stored account, committing the batch leaves
   * exactly the repository write-through leaves.
   */
  lemma BatchMatchesWriteThrough(st: Store, es: seq<Event>)
    requires KeyedById(st) && CancelSafe(st, es)
    requires ApplyAll(st, es).Success?
    ensures BatchResult(st, es) == ApplyAll(st, es)
  {
    assert es[..|es|] == es;
    Simulation(st, es, |es|);
    var b, w := HandleAll(st, es).value, ApplyAll(st, es).value;
    var m := Perform(st, CommitCalls(b.resources, b.hooks));
    forall id
      ensures FindById(m, id) == FindById(w, id)
    {
      CommittedRow(st, es, b, w, id);
    }
    SameRows(m, w);
  }

  /** At the end of the batch, the commit leaves each account the row write-through holds. */
  lemma CommittedRow(st: Store, p: seq<Event>, b: Batch, w: Store, id: UUID)
    requires Inv(st, p, b, w)
    ensures FindById(Perform(st, CommitCalls(b.resources, b.hooks)), id) == FindById(w, id)
  {
    CommitResolves(st, b.resources, b.hooks, id);
    assert InvAt(st, p, b, w, id);
    if Key(id) in b.resources {
      ResolveStaged(st, b.resources, b.hooks, id);
    } else {
      ResolveUnstaged(st, b.resources, b.hooks, id);
    }
  }

  /** Two repositories that answer every `findById` alike are equal. */
  lemma SameRows(m: Store, w: Store)
    requires forall id :: FindById(m, id) == FindById(w, id)
    ensures m == w
  {
    assert forall id :: id in m <==> id in w by {
      forall id
        ensures id in m <==> id in w
      {
        assert FindById(m, id).Some? <==> FindById(w, id).Some?;
      }
    }
    forall id | id in m
      ensures m[id] == w[id]
    {
      assert FindById(m, id) == FindById(w, id);
    }
  }

  /**
   * A stored account credited and then cancelled in one batch: the batched
   * projector drops the staged summary and registers no delete, so the row
   * survives; write-through deletes it.
   */
  lemma CreditThenCancelKeepsRow(st: Store, id: UUID, a: Decimal)
    requires id in st
    ensures BatchCalls(st, [Credited(id, a), Cancelled(id)]) == Success([])
    ensures BatchResult(st, [Credited(id, a), Cancelled(id)]) == Success(st)
    ensures ApplyAll(st, [Credited(id, a), Cancelled(id)]) == Success(st - {id})
    ensures st - {id} != st
  {
    var es := [Credited(id, a), Cancelled(id)];
    var k := Key(id);
    assert es[..1][..0] == [];
    assert HandleAll(st, es[..1]) == Success(Batch(map[k := st[id].Credited(a)], [SaveHook(k)]));
    assert map[k := st[id].Credited(a)] - {k} == map[];
    assert HandleAll(st, es) == Success(Batch(map[], [SaveHook(k)]));
    assert CommitCalls(map[], [SaveHook(k)]) == [] by {
      assert [SaveHook(k)][..0] == [];
    }
    assert ApplyAll(st, es[..1]) == Success(st[id := st[id].Credited(a)]);
    assert (st[id := st[id].Credited(a)]) - {id} == st - {id};
    assert id !in st - {id};
  }

  /**
   * A stored account created again and cancelled in one batch: the batched
   * projector makes no call, write-through saves and then deletes the row.
   */
  lemma CreateThenCancelKeepsRow(st: Store, id: UUID)
    requires id in st
    ensures BatchResult(st, [Created(id), Cancelled(id)]) == Success(st)
    ensures ApplyAll(st, [Created(id), Cancelled(id)]) == Success(st - {id})
    ensures st - {id} != st
  {
    var es := [Created(id), Cancelled(id)];
    CreateThenCancelAlone(st, id);
    assert es[..1][..0] == [];
    assert ApplyAll(st, es[..1]) == Success(st[id := NewSummary(id)]);
    assert (st[id := NewSummary(id)]) - {id} == st - {id};
    assert id !in st - {id};
  }

  /**
   * A stored account cancelled and then credited in one batch: write-through
   * throws on the credit, while the batched projector, which still loads the
   * stored row, deletes it and saves it back with the credit.
   */
  lemma CancelThenCreditResurrects(st: Store, id: UUID, a: Decimal)
    requires KeyedById(st) && id in st
    ensures ApplyAll(st, [Cancelled(id), Credited(id, a)]) == Failure(NoSummaryFound(id))
    ensures BatchResult(st, [Cancelled(id), Credited(id, a)]) == Success(st[id := st[id].Credited(a)])
  {
    var es := [Cancelled(id), Credited(id, a)];
    var k := Key(id);
    var s := st[id].Credited(a);
    assert es[..1][..0] == [];
    assert ApplyAll(st, es[..1]) == Success(st - {id});
    CancelThenCreditHooks(st, id, a);
    var calls := [DeleteCall(id), SaveCall(s)];
    assert calls[..1][..0] == [];
    assert calls[..1] == [DeleteCall(id)];
    assert Perform(st, calls[..1]) == st - {id};
    assert Perform(st, calls) == (st - {id})[id := s];
    assert (st - {id})[id := s] == st[id := s];
  }

  /** ...the batch registers a delete hook and then a save hook of the credited row. */
  lemma CancelThenCreditHooks(st: Store, id: UUID, a: Decimal)
    requires id in st
    ensures BatchCalls(st, [Cancelled(id), Credited(id, a)]) == Success([DeleteCall(id), SaveCall(st[id].Credited(a))])
  {
    var es := [Cancelled(id), Credited(id, a)];
    var k := Key(id);
    var s := st[id].Credited(a);
    assert es[..1][..0] == [];
    assert HandleAll(st, es[..1]) == Success(Batch(map[], [DeleteHook(id)]));
    var hooks := [DeleteHook(id), SaveHook(k)];
    assert [DeleteHook(id)] + [SaveHook(k)] == hooks;
    assert map[][k := s] == map[k := s];
    assert HandleAll(st, es) == Success(Batch(map[k := s], hooks));
    assert hooks[..1][..0] == [];
    assert CommitCalls(map[k := s], hooks[..1]) == [DeleteCall(id)];
    assert CallOf(map[k := s], hooks[1]) == [SaveCall(s)];
    assert [DeleteCall(id)] + [SaveCall(s)] == [DeleteCall(id), SaveCall(s)];
  }
}
