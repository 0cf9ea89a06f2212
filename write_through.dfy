/**
 * The default projector: every event is applied to the repository as it is
 * handled. A credit or a debit changes the loaded (managed) entity in place
 * and the persistence layer writes it back; that write-back is modelled as
 * a store write.
 */
module WriteThrough {
  import opened Wrappers
  import opened JavaUtil
  import opened BigDecimals
  import opened Api
  import opened Query
  import opened Repository

  /** The effect of one event on the repository, or the exception it throws. */
  function Apply(st: Store, e: Event): (r: Result<Store, ProjectionError>)
    ensures r.Failure? <==> (e.Credited? || e.Debited?) && e.accountId !in st
    ensures r.Failure? ==> r.error == NoSummaryFound(e.accountId)
    ensures r.Success? ==> forall id :: id != e.accountId ==>
      (id in r.value <==> id in st) && (id in st ==> r.value[id] == st[id])
  {
    match e
    case Created(id) => Success(Save(st, NewSummary(id)))
    case Credited(id, a) =>
      if id in st then Success(st[id := st[id].Credited(a)]) else Failure(NoSummaryFound(id))
    case Debited(id, a) =>
      if id in st then Success(st[id := st[id].Debited(a)]) else Failure(NoSummaryFound(id))
    case Cancelled(id) => Success(DeleteById(st, id))
  }

  /** The events applied in order; the first exception ends the run. */
  function ApplyAll(st: Store, es: seq<Event>): Result<Store, ProjectionError> {
    if es == [] then Success(st)
    else
      match ApplyAll(st, es[..|es| - 1])
      case Failure(err) => Failure(err)
      case Success(st') => Apply(st', es[|es| - 1])
  }

  class AccountSummaryProjector {
    var repository: Store

    constructor (repository: Store)
      ensures this.repository == repository
    {
      this.repository := repository;
    }

    /** Saves a new summary with balance zero, replacing any stored one. */
    method OnCreated(accountId: UUID)
      modifies this
      ensures repository == old(repository)[accountId := NewSummary(accountId)]
      ensures Apply(old(repository), Created(accountId)) == Success(repository)
    {
      repository := Save(repository, NewSummary(accountId));
    }

    /** Loads the summary and adds the amount; throws if there is none. */
    method OnCredited(accountId: UUID, amount: Decimal) returns (outcome: Outcome)
      modifies this
      ensures outcome.Handled? <==> accountId in old(repository)
      ensures outcome.Handled? ==>
        repository == old(repository)[accountId := old(repository)[accountId].Credited(amount)]
      ensures outcome.Threw? ==> repository == old(repository) && outcome.error == NoSummaryFound(accountId)
      ensures Apply(old(repository), Credited(accountId, amount))
        == if outcome.Handled? then Success(repository) else Failure(outcome.error)
    {
      match FindById(repository, accountId)
      case Some(account) =>
        repository := repository[accountId := account.Credited(amount)];
        outcome := Handled;
      case None =>
        outcome := Threw(NoSummaryFound(accountId));
    }

    /** Loads the summary and subtracts the amount; throws if there is none. */
    method OnDebited(accountId: UUID, amount: Decimal) returns (outcome: Outcome)
      modifies this
      ensures outcome.Handled? <==> accountId in old(repository)
      ensures outcome.Handled? ==>
        repository == old(repository)[accountId := old(repository)[accountId].Debited(amount)]
      ensures outcome.Threw? ==> repository == old(repository) && outcome.error == NoSummaryFound(accountId)
      ensures Apply(old(repository), Debited(accountId, amount))
        == if outcome.Handled? then Success(repository) else Failure(outcome.error)
    {
      match FindById(repository, accountId)
      case Some(account) =>
        repository := repository[accountId := account.Debited(amount)];
        outcome := Handled;
      case None =>
        outcome := Threw(NoSummaryFound(accountId));
    }

    /** Deletes the id, whether or not a summary is stored for it. */
    method OnCancelled(accountId: UUID)
      modifies this
      ensures repository == old(repository) - {accountId}
      ensures Apply(old(repository), Cancelled(accountId)) == Success(repository)
    {
      repository := DeleteById(repository, accountId);
    }
  }

  /** Creating, crediting `a` and debiting `b` leaves the account stored with balance a - b. */
  lemma CreateCreditDebit(st: Store, id: UUID, a: Decimal, b: Decimal)
    ensures ApplyAll(st, [Created(id), Credited(id, a), Debited(id, b)]).Success?
    ensures var r := ApplyAll(st, [Created(id), Credited(id, a), Debited(id, b)]).value;
      id in r && r[id].accountId == id && Value(r[id].balance) == Value(a) - Value(b)
  {
    var es := [Created(id), Credited(id, a), Debited(id, b)];
    var s0 := NewSummary(id);
    var st1 := st[id := s0];
    var st2 := st1[id := s0.Credited(a)];
    assert ApplyAll(st, es[..1]) == Success(st1) by {
      assert es[..1][..0] == [];
    }
    assert ApplyAll(st, es[..2]) == Success(st2) by {
      assert es[..2][..1] == es[..1];
    }
    assert ApplyAll(st, es) == Success(st2[id := s0.Credited(a).Debited(b)]) by {
      assert es[..2] == es[..|es| - 1];
    }
  }

  /**
   * A stored account that only receives credits and debits ends with its
   * stored summary changed by exactly those credits and debits; every other
   * account is left as it was.
   */
  lemma {:induction false} CreditsAndDebits(st: Store, id: UUID, es: seq<Event>)
    requires id in st
    requires OnlyChangesOf(es, id)
    ensures ApplyAll(st, es).Success?
    ensures ApplyAll(st, es).value == st[id := ApplyChanges(st[id], ChangesOf(es))]
  {
    if es != [] {
      var init, last := es[..|es| - 1], es[|es| - 1];
      assert forall i :: 0 <= i < |init| ==> init[i] == es[i];
      CreditsAndDebits(st, id, init);
      var before := ApplyChanges(st[id], ChangesOf(init));
      var mid := st[id := before];
      assert ApplyAll(st, init) == Success(mid);
      assert ChangesOf(es) == ChangesOf(init) + [ChangeOf(last)];
      assert ApplyChanges(st[id], ChangesOf(es)) == ApplyChange(before, ChangeOf(last)) by {
        assert ChangesOf(es)[..|es| - 1] == ChangesOf(init);
      }
      assert Apply(mid, last) == Success(mid[id := ApplyChange(before, ChangeOf(last))]);
    }
  }

  /**
   * An account created and then only credited and debited has as balance
   * the credits minus the debits.
   */
  lemma CreatedThenChanged(st: Store, id: UUID, es: seq<Event>)
    requires OnlyChangesOf(es, id)
    ensures ApplyAll(st, [Created(id)] + es).Success?
    ensures var r := ApplyAll(st, [Created(id)] + es).value;
      id in r && r[id].accountId == id && Value(r[id].balance) == Net(ChangesOf(es))
  {
    var st1 := Save(st, NewSummary(id));
    assert ApplyAll(st, [Created(id)]) == Success(st1) by {
      assert [Created(id)][..0] == [];
    }
    ApplyAllAppend(st, [Created(id)], es);
    CreditsAndDebits(st1, id, es);
    ApplyChangesBalance(NewSummary(id), ChangesOf(es));
  }

  /** Running two stretches of events one after the other is running them together. */
  lemma {:induction false} ApplyAllAppend(st: Store, xs: seq<Event>, ys: seq<Event>)
    ensures ApplyAll(st, xs + ys) ==
      match ApplyAll(st, xs)
      case Failure(err) => Failure(err)
      case Success(mid) => ApplyAll(mid, ys)
  {
    if ys == [] {
      assert xs + ys == xs;
    } else {
      ApplyAllAppend(st, xs, ys[..|ys| - 1]);
      assert (xs + ys)[..|xs + ys| - 1] == xs + ys[..|ys| - 1];
    }
  }
}
