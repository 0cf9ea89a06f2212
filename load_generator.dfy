/**
 * The event load generator. Each publisher keeps a list of account-id
 * slots and, for every event it publishes, draws a slot: an empty slot gets
 * a new account (Created); an occupied one is credited, debited or
 * cancelled according to a dice throw, and a cancelled account leaves its
 * slot empty. The random draws are inputs here.
 */
module LoadGenerator {
  import opened Wrappers
  import opened JavaUtil
  import opened BigDecimals
  import opened Api
  import opened Repository
  import opened WriteThrough

  /** `Random.nextFloat()` returns `n / 2^24` for a 24-bit draw `n`; this is `n`. */
  newtype FloatDraw = n: int | 0 <= n < 0x100_0000

  /** `0.5f` is exactly `0x80_0000 / 2^24`. */
  const HALF: int := 0x80_0000
  /** `0.8f` is exactly `13421773 / 2^24`. */
  const FOUR_FIFTHS: int := 13421773

  /**
   * The random inputs of one `generateAccountEvent` call: the slot index
   * (`nextInt`), the dice (`nextFloat`), the id a new account would get
   * (`UUID.randomUUID`) and the amount a credit or debit would carry.
   */
  datatype Draw = Draw(index: int, dice: FloatDraw, newId: UUID, amount: Decimal)

  /** The new slots and the event that one `generateAccountEvent` call produces. */
  function Generate(slots: seq<Option<UUID>>, d: Draw): (r: (seq<Option<UUID>>, Event))
    requires 0 <= d.index < |slots|
    ensures |r.0| == |slots|
    ensures forall j :: 0 <= j < |slots| && j != d.index ==> r.0[j] == slots[j]
    ensures slots[d.index].None? ==> r.1 == Created(d.newId) && r.0[d.index] == Some(d.newId)
    ensures slots[d.index].Some? ==>
      && r.1.accountId == slots[d.index].value
      && (r.1.Credited? <==> (d.dice as int) < HALF)
      && (r.1.Debited? <==> HALF <= (d.dice as int) < FOUR_FIFTHS)
      && (r.1.Cancelled? <==> FOUR_FIFTHS <= (d.dice as int))
      && r.0[d.index] == (if r.1.Cancelled? then None else slots[d.index])
  {
    match slots[d.index]
    case None => (slots[d.index := Some(d.newId)], Created(d.newId))
    case Some(id) =>
      if (d.dice as int) < HALF then (slots, Credited(id, d.amount))
      else if (d.dice as int) < FOUR_FIFTHS then (slots, Debited(id, d.amount))
      else (slots[d.index := None], Cancelled(id))
  }

  /**
   * `generateAccountEvent(accountIds, rng)`. The index is drawn below the
   * list's size, so the list must not be empty.
   */
  method GenerateAccountEvent(accountIds: array<Option<UUID>>, d: Draw) returns (e: Event)
    requires 0 <= d.index < accountIds.Length
    modifies accountIds
    ensures (accountIds[..], e) == Generate(old(accountIds[..]), d)
  {
    var accountId := accountIds[d.index];
    match accountId
    case None =>
      accountIds[d.index] := Some(d.newId);
      e := Created(d.newId);
    case Some(id) =>
      if (d.dice as int) < HALF {
        e := Credited(id, d.amount);
      } else if (d.dice as int) < FOUR_FIFTHS {
        e := Debited(id, d.amount);
      } else {
        accountIds[d.index] := None;
        e := Cancelled(id);
      }
  }

  /** The accounts created and not cancelled since, in a publisher's stream. */
  function Live(es: seq<Event>): set<UUID> {
    if es == [] then {}
    else
      var before := Live(es[..|es| - 1]);
      match es[|es| - 1]
      case Created(id) => before + {id}
      case Cancelled(id) => before - {id}
      case _ => before
  }

  /**
   * Every event opens a new account or concerns a live one: a Created is
   * never for a live account, and a credit, debit or cancel never for an
   * unknown one.
   */
  predicate WellFormed(es: seq<Event>) {
    forall i :: 0 <= i < |es| ==> (es[i].Created? <==> es[i].accountId !in Live(es[..i]))
  }

  /** The ids in the occupied slots. */
  function SlotIds(slots: seq<Option<UUID>>): set<UUID> {
    set j | 0 <= j < |slots| && slots[j].Some? :: slots[j].value
  }

  /** No id sits in two slots. */
  predicate DistinctSlots(slots: seq<Option<UUID>>) {
    forall j, l :: 0 <= j < l < |slots| && slots[j].Some? && slots[l].Some? ==> slots[j].value != slots[l].value
  }

  /**
   * The publisher's loop invariant: the occupied slots hold exactly the
   * live accounts, each in one slot, and every one of them was drawn fresh.
   */
  predicate SlotsInv(slots: seq<Option<UUID>>, es: seq<Event>, used: set<UUID>) {
    DistinctSlots(slots) && SlotIds(slots) == Live(es) && Live(es) <= used
  }

  lemma LiveStep(es: seq<Event>, e: Event)
    ensures e.Created? ==> Live(es + [e]) == Live(es) + {e.accountId}
    ensures e.Cancelled? ==> Live(es + [e]) == Live(es) - {e.accountId}
    ensures e.Credited? || e.Debited? ==> Live(es + [e]) == Live(es)
  {
    assert (es + [e])[..|es|] == es;
  }

  /** Emptying a slot drops exactly its id, since no other slot holds it. */
  lemma ClearSlot(slots: seq<Option<UUID>>, i: int)
    requires DistinctSlots(slots) && 0 <= i < |slots| && slots[i].Some?
    ensures DistinctSlots(slots[i := None])
    ensures SlotIds(slots[i := None]) == SlotIds(slots) - {slots[i].value}
  {
    var s' := slots[i := None];
    forall x | x in SlotIds(slots) - {slots[i].value}
      ensures x in SlotIds(s')
    {
      var j :| 0 <= j < |slots| && slots[j].Some? && slots[j].value == x;
      assert s'[j] == slots[j];
    }
  }

  /** Filling an empty slot with an id held nowhere else adds exactly that id. */
  lemma FillSlot(slots: seq<Option<UUID>>, i: int, id: UUID)
    requires DistinctSlots(slots) && 0 <= i < |slots| && slots[i].None? && id !in SlotIds(slots)
    ensures DistinctSlots(slots[i := Some(id)])
    ensures SlotIds(slots[i := Some(id)]) == SlotIds(slots) + {id}
  {
    var s' := slots[i := Some(id)];
    forall j, l | 0 <= j < l < |s'| && s'[j].Some? && s'[l].Some?
      ensures s'[j].value != s'[l].value
    {
      if j == i {
        assert slots[l].value in SlotIds(slots);
      } else if l == i {
        assert slots[j].value in SlotIds(slots);
      }
    }
    assert s'[i].value in SlotIds(s');
    forall x | x in SlotIds(slots)
      ensures x in SlotIds(s')
    {
      var j :| 0 <= j < |slots| && slots[j].Some? && slots[j].value == x;
      assert s'[j] == slots[j];
    }
  }

  /**
   * One call keeps the invariant, and the event it yields is a Created
   * exactly when its account was not live.
   */
  lemma GenerateKeepsInvariant(slots: seq<Option<UUID>>, es: seq<Event>, used: set<UUID>, d: Draw)
    requires SlotsInv(slots, es, used) && d.newId !in used && 0 <= d.index < |slots|
    ensures var (slots', e) := Generate(slots, d);
      && SlotsInv(slots', es + [e], used + {d.newId})
      && (e.Created? <==> e.accountId !in Live(es))
  {
    var (slots', e) := Generate(slots, d);
    LiveStep(es, e);
    match slots[d.index]
    case None =>
      FillSlot(slots, d.index, d.newId);
    case Some(id) =>
      assert id in SlotIds(slots);
      if e.Cancelled? {
        ClearSlot(slots, d.index);
      }
  }

  lemma WellFormedAppend(es: seq<Event>, e: Event)
    requires WellFormed(es) && (e.Created? <==> e.accountId !in Live(es))
    ensures WellFormed(es + [e])
  {
    forall i | 0 <= i < |es| + 1
      ensures (es + [e])[i].Created? <==> (es + [e])[i].accountId !in Live((es + [e])[..i])
    {
      if i < |es| {
        assert (es + [e])[..i] == es[..i];
      } else {
        assert (es + [e])[..i] == es;
      }
    }
  }

  /**
   * `EventPublisher.run()`: starting from `idsPerThread` empty slots,
   * publishes `eventsPerThread` generated events. The stream never
   * creates a live account and never credits, debits or cancels an
   * account that is not live.
   */
  method Run(eventsPerThread: int, idsPerThread: int, draws: seq<Draw>) returns (events: seq<Event>)
    requires idsPerThread > 0
    requires |draws| >= eventsPerThread
    requires forall k :: 0 <= k < |draws| ==> 0 <= draws[k].index < idsPerThread
    requires forall k, l :: 0 <= k < l < |draws| ==> draws[k].newId != draws[l].newId
    ensures |events| == if eventsPerThread > 0 then eventsPerThread else 0
    ensures WellFormed(events)
  {
    var accountIds := new Option<UUID>[idsPerThread](_ => None);
    ghost var used: set<UUID> := {};
    events := [];
    var i := 0;
    while i < eventsPerThread
      invariant 0 <= i <= (if eventsPerThread > 0 then eventsPerThread else 0) && |events| == i
      invariant accountIds.Length == idsPerThread
      invariant SlotsInv(accountIds[..], events, used)
      invariant forall k :: i <= k < |draws| ==> draws[k].newId !in used
      invariant WellFormed(events)
    {
      ghost var before := accountIds[..];
      GenerateKeepsInvariant(before, events, used, draws[i]);
      var e := GenerateAccountEvent(accountIds, draws[i]);
      WellFormedAppend(events, e);
      events := events + [e];
      used := used + {draws[i].newId};
      i := i + 1;
    }
  }

  /**
   * A well-formed stream never makes the write-through projector throw,
   * whatever the repository held before, and every live account is stored.
   */
  lemma {:induction false} WellFormedNeverThrows(st: Store, es: seq<Event>)
    requires WellFormed(es)
    ensures ApplyAll(st, es).Success?
    ensures Live(es) <= ApplyAll(st, es).value.Keys
  {
    if es != [] {
      var init, e := es[..|es| - 1], es[|es| - 1];
      assert WellFormed(init) by {
        forall i | 0 <= i < |init|
          ensures init[i].Created? <==> init[i].accountId !in Live(init[..i])
        {
          assert init[..i] == es[..i];
        }
      }
      WellFormedNeverThrows(st, init);
      assert es[..|es| - 1] == init;
      assert e.Created? <==> e.accountId !in Live(init);
    }
  }

  /** `new ArrayList<>(idsPerThread)`: a list with that capacity and no elements. */
  function ArrayListWithCapacity(initialCapacity: nat): (r: seq<Option<UUID>>)
    ensures |r| == 0
  {
    []
  }

  /**
   * As written, the publisher's slot list is empty, so no index satisfies
   * the bound of the first draw (`nextInt(0)` throws).
   */
  lemma AsWrittenFirstDrawHasNoIndex(idsPerThread: nat, d: Draw)
    ensures !(0 <= d.index < |ArrayListWithCapacity(idsPerThread)|)
  {
  }

  /** The exception `Random.nextInt(bound)` throws when the bound is not positive. */
  datatype DrawError = IllegalArgumentException(bound: int)

  /**
   * One `generateAccountEvent` call as written: the slot index is drawn
   * first with `nextInt(accountIds.size())`, which throws on an empty list;
   * on a non-empty list the drawn index lies below its size.
   */
  function GenerateAsWritten(slots: seq<Option<UUID>>, d: Draw): (r: Result<(seq<Option<UUID>>, Event), DrawError>)
    requires |slots| > 0 ==> 0 <= d.index < |slots|
    ensures r.Failure? <==> |slots| == 0
    ensures r.Failure? ==> r.error == IllegalArgumentException(0)
    ensures r.Success? ==> r.value == Generate(slots, d)
  {
    if |slots| == 0 then Failure(IllegalArgumentException(0)) else Success(Generate(slots, d))
  }

  /** So every publisher, as written, throws on its first event, whatever it draws. */
  lemma AsWrittenFirstEventThrows(idsPerThread: nat, d: Draw)
    ensures GenerateAsWritten(ArrayListWithCapacity(idsPerThread), d) == Failure(IllegalArgumentException(0))
  {
  }
}
