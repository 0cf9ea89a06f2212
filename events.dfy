/**
 * The account events. Each event class of the source is an immutable value
 * with final fields, accessors, `accountIdString()` and field-wise
 * `equals`/`hashCode`; together they become one datatype whose variants are
 * the classes.
 */
module Api {
  import opened Wrappers
  import opened JavaUtil
  import opened BigDecimals
  import opened Query

  /**
   * The constructors take any arguments: no amount is checked, so zero and
   * negative credits and debits are events like any other.
   */
  datatype Event =
    | Created(accountId: UUID)
    | Credited(accountId: UUID, amount: Decimal)
    | Debited(accountId: UUID, amount: Decimal)
    | Cancelled(accountId: UUID)
  {
    /** `getAccountId()`, shared by every account event. */
    function GetAccountId(): UUID {
      accountId
    }

    /** `getAmount()` of a credit or a debit. */
    function GetAmount(): Decimal
      requires Credited? || Debited?
    {
      amount
    }

    /** `accountIdString()`: the id's string form, from which the id can be read back. */
    function AccountIdString(): (s: string)
      ensures |s| == 36
      ensures ParseCanonical(s) == Some(accountId)
    {
      ParseToString(accountId);
      ToString(accountId)
    }

    /**
     * `equals(Object o)`: true for the same object; false for null and for an
     * object of another class; otherwise a comparison of every field.
     */
    predicate Equals(o: Ref<Event>)
      ensures Equals(o) <==> o == Instance(this)
    {
      match o
      case Null => false
      case OtherClass => false
      case Instance(that) =>
        match (this, that)
        case (Created(a), Created(b)) => a == b
        case (Credited(a, x), Credited(b, y)) => a == b && x == y
        case (Debited(a, x), Debited(b, y)) => a == b && x == y
        case (Cancelled(a), Cancelled(b)) => a == b
        case _ => false
    }

    /**
     * `hashCode()`: `Objects.hash` over the event's fields, which makes it
     * the 31-polynomial over their hash codes reduced to 32 bits.
     */
    function HashCode(): (r: Int32)
      ensures Created? || Cancelled? ==> (r as int - (31 + UuidHashCode(accountId) as int)) % TWO_32 == 0
      ensures Credited? || Debited? ==>
        (r as int - (961 + 31 * UuidHashCode(accountId) as int + BigDecimals.HashCode(amount) as int)) % TWO_32 == 0
    {
      var idHash := UuidHashCode(accountId);
      if Created? || Cancelled? then
        HashPolynomialOfTwo(idHash, 0);
        ObjectsHash([idHash])
      else
        var amountHash := BigDecimals.HashCode(amount);
        HashPolynomialOfTwo(idHash, amountHash);
        ObjectsHash([idHash, amountHash])
    }
  }

  /** Two events that are `equals` have the same `hashCode`. */
  lemma EqualEventsHashAlike(e: Event, f: Event)
    requires e.Equals(Instance(f))
    ensures e.HashCode() == f.HashCode()
  {
  }

  /** Events about different accounts have different id strings. */
  lemma AccountIdStringInjective(e: Event, f: Event)
    requires e.AccountIdString() == f.AccountIdString()
    ensures e.accountId == f.accountId
  {
    ToStringInjective(e.accountId, f.accountId);
  }

  /** The balance change an event makes, for a credit or a debit. */
  function ChangeOf(e: Event): BalanceChange
    requires e.Credited? || e.Debited?
  {
    if e.Credited? then Credit(e.amount) else Debit(e.amount)
  }

  function ChangesOf(es: seq<Event>): (cs: seq<BalanceChange>)
    requires forall i :: 0 <= i < |es| ==> es[i].Credited? || es[i].Debited?
    ensures |cs| == |es|
  {
    if es == [] then [] else ChangesOf(es[..|es| - 1]) + [ChangeOf(es[|es| - 1])]
  }

  /** Every event is a credit or a debit of the account `id`. */
  predicate OnlyChangesOf(es: seq<Event>, id: UUID) {
    forall i :: 0 <= i < |es| ==> (es[i].Credited? || es[i].Debited?) && es[i].accountId == id
  }

  /** The events about account `id`, in their order in the batch. */
  function EventsOf(es: seq<Event>, id: UUID): (r: seq<Event>)
    ensures |r| <= |es|
    ensures forall i :: 0 <= i < |r| ==> r[i].accountId == id && r[i] in es
  {
    if es == [] then []
    else
      var e := es[|es| - 1];
      EventsOf(es[..|es| - 1], id) + (if e.accountId == id then [e] else [])
  }
}
