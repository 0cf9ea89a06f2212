/**
 * The account read model: an account id and its balance. The document
 * (Mongo) and the entity (JPA) flavours of `AccountSummary` have the same
 * fields, constructor, credit, debit, `equals` and `hashCode`, so one
 * datatype (the row's value) and one class (the mutable entity) model both.
 */
module Query {
  import opened JavaUtil
  import opened BigDecimals

  /** The value of one AccountSummary: what the repository stores under its id. */
  datatype Summary = Summary(accountId: UUID, balance: Decimal) {

    /** The summary after `creditAccount(amount)`. */
    function Credited(amount: Decimal): (r: Summary)
      ensures r.accountId == accountId
      ensures Value(r.balance) == Value(balance) + Value(amount)
    {
      Summary(accountId, Add(balance, amount))
    }

    /** The summary after `debitAccount(amount)`. */
    function Debited(amount: Decimal): (r: Summary)
      ensures r.accountId == accountId
      ensures Value(r.balance) == Value(balance) - Value(amount)
    {
      Summary(accountId, Subtract(balance, amount))
    }
  }

  /** `new AccountSummary(accountId)`: that id, balance `BigDecimal.ZERO`. */
  function NewSummary(accountId: UUID): (r: Summary)
    ensures r.accountId == accountId && r.balance == Zero && Value(r.balance) == 0.0
  {
    Summary(accountId, Zero)
  }

  /**
   * `hashCode()`: `Objects.hash(accountId, balance)`, the 31-polynomial over
   * the two hash codes reduced to 32 bits.
   */
  function SummaryHashCode(s: Summary): (r: Int32)
    ensures (r as int - (961 + 31 * UuidHashCode(s.accountId) as int + BigDecimals.HashCode(s.balance) as int)) % TWO_32 == 0
  {
    HashPolynomialOfTwo(UuidHashCode(s.accountId), BigDecimals.HashCode(s.balance));
    ObjectsHash([UuidHashCode(s.accountId), BigDecimals.HashCode(s.balance)])
  }

  /** The mutable entity whose balance `creditAccount` and `debitAccount` reassign. */
  class AccountSummary {
    var accountId: UUID
    var balance: Decimal

    constructor (accountId: UUID)
      ensures State() == NewSummary(accountId)
    {
      this.accountId := accountId;
      this.balance := Zero;
    }

    function State(): Summary
      reads this
    {
      Summary(accountId, balance)
    }

    function GetAccountId(): UUID
      reads this
    {
      accountId
    }

    function GetBalance(): Decimal
      reads this
    {
      balance
    }

    method DebitAccount(amount: Decimal)
      modifies this
      ensures State() == old(State()).Debited(amount)
      ensures accountId == old(accountId)
      ensures Value(balance) == Value(old(balance)) - Value(amount)
    {
      balance := Subtract(balance, amount);
    }

    method CreditAccount(amount: Decimal)
      modifies this
      ensures State() == old(State()).Credited(amount)
      ensures accountId == old(accountId)
      ensures Value(balance) == Value(old(balance)) + Value(amount)
    {
      balance := Add(balance, amount);
    }

    /**
     * `equals(Object o)`: true for this very object; false for null and for
     * other classes; otherwise both the id and the balance (value and scale)
     * must be equal.
     */
    predicate Equals(o: Ref<AccountSummary>)
      reads this, if o.Instance? then {o.obj} else {}
      ensures Equals(o) <==> o.Instance? && o.obj.State() == State()
    {
      match o
      case Null => false
      case OtherClass => false
      case Instance(that) => that == this || (accountId == that.accountId && balance == that.balance)
    }

    /** `hashCode()` of the entity: `Objects.hash(accountId, balance)` over its current fields. */
    function HashCode(): (r: Int32)
      reads this
      ensures (r as int - (961 + 31 * UuidHashCode(accountId) as int + BigDecimals.HashCode(balance) as int)) % TWO_32 == 0
    {
      SummaryHashCode(State())
    }
  }

  /** `equals` is reflexive (the identity check). */
  lemma EqualsReflexive(a: AccountSummary)
    ensures a.Equals(Instance(a))
  {
  }

  /** Summaries that are `equals` have the same `hashCode`. */
  lemma EqualSummariesHashAlike(a: AccountSummary, b: AccountSummary)
    requires a.Equals(Instance(b))
    ensures a.HashCode() == b.HashCode()
  {
  }

  /** A credit or a debit of an amount, as applied to a summary. */
  datatype BalanceChange = Credit(amount: Decimal) | Debit(amount: Decimal)

  function ApplyChange(s: Summary, c: BalanceChange): Summary {
    match c
    case Credit(a) => s.Credited(a)
    case Debit(a) => s.Debited(a)
  }

  /** The summary after the changes, in order. */
  function ApplyChanges(s: Summary, cs: seq<BalanceChange>): Summary {
    if cs == [] then s else ApplyChange(ApplyChanges(s, cs[..|cs| - 1]), cs[|cs| - 1])
  }

  /** The credits minus the debits. */
  ghost function Net(cs: seq<BalanceChange>): real {
    if cs == [] then 0.0
    else
      var c := cs[|cs| - 1];
      Net(cs[..|cs| - 1]) + (if c.Credit? then Value(c.amount) else -Value(c.amount))
  }

  /**
   * After any credits and debits the id is the same and the balance is the
   * starting balance plus the credits minus the debits; nothing forces it
   * to stay non-negative.
   */
  lemma {:induction false} ApplyChangesBalance(s: Summary, cs: seq<BalanceChange>)
    ensures ApplyChanges(s, cs).accountId == s.accountId
    ensures Value(ApplyChanges(s, cs).balance) == Value(s.balance) + Net(cs)
  {
    if cs != [] {
      ApplyChangesBalance(s, cs[..|cs| - 1]);
    }
  }

  /** Crediting and then debiting the same amount restores the balance's value. */
  lemma CreditThenDebitRestoresValue(s: Summary, amount: Decimal)
    ensures s.Credited(amount).Debited(amount).accountId == s.accountId
    ensures Value(s.Credited(amount).Debited(amount).balance) == Value(s.balance)
  {
  }

  /** ...but not always an `equals` summary: the scale of the balance can change. */
  lemma CreditThenDebitMayChangeScale(id: UUID)
    ensures NewSummary(id).Credited(Decimal(150, 2)).Debited(Decimal(150, 2)) != NewSummary(id)
  {
    assert NewSummary(id).Credited(Decimal(150, 2)).Debited(Decimal(150, 2)).balance == Decimal(0, 2);
  }
}
