/**
 * The sequencing policy of the event processor: events with the same
 * sequence identifier are handled one after another, in order. The
 * per-account policy takes the identifier from the payload's account id
 * string, so every event of one account is handled in sequence whatever the
 * message's aggregate identifier or metadata say.
 */
module Sequencing {
  import opened Wrappers
  import opened JavaUtil
  import opened Api

  /** A message payload: an account event, some other object, or null. */
  datatype Payload = AccountPayload(event: Event) | OtherPayload | NullPayload

  /**
   * An event message as the processor sees it. The account events are not
   * published as domain events, so the aggregate identifier is usually absent.
   */
  datatype EventMessage = EventMessage(
    identifier: string,
    payload: Payload,
    aggregateIdentifier: Option<string>,
    metaData: map<string, string>)

  /**
   * The `ClassCastException` of casting a payload that is not an
   * `AccountEvent`, and the `NullPointerException` of calling
   * `accountIdString()` on a null payload (the cast of null succeeds).
   */
  datatype PolicyError = ClassCastException | NullPointerException

  /**
   * `getSequenceIdentifierFor(event)`: the account id string of the payload;
   * the cast fails for any other payload, and a null payload fails on the
   * method call.
   */
  function GetSequenceIdentifierFor(m: EventMessage): (r: Result<string, PolicyError>)
    ensures r.Failure? <==> !m.payload.AccountPayload?
    ensures m.payload.OtherPayload? ==> r == Failure(ClassCastException)
    ensures m.payload.NullPayload? ==> r == Failure(NullPointerException)
    ensures r.Success? ==> |r.value| == 36 && ParseCanonical(r.value) == Some(m.payload.event.accountId)
  {
    match m.payload
    case AccountPayload(e) => Success(e.AccountIdString())
    case OtherPayload => Failure(ClassCastException)
    case NullPayload => Failure(NullPointerException)
  }

  /**
   * Two account-event messages get the same sequence identifier exactly when
   * their payloads are about the same account, whatever kind of event each
   * is and whatever else the messages carry.
   */
  lemma SameIdentifierIffSameAccount(m1: EventMessage, m2: EventMessage)
    requires m1.payload.AccountPayload? && m2.payload.AccountPayload?
    ensures GetSequenceIdentifierFor(m1) == GetSequenceIdentifierFor(m2)
      <==> m1.payload.event.accountId == m2.payload.event.accountId
  {
    if GetSequenceIdentifierFor(m1) == GetSequenceIdentifierFor(m2) {
      AccountIdStringInjective(m1.payload.event, m2.payload.event);
    }
  }
}
