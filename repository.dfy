/**
 * The account summary repository (Spring Data JPA or Mongo), reduced to
 * what the projectors call: `findById`, `save` and `deleteById` over a map
 * from account id to summary.
 */
module Repository {
  import opened Wrappers
  import opened JavaUtil
  import opened Query

  type Store = map<UUID, Summary>

  /** Every stored summary sits under its own id. */
  predicate KeyedById(st: Store) {
    forall id :: id in st ==> st[id].accountId == id
  }

  function FindById(st: Store, id: UUID): (r: Option<Summary>)
    ensures r.Some? <==> id in st
    ensures r.Some? ==> r.value == st[id]
  {
    if id in st then Some(st[id]) else None
  }

  /** `save(summary)`: insert or replace the row with the summary's id. */
  function Save(st: Store, s: Summary): (r: Store)
    ensures r.Keys == st.Keys + {s.accountId} && r[s.accountId] == s
    ensures forall id :: id in st && id != s.accountId ==> r[id] == st[id]
    ensures KeyedById(st) ==> KeyedById(r)
  {
    st[s.accountId := s]
  }

  /** `deleteById(id)`: remove the row if there is one; a missing row is not an error. */
  function DeleteById(st: Store, id: UUID): (r: Store)
    ensures r.Keys == st.Keys - {id}
    ensures forall other :: other in r ==> r[other] == st[other]
    ensures KeyedById(st) ==> KeyedById(r)
  {
    st - {id}
  }

  /** The `IllegalStateException` "No account summary found to match id [...]". */
  datatype ProjectionError = NoSummaryFound(accountId: UUID)

  /** How an event handler ends: normally, or by throwing. */
  datatype Outcome = Handled | Threw(error: ProjectionError)
}
