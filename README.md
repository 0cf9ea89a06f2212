# Account read model and its two projectors, in Dafny

This project models the query side of the Axon replay-performance samples. Two things are modelled:

- The account summary read model. It holds an account id and a `BigDecimal` balance, and is kept in a repository keyed by id.
- The two projectors that build that model from account events.

There are four account events: Created, Credited, Debited and Cancelled.

The write-through `AccountSummaryProjector` applies every event to the repository as it is handled. It stands as the reference.

The `OptimizedAccountSummaryProjector` is built for replays, where many events are handled in one unit of work:

- Its handlers stage summaries in the unit of work's resources, keyed by the account id string.
- They register prepare-commit hooks.
- When the unit of work commits, the hooks run in registration order:
  - a save hook writes whatever is staged under its key at that moment, or nothing;
  - a delete hook deletes by id.

The model also covers three smaller parts:

- the per-account sequencing policy, which maps an event message to the account id string;
- the load generator's slot state machine and its publisher loop;
- the event value classes, with their `equals`/`hashCode`.

Modules, one per file:

- `Wrappers` (`Option`, `Result`).
- `JavaUtil`, the parts of the JDK the code relies on:
  - 32-bit wrap-around;
  - `Objects.hash`;
  - `UUID.toString`, with a parser and a proof that the string form reads back to the id (so it is injective);
  - `UUID.hashCode`.
- `BigDecimals`:
  - unscaled value and scale;
  - exact `add`/`subtract`;
  - `equals`, which includes the scale;
  - `hashCode`.
- `Query`: the summary value, and the `AccountSummary` entity class. One class covers the Mongo and JPA copies: they declare the same fields, constructor, `creditAccount`, `debitAccount`, `equals` and `hashCode`, and differ only in their persistence annotations and class visibility (the Mongo class is `public`, the JPA one package-private).
- `Api`: the events.
- `Repository`: `findById`, `save` and `deleteById` over a map.
- `WriteThrough`: the write-through projector class, and `Apply`/`ApplyAll` as its specification.
- `Batched`:
  - the replay-optimised projector class, with one method per handler and a `Commit` method;
  - `Handle`/`HandleAll`/`CommitCalls`/`Perform` as its specification;
  - per-account lemmas that hold in any batch, whatever other accounts' events are interleaved (`AccountIsolation`).
- `Comparison`: how the two projectors relate.
- `Sequencing`: the policy.
- `LoadGenerator`: slots, publisher loop, and the stream invariant.

The two projectors do not agree in general.

- `Comparison.BatchMatchesWriteThrough` proves they leave the same repository, whose rows sit under their own ids, when both conditions hold:
  - write-through handles every event of the batch without throwing;
  - no account that was stored before the batch is cancelled after another event of it in the same batch.
- `CreditThenCancelKeepsRow`, `CreateThenCancelKeepsRow` and `CancelThenCreditResurrects` show that each condition is needed. In each of those batches the two projectors leave different repositories.

## Model

| member | source | states |
|---|---|---|
| JavaUtil.ParseToString | replay-performance-tuning/src/main/java/io/axoniq/dev/sample/api/AccountCreditedEvent.java:30-32 | The id string (`UUID.toString`: 8-4-4-4-12 lower-case hex digits of the two 64-bit halves) parses back to exactly that id |
| JavaUtil.ToStringInjective | replay-performance-tuning/src/main/java/io/axoniq/dev/sample/api/AccountCancelledEvent.java:27-29 | Different ids have different string forms |
| JavaUtil.ObjectsHash | replay-performance-tuning/src/main/java/io/axoniq/dev/sample/api/AccountCreditedEvent.java:51-53 | `Objects.hash` computes the 31-polynomial over the hash codes, starting from 1, wrapping at every step; the result is the exact polynomial modulo 2^32 |
| JavaUtil.UuidHashCode | replay-performance-tuning/src/main/java/io/axoniq/dev/sample/api/AccountCancelledEvent.java:44-46 | `UUID.hashCode` (the two halves of `msb ^ lsb`, xor-ed) is the xor of the id's four 32-bit words, as a Java `int` |
| BigDecimals.Add | query-model-replay-performance-tuning/src/main/java/io/axoniq/dev/sample/query/mongo/AccountSummary.java:43-45 | `add` is exact: the value of the result is the sum of the values, at the larger of the two scales |
| BigDecimals.Subtract | query-model-replay-performance-tuning/src/main/java/io/axoniq/dev/sample/query/mongo/AccountSummary.java:39-41 | `subtract` is exact: the value of the result is the difference, at the larger scale |
| BigDecimals.AddSubtractKeepsValue | query-model-replay-performance-tuning/src/main/java/io/axoniq/dev/sample/query/rdbms/AccountSummary.java:38-44 | Adding then subtracting an amount restores the value; the scale becomes the larger of the two |
| BigDecimals.ScaleIsObservable | query-model-replay-performance-tuning/src/main/java/io/axoniq/dev/sample/query/mongo/AccountSummary.java:55-56 | ZERO + 1.50 − 1.50 is 0.00: the same value as ZERO, but not `equals` to it |
| BigDecimals.BigIntegerHashCode | query-model-replay-performance-tuning/src/main/java/io/axoniq/dev/sample/query/rdbms/AccountSummary.java:59-61 | `BigInteger.hashCode` of zero is 0 |
| BigDecimals.HashCode | query-model-replay-performance-tuning/src/main/java/io/axoniq/dev/sample/query/rdbms/AccountSummary.java:59-61 | `BigDecimal.hashCode` is 31 times the unscaled value's hash plus the scale, modulo 2^32; zero's hash is its scale, so 0 and 0.00, which are not `equals`, hash apart |
| Query.Summary.Credited | query-model-replay-performance-tuning/src/main/java/io/axoniq/dev/sample/query/mongo/AccountSummary.java:43-45 | `creditAccount` keeps the id and adds the amount to the balance's value |
| Query.Summary.Debited | query-model-replay-performance-tuning/src/main/java/io/axoniq/dev/sample/query/mongo/AccountSummary.java:39-41 | `debitAccount` keeps the id and subtracts the amount from the balance's value |
| Query.NewSummary | query-model-replay-performance-tuning/src/main/java/io/axoniq/dev/sample/query/mongo/AccountSummary.java:22-25 | A new summary has the given id and balance `BigDecimal.ZERO` (value 0) |
| Query.AccountSummary.constructor | query-model-replay-performance-tuning/src/main/java/io/axoniq/dev/sample/query/rdbms/AccountSummary.java:21-24 | The entity starts with the given id and balance ZERO |
| Query.AccountSummary.DebitAccount | query-model-replay-performance-tuning/src/main/java/io/axoniq/dev/sample/query/rdbms/AccountSummary.java:38-40 | Reassigns the balance to old − amount exactly; the id is unchanged |
| Query.AccountSummary.CreditAccount | query-model-replay-performance-tuning/src/main/java/io/axoniq/dev/sample/query/rdbms/AccountSummary.java:42-44 | Reassigns the balance to old + amount exactly; the id is unchanged |
| Query.AccountSummary.Equals | query-model-replay-performance-tuning/src/main/java/io/axoniq/dev/sample/query/mongo/AccountSummary.java:47-57 | `equals` is false for null and another class; otherwise it holds iff id and balance (value and scale) are equal |
| Query.AccountSummary.HashCode | query-model-replay-performance-tuning/src/main/java/io/axoniq/dev/sample/query/rdbms/AccountSummary.java:58-61 | `hashCode` over the entity's current fields: 961 + 31·hash(id) + hash(balance), modulo 2^32 |
| Query.SummaryHashCode | query-model-replay-performance-tuning/src/main/java/io/axoniq/dev/sample/query/mongo/AccountSummary.java:59-62 | `Objects.hash(accountId, balance)` of a summary value: 961 + 31·hash(id) + hash(balance), modulo 2^32 |
| Query.EqualsReflexive | query-model-replay-performance-tuning/src/main/java/io/axoniq/dev/sample/query/rdbms/AccountSummary.java:46-50 | `equals` is reflexive |
| Query.EqualSummariesHashAlike | query-model-replay-performance-tuning/src/main/java/io/axoniq/dev/sample/query/rdbms/AccountSummary.java:58-61 | Equal summaries have equal `hashCode` (`Objects.hash(accountId, balance)` with 32-bit wrap-around) |
| Query.ApplyChangesBalance | query-model-replay-performance-tuning/src/main/java/io/axoniq/dev/sample/query/mongo/AccountSummary.java:39-45 | After any credits and debits the id is unchanged and the balance is the start plus the credits minus the debits, with no sign constraint |
| Query.CreditThenDebitRestoresValue | query-model-replay-performance-tuning/src/main/java/io/axoniq/dev/sample/query/rdbms/AccountSummary.java:38-44 | Crediting then debiting the same amount restores the balance's value and keeps the id |
| Query.CreditThenDebitMayChangeScale | query-model-replay-performance-tuning/src/main/java/io/axoniq/dev/sample/query/rdbms/AccountSummary.java:38-55 | ...yet the result need not be `equals` to the original summary, because the scale can grow |
| Repository.Save | query-model-replay-performance-tuning/src/main/java/io/axoniq/dev/sample/query/AccountSummaryProjector.java:34 | `save` inserts or replaces the row under the summary's id; every other row is unchanged |
| Repository.DeleteById | query-model-replay-performance-tuning/src/main/java/io/axoniq/dev/sample/query/AccountSummaryProjector.java:65 | `deleteById` removes that id if present, is not an error otherwise, and keeps every other row |
| Api.Event.AccountIdString | replay-performance-tuning/src/main/java/io/axoniq/dev/sample/api/AccountCreditedEvent.java:30-32 | `accountIdString()` is the 36-character `toString` of the id, which reads back to the id |
| Api.Event.Equals | replay-performance-tuning/src/main/java/io/axoniq/dev/sample/api/AccountCreditedEvent.java:39-48 | `equals` is false for null and other classes; otherwise it holds iff every field is equal (same variant, id, amount) |
| Api.Event.HashCode | replay-performance-tuning/src/main/java/io/axoniq/dev/sample/api/AccountCancelledEvent.java:43-46 | `Objects.hash` over exactly the fields `equals` compares: 31 + hash(id) modulo 2^32 for Created and Cancelled, 961 + 31·hash(id) + hash(amount) for a credit or a debit |
| Api.EqualEventsHashAlike | query-model-replay-performance-tuning/src/main/java/io/axoniq/dev/sample/api/AccountDebitedEvent.java:51-53 | Equal events have equal `hashCode` (`Objects.hash` of the fields) |
| Api.AccountIdStringInjective | replay-performance-tuning/src/main/java/io/axoniq/dev/sample/api/AccountCancelledEvent.java:27-29 | Events with the same id string are about the same account |
| WriteThrough.Apply | query-model-replay-performance-tuning/src/main/java/io/axoniq/dev/sample/query/AccountSummaryProjector.java:32-66 | A handler throws iff a credit or debit finds no stored summary, with that id in the error; every other id's row is unchanged |
| WriteThrough.AccountSummaryProjector.OnCreated | query-model-replay-performance-tuning/src/main/java/io/axoniq/dev/sample/query/AccountSummaryProjector.java:33-35 | Saves a zero-balance summary under the id, replacing any stored one |
| WriteThrough.AccountSummaryProjector.OnCredited | query-model-replay-performance-tuning/src/main/java/io/axoniq/dev/sample/query/AccountSummaryProjector.java:38-48 | Succeeds iff the id is stored, and then credits its row in place; otherwise throws `IllegalStateException` and changes nothing |
| WriteThrough.AccountSummaryProjector.OnDebited | query-model-replay-performance-tuning/src/main/java/io/axoniq/dev/sample/query/AccountSummaryProjector.java:51-61 | Succeeds iff the id is stored, and then debits its row in place; otherwise throws and changes nothing |
| WriteThrough.AccountSummaryProjector.OnCancelled | query-model-replay-performance-tuning/src/main/java/io/axoniq/dev/sample/query/AccountSummaryProjector.java:64-66 | Deletes the id unconditionally |
| WriteThrough.CreateCreditDebit | query-model-replay-performance-tuning/src/main/java/io/axoniq/dev/sample/query/AccountSummaryProjector.java:33-61 | Created(A), Credited(A,a), Debited(A,b) succeeds and leaves A stored with balance value a − b |
| WriteThrough.CreditsAndDebits | query-model-replay-performance-tuning/src/main/java/io/axoniq/dev/sample/query/AccountSummaryProjector.java:38-61 | Credits and debits of a stored account succeed, change only that row, and change it by exactly those amounts |
| WriteThrough.CreatedThenChanged | query-model-replay-performance-tuning/src/main/java/io/axoniq/dev/sample/query/AccountSummaryProjector.java:33-61 | A created account that is then only credited and debited ends with the credits minus the debits |
| WriteThrough.ApplyAllAppend | query-model-replay-performance-tuning/src/main/java/io/axoniq/dev/sample/query/AccountSummaryProjector.java:32-66 | Handling two stretches of events in turn is handling them together |
| Batched.Handle | query-model-replay-performance-tuning/src/main/java/io/axoniq/dev/sample/query/OptimizedAccountSummaryProjector.java:44-87 | A handler throws iff a credit or debit finds its id neither staged nor stored: a staged summary is used whether or not the id is stored, and the repository is read only for an unstaged id. The new batch is given for every event kind. A Created stages a zero-balance summary under the id's key and appends a save hook. A credit or debit stages the staged or else stored summary with the change applied, and appends a save hook only when the id was not staged. A cancel removes a staged summary and appends nothing, or, when nothing was staged, appends a delete hook for the id |
| Batched.HandleFrame | query-model-replay-performance-tuning/src/main/java/io/axoniq/dev/sample/query/OptimizedAccountSummaryProjector.java:44-87 | A handler touches the resources only under its event's key, and keeps every staged summary under its own id string |
| Batched.HandleAllStagedByKey | query-model-replay-performance-tuning/src/main/java/io/axoniq/dev/sample/query/OptimizedAccountSummaryProjector.java:44-87 | Handling events over a repository whose rows sit under their own ids keeps every staged summary under its own id string |
| Batched.KeyInjective | replay-performance-tuning/src/main/java/io/axoniq/dev/sample/api/AccountCancelledEvent.java:27-29 | Two accounts share a resources key (`accountIdString()`) only if they are the same account |
| Batched.HandleSameView | query-model-replay-performance-tuning/src/main/java/io/axoniq/dev/sample/query/OptimizedAccountSummaryProjector.java:44-87 | What a handler does for its own account, and whether it throws, depend only on that account's staged summary and hooks |
| Batched.HandleKeepsOtherView | query-model-replay-performance-tuning/src/main/java/io/axoniq/dev/sample/query/OptimizedAccountSummaryProjector.java:44-87 | A handler leaves every other account's staged summary and hooks as they were |
| Batched.AccountIsolation | query-model-replay-performance-tuning/src/main/java/io/axoniq/dev/sample/query/OptimizedAccountSummaryProjector.java:44-87 | When a batch succeeds, each account's own events handled alone succeed too and leave it the same staged summary and hooks: interleaved events of other accounts make no difference to it |
| Batched.CallOf | query-model-replay-performance-tuning/src/main/java/io/axoniq/dev/sample/query/OptimizedAccountSummaryProjector.java:81-110 | A hook makes at most one call: a delete hook deletes its id; a save hook saves what is staged under its key at commit and is the only hook that can make none (its key removed). With summaries staged under their own keys, the call is about the hook's own account |
| Batched.CommitCalls | query-model-replay-performance-tuning/src/main/java/io/axoniq/dev/sample/query/OptimizedAccountSummaryProjector.java:103-110 | Running the hooks in order makes no more calls than hooks; every save writes a summary staged at commit, every delete comes from a delete hook, and when every save hook still finds its key staged every hook makes its call |
| Batched.CallsForCallOf | query-model-replay-performance-tuning/src/main/java/io/axoniq/dev/sample/query/OptimizedAccountSummaryProjector.java:103-110 | With summaries under their own keys, a hook's call is about an account exactly when the hook is registered for that account |
| Batched.CommitCallsFor | query-model-replay-performance-tuning/src/main/java/io/axoniq/dev/sample/query/OptimizedAccountSummaryProjector.java:103-110 | At commit, the calls about an account are exactly the calls its own hooks make, in registration order |
| Batched.PerformFor | query-model-replay-performance-tuning/src/main/java/io/axoniq/dev/sample/query/OptimizedAccountSummaryProjector.java:103-110 | An account's row after the commit depends only on the calls about that account |
| Batched.OptimizedAccountSummaryProjector.constructor | query-model-replay-performance-tuning/src/main/java/io/axoniq/dev/sample/query/OptimizedAccountSummaryProjector.java:40-42 | Starts with the repository and an empty unit of work |
| Batched.OptimizedAccountSummaryProjector.GetAccountSummaryFor | query-model-replay-performance-tuning/src/main/java/io/axoniq/dev/sample/query/OptimizedAccountSummaryProjector.java:112-117 | Returns the stored summary iff the id is stored; otherwise returns `IllegalStateException` for that id |
| Batched.OptimizedAccountSummaryProjector.OnCreated | query-model-replay-performance-tuning/src/main/java/io/axoniq/dev/sample/query/OptimizedAccountSummaryProjector.java:44-49 | Stages a zero-balance summary under the id string, replacing any staged one, and appends one save hook; the repository is neither read nor written |
| Batched.OptimizedAccountSummaryProjector.OnCredited | query-model-replay-performance-tuning/src/main/java/io/axoniq/dev/sample/query/OptimizedAccountSummaryProjector.java:51-64 | Credits the staged summary. If nothing is staged it first appends a save hook and loads from the repository, throwing if the id is missing. Only resources and hooks change |
| Batched.OptimizedAccountSummaryProjector.OnDebited | query-model-replay-performance-tuning/src/main/java/io/axoniq/dev/sample/query/OptimizedAccountSummaryProjector.java:66-79 | The same for a debit |
| Batched.OptimizedAccountSummaryProjector.OnCancelled | query-model-replay-performance-tuning/src/main/java/io/axoniq/dev/sample/query/OptimizedAccountSummaryProjector.java:81-87 | Removes the key from the resources, and appends a delete hook only if nothing was staged |
| Batched.OptimizedAccountSummaryProjector.Commit | query-model-replay-performance-tuning/src/main/java/io/axoniq/dev/sample/query/OptimizedAccountSummaryProjector.java:103-110 | Runs the hooks in order. A save hook saves what is staged under its key, or nothing if the key was removed; a delete hook deletes. The repository ends as those calls leave it, and the unit of work is emptied |
| Batched.CreatedIgnoresRepository | query-model-replay-performance-tuning/src/main/java/io/axoniq/dev/sample/query/OptimizedAccountSummaryProjector.java:45-49 | Created is handled alike whatever the repository holds, so an already-stored id is not detected |
| Batched.CreateThenCancelMakesNoCall | query-model-replay-performance-tuning/src/main/java/io/axoniq/dev/sample/query/OptimizedAccountSummaryProjector.java:45-87 | In any batch that succeeds over a repository whose rows sit under their own ids, an account whose own events are Created then Cancelled, whatever other accounts' events are interleaved, gets no repository call at commit and keeps its pre-batch row |
| Batched.ChangesThenCancelView | query-model-replay-performance-tuning/src/main/java/io/axoniq/dev/sample/query/OptimizedAccountSummaryProjector.java:52-87 | In any batch that succeeds, a stored account whose own events are one or more credits and debits followed by its Cancelled, interleaved with any other accounts' events, ends with nothing staged and exactly one hook, the save hook its first load registered |
| Batched.ChangesThenCancelMakesNoCall | query-model-replay-performance-tuning/src/main/java/io/axoniq/dev/sample/query/OptimizedAccountSummaryProjector.java:52-110 | In any batch that succeeds over a repository whose rows sit under their own ids, a stored account whose own events are one or more credits and debits followed by its Cancelled, whatever other accounts' events are interleaved, gets neither a save nor a delete at commit and keeps its pre-batch row: the load registered a save hook that finds nothing staged, and the cancel found a staged summary so registered no delete |
| Batched.ChangeOfStaged | query-model-replay-performance-tuning/src/main/java/io/axoniq/dev/sample/query/OptimizedAccountSummaryProjector.java:62-78 | In any batch, a credit or debit of a staged account replaces its staged summary by the changed one and registers no hook; nothing else changes |
| Batched.ChangesStageOnce | query-model-replay-performance-tuning/src/main/java/io/axoniq/dev/sample/query/OptimizedAccountSummaryProjector.java:52-79 | In any batch that succeeds, a stored account whose own events are only credits and debits, interleaved with any events of other accounts, has exactly one hook, a save hook, and staged the stored summary after its own changes in order |
| Batched.SavedOnceWithFinalBalance | query-model-replay-performance-tuning/src/main/java/io/axoniq/dev/sample/query/OptimizedAccountSummaryProjector.java:52-110 | ...so, with rows under their own ids, the only call about it at commit is one save of that summary, whose balance is the stored balance plus its credits minus its debits, and that is its row after the commit |
| Batched.CreatedThenChangedStagesOnce | query-model-replay-performance-tuning/src/main/java/io/axoniq/dev/sample/query/OptimizedAccountSummaryProjector.java:45-79 | In any batch that succeeds, an account whose own events are a Created followed only by credits and debits, interleaved with any other accounts' events, has exactly one hook, a save hook, and staged the zero-balance summary after its own changes |
| Batched.CreatedThenChangedSavedOnce | query-model-replay-performance-tuning/src/main/java/io/axoniq/dev/sample/query/OptimizedAccountSummaryProjector.java:45-110 | ...so, with rows under their own ids, it gets one save at commit, with its credits minus its debits as the balance, and that is its row after the commit |
| Batched.CreatedTwiceSavesTwice | query-model-replay-performance-tuning/src/main/java/io/axoniq/dev/sample/query/OptimizedAccountSummaryProjector.java:45-49 | Two Created events for one id in a batch register two save hooks, and the commit saves twice |
| Comparison.CommitStep | query-model-replay-performance-tuning/src/main/java/io/axoniq/dev/sample/query/OptimizedAccountSummaryProjector.java:103-110 | The row one hook's call leaves for an account: none after its delete hook; the staged summary after its save hook when staged; otherwise the row as before |
| Comparison.CommitResolves | query-model-replay-performance-tuning/src/main/java/io/axoniq/dev/sample/query/OptimizedAccountSummaryProjector.java:103-110 | After the commit, each account's row is the one its last effective hook names, or the pre-batch row if there is none |
| Comparison.ResolveStaged | query-model-replay-performance-tuning/src/main/java/io/axoniq/dev/sample/query/OptimizedAccountSummaryProjector.java:103-110 | A staged account whose last hook is a save ends with its staged summary |
| Comparison.ResolveUnstaged | query-model-replay-performance-tuning/src/main/java/io/axoniq/dev/sample/query/OptimizedAccountSummaryProjector.java:81-87 | An unstaged account ends deleted if it has a delete hook; otherwise it keeps its pre-batch row |
| Comparison.HandleSucceeds | query-model-replay-performance-tuning/src/main/java/io/axoniq/dev/sample/query/OptimizedAccountSummaryProjector.java:54-60 | Under the simulation invariant, an event that write-through handles does not throw in the batched projector |
| Comparison.StepSame | query-model-replay-performance-tuning/src/main/java/io/axoniq/dev/sample/query/OptimizedAccountSummaryProjector.java:44-87 | Each handler keeps the simulation invariant for its own account |
| Comparison.StepOther | query-model-replay-performance-tuning/src/main/java/io/axoniq/dev/sample/query/OptimizedAccountSummaryProjector.java:44-87 | Each handler keeps the simulation invariant for every other account |
| Comparison.Simulation | query-model-replay-performance-tuning/src/main/java/io/axoniq/dev/sample/query/OptimizedAccountSummaryProjector.java:44-87 | After every prefix that write-through handles, the batched projector has not thrown, and each account's staged summary or pending hooks match write-through's row |
| Comparison.BatchMatchesWriteThrough | query-model-replay-performance-tuning/src/main/java/io/axoniq/dev/sample/query/OptimizedAccountSummaryProjector.java:44-110 | Over a repository whose rows sit under their own ids: if write-through handles the whole batch and no stored account is cancelled after another event of it, handling and committing the batch leaves exactly write-through's repository |
| Comparison.CreditThenCancelKeepsRow | query-model-replay-performance-tuning/src/main/java/io/axoniq/dev/sample/query/OptimizedAccountSummaryProjector.java:81-87 | A divergence witness in the map store, which has no persistence context: for the batch of one credit and then the cancel of a stored account, the batched projector makes no repository call and keeps the pre-batch row, while write-through deletes it. The general case, any credits and debits then Cancelled in any batch, is `Batched.ChangesThenCancelMakesNoCall` |
| Comparison.CreateThenCancelKeepsRow | query-model-replay-performance-tuning/src/main/java/io/axoniq/dev/sample/query/OptimizedAccountSummaryProjector.java:45-49 | A stored account created again and then cancelled keeps its row under the batched projector, while write-through deletes it |
| Comparison.CancelThenCreditHooks | query-model-replay-performance-tuning/src/main/java/io/axoniq/dev/sample/query/OptimizedAccountSummaryProjector.java:52-87 | Cancelled then Credited of a stored account commits a delete followed by a save of the credited row |
| Comparison.CancelThenCreditResurrects | query-model-replay-performance-tuning/src/main/java/io/axoniq/dev/sample/query/OptimizedAccountSummaryProjector.java:52-64 | ...so in the map store the batched projector leaves the account stored and credited, while write-through throws on the credit |
| Sequencing.GetSequenceIdentifierFor | replay-performance-tuning/src/main/java/io/axoniq/dev/sample/SequentialPerAccountPolicy.java:22-24 | The identifier is the payload's 36-character account id string, which reads back to the account id. A payload of another class fails the cast (`ClassCastException`); a null payload passes the cast and fails on `accountIdString()` (`NullPointerException`) |
| Sequencing.SameIdentifierIffSameAccount | replay-performance-tuning/src/main/java/io/axoniq/dev/sample/SequentialPerAccountPolicy.java:23 | Two account-event messages get the same identifier iff their payloads name the same account, whatever the aggregate identifier and metadata |
| LoadGenerator.Generate | query-model-replay-performance-tuning/src/main/java/io/axoniq/dev/sample/EventLoadGenerator.java:85-103 | Only the drawn slot can change and the length stays. An empty slot yields Created(new id) and is filled. An occupied one yields Credited (dice < 0.5f), Debited (dice < 0.8f) or Cancelled for its id, and Cancelled empties it |
| LoadGenerator.GenerateAccountEvent | query-model-replay-performance-tuning/src/main/java/io/axoniq/dev/sample/EventLoadGenerator.java:85-103 | The in-place array version produces the slots and the event that `Generate` specifies; the slot list must not be empty |
| LoadGenerator.GenerateKeepsInvariant | query-model-replay-performance-tuning/src/main/java/io/axoniq/dev/sample/EventLoadGenerator.java:79-101 | Each call keeps the publisher invariant: the occupied slots hold exactly the live accounts, once each. The event is a Created iff its account was not live |
| LoadGenerator.Run | query-model-replay-performance-tuning/src/main/java/io/axoniq/dev/sample/EventLoadGenerator.java:76-83 | A publisher emits exactly `eventsPerThread` events. None is a Created for a live account, or a credit, debit or cancel for an account that is not live |
| LoadGenerator.WellFormedNeverThrows | query-model-replay-performance-tuning/src/main/java/io/axoniq/dev/sample/EventLoadGenerator.java:79-101 | A stream the publisher can emit never makes the write-through projector throw, and every live account is stored |
| LoadGenerator.ArrayListWithCapacity | query-model-replay-performance-tuning/src/main/java/io/axoniq/dev/sample/EventLoadGenerator.java:77 | `new ArrayList<>(idsPerThread)` has no elements |
| LoadGenerator.AsWrittenFirstDrawHasNoIndex | query-model-replay-performance-tuning/src/main/java/io/axoniq/dev/sample/EventLoadGenerator.java:86 | On the list as built, no index meets the bound of the first draw |
| LoadGenerator.GenerateAsWritten | query-model-replay-performance-tuning/src/main/java/io/axoniq/dev/sample/EventLoadGenerator.java:85-103 | One call as written throws `IllegalArgumentException` from `nextInt` exactly when the list is empty; otherwise it does what `Generate` specifies |
| LoadGenerator.AsWrittenFirstEventThrows | query-model-replay-performance-tuning/src/main/java/io/axoniq/dev/sample/EventLoadGenerator.java:77-86 | On the list as built, the first call of every publisher throws, whatever it draws |

Assumptions the model makes:

- Hooks run in registration order at commit. This is the Axon unit of work's documented behaviour, not shown in the code.
- The `AccountSummary` class both projectors use (package `query`) is not part of this model. It is taken to behave like the two copies shown.
- The `AccountCreatedEvent` class is not part of this model. Its `equals`/`hashCode` are taken to follow the cancelled event's pattern.
- `getAccountId()` and `getAmount()` are the event's fields. All fields are final, so they return the constructor arguments and an event never changes.
- A batch in which a handler throws is taken as discarded as a whole, so its partly registered hooks never run. Neither application configures an error handler, and Axon's default one logs the exception and carries on; what then happens to the unit of work is not modelled.
- The constructors check nothing, so any amount, including zero or a negative one, makes an event.

## Left out

- `toString` methods, `@Document`/`@Entity`/`@Id`/`@ConstructorProperties`, and the no-argument persistence constructors. None of them affects the logic; a summary with a null id is not modelled.
- Events with a null `accountId` or `amount`: the event constructors accept them without a check, and a null amount would make the handlers' `add`/`subtract` throw `NullPointerException`. The model's events always carry an id and an amount.
- BigDecimal with a negative scale: `add` and `subtract` never produce one from the scale-0 ZERO and non-negative-scale amounts.
- The repository interfaces (Spring Data JPA and Mongo): the store is a map with `findById`, `save` and `deleteById`.
- The persistence context: the store is a plain map of rows, as with the Mongo repository. The write-through projector's in-place credit or debit of the loaded entity, which JPA dirty checking flushes, is modelled as a write of the new row. Dirty checking of the entities the batched projector loads, removed-entity state and entity aliasing are not modelled.
- Batched.ChangesThenCancelMakesNoCall: the account keeps its pre-batch row in the map store only. Under JPA the changed entity that `findById` loaded stays managed after its key is removed from the resources, and dirty checking would still write it at commit; the lemma's other half, that the projector makes no repository call for the account, holds either way.
- Comparison.CreditThenCancelKeepsRow: holds for the map store only. Under JPA the credited entity that `findById` loaded stays managed after its key is removed from the resources, and dirty checking would still write it at commit.
- Comparison.CancelThenCreditResurrects: holds for the map store only. Under JPA the delete hook removes the managed entity that the credit loaded, and the save hook's `save` of that removed entity fails instead of writing the row back.
- Some Spring Data versions throw from `deleteById` on a missing id. Here it is a no-op, as in the Mongo repository.
- The Axon unit of work beyond resources and prepare-commit hooks: rollback, nested units of work, and the other phases.
- The event processors' threading and batching: the sequencing policy is modelled only as the key function.
- `EventLoadGenerator.run`, the thread pool, `CompletableFuture` and `eventGateway.publish`: concurrency and I/O.
- `generateAmount`: double arithmetic, so the amount is an input.
- `SecureRandom` and `UUID.randomUUID`: their draws are inputs.
- A repository whose rows do not sit under their own ids: the per-account commit lemmas and the comparison require that every stored summary's id is its key, as `save` keeps it.
- LoadGenerator.Run: requires the new ids drawn by one publisher to be pairwise distinct. `UUID.randomUUID` makes a repeat improbable, not impossible.
- The Spring Boot applications, their profiles and the metrics reporters.

## Findings

| source | as written | input that shows it | evidently intended | confidence | as-written member | corrected member |
|---|---|---|---|---|---|---|
| query-model-replay-performance-tuning/src/main/java/io/axoniq/dev/sample/EventLoadGenerator.java:77 | `new ArrayList<>(idsPerThread)` gives an empty list (the argument is a capacity), so the first `rng.nextInt(accountIds.size())` at line 86 is `nextInt(0)` and throws `IllegalArgumentException` | any `idsPerThread`, on the first event of every publisher | a list of `idsPerThread` empty (null) slots | high (not executed) | LoadGenerator.AsWrittenFirstEventThrows | LoadGenerator.Run |
