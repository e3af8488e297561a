# Benefit balance transfers, modelled in Dafny

This project models the balance-transfer engine of the benefit system. A
benefit (`Beneficio`) is a record that holds a balance (`valor`), an active
flag (`ativo`) and an optimistic-locking counter (`version`). The model
covers three services:

- **`BeneficioService`** (Spring backend). It transfers an amount between
  two benefits with three strategies:
  - optimistic, with up to three attempts and a backoff between them;
  - pessimistic, locking both rows;
  - mixed, locking the source row and relying on the destination's version.

  It also validates requests and answers read-only queries: the current
  version, a version-conflict test, a balance, and "is this transfer
  possible".
- **`BeneficioEjbService`** (EJB module). It does the same pessimistic
  transfer over a JPA `EntityManager`, but checks the 1,000,000 cap last and
  raises the versions itself. It has its own balance and "possible" queries.
- **`SaldoDisplayComponent`** (Angular front end). It runs balance lookups
  and keeps a history of the successful ones, newest first, capped at five.

Files:

- `model.dfy` (module `Model`): records, the keyed store, the error
  taxonomy, and the state a successful transfer leaves (`Transferred`).
- `persistence.dfy` (module `Persistence`):
  - the managed entity, a class mutated in place;
  - the store, a class holding the committed rows, the open transaction's
    staged writes, and a ghost log of every lookup and write.
- `backend_service.dfy` (module `BackendService`): the validators, one
  transfer attempt, each strategy as a function of the store, and the
  service class whose methods perform the strategies step by step. Each
  method is proved equal to its function.
- `ejb_service.dfy` (module `EjbService`): the EJB transfer, as a function
  and as a method, its queries, and how it relates to the backend.
- `saldo_display.dfy` (module `SaldoDisplay`): the component class and the
  history over a run of responses.

Conflicts are not computed. The store's answer to each flush is an input:
`Persisted`, `VersionConflict` (an `OptimisticLockException`) or
`StorageFailure` (any other persistence error). Staged writes commit only
on `Persisted`. On any other answer the transaction rolls back and no row
changes.

For the optimistic strategy, `commits[i]` is the answer for attempt
`i + 1`. A version conflict means another transaction committed first.
`seen[i]` is the store that transaction left after the conflict of attempt
`i + 1`, and the next attempt reads it afresh. With no entry, the store is
as it was. So a retry can find the source drained, or build on the other
transaction's balances and versions. The backoff sleeps are recorded as a
ghost list of milliseconds.

Java nulls are `Option` values. Money is `real`, because `BigDecimal` is
exact here (only addition, subtraction and comparison are used). Ids and
versions are unbounded integers.

Facts of the code that its comments and names do not suggest:

- **Lock order.** Both pessimistic transfers lock the source and then the
  destination (`BeneficioService.java:31-32`, `BeneficioEjbService.java:32-33`).
  They do not lock in ascending id order.
- **Backoff waits.** The comment at `BeneficioService.java:102` lists 100,
  200 and 300 ms. Only 100 and 200 ms can occur: the third conflict throws
  at line 95 before any wait (`BackendService.ConflictsExhaustRetries`).
- **`isTransferenciaPossivel`.** At `BeneficioService.java:247-261` it
  looks only at the source and the amount. A true answer does not mean the
  transfer passes its checks, because the destination and the cap are
  ignored (`BackendService.PossivelIsNotTransfer`).
- **Checks at each lookup.** Under the optimistic strategy, a missing,
  inactive or underfunded record ends the attempt at once. The generic
  `catch` at line 108 wraps it in a `RuntimeException`, and it is not
  retried.

## Model

The `source` cell is a path below the repository root. `BeneficioService.java` is `backend-module/src/main/java/com/exemple/backend/service/BeneficioService.java`.

| member | source | states |
|---|---|---|
| Model.Transferred | backend-module/src/main/java/com/exemple/backend/service/BeneficioService.java:197-203 | After a transfer: the source is debited and the destination credited by the amount, the sum of the two is kept, each version is one higher, the active flags are unchanged, and no row is added or removed |
| Model.TransferredKeepsOtherRows | backend-module/src/main/java/com/exemple/backend/service/BeneficioService.java:197-203 | Every row other than the source and the destination keeps its value |
| Persistence.Database.FindById | backend-module/src/main/java/com/exemple/backend/repository/BeneficioRepository.java:45-47 | The write-locked lookup, and with no lock the `findById` every JPA repository inherits: logs the lookup with its lock mode; returns a fresh entity holding the stored row exactly when the id is present |
| Persistence.Database.Save | backend-module/src/main/java/com/exemple/backend/service/BeneficioService.java:85-87 | Stages the entity's row with its @Version counter one higher, and logs the write |
| Persistence.Database.Merge | ejb-module/src/main/java/com/example/ejb/BeneficioEjbService.java:74-76 | Stages the entity's row exactly as the entity holds it, and logs the write |
| Persistence.Database.Flush | ejb-module/src/main/java/com/example/ejb/BeneficioEjbService.java:78-79 | Commits every staged write when the store reports success; otherwise rolls back with no row changed; either way no write is left pending |
| Persistence.Database.Persist | backend-module/src/main/java/com/exemple/backend/service/BeneficioService.java:268 | Saves a new row under an id not used before, with version 0, leaving the other rows as they were |
| BackendService.ValidarParametrosTransferencia | backend-module/src/main/java/com/exemple/backend/service/BeneficioService.java:152-168 | The request passes exactly when nothing is null, the ids differ, and 0 < amount <= 1000000; each failure is an IllegalArgumentException, and the iff clauses fix the order null, same id, non-positive, cap |
| BackendService.ValidarBeneficiosEncontrados | backend-module/src/main/java/com/exemple/backend/service/BeneficioService.java:170-178 | Passes exactly when both records were found; a missing source, checked first, or a missing destination is an IllegalArgumentException naming its id |
| BackendService.ValidarBeneficiosParaTransferencia | backend-module/src/main/java/com/exemple/backend/service/BeneficioService.java:180-195 | Passes exactly when both are active and the source holds the amount, which leaves the source balance non-negative; an inactive source, an inactive destination, or a short balance (with both figures) is an IllegalStateException, in that order |
| BackendService.RealizarTransferencia | backend-module/src/main/java/com/exemple/backend/service/BeneficioService.java:197-204 | Debits the source entity and credits the destination entity in place, keeping their sum; the active flags and versions are unchanged |
| BackendService.AttemptOutcome | backend-module/src/main/java/com/exemple/backend/service/BeneficioService.java:72-87 | One pass of the try block succeeds exactly when the transfer is allowed and the flush persists, leaving the transferred store; every failure leaves the store as it was; it names which check fails, or the flush's exception |
| BackendService.PessimisticTransfer | backend-module/src/main/java/com/exemple/backend/service/BeneficioService.java:24-52 | Succeeds exactly when the parameters and all checks pass and the flush persists; the store is unchanged on failure; parameter failures are unwrapped, and every failure inside the try block is wrapped with the pessimistic prefix |
| BackendService.MixedTransfer | backend-module/src/main/java/com/exemple/backend/service/BeneficioService.java:119-148 | The same success condition and effect as the pessimistic strategy; the destination-conflict exception is raised exactly when the flush reports a version conflict; every other failure inside the try block, a check or a storage failure, is the attempt's own error with the mixed prefix |
| BackendService.OptimisticLoop | backend-module/src/main/java/com/exemple/backend/service/BeneficioService.java:67-111 | The loop entered with `tentativa` attempts done never makes more than three attempts in all. One attempt runs on the store it reads. A conflict with attempts left waits 100·n ms and retries on the store the other transaction left. The third conflict, a failed check or a storage failure ends the loop. Its behaviour is stated by OptimisticLoopBounds, OptimisticLoopOutcome, OptimisticLoopCalls and OptimisticLoopSaves |
| BackendService.OptimisticLoopBounds | backend-module/src/main/java/com/exemple/backend/service/BeneficioService.java:67-106 | From any count below 3, the loop makes at most 3 attempts in all, and waits 100·n ms before attempt n+1 and at no other time |
| BackendService.OptimisticLoopOutcome | backend-module/src/main/java/com/exemple/backend/service/BeneficioService.java:67-111 | Every attempt but the last passed its checks on the store it read and conflicted; the loop returns normally exactly when the last attempt passes and persists, leaving that store transferred; any failure leaves the store the last attempt read; a failed check or a storage failure is wrapped and not retried; a conflict ends the loop only on the third attempt, with the exhausted-retries exception |
| BackendService.OptimisticLoopCalls | backend-module/src/main/java/com/exemple/backend/service/BeneficioService.java:67-73 | Each attempt makes one unlocked lookup of each id, so the lookups of each id number the attempts |
| BackendService.OptimisticLoopSaves | backend-module/src/main/java/com/exemple/backend/service/BeneficioService.java:75-87 | Each id is saved once for every attempt before the last, all of which passed their checks, and once more exactly when the last attempt passed its checks on the store it read |
| BackendService.OptimisticTransfer | backend-module/src/main/java/com/exemple/backend/service/BeneficioService.java:59-112 | Parameter failures are unwrapped and make no attempt; otherwise 1 to 3 attempts, one unlocked lookup of each id per attempt; the waits are exactly a prefix of [100, 200]; a failure leaves the store the last attempt read; a normal return happens only after the transfer committed on that store |
| BackendService.BeneficioService.RunAttempt | backend-module/src/main/java/com/exemple/backend/service/BeneficioService.java:31-46 | The lookup, check, mutate, save and flush sequence ends as AttemptOutcome says, leaves no pending write, and issues two lookups with the given lock modes, then two saves only when the checks passed |
| BackendService.BeneficioService.Commit | backend-module/src/main/java/com/exemple/backend/service/BeneficioService.java:42-46 | Moving the amount between the entities, saving both and flushing commits exactly the transferred store when the flush persists and leaves the rows as they were otherwise, with no write left pending and the two saves logged |
| BackendService.BeneficioService.RetryAttempt | backend-module/src/main/java/com/exemple/backend/service/BeneficioService.java:68-106 | One unlocked pass of the retry loop, from a point where the loop ends as a given run: a return, a non-conflict failure (wrapped) or the third conflict ends that run here; an earlier conflict leaves the rest of the run pending from the next attempt, on the store the other transaction committed, with one more wait; the log grows by this pass's calls |
| BackendService.BeneficioService.TransferWithPessimisticLock | backend-module/src/main/java/com/exemple/backend/service/BeneficioService.java:23-52 | Its outcome and committed store equal PessimisticTransfer; both lookups take the write lock, source first; there is no repository call when the parameters fail |
| BackendService.BeneficioService.TransferWithMixedLock | backend-module/src/main/java/com/exemple/backend/service/BeneficioService.java:118-148 | Its outcome and committed store equal MixedTransfer; only the source lookup is locked |
| BackendService.BeneficioService.Transfer | backend-module/src/main/java/com/exemple/backend/service/BeneficioService.java:58-112 | Its outcome, committed store, attempt count, backoff waits and repository calls equal OptimisticTransfer; no repository call when the parameters fail |
| BackendService.BeneficioService.RetryLoop | backend-module/src/main/java/com/exemple/backend/service/BeneficioService.java:63-111 | The while loop's outcome, committed store, attempt count, waits and calls equal `OptimisticLoop` from attempt 0 |
| Persistence.Database.ConcurrentCommit | backend-module/src/main/java/com/exemple/backend/service/BeneficioService.java:92-93 | Another transaction's commit, revealed by a version conflict: the committed rows become what it left |
| BackendService.BeneficioService.CriarBeneficio | backend-module/src/main/java/com/exemple/backend/service/BeneficioService.java:264-269 | A null benefit is an IllegalArgumentException with the store unchanged; otherwise one new row is added under a fresh id with version 0 |
| BackendService.VerificarConflitoVersao | backend-module/src/main/java/com/exemple/backend/service/BeneficioService.java:211-219 | True exactly when the record is missing, or the supplied version (possibly null) differs from the stored one |
| BackendService.ObterVersaoAtual | backend-module/src/main/java/com/exemple/backend/service/BeneficioService.java:224-230 | The stored version exactly when the id is present, otherwise an IllegalArgumentException naming the id |
| BackendService.ConsultarSaldo | backend-module/src/main/java/com/exemple/backend/service/BeneficioService.java:233-244 | The stored balance exactly when the id is non-null and present; a null id, then a missing id, is an IllegalArgumentException |
| BackendService.IsTransferenciaPossivel | backend-module/src/main/java/com/exemple/backend/service/BeneficioService.java:247-261 | True exactly when both arguments are non-null, the source exists and is active, holds the amount, and the amount is positive |
| BackendService.SuccessConservesBalances | backend-module/src/main/java/com/exemple/backend/service/BeneficioService.java:197-203 | Under each of the three strategies a success keeps the sum of the two balances, debits the source by the amount, leaves it non-negative, and raises each version by exactly one |
| BackendService.SuccessBumpsQueriedVersions | backend-module/src/main/java/com/exemple/backend/service/BeneficioService.java:211-230 | After a success under any strategy, the conflict test is true for both versions the last attempt read and false for the source's new one, and both current versions are one higher |
| BackendService.StrategiesAgree | backend-module/src/main/java/com/exemple/backend/service/BeneficioService.java:24-148 | Without conflicts or storage failures, the three strategies succeed on the same inputs and leave the same store |
| BackendService.PossivelMatchesSourceChecks | backend-module/src/main/java/com/exemple/backend/service/BeneficioService.java:247-261 | A true "possible", with an active distinct destination and an amount within the cap, means the pessimistic transfer succeeds |
| BackendService.SuccessImpliesPossivel | backend-module/src/main/java/com/exemple/backend/service/BeneficioService.java:247-261 | A successful transfer implies that "possible" said true for its source and amount |
| BackendService.PossivelIsNotTransfer | backend-module/src/main/java/com/exemple/backend/service/BeneficioService.java:247-261 | "Possible" can say true for an amount over the cap and for a missing destination, where the transfer fails |
| BackendService.TransferExample | backend-module/src/test/java/com/exemple/backend/service/BeneficioServiceTest.java:55-117 | 500/200 at version 1, moving 100, gives 400/300 at version 2 under every strategy, in one optimistic attempt |
| BackendService.ConflictsExhaustRetries | backend-module/src/main/java/com/exemple/backend/service/BeneficioService.java:92-106 | Three conflicts in a row, on stores that each allow the transfer, give the exception naming 3 attempts after exactly 3 attempts and waits of 100 then 200 ms, leaving the store the third attempt read |
| BackendService.RetrySeesConcurrentDebit | backend-module/src/main/java/com/exemple/backend/service/BeneficioService.java:67-110 | A conflict after which the other transaction left the source with 50: the retry reads it afresh and fails the balance check, wrapped, after 2 attempts and one 100 ms wait, leaving that store |
| BackendService.RetryBuildsOnConcurrentCommit | backend-module/src/main/java/com/exemple/backend/service/BeneficioService.java:67-106 | A conflict after which the other transaction moved the source to 300 at version 2: the retry succeeds on that store, giving 200 at version 3 and 300 at version 2, after one 100 ms wait |
| EjbService.EjbTransfer | ejb-module/src/main/java/com/example/ejb/BeneficioEjbService.java:16-84 | Succeeds exactly when the parameters pass, both records exist and are active, the source holds the amount, the amount is within the cap, and the flush persists; null, same id and non-positive come first; the cap is checked after the business rules; only a flush failure is wrapped; a failure leaves the store unchanged |
| EjbService.BeneficioEjbService.Transfer | ejb-module/src/main/java/com/example/ejb/BeneficioEjbService.java:16-84 | The inlined checks, setters, merges and flush end as EjbTransfer says; two locked lookups, then two merges only when every check passed |
| EjbService.BeneficioEjbService.Commit | ejb-module/src/main/java/com/example/ejb/BeneficioEjbService.java:67-79 | The setters, raised versions, merges and flush commit exactly the transferred store when the flush persists and leave the rows as they were otherwise, with both merges logged |
| EjbService.ConsultarSaldo | ejb-module/src/main/java/com/example/ejb/BeneficioEjbService.java:87-98 | The stored balance exactly when the id is non-null and present; a null id, then a missing id, is an IllegalArgumentException |
| EjbService.IsTransferenciaPossivel | ejb-module/src/main/java/com/example/ejb/BeneficioEjbService.java:101-111 | True exactly when both arguments are non-null, the source exists and is active, holds the amount, and the amount is positive |
| EjbService.AgreesWithPessimistic | ejb-module/src/main/java/com/example/ejb/BeneficioEjbService.java:62-72 | On every input the EJB transfer succeeds exactly when the backend's pessimistic one does, and both leave the same balances and versions |
| EjbService.CapCheckedLast | ejb-module/src/main/java/com/example/ejb/BeneficioEjbService.java:54-64 | An over-cap amount from an underfunded source reports insufficient balance in the EJB, but the cap in the backend |
| EjbService.ConsultarSaldoAgrees | ejb-module/src/main/java/com/example/ejb/BeneficioEjbService.java:87-98 | The EJB and backend balance queries agree on every input |
| EjbService.PossivelAgrees | ejb-module/src/main/java/com/example/ejb/BeneficioEjbService.java:101-111 | The EJB and backend "possible" queries have the same truth table |
| SaldoDisplay.ErrorMessage | frontend/src/app/components/saldo-display/saldo-display.component.ts:66 | The server's non-empty message, otherwise 'Erro ao consultar saldo'; never empty |
| SaldoDisplay.Recorded | frontend/src/app/components/saldo-display/saldo-display.component.ts:52-60 | The new entry comes first, earlier entries follow in their order shifted by one, and the length is min(old + 1, 5) |
| SaldoDisplay.SaldoDisplayComponent.constructor | frontend/src/app/components/saldo-display/saldo-display.component.ts:26-28 | Not loading, no result, empty history |
| SaldoDisplay.SaldoDisplayComponent.ConsultarSaldo | frontend/src/app/components/saldo-display/saldo-display.component.ts:41-46 | An invalid form changes nothing and sends no request; a valid one raises the loading flag and requests the form's id, leaving the result and the history alone |
| SaldoDisplay.SaldoDisplayComponent.OnNext | frontend/src/app/components/saldo-display/saldo-display.component.ts:47-62 | Shows the response and clears the loading flag; only successes enter the history, at its head, never past five entries |
| SaldoDisplay.SaldoDisplayComponent.OnError | frontend/src/app/components/saldo-display/saldo-display.component.ts:63-69 | Shows a failure with the server's message or the fallback, clears the loading flag, and leaves the history unchanged |
| SaldoDisplay.ReplayKeepsRecentSuccesses | frontend/src/app/components/saldo-display/saldo-display.component.ts:51-60 | After any run of responses the history is the first five of the successful entries (latest first) followed by the earlier history, and never longer than five |
| SaldoDisplay.SixthLookupDropsOldest | frontend/src/app/components/saldo-display/saldo-display.component.ts:58-60 | After six successful lookups from an empty history, the first one has been dropped and the other five remain, newest first |

## Left out

- HTTP and UI:
  - the REST controller and its mapping of exceptions to status codes;
  - the Angular HTTP client;
  - the number and date formatting pipes (`formatarNumero`, `formatarData`, `formatarHora`);
  - `new Date(...)` parsing of the timestamp, which the history keeps as the received string.
- Real concurrency: row locks, blocking, deadlock and the interleaving of
  concurrent transfers. Lock modes are only recorded in the call log. A
  version conflict is the store's answer at flush time, given as an input.
  Other transactions show only through such a conflict: what they
  committed is an input too (`seen`), read by the next attempt.
- Transaction timing. In Spring and JPA, writes reach the database at
  commit, after the service method returns. The model flushes at the end of
  each attempt, inside the `try`, as the `catch` clauses expect. A failed
  attempt rolls back on its own; the model does not separate it from the
  surrounding `@Transactional` boundary.
- The JPA persistence context's first-level cache. Every lookup yields a fresh entity with the committed row.
- `Thread.sleep` timing and the `InterruptedException` path ("Transferência interrompida"). The sleeps are recorded as milliseconds in a ghost list; interruption is not modelled.
- Message text. `String.format("%.2f")` and string concatenation are left out. An exception is its kind, a problem tag and the figures it carries. The wrapped message carries its cause as data.
- `StorageFailure` stands for any failure the store raises other than a version conflict. In the EJB it is treated as a `PersistenceException`, so it is wrapped.
- Failures raised by the lookups themselves are not modelled.
- 64-bit `Long` overflow of versions and ids, and entity fields other than `valor`, `ativo` and `version`.
- BackendService.VerificarConflitoVersao: takes a non-null id. The service passes a null id to `findById`, whose own rejection of null is not part of this model.
- BackendService.ObterVersaoAtual: takes a non-null id, for the same reason. A null id reaches `findById`, whose rejection of null is not part of this model.
- BackendService.BeneficioService.CriarBeneficio: models saving a new entity only. Saving an entity that already carries an id, which JPA would merge, is not modelled.
- `buscarPorId`, `listarTodos` and `listarAtivos` are direct repository pass-throughs with no logic.
- SaldoDisplay.SaldoDisplayComponent.ConsultarSaldo: the response is not awaited inside the method. The request is returned, and its answer is delivered by calling `OnNext` or `OnError`. The reactive form is reduced to the value of its one control.
