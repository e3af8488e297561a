/** BeneficioService of the backend module: three transfer strategies
    (optimistic with bounded retry, pessimistic, mixed) over the repository,
    the validators they share, and the read-only queries.

    Every strategy is given twice: as a function of the committed store,
    which states what the strategy does, and as a method of the service
    class, which does it step by step against the repository and is proved
    to agree with the function. */
module BackendService {
  import opened Model
  import opened Persistence

  /** maxTentativas of the optimistic strategy. */
  const MaxTentativas: nat := 3

  /** The backoff before retry attempt n + 1 is n times this many milliseconds. */
  const BackoffUnit: nat := 100

  // ---------------------------------------------------------------------
  // Validators
  // ---------------------------------------------------------------------

  /** The request shape every strategy demands: no null, two different ids,
      an amount in (0, 1000000]. */
  predicate ParametersOk(fromId: Option<Id>, toId: Option<Id>, amount: Option<Money>)
  {
    fromId.Some? && toId.Some? && amount.Some? && fromId.value != toId.value
    && 0.0 < amount.value <= Limit
  }

  /** validarParametrosTransferencia: the checks run in the order null,
      same id, non-positive, above the cap, and each failure is an
      IllegalArgumentException. */
  function ValidarParametrosTransferencia(fromId: Option<Id>, toId: Option<Id>, amount: Option<Money>): (r: Completion)
    ensures r.Returned? <==> ParametersOk(fromId, toId, amount)
    ensures r.Threw? ==> r.error.IllegalArgument?
    ensures r == Threw(IllegalArgument(NullParameters)) <==> fromId.None? || toId.None? || amount.None?
    ensures r == Threw(IllegalArgument(SameBenefit)) <==>
      fromId.Some? && toId.Some? && amount.Some? && fromId.value == toId.value
    ensures r == Threw(IllegalArgument(NonPositiveAmount)) <==>
      fromId.Some? && toId.Some? && amount.Some? && fromId.value != toId.value && amount.value <= 0.0
    ensures r == Threw(IllegalArgument(AboveLimit)) <==>
      fromId.Some? && toId.Some? && amount.Some? && fromId.value != toId.value && amount.value > Limit
  {
    if fromId.None? || toId.None? || amount.None? then Threw(IllegalArgument(NullParameters))
    else if fromId.value == toId.value then Threw(IllegalArgument(SameBenefit))
    else if amount.value <= 0.0 then Threw(IllegalArgument(NonPositiveAmount))
    else if amount.value > Limit then Threw(IllegalArgument(AboveLimit))
    else Returned
  }

  /** validarBeneficiosEncontrados: a missing record is an
      IllegalArgumentException naming its id, the source checked first. */
  function ValidarBeneficiosEncontrados(fromOpt: Option<Record>, toOpt: Option<Record>, fromId: Id, toId: Id): (r: Completion)
    ensures r.Returned? <==> fromOpt.Some? && toOpt.Some?
    ensures fromOpt.None? ==> r == Threw(IllegalArgument(SourceNotFound(fromId)))
    ensures fromOpt.Some? && toOpt.None? ==> r == Threw(IllegalArgument(DestinationNotFound(toId)))
  {
    if fromOpt.None? then Threw(IllegalArgument(SourceNotFound(fromId)))
    else if toOpt.None? then Threw(IllegalArgument(DestinationNotFound(toId)))
    else Returned
  }

  /** validarBeneficiosParaTransferencia: an inactive source, an inactive
      destination, or a balance below the amount, in that order, is an
      IllegalStateException; passing leaves a non-negative source balance. */
  function ValidarBeneficiosParaTransferencia(from: Record, to: Record, amount: Money): (r: Completion)
    ensures r.Returned? <==> from.ativo && to.ativo && from.valor >= amount
    ensures r.Returned? ==> from.valor - amount >= 0.0
    ensures r.Threw? ==> r.error.IllegalState?
    ensures !from.ativo ==> r == Threw(IllegalState(SourceInactive))
    ensures from.ativo && !to.ativo ==> r == Threw(IllegalState(DestinationInactive))
    ensures from.ativo && to.ativo && from.valor < amount ==>
      r == Threw(IllegalState(InsufficientBalance(from.valor, amount)))
  {
    if !from.ativo then Threw(IllegalState(SourceInactive))
    else if !to.ativo then Threw(IllegalState(DestinationInactive))
    else if from.valor < amount then Threw(IllegalState(InsufficientBalance(from.valor, amount)))
    else Returned
  }

  /** realizarTransferencia: debits the source entity and credits the
      destination entity in place; the sum of the two is kept. */
  method RealizarTransferencia(from: Beneficio, to: Beneficio, amount: Money)
    requires from != to
    modifies from, to
    ensures from.valor == old(from.valor) - amount && to.valor == old(to.valor) + amount
    ensures from.valor + to.valor == old(from.valor) + old(to.valor)
    ensures from.ativo == old(from.ativo) && from.version == old(from.version)
    ensures to.ativo == old(to.ativo) && to.version == old(to.version)
  {
    from.valor := from.valor - amount;
    to.valor := to.valor + amount;
  }

  // ---------------------------------------------------------------------
  // One attempt: the body of the try block every strategy shares
  // ---------------------------------------------------------------------

  /** One attempt on store `s`: look both records up, run the existence and
      business checks, then write both, committing only when the store's
      flush reports Persisted. */
  function AttemptOutcome(s: Store, f: Id, t: Id, amount: Money, flush: FlushOutcome): (r: Step)
    requires f != t
    ensures r.completion.Returned? <==> Transferable(s, f, t, amount) && flush.Persisted?
    ensures r.completion.Returned? ==> r.store == Transferred(s, f, t, amount)
    ensures r.completion.Threw? ==> r.store == s
    ensures f !in s ==> r.completion == Threw(IllegalArgument(SourceNotFound(f)))
    ensures f in s && t !in s ==> r.completion == Threw(IllegalArgument(DestinationNotFound(t)))
    ensures f in s && t in s && !Transferable(s, f, t, amount) ==>
      r.completion == ValidarBeneficiosParaTransferencia(s[f], s[t], amount)
    ensures Transferable(s, f, t, amount) && !flush.Persisted? ==> r.completion == Threw(FlushError(flush))
    ensures r.completion == Threw(OptimisticLock) <==> Transferable(s, f, t, amount) && flush.VersionConflict?
  {
    var found := ValidarBeneficiosEncontrados(Find(s, f), Find(s, t), f, t);
    if found.Threw? then Step(found, s)
    else
      var rules := ValidarBeneficiosParaTransferencia(s[f], s[t], amount);
      if rules.Threw? then Step(rules, s)
      else if flush.Persisted? then Step(Returned, Transferred(s, f, t, amount))
      else Step(Threw(FlushError(flush)), s)
  }

  /** The repository calls of one attempt: both lookups, always, then both
      saves, only when every check passed. */
  function AttemptTrace(s: Store, f: Id, t: Id, amount: Money, fromMode: LockMode, toMode: LockMode): seq<Access>
  {
    [Lookup(f, fromMode), Lookup(t, toMode)] + (if Transferable(s, f, t, amount) then [Write(f), Write(t)] else [])
  }

  // ---------------------------------------------------------------------
  // The strategies, as functions of the committed store
  // ---------------------------------------------------------------------

  /** transferWithPessimisticLock: parameter failures surface unwrapped;
      every failure inside the try block is wrapped with the pessimistic
      prefix; success moves the amount and bumps both versions. */
  function PessimisticTransfer(s: Store, fromId: Option<Id>, toId: Option<Id>, amount: Option<Money>, flush: FlushOutcome): (r: Step)
    ensures r.completion.Returned? <==>
      ParametersOk(fromId, toId, amount) && Transferable(s, fromId.value, toId.value, amount.value) && flush.Persisted?
    ensures r.completion.Returned? ==> r.store == Transferred(s, fromId.value, toId.value, amount.value)
    ensures r.completion.Threw? ==> r.store == s
    ensures !ParametersOk(fromId, toId, amount) ==> r.completion == ValidarParametrosTransferencia(fromId, toId, amount)
    ensures ParametersOk(fromId, toId, amount) && r.completion.Threw? ==>
      r.completion.error == Runtime(PessimisticFailure,
        AttemptOutcome(s, fromId.value, toId.value, amount.value, flush).completion.error)
  {
    var p := ValidarParametrosTransferencia(fromId, toId, amount);
    if p.Threw? then Step(p, s)
    else
      var step := AttemptOutcome(s, fromId.value, toId.value, amount.value, flush);
      if step.completion.Returned? then step
      else Step(Threw(Runtime(PessimisticFailure, step.completion.error)), s)
  }

  /** transferWithMixedLock: like the pessimistic strategy, except that a
      version conflict becomes the destination-conflict exception, with no
      retry, and other failures carry the mixed prefix. */
  function MixedTransfer(s: Store, fromId: Option<Id>, toId: Option<Id>, amount: Option<Money>, flush: FlushOutcome): (r: Step)
    ensures r.completion.Returned? <==>
      ParametersOk(fromId, toId, amount) && Transferable(s, fromId.value, toId.value, amount.value) && flush.Persisted?
    ensures r.completion.Returned? ==> r.store == Transferred(s, fromId.value, toId.value, amount.value)
    ensures r.completion.Threw? ==> r.store == s
    ensures !ParametersOk(fromId, toId, amount) ==> r.completion == ValidarParametrosTransferencia(fromId, toId, amount)
    ensures r.completion == Threw(Runtime(DestinationConflict, OptimisticLock)) <==>
      ParametersOk(fromId, toId, amount) && Transferable(s, fromId.value, toId.value, amount.value) && flush.VersionConflict?
    ensures ParametersOk(fromId, toId, amount) && r.completion.Threw? &&
            r.completion != Threw(Runtime(DestinationConflict, OptimisticLock)) ==>
      r.completion.error == Runtime(MixedFailure,
        AttemptOutcome(s, fromId.value, toId.value, amount.value, flush).completion.error)
  {
    var p := ValidarParametrosTransferencia(fromId, toId, amount);
    if p.Threw? then Step(p, s)
    else
      var step := AttemptOutcome(s, fromId.value, toId.value, amount.value, flush);
      if step.completion.Returned? then step
      else if step.completion.error == OptimisticLock then Step(Threw(Runtime(DestinationConflict, OptimisticLock)), s)
      else Step(Threw(Runtime(MixedFailure, step.completion.error)), s)
  }

  /** What the optimistic strategy leaves: how it ended, the committed store,
      how many attempts it made, the backoff waits between them, and the
      repository calls it issued. */
  datatype Run = Run(completion: Completion, store: Store, attempts: nat, waits: seq<nat>, calls: seq<Access>)

  /** The flush outcome the store reports for attempt `i` (counting from 0);
      attempts the oracle does not cover flush cleanly. */
  function FlushAt(commits: seq<FlushOutcome>, i: nat): FlushOutcome
  {
    if i < |commits| then commits[i] else Persisted
  }

  /** The committed store a retry reads after the version conflict of
      attempt `i` (counting from 0): the conflict means another transaction
      committed, and `seen[i]` is the store that transaction left; with no
      report, the store as it was. */
  function ReadAfter(cur: Store, seen: seq<Store>, i: nat): Store
  {
    if i < |seen| then seen[i] else cur
  }

  /** The store attempt `k` reads, when attempt `lo` read `cur` and each
      attempt in between ended in a version conflict. */
  function ReadFrom(cur: Store, seen: seq<Store>, lo: nat, k: int): Store
    decreases k
  {
    if k <= lo then cur else ReadAfter(ReadFrom(cur, seen, lo, k - 1), seen, k - 1)
  }

  /** Starting one attempt later, from the store the conflict revealed,
      reaches the same stores. */
  lemma {:induction false} ReadFromShift(cur: Store, seen: seq<Store>, lo: nat, k: int)
    requires lo < k
    ensures ReadFrom(ReadAfter(cur, seen, lo), seen, lo + 1, k) == ReadFrom(cur, seen, lo, k)
    decreases k
  {
    if k > lo + 1 {
      ReadFromShift(cur, seen, lo, k - 1);
    }
  }

  /** Every store an attempt reads is the first one or one a conflict reported. */
  lemma {:induction false} ReadFromIsReported(cur: Store, seen: seq<Store>, lo: nat, k: int)
    ensures ReadFrom(cur, seen, lo, k) == cur || ReadFrom(cur, seen, lo, k) in seen
    decreases k
  {
    if k > lo {
      ReadFromIsReported(cur, seen, lo, k - 1);
    }
  }

  /** The store the last of `attempts` attempts read, starting from `s`. */
  function LastRead(s: Store, seen: seq<Store>, attempts: nat): Store
  {
    ReadFrom(s, seen, 0, attempts - 1)
  }

  /** The while loop of `transfer` entered with `tentativa` attempts done,
      the next attempt reading `cur`. When the loop condition fails the Java
      method returns normally (the first branch). A conflict with attempts
      left waits 100 * tentativa ms and retries with a fresh read of the
      store the concurrent writer left; the third conflict throws; any other
      failure ends the loop at once, wrapped. */
  function OptimisticLoop(cur: Store, f: Id, t: Id, amount: Money, commits: seq<FlushOutcome>, seen: seq<Store>, tentativa: nat): (r: Run)
    requires f != t && tentativa <= MaxTentativas
    ensures tentativa <= r.attempts <= MaxTentativas
    decreases MaxTentativas - tentativa
  {
    if tentativa >= MaxTentativas then Run(Returned, cur, tentativa, [], [])
    else
      var n := tentativa + 1;
      var step := AttemptOutcome(cur, f, t, amount, FlushAt(commits, tentativa));
      var calls := AttemptTrace(cur, f, t, amount, NoLock, NoLock);
      if step.completion.Returned? then Run(Returned, step.store, n, [], calls)
      else if step.completion.error == OptimisticLock then
        if n >= MaxTentativas then Run(Threw(Runtime(RetriesExhausted(MaxTentativas), OptimisticLock)), cur, n, [], calls)
        else
          var rest := OptimisticLoop(ReadAfter(cur, seen, tentativa), f, t, amount, commits, seen, n);
          Run(rest.completion, rest.store, rest.attempts, [BackoffUnit * n] + rest.waits, calls + rest.calls)
      else Run(Threw(Runtime(OptimisticFailure, step.completion.error)), cur, n, [], calls)
  }

  /** One conflicting attempt with attempts left: the rest of the loop runs
      from the store the conflict revealed, after this attempt's sleep and
      calls. */
  lemma LoopOnConflict(cur: Store, f: Id, t: Id, amount: Money, commits: seq<FlushOutcome>, seen: seq<Store>, tentativa: nat)
    requires f != t && tentativa + 1 < MaxTentativas
    requires var step := AttemptOutcome(cur, f, t, amount, FlushAt(commits, tentativa));
      !step.completion.Returned? && step.completion.error == OptimisticLock
    ensures var rest := OptimisticLoop(ReadAfter(cur, seen, tentativa), f, t, amount, commits, seen, tentativa + 1);
      OptimisticLoop(cur, f, t, amount, commits, seen, tentativa) ==
      Run(rest.completion, rest.store, rest.attempts, [BackoffUnit * (tentativa + 1)] + rest.waits,
          AttemptTrace(cur, f, t, amount, NoLock, NoLock) + rest.calls)
  {
  }

  /** Where the retry loop stands when attempt `tentativa` is about to
      read `cur`: the loop from here, after the sleeps `waits` and the calls
      `calls` so far, ends as `total`. */
  ghost predicate Pending(cur: Store, f: Id, t: Id, amount: Money, commits: seq<FlushOutcome>, seen: seq<Store>,
                          tentativa: nat, waits: seq<nat>, calls: seq<Access>, total: Run)
    requires f != t && tentativa <= MaxTentativas
  {
    var rest := OptimisticLoop(cur, f, t, amount, commits, seen, tentativa);
    && rest.completion == total.completion && rest.store == total.store && rest.attempts == total.attempts
    && waits + rest.waits == total.waits && calls + rest.calls == total.calls
  }

  /** The retry loop is bounded: from any point with attempts left it makes
      at most three attempts in all, and waits 100 * n ms before attempt
      n + 1 and at no other time. */
  lemma {:induction false} OptimisticLoopBounds(cur: Store, f: Id, t: Id, amount: Money, commits: seq<FlushOutcome>, seen: seq<Store>, tentativa: nat)
    requires f != t && tentativa < MaxTentativas
    decreases MaxTentativas - tentativa
    ensures var r := OptimisticLoop(cur, f, t, amount, commits, seen, tentativa);
      && tentativa < r.attempts <= MaxTentativas
      && |r.waits| == r.attempts - 1 - tentativa
      && (forall i :: 0 <= i < |r.waits| ==> r.waits[i] == BackoffUnit * (tentativa + 1 + i))
  {
    var step := AttemptOutcome(cur, f, t, amount, FlushAt(commits, tentativa));
    if !step.completion.Returned? && step.completion.error == OptimisticLock && tentativa + 1 < MaxTentativas {
      OptimisticLoopBounds(ReadAfter(cur, seen, tentativa), f, t, amount, commits, seen, tentativa + 1);
    }
  }

  /** How the retry loop ends, whatever the concurrent writers leave
      between attempts: every attempt but the last passed all checks on the
      store it read and hit a version conflict; the last one decides on the
      store it read. A normal return happens exactly when that attempt
      passes the checks and its flush persists, so the loop never falls
      through its condition; a failed check or a storage failure is wrapped
      and not retried; a conflict ends the loop only as the third attempt,
      with the exhausted-retries exception; the committed store changes
      only by that last transfer. */
  lemma {:induction false} OptimisticLoopOutcome(cur: Store, f: Id, t: Id, amount: Money, commits: seq<FlushOutcome>, seen: seq<Store>, tentativa: nat)
    requires f != t && tentativa < MaxTentativas
    decreases MaxTentativas - tentativa
    ensures var r := OptimisticLoop(cur, f, t, amount, commits, seen, tentativa);
      var k := r.attempts - 1;
      var last := ReadFrom(cur, seen, tentativa, k);
      && tentativa <= k
      && (forall j :: tentativa <= j < k ==>
            FlushAt(commits, j).VersionConflict? && Transferable(ReadFrom(cur, seen, tentativa, j), f, t, amount))
      && (r.completion.Returned? <==> Transferable(last, f, t, amount) && FlushAt(commits, k).Persisted?)
      && (r.completion.Returned? ==> r.store == Transferred(last, f, t, amount))
      && (r.completion.Threw? ==> r.store == last)
      && (!Transferable(last, f, t, amount) ==>
            r.completion == Threw(Runtime(OptimisticFailure, AttemptOutcome(last, f, t, amount, Persisted).completion.error)))
      && (Transferable(last, f, t, amount) && FlushAt(commits, k).StorageFailure? ==>
            r.completion == Threw(Runtime(OptimisticFailure, StorageError)))
      && (Transferable(last, f, t, amount) && FlushAt(commits, k).VersionConflict? ==>
            r.attempts == MaxTentativas && r.completion == Threw(Runtime(RetriesExhausted(MaxTentativas), OptimisticLock)))
  {
    var n := tentativa + 1;
    var step := AttemptOutcome(cur, f, t, amount, FlushAt(commits, tentativa));
    OptimisticLoopBounds(cur, f, t, amount, commits, seen, tentativa);
    if !step.completion.Returned? && step.completion.error == OptimisticLock && n < MaxTentativas {
      var next := ReadAfter(cur, seen, tentativa);
      LoopOnConflict(cur, f, t, amount, commits, seen, tentativa);
      OptimisticLoopOutcome(next, f, t, amount, commits, seen, n);
      OptimisticLoopBounds(next, f, t, amount, commits, seen, n);
      var rest := OptimisticLoop(next, f, t, amount, commits, seen, n);
      ReadFromShift(cur, seen, tentativa, rest.attempts - 1);
      forall j | n <= j < rest.attempts - 1
        ensures ReadFrom(next, seen, n, j) == ReadFrom(cur, seen, tentativa, j)
      {
        ReadFromShift(cur, seen, tentativa, j);
      }
    }
  }

  /** One unlocked attempt looks each record up once, and saves each once
      exactly when the checks pass. */
  lemma AttemptTraceCounts(s: Store, f: Id, t: Id, amount: Money)
    requires f != t
    ensures var m := multiset(AttemptTrace(s, f, t, amount, NoLock, NoLock));
      var saves := if Transferable(s, f, t, amount) then 1 else 0;
      m[Lookup(f, NoLock)] == 1 && m[Lookup(t, NoLock)] == 1 && m[Write(f)] == saves && m[Write(t)] == saves
  {
    var pair := [Lookup(f, NoLock), Lookup(t, NoLock)];
    var writes: seq<Access> := if Transferable(s, f, t, amount) then [Write(f), Write(t)] else [];
    assert AttemptTrace(s, f, t, amount, NoLock, NoLock) == pair + writes;
    assert multiset(pair + writes) == multiset(pair) + multiset(writes);
  }

  /** Occurrences in a concatenation add up. */
  lemma CountAppend<T>(a: seq<T>, b: seq<T>, x: T)
    ensures multiset(a + b)[x] == multiset(a)[x] + multiset(b)[x]
  {
    assert multiset(a + b) == multiset(a) + multiset(b);
  }

  /** The lookups of the retry loop: each attempt looks both records up
      afresh, without a lock. */
  lemma {:induction false} OptimisticLoopCalls(cur: Store, f: Id, t: Id, amount: Money, commits: seq<FlushOutcome>, seen: seq<Store>, tentativa: nat)
    requires f != t && tentativa < MaxTentativas
    decreases MaxTentativas - tentativa
    ensures LookupsIn(OptimisticLoop(cur, f, t, amount, commits, seen, tentativa), f, t, tentativa)
  {
    var step := AttemptOutcome(cur, f, t, amount, FlushAt(commits, tentativa));
    if !step.completion.Returned? && step.completion.error == OptimisticLock && tentativa + 1 < MaxTentativas {
      OptimisticLoopCalls(ReadAfter(cur, seen, tentativa), f, t, amount, commits, seen, tentativa + 1);
      ConflictingAttemptLookups(cur, f, t, amount, commits, seen, tentativa);
    } else {
      AttemptTraceCounts(cur, f, t, amount);
    }
  }

  /** A run `r` of the loop from attempt `tentativa` looks each record up
      once per attempt it makes. */
  ghost predicate LookupsIn(r: Run, f: Id, t: Id, tentativa: nat)
  {
    multiset(r.calls)[Lookup(f, NoLock)] == r.attempts - tentativa &&
    multiset(r.calls)[Lookup(t, NoLock)] == r.attempts - tentativa
  }

  /** The lookups when this attempt conflicts and the loop goes on. */
  lemma ConflictingAttemptLookups(cur: Store, f: Id, t: Id, amount: Money, commits: seq<FlushOutcome>, seen: seq<Store>, tentativa: nat)
    requires f != t && tentativa + 1 < MaxTentativas
    requires var step := AttemptOutcome(cur, f, t, amount, FlushAt(commits, tentativa));
      !step.completion.Returned? && step.completion.error == OptimisticLock
    requires LookupsIn(OptimisticLoop(ReadAfter(cur, seen, tentativa), f, t, amount, commits, seen, tentativa + 1), f, t, tentativa + 1)
    ensures LookupsIn(OptimisticLoop(cur, f, t, amount, commits, seen, tentativa), f, t, tentativa)
  {
    var rest := OptimisticLoop(ReadAfter(cur, seen, tentativa), f, t, amount, commits, seen, tentativa + 1);
    LoopOnConflict(cur, f, t, amount, commits, seen, tentativa);
    AttemptTraceCounts(cur, f, t, amount);
    LookupsPrepend(OptimisticLoop(cur, f, t, amount, commits, seen, tentativa), rest,
                   AttemptTrace(cur, f, t, amount, NoLock, NoLock), f, t, tentativa);
  }

  /** A run that is one attempt followed by `rest` looks each record up
      once more than `rest` does. */
  lemma LookupsPrepend(r: Run, rest: Run, calls: seq<Access>, f: Id, t: Id, tentativa: nat)
    requires r.attempts == rest.attempts && r.calls == calls + rest.calls
    requires multiset(calls)[Lookup(f, NoLock)] == 1 && multiset(calls)[Lookup(t, NoLock)] == 1
    requires LookupsIn(rest, f, t, tentativa + 1)
    ensures LookupsIn(r, f, t, tentativa)
  {
    CountAppend(calls, rest.calls, Lookup(f, NoLock));
    CountAppend(calls, rest.calls, Lookup(t, NoLock));
  }

  /** The attempts `tentativa` onwards save both records once for every
      attempt before the last, and once more when the last one, on the
      store it read, passed its checks. */
  ghost predicate SavesCounted(cur: Store, f: Id, t: Id, amount: Money, commits: seq<FlushOutcome>, seen: seq<Store>, tentativa: nat)
    requires f != t && tentativa <= MaxTentativas
  {
    SavesIn(OptimisticLoop(cur, f, t, amount, commits, seen, tentativa), cur, f, t, amount, seen, tentativa)
  }

  /** The save count of a run `r` of the loop from attempt `tentativa`,
      whose first attempt read `cur`. */
  ghost predicate SavesIn(r: Run, cur: Store, f: Id, t: Id, amount: Money, seen: seq<Store>, tentativa: nat)
  {
    var k := r.attempts - 1;
    var saves := k - tentativa + (if Transferable(ReadFrom(cur, seen, tentativa, k), f, t, amount) then 1 else 0);
    multiset(r.calls)[Write(f)] == saves && multiset(r.calls)[Write(t)] == saves
  }

  /** A run that is one passing attempt followed by `rest` saves once more
      than `rest` does. */
  lemma SavesPrepend(r: Run, rest: Run, calls: seq<Access>, cur: Store, next: Store, f: Id, t: Id, amount: Money,
                     seen: seq<Store>, tentativa: nat)
    requires r.attempts == rest.attempts && r.calls == calls + rest.calls
    requires multiset(calls)[Write(f)] == 1 && multiset(calls)[Write(t)] == 1
    requires ReadFrom(next, seen, tentativa + 1, rest.attempts - 1) == ReadFrom(cur, seen, tentativa, rest.attempts - 1)
    requires SavesIn(rest, next, f, t, amount, seen, tentativa + 1)
    ensures SavesIn(r, cur, f, t, amount, seen, tentativa)
  {
    CountAppend(calls, rest.calls, Write(f));
    CountAppend(calls, rest.calls, Write(t));
  }

  /** The saves when this attempt is the last. */
  lemma LastAttemptSaves(cur: Store, f: Id, t: Id, amount: Money, commits: seq<FlushOutcome>, seen: seq<Store>, tentativa: nat)
    requires f != t && tentativa < MaxTentativas
    requires var step := AttemptOutcome(cur, f, t, amount, FlushAt(commits, tentativa));
      step.completion.Returned? || step.completion.error != OptimisticLock || tentativa + 1 >= MaxTentativas
    ensures SavesCounted(cur, f, t, amount, commits, seen, tentativa)
  {
    AttemptTraceCounts(cur, f, t, amount);
  }

  /** The saves when this attempt conflicts and the loop goes on: this
      attempt passed its checks, so it adds one save of each. */
  lemma ConflictingAttemptSaves(cur: Store, f: Id, t: Id, amount: Money, commits: seq<FlushOutcome>, seen: seq<Store>, tentativa: nat)
    requires f != t && tentativa + 1 < MaxTentativas
    requires var step := AttemptOutcome(cur, f, t, amount, FlushAt(commits, tentativa));
      !step.completion.Returned? && step.completion.error == OptimisticLock
    requires SavesCounted(ReadAfter(cur, seen, tentativa), f, t, amount, commits, seen, tentativa + 1)
    ensures SavesCounted(cur, f, t, amount, commits, seen, tentativa)
  {
    var next := ReadAfter(cur, seen, tentativa);
    var calls := AttemptTrace(cur, f, t, amount, NoLock, NoLock);
    var rest := OptimisticLoop(next, f, t, amount, commits, seen, tentativa + 1);
    var r := OptimisticLoop(cur, f, t, amount, commits, seen, tentativa);
    assert r.attempts == rest.attempts && r.calls == calls + rest.calls by {
      LoopOnConflict(cur, f, t, amount, commits, seen, tentativa);
    }
    assert multiset(calls)[Write(f)] == 1 && multiset(calls)[Write(t)] == 1 by {
      AttemptTraceCounts(cur, f, t, amount);
    }
    assert ReadFrom(next, seen, tentativa + 1, rest.attempts - 1) == ReadFrom(cur, seen, tentativa, rest.attempts - 1) by {
      OptimisticLoopBounds(next, f, t, amount, commits, seen, tentativa + 1);
      ReadFromShift(cur, seen, tentativa, rest.attempts - 1);
    }
    SavesPrepend(r, rest, calls, cur, next, f, t, amount, seen, tentativa);
  }

  /** The saves of the retry loop: each attempt saves both records only
      when its checks pass, which every attempt but the last did. */
  lemma {:induction false} OptimisticLoopSaves(cur: Store, f: Id, t: Id, amount: Money, commits: seq<FlushOutcome>, seen: seq<Store>, tentativa: nat)
    requires f != t && tentativa < MaxTentativas
    decreases MaxTentativas - tentativa
    ensures SavesCounted(cur, f, t, amount, commits, seen, tentativa)
  {
    var step := AttemptOutcome(cur, f, t, amount, FlushAt(commits, tentativa));
    if !step.completion.Returned? && step.completion.error == OptimisticLock && tentativa + 1 < MaxTentativas {
      OptimisticLoopSaves(ReadAfter(cur, seen, tentativa), f, t, amount, commits, seen, tentativa + 1);
      ConflictingAttemptSaves(cur, f, t, amount, commits, seen, tentativa);
    } else {
      LastAttemptSaves(cur, f, t, amount, commits, seen, tentativa);
    }
  }

  /** transfer (optimistic locking): parameter failures surface unwrapped
      before any lookup; otherwise the retry loop from no attempts. */
  function OptimisticTransfer(s: Store, fromId: Option<Id>, toId: Option<Id>, amount: Option<Money>,
                              commits: seq<FlushOutcome>, seen: seq<Store>): (r: Run)
    ensures !ParametersOk(fromId, toId, amount) ==>
      r == Run(ValidarParametrosTransferencia(fromId, toId, amount), s, 0, [], [])
    ensures ParametersOk(fromId, toId, amount) ==> 1 <= r.attempts <= MaxTentativas
    ensures r.waits == [100, 200][..(if r.attempts == 0 then 0 else r.attempts - 1)]
    ensures r.completion.Threw? ==> r.store == LastRead(s, seen, r.attempts)
    ensures r.completion.Returned? ==>
      ParametersOk(fromId, toId, amount) && Transferable(LastRead(s, seen, r.attempts), fromId.value, toId.value, amount.value) &&
      r.store == Transferred(LastRead(s, seen, r.attempts), fromId.value, toId.value, amount.value)
    ensures ParametersOk(fromId, toId, amount) ==>
      multiset(r.calls)[Lookup(fromId.value, NoLock)] == r.attempts &&
      multiset(r.calls)[Lookup(toId.value, NoLock)] == r.attempts
  {
    var p := ValidarParametrosTransferencia(fromId, toId, amount);
    if p.Threw? then Run(p, s, 0, [], [])
    else
      var f, t, a := fromId.value, toId.value, amount.value;
      OptimisticLoopFromStart(s, f, t, a, commits, seen);
      OptimisticLoop(s, f, t, a, commits, seen, 0)
  }

  /** What a transfer that passed its parameter checks promises of its
      run `r` from the committed store `s`: one to three attempts, the
      sleeps between them, the lookups of each, and an outcome decided on
      the store the last attempt read. */
  ghost predicate StartedRun(r: Run, s: Store, f: Id, t: Id, amount: Money, seen: seq<Store>)
    requires f != t
  {
    && 1 <= r.attempts <= MaxTentativas
    && r.waits == [100, 200][..r.attempts - 1]
    && (r.completion.Threw? ==> r.store == LastRead(s, seen, r.attempts))
    && (r.completion.Returned? ==> Transferable(LastRead(s, seen, r.attempts), f, t, amount) &&
                                   r.store == Transferred(LastRead(s, seen, r.attempts), f, t, amount))
    && multiset(r.calls)[Lookup(f, NoLock)] == r.attempts
    && multiset(r.calls)[Lookup(t, NoLock)] == r.attempts
  }

  /** The retry loop from no attempts gives such a run. */
  lemma OptimisticLoopFromStart(s: Store, f: Id, t: Id, amount: Money, commits: seq<FlushOutcome>, seen: seq<Store>)
    requires f != t
    ensures StartedRun(OptimisticLoop(s, f, t, amount, commits, seen, 0), s, f, t, amount, seen)
  {
    OptimisticLoopBounds(s, f, t, amount, commits, seen, 0);
    OptimisticLoopOutcome(s, f, t, amount, commits, seen, 0);
    OptimisticLoopCalls(s, f, t, amount, commits, seen, 0);
    StartedRunIntro(OptimisticLoop(s, f, t, amount, commits, seen, 0), s, f, t, amount, seen);
  }

  /** The facts of the three loop lemmas, read from the first attempt. */
  lemma StartedRunIntro(r: Run, s: Store, f: Id, t: Id, amount: Money, seen: seq<Store>)
    requires f != t
    requires 0 < r.attempts <= MaxTentativas && |r.waits| == r.attempts - 1
    requires forall i :: 0 <= i < |r.waits| ==> r.waits[i] == BackoffUnit * (1 + i)
    requires var last := ReadFrom(s, seen, 0, r.attempts - 1);
      && (r.completion.Returned? ==> Transferable(last, f, t, amount) && r.store == Transferred(last, f, t, amount))
      && (r.completion.Threw? ==> r.store == last)
    requires multiset(r.calls)[Lookup(f, NoLock)] == r.attempts && multiset(r.calls)[Lookup(t, NoLock)] == r.attempts
    ensures StartedRun(r, s, f, t, amount, seen)
  {
    assert r.waits == [100, 200][..r.attempts - 1];
  }

  /** Concatenation regroups freely. */
  lemma AppendAssociates<T>(a: seq<T>, b: seq<T>, c: seq<T>)
    ensures (a + b) + c == a + (b + c)
  {
  }

  /** A log that completes to `whole` with `tail`, where `tail` is `b`
      followed by `c`, completes to it with `c` once `b` is appended. */
  lemma Regroup<T>(a: seq<T>, b: seq<T>, c: seq<T>, tail: seq<T>, whole: seq<T>)
    requires a + tail == whole && tail == b + c
    ensures (a + b) + c == whole
  {
    AppendAssociates(a, b, c);
  }

  // ---------------------------------------------------------------------
  // The service object
  // ---------------------------------------------------------------------

  class BeneficioService {
    const repository: Database

    constructor (repository: Database)
      ensures this.repository == repository
    {
      this.repository := repository;
    }

    /** The try block shared by the three strategies: look up both records
        with the given lock modes, check, mutate the entities in place, save
        both, flush. */
    method RunAttempt(f: Id, t: Id, amount: Money, fromMode: LockMode, toMode: LockMode, flush: FlushOutcome)
      returns (c: Completion)
      requires f != t && repository.Idle()
      modifies repository
      ensures repository.Idle()
      ensures Step(c, repository.rows) == AttemptOutcome(old(repository.rows), f, t, amount, flush)
      ensures repository.trace == old(repository.trace) + AttemptTrace(old(repository.rows), f, t, amount, fromMode, toMode)
    {
      var fromOpt := repository.FindById(f, fromMode);
      var toOpt := repository.FindById(t, toMode);
      c := ValidarBeneficiosEncontrados(Found(fromOpt), Found(toOpt), f, t);
      if c.Threw? {
        return;
      }
      var from, to := fromOpt.value, toOpt.value;
      c := ValidarBeneficiosParaTransferencia(from.Snapshot(), to.Snapshot(), amount);
      if c.Threw? {
        return;
      }
      var ok := Commit(from, to, amount, flush);
      c := if ok then Returned else Threw(FlushError(flush));
    }

    /** The end of the try block once every check passed: move the amount
        between the two entities, save both, and let the transaction's
        flush commit them together or roll them back. */
    method Commit(from: Beneficio, to: Beneficio, amount: Money, flush: FlushOutcome) returns (ok: bool)
      requires from != to && from.id != to.id && repository.Idle()
      requires from.id in repository.rows && to.id in repository.rows
      requires from.Snapshot() == repository.rows[from.id] && to.Snapshot() == repository.rows[to.id]
      modifies repository, from, to
      ensures repository.Idle()
      ensures ok <==> flush.Persisted?
      ensures repository.rows ==
        if ok then Transferred(old(repository.rows), from.id, to.id, amount) else old(repository.rows)
      ensures repository.trace == old(repository.trace) + [Write(from.id), Write(to.id)]
    {
      ghost var s := repository.rows;
      RealizarTransferencia(from, to, amount);
      repository.Save(from);
      repository.Save(to);
      assert s + repository.staged == Transferred(s, from.id, to.id, amount);
      ok := repository.Flush(flush);
    }

    /** One pass of the optimistic retry loop's try block, attempt `i`
        (counting from 0): an unlocked attempt whose calls extend the log of
        the earlier passes. When its flush conflicts and attempts remain,
        the store then holds what the conflicting transaction committed,
        which the next pass reads. Its contract is one turn of the loop:
        from a point where the loop ends as `total`, either this pass ends
        it so, or the loop goes on to end so from the next attempt. */
    method RetryAttempt(f: Id, t: Id, amount: Money, commits: seq<FlushOutcome>, seen: seq<Store>, i: nat,
                        ghost prefix: seq<Access>, ghost waits: seq<nat>, ghost done: seq<Access>, ghost total: Run)
      returns (c: Completion, ghost log: seq<Access>)
      requires f != t && i < MaxTentativas && repository.Idle()
      requires repository.trace == prefix + done
      requires Pending(repository.rows, f, t, amount, commits, seen, i, waits, done, total)
      modifies repository
      ensures repository.Idle()
      ensures repository.trace == prefix + log
      ensures c.Returned? ==> Run(Returned, repository.rows, i + 1, waits, log) == total
      ensures c == Threw(OptimisticLock) && i + 1 >= MaxTentativas ==>
        Run(Threw(Runtime(RetriesExhausted(MaxTentativas), OptimisticLock)), repository.rows, i + 1, waits, log) == total
      ensures c == Threw(OptimisticLock) && i + 1 < MaxTentativas ==>
        Pending(repository.rows, f, t, amount, commits, seen, i + 1, waits + [BackoffUnit * (i + 1)], log, total)
      ensures c.Threw? && c != Threw(OptimisticLock) ==>
        Run(Threw(Runtime(OptimisticFailure, c.error)), repository.rows, i + 1, waits, log) == total
    {
      ghost var here := OptimisticLoop(repository.rows, f, t, amount, commits, seen, i);
      ghost var pass := AttemptTrace(repository.rows, f, t, amount, NoLock, NoLock);
      c := RunAttempt(f, t, amount, NoLock, NoLock, FlushAt(commits, i));
      log := done + pass;
      AppendAssociates(prefix, done, pass);
      if c == Threw(OptimisticLock) && i + 1 < MaxTentativas {
        repository.ConcurrentCommit(ReadAfter(repository.rows, seen, i));
        ghost var rest := OptimisticLoop(repository.rows, f, t, amount, commits, seen, i + 1);
        Regroup(waits, [BackoffUnit * (i + 1)], rest.waits, here.waits, total.waits);
        Regroup(done, pass, rest.calls, here.calls, total.calls);
      }
    }

    /** transferWithPessimisticLock: both records locked, source first. */
    method TransferWithPessimisticLock(fromId: Option<Id>, toId: Option<Id>, amount: Option<Money>, flush: FlushOutcome)
      returns (r: Completion)
      requires repository.Idle()
      modifies repository
      ensures repository.Idle()
      ensures Step(r, repository.rows) == PessimisticTransfer(old(repository.rows), fromId, toId, amount, flush)
      ensures repository.trace == old(repository.trace) +
        (if ParametersOk(fromId, toId, amount)
         then AttemptTrace(old(repository.rows), fromId.value, toId.value, amount.value, PessimisticWrite, PessimisticWrite)
         else [])
    {
      r := ValidarParametrosTransferencia(fromId, toId, amount);
      if r.Threw? {
        return;
      }
      var c := RunAttempt(fromId.value, toId.value, amount.value, PessimisticWrite, PessimisticWrite, flush);
      if c.Threw? {
        r := Threw(Runtime(PessimisticFailure, c.error));
      }
    }

    /** transferWithMixedLock: the source locked, the destination read
        without a lock and guarded by its version. */
    method TransferWithMixedLock(fromId: Option<Id>, toId: Option<Id>, amount: Option<Money>, flush: FlushOutcome)
      returns (r: Completion)
      requires repository.Idle()
      modifies repository
      ensures repository.Idle()
      ensures Step(r, repository.rows) == MixedTransfer(old(repository.rows), fromId, toId, amount, flush)
      ensures repository.trace == old(repository.trace) +
        (if ParametersOk(fromId, toId, amount)
         then AttemptTrace(old(repository.rows), fromId.value, toId.value, amount.value, PessimisticWrite, NoLock)
         else [])
    {
      r := ValidarParametrosTransferencia(fromId, toId, amount);
      if r.Threw? {
        return;
      }
      var c := RunAttempt(fromId.value, toId.value, amount.value, PessimisticWrite, NoLock, flush);
      if c.Threw? {
        if c.error == OptimisticLock {
          r := Threw(Runtime(DestinationConflict, OptimisticLock));
        } else {
          r := Threw(Runtime(MixedFailure, c.error));
        }
      }
    }

    /** transfer (optimistic locking, the default): the parameter checks,
        then up to three attempts, each with a fresh unlocked read of both
        records. `commits[i]` is what the store reports when attempt i + 1
        flushes, and `seen[i]` the store another transaction left when that
        flush conflicted; `waits` logs the backoff sleeps and `calls` the
        repository calls. */
    method Transfer(fromId: Option<Id>, toId: Option<Id>, amount: Option<Money>,
                    commits: seq<FlushOutcome>, seen: seq<Store>)
      returns (r: Completion, ghost attempts: nat, ghost waits: seq<nat>, ghost calls: seq<Access>)
      requires repository.Idle()
      modifies repository
      ensures repository.Idle()
      ensures Run(r, repository.rows, attempts, waits, calls) ==
        OptimisticTransfer(old(repository.rows), fromId, toId, amount, commits, seen)
      ensures repository.trace == old(repository.trace) + calls
    {
      attempts, waits, calls := 0, [], [];
      r := ValidarParametrosTransferencia(fromId, toId, amount);
      if r.Threw? {
        return;
      }
      r, attempts, waits, calls := RetryLoop(fromId.value, toId.value, amount.value, commits, seen);
    }

    /** The while loop of transfer, once the parameters passed: attempt,
        and on a version conflict sleep 100 * tentativa ms and go again,
        until an attempt returns, another failure ends it, or the third
        conflict exhausts it. */
    method RetryLoop(f: Id, t: Id, a: Money, commits: seq<FlushOutcome>, seen: seq<Store>)
      returns (r: Completion, ghost attempts: nat, ghost waits: seq<nat>, ghost calls: seq<Access>)
      requires f != t && repository.Idle()
      modifies repository
      ensures repository.Idle()
      ensures Run(r, repository.rows, attempts, waits, calls) ==
        OptimisticLoop(old(repository.rows), f, t, a, commits, seen, 0)
      ensures repository.trace == old(repository.trace) + calls
    {
      r, waits, calls := Returned, [], [];
      var maxTentativas := MaxTentativas;
      var tentativa: nat := 0;
      ghost var total := OptimisticLoop(repository.rows, f, t, a, commits, seen, 0);
      while tentativa < maxTentativas
        invariant tentativa <= maxTentativas == MaxTentativas
        invariant repository.Idle()
        invariant repository.trace == old(repository.trace) + calls
        invariant Pending(repository.rows, f, t, a, commits, seen, tentativa, waits, calls, total)
        decreases maxTentativas - tentativa
      {
        tentativa := tentativa + 1;
        var c;
        c, calls := RetryAttempt(f, t, a, commits, seen, tentativa - 1, old(repository.trace), waits, calls, total);
        if c.Returned? {
          attempts := tentativa;
          return;
        }
        if c.error == OptimisticLock {
          if tentativa >= maxTentativas {
            r := Threw(Runtime(RetriesExhausted(maxTentativas), OptimisticLock));
            attempts := tentativa;
            return;
          }
          // the backoff sleep, recorded instead of performed
          waits := waits + [BackoffUnit * tentativa];
        } else {
          r := Threw(Runtime(OptimisticFailure, c.error));
          attempts := tentativa;
          return;
        }
      }
      attempts := tentativa;
    }

    /** criarBeneficio: null is an IllegalArgumentException; otherwise the
        new record is saved under a fresh id with version 0. */
    method CriarBeneficio(beneficio: Option<Record>) returns (r: Result<Id>)
      modifies repository
      ensures beneficio.None? ==> r == Err(IllegalArgument(NullBenefit)) && repository.rows == old(repository.rows)
      ensures beneficio.Some? ==> (r.Ok? && r.value !in old(repository.rows) &&
                                   repository.rows == old(repository.rows)[r.value := beneficio.value.(version := 0)])
      ensures repository.staged == old(repository.staged)
    {
      if beneficio.None? {
        return Err(IllegalArgument(NullBenefit));
      }
      var id := repository.Persist(beneficio.value);
      r := Ok(id);
    }
  }

  // ---------------------------------------------------------------------
  // Read-only queries
  // ---------------------------------------------------------------------

  /** verificarConflitoVersao: a missing record counts as a conflict; so does
      any supplied version (a null one included) other than the stored one. */
  function VerificarConflitoVersao(s: Store, id: Id, versaoAtual: Option<int>): (r: bool)
    ensures r <==> id !in s || versaoAtual != Some(s[id].version)
  {
    match Find(s, id)
    case None => true
    case Some(b) => !(versaoAtual.Some? && versaoAtual.value == b.version)
  }

  /** obterVersaoAtual: the stored version, or an IllegalArgumentException
      naming the missing id. */
  function ObterVersaoAtual(s: Store, id: Id): (r: Result<int>)
    ensures r.Ok? <==> id in s
    ensures r.Ok? ==> r.value == s[id].version
    ensures r.Err? ==> r.error == IllegalArgument(NotFound(id))
  {
    match Find(s, id)
    case None => Err(IllegalArgument(NotFound(id)))
    case Some(b) => Ok(b.version)
  }

  /** consultarSaldo: the stored balance; a null id and a missing id are
      IllegalArgumentExceptions, the null check first. */
  function ConsultarSaldo(s: Store, id: Option<Id>): (r: Result<Money>)
    ensures r.Ok? <==> id.Some? && id.value in s
    ensures r.Ok? ==> r.value == s[id.value].valor
    ensures id.None? ==> r == Err(IllegalArgument(NullId))
    ensures id.Some? && id.value !in s ==> r == Err(IllegalArgument(NotFound(id.value)))
  {
    if id.None? then Err(IllegalArgument(NullId))
    else match Find(s, id.value)
      case None => Err(IllegalArgument(NotFound(id.value)))
      case Some(b) => Ok(b.valor)
  }

  /** isTransferenciaPossivel: never throws; true exactly when the source
      exists, is active, holds the amount, and the amount is positive. */
  function IsTransferenciaPossivel(s: Store, fromId: Option<Id>, amount: Option<Money>): (r: bool)
    ensures r <==> (fromId.Some? && amount.Some? && fromId.value in s &&
                    s[fromId.value].ativo && s[fromId.value].valor >= amount.value && amount.value > 0.0)
  {
    if fromId.None? || amount.None? then false
    else match Find(s, fromId.value)
      case None => false
      case Some(from) => from.ativo && from.valor >= amount.value && amount.value > 0.0
  }

  // ---------------------------------------------------------------------
  // Properties relating the operations
  // ---------------------------------------------------------------------

  /** A successful transfer, under any of the three strategies, conserves
    the two balances, leaves the source non-negative, and bumps each
    version by exactly one, over the store its last attempt read. */
  lemma SuccessConservesBalances(s: Store, f: Id, t: Id, a: Money, flush: FlushOutcome,
                                 commits: seq<FlushOutcome>, seen: seq<Store>)
    ensures var r := PessimisticTransfer(s, Some(f), Some(t), Some(a), flush);
      r.completion.Returned? ==> Conserved(s, r.store, f, t, a)
    ensures var r := MixedTransfer(s, Some(f), Some(t), Some(a), flush);
      r.completion.Returned? ==> Conserved(s, r.store, f, t, a)
    ensures var r := OptimisticTransfer(s, Some(f), Some(t), Some(a), commits, seen);
      r.completion.Returned? ==> Conserved(LastRead(s, seen, r.attempts), r.store, f, t, a)
  {
  }

  /** The state a successful transfer of `a` from `f` to `t` leaves behind. */
  ghost predicate Conserved(s: Store, s': Store, f: Id, t: Id, a: Money)
  {
    f in s && t in s && f in s' && t in s' &&
    s'[f].valor + s'[t].valor == s[f].valor + s[t].valor &&
    s'[f].valor == s[f].valor - a && s'[f].valor >= 0.0 &&
    s'[f].version == s[f].version + 1 && s'[t].version == s[t].version + 1
  }

  /** After a successful transfer, under any of the three strategies, the
      version queries see the new versions: the version each record had
      when the last attempt read it now conflicts, the source's new one
      does not, and the current versions are one higher. */
  lemma SuccessBumpsQueriedVersions(s: Store, f: Id, t: Id, a: Money, flush: FlushOutcome,
                                    commits: seq<FlushOutcome>, seen: seq<Store>)
    ensures var r := PessimisticTransfer(s, Some(f), Some(t), Some(a), flush);
      r.completion.Returned? ==> VersionsBumped(s, r.store, f, t)
    ensures var r := MixedTransfer(s, Some(f), Some(t), Some(a), flush);
      r.completion.Returned? ==> VersionsBumped(s, r.store, f, t)
    ensures var r := OptimisticTransfer(s, Some(f), Some(t), Some(a), commits, seen);
      r.completion.Returned? ==> VersionsBumped(LastRead(s, seen, r.attempts), r.store, f, t)
  {
  }

  /** What the version queries answer on `s'` for a transfer between `f`
      and `t` that started from `s`. */
  ghost predicate VersionsBumped(s: Store, s': Store, f: Id, t: Id)
  {
    f in s && t in s &&
    VerificarConflitoVersao(s', f, Some(s[f].version)) && VerificarConflitoVersao(s', t, Some(s[t].version)) &&
    !VerificarConflitoVersao(s', f, Some(s[f].version + 1)) &&
    ObterVersaoAtual(s', f) == Ok(s[f].version + 1) && ObterVersaoAtual(s', t) == Ok(s[t].version + 1)
  }

  /** The three strategies agree whenever no conflict or storage failure
      intervenes: same success, same resulting store. */
  lemma StrategiesAgree(s: Store, fromId: Option<Id>, toId: Option<Id>, amount: Option<Money>)
    ensures PessimisticTransfer(s, fromId, toId, amount, Persisted).completion.Returned? <==>
            OptimisticTransfer(s, fromId, toId, amount, [], []).completion.Returned?
    ensures PessimisticTransfer(s, fromId, toId, amount, Persisted).store ==
            MixedTransfer(s, fromId, toId, amount, Persisted).store ==
            OptimisticTransfer(s, fromId, toId, amount, [], []).store
  {
  }

  /** isTransferenciaPossivel checks the source side only: when it says yes,
      any transfer that also meets the cap and has an active destination
      passes every check; conversely a successful transfer implies it. */
  lemma PossivelMatchesSourceChecks(s: Store, f: Id, t: Id, a: Money)
    requires IsTransferenciaPossivel(s, Some(f), Some(a))
    requires t != f && t in s && s[t].ativo && a <= Limit
    ensures PessimisticTransfer(s, Some(f), Some(t), Some(a), Persisted).completion.Returned?
  {
  }

  lemma SuccessImpliesPossivel(s: Store, f: Id, t: Id, a: Money, flush: FlushOutcome)
    requires PessimisticTransfer(s, Some(f), Some(t), Some(a), flush).completion.Returned?
    ensures IsTransferenciaPossivel(s, Some(f), Some(a))
  {
  }

  /** isTransferenciaPossivel does not promise that a transfer succeeds: it
      ignores the cap and the destination. */
  lemma PossivelIsNotTransfer()
    ensures var s := map[1 := Record(2000000.0, true, 0)];
      IsTransferenciaPossivel(s, Some(1), Some(1500000.0)) &&
      PessimisticTransfer(s, Some(1), Some(2), Some(1500000.0), Persisted).completion == Threw(IllegalArgument(AboveLimit)) &&
      PessimisticTransfer(s, Some(1), Some(2), Some(10.0), Persisted).completion ==
        Threw(Runtime(PessimisticFailure, IllegalArgument(DestinationNotFound(2))))
  {
  }

  /** The source's own test fixture: 500.00 and 200.00, both at version 1;
      moving 100.00 leaves 400.00 and 300.00 at version 2, under any
      strategy, the optimistic one with one lookup of each and two saves. */
  lemma TransferExample()
    ensures var s := map[1 := Record(500.0, true, 1), 2 := Record(200.0, true, 1)];
      var after := map[1 := Record(400.0, true, 2), 2 := Record(300.0, true, 2)];
      PessimisticTransfer(s, Some(1), Some(2), Some(100.0), Persisted) == Step(Returned, after) &&
      MixedTransfer(s, Some(1), Some(2), Some(100.0), Persisted) == Step(Returned, after) &&
      OptimisticTransfer(s, Some(1), Some(2), Some(100.0), [], []) ==
        Run(Returned, after, 1, [], [Lookup(1, NoLock), Lookup(2, NoLock), Write(1), Write(2)])
  {
    var s := map[1 := Record(500.0, true, 1), 2 := Record(200.0, true, 1)];
    var after := map[1 := Record(400.0, true, 2), 2 := Record(300.0, true, 2)];
    assert Transferred(s, 1, 2, 100.0) == after;
  }

  /** Three version conflicts in a row exhaust the optimistic strategy after
      exactly three attempts, having waited 100 and then 200 ms, provided
      every store the concurrent writers leave still allows the transfer. */
  lemma ConflictsExhaustRetries(s: Store, f: Id, t: Id, a: Money, seen: seq<Store>)
    requires ParametersOk(Some(f), Some(t), Some(a)) && Transferable(s, f, t, a)
    requires forall i :: 0 <= i < |seen| ==> Transferable(seen[i], f, t, a)
    ensures var r := OptimisticTransfer(s, Some(f), Some(t), Some(a), [VersionConflict, VersionConflict, VersionConflict], seen);
      r.completion == Threw(Runtime(RetriesExhausted(3), OptimisticLock)) &&
      r.attempts == 3 && r.waits == [100, 200] && r.store == LastRead(s, seen, 3)
  {
    var commits := [VersionConflict, VersionConflict, VersionConflict];
    assert OptimisticTransfer(s, Some(f), Some(t), Some(a), commits, seen) == OptimisticLoop(s, f, t, a, commits, seen, 0);
    ConflictsExhaustLoop(s, f, t, a, seen);
  }

  /** The retry loop under three conflicts, when every store read allows
      the transfer, ends only at the third attempt. */
  lemma ConflictsExhaustLoop(s: Store, f: Id, t: Id, a: Money, seen: seq<Store>)
    requires f != t && Transferable(s, f, t, a)
    requires forall i :: 0 <= i < |seen| ==> Transferable(seen[i], f, t, a)
    ensures var r := OptimisticLoop(s, f, t, a, [VersionConflict, VersionConflict, VersionConflict], seen, 0);
      r.completion == Threw(Runtime(RetriesExhausted(3), OptimisticLock)) && r.attempts == 3
  {
    var commits := [VersionConflict, VersionConflict, VersionConflict];
    var r := OptimisticLoop(s, f, t, a, commits, seen, 0);
    var last := ReadFrom(s, seen, 0, r.attempts - 1);
    OptimisticLoopBounds(s, f, t, a, commits, seen, 0);
    assert FlushAt(commits, r.attempts - 1).VersionConflict?;
    ReadFromIsReported(s, seen, 0, r.attempts - 1);
    assert Transferable(last, f, t, a);
    OptimisticLoopOutcome(s, f, t, a, commits, seen, 0);
  }

  /** A retry reads the store as the conflicting transaction left it: when
      that transaction drained the source, the second attempt fails the
      balance check, after one wait, and the failure is wrapped. */
  lemma RetrySeesConcurrentDebit()
    ensures var s := map[1 := Record(500.0, true, 1), 2 := Record(200.0, true, 1)];
      var drained := map[1 := Record(50.0, true, 2), 2 := Record(200.0, true, 1)];
      var r := OptimisticTransfer(s, Some(1), Some(2), Some(100.0), [VersionConflict], [drained]);
      r.completion == Threw(Runtime(OptimisticFailure, IllegalState(InsufficientBalance(50.0, 100.0)))) &&
      r.attempts == 2 && r.waits == [100] && r.store == drained
  {
  }

  /** ... and when it left enough, the second attempt moves the amount on
      top of that transaction's commit. */
  lemma RetryBuildsOnConcurrentCommit()
    ensures var s := map[1 := Record(500.0, true, 1), 2 := Record(200.0, true, 1)];
      var other := map[1 := Record(300.0, true, 2), 2 := Record(200.0, true, 1)];
      var r := OptimisticTransfer(s, Some(1), Some(2), Some(100.0), [VersionConflict], [other]);
      r.completion == Returned && r.attempts == 2 && r.waits == [100] &&
      r.store == map[1 := Record(200.0, true, 3), 2 := Record(300.0, true, 2)]
  {
    var other := map[1 := Record(300.0, true, 2), 2 := Record(200.0, true, 1)];
    assert Transferred(other, 1, 2, 100.0) == map[1 := Record(200.0, true, 3), 2 := Record(300.0, true, 2)];
  }
}
