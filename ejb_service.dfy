/** BeneficioEjbService of the EJB module: the older, stateless-bean form of
    the pessimistic transfer over the JPA EntityManager, with its own
    balance and "is the transfer possible" queries.

    Its checks run in a different order from the backend's: only null,
    same id and non-positive amount before the lookups, the 1000000 cap
    after every business rule. It raises the versions itself and merges
    both entities; only store failures (PersistenceException) are wrapped. */
module EjbService {
  import opened Model
  import opened Persistence
  import BackendService

  /** The request checks this bean makes before any lookup: no null, two
      different ids, a positive amount. Unlike BackendService.ParametersOk
      the cap is not among them. */
  predicate EjbParametersOk(fromId: Option<Id>, toId: Option<Id>, amount: Option<Money>)
  {
    fromId.Some? && toId.Some? && amount.Some? && fromId.value != toId.value && amount.value > 0.0
  }

  /** transfer, as a function of the committed store: the parameter checks,
      both lookups, existence, activity, balance, then the cap, and finally
      the flush, whose failure alone is wrapped. */
  function EjbTransfer(s: Store, fromId: Option<Id>, toId: Option<Id>, amount: Option<Money>, flush: FlushOutcome): (r: Step)
    ensures r.completion.Returned? <==>
      EjbParametersOk(fromId, toId, amount) && Transferable(s, fromId.value, toId.value, amount.value) &&
      amount.value <= Limit && flush.Persisted?
    ensures r.completion.Returned? ==> r.store == Transferred(s, fromId.value, toId.value, amount.value)
    ensures r.completion.Threw? ==> r.store == s
    ensures r.completion == Threw(IllegalArgument(NullParameters)) <==> fromId.None? || toId.None? || amount.None?
    ensures r.completion == Threw(IllegalArgument(SameBenefit)) <==>
      fromId.Some? && toId.Some? && amount.Some? && fromId.value == toId.value
    ensures r.completion == Threw(IllegalArgument(NonPositiveAmount)) <==>
      fromId.Some? && toId.Some? && amount.Some? && fromId.value != toId.value && amount.value <= 0.0
    ensures EjbParametersOk(fromId, toId, amount) ==>
      (fromId.value !in s ==> r.completion == Threw(IllegalArgument(SourceNotFound(fromId.value)))) &&
      (fromId.value in s && toId.value !in s ==> r.completion == Threw(IllegalArgument(DestinationNotFound(toId.value)))) &&
      (fromId.value in s && toId.value in s && !Transferable(s, fromId.value, toId.value, amount.value) ==>
         r.completion == BackendService.ValidarBeneficiosParaTransferencia(s[fromId.value], s[toId.value], amount.value))
    ensures r.completion == Threw(IllegalArgument(AboveLimit)) <==>
      EjbParametersOk(fromId, toId, amount) && Transferable(s, fromId.value, toId.value, amount.value) && amount.value > Limit
    ensures r.completion.Threw? && r.completion.error.Runtime? <==>
      EjbParametersOk(fromId, toId, amount) && Transferable(s, fromId.value, toId.value, amount.value) &&
      amount.value <= Limit && !flush.Persisted?
    ensures r.completion.Threw? && r.completion.error.Runtime? ==>
      r.completion.error == Runtime(PersistenceFailure, FlushError(flush))
  {
    if fromId.None? || toId.None? || amount.None? then Step(Threw(IllegalArgument(NullParameters)), s)
    else if fromId.value == toId.value then Step(Threw(IllegalArgument(SameBenefit)), s)
    else if amount.value <= 0.0 then Step(Threw(IllegalArgument(NonPositiveAmount)), s)
    else
      var f, t, a := fromId.value, toId.value, amount.value;
      var found := BackendService.ValidarBeneficiosEncontrados(Find(s, f), Find(s, t), f, t);
      if found.Threw? then Step(found, s)
      else
        var rules := BackendService.ValidarBeneficiosParaTransferencia(s[f], s[t], a);
        if rules.Threw? then Step(rules, s)
        else if a > Limit then Step(Threw(IllegalArgument(AboveLimit)), s)
        else if flush.Persisted? then Step(Returned, Transferred(s, f, t, a))
        else Step(Threw(Runtime(PersistenceFailure, FlushError(flush))), s)
  }

  /** The EntityManager calls of transfer once the parameters pass: both
      locked lookups, always, then both merges when every check passed. */
  function EjbTrace(s: Store, f: Id, t: Id, amount: Money): seq<Access>
  {
    [Lookup(f, PessimisticWrite), Lookup(t, PessimisticWrite)] +
    (if Transferable(s, f, t, amount) && amount <= Limit then [Write(f), Write(t)] else [])
  }

  class BeneficioEjbService {
    const em: Database

    constructor (em: Database)
      ensures this.em == em
    {
      this.em := em;
    }

    /** transfer: every check throws before the first setter runs, so a
        failed call writes nothing; a flush failure rolls the transaction
        back. */
    method Transfer(fromId: Option<Id>, toId: Option<Id>, amount: Option<Money>, flush: FlushOutcome)
      returns (r: Completion)
      requires em.Idle()
      modifies em
      ensures em.Idle()
      ensures Step(r, em.rows) == EjbTransfer(old(em.rows), fromId, toId, amount, flush)
      ensures em.trace == old(em.trace) +
        (if EjbParametersOk(fromId, toId, amount) then EjbTrace(old(em.rows), fromId.value, toId.value, amount.value) else [])
    {
      if fromId.None? || toId.None? || amount.None? {
        return Threw(IllegalArgument(NullParameters));
      }
      if fromId.value == toId.value {
        return Threw(IllegalArgument(SameBenefit));
      }
      if amount.value <= 0.0 {
        return Threw(IllegalArgument(NonPositiveAmount));
      }
      var f, t, a := fromId.value, toId.value, amount.value;
      var fromOpt := em.FindById(f, PessimisticWrite);
      var toOpt := em.FindById(t, PessimisticWrite);
      if fromOpt.None? {
        return Threw(IllegalArgument(SourceNotFound(f)));
      }
      if toOpt.None? {
        return Threw(IllegalArgument(DestinationNotFound(t)));
      }
      var from, to := fromOpt.value, toOpt.value;
      if !from.ativo {
        return Threw(IllegalState(SourceInactive));
      }
      if !to.ativo {
        return Threw(IllegalState(DestinationInactive));
      }
      if from.valor < a {
        return Threw(IllegalState(InsufficientBalance(from.valor, a)));
      }
      if a > Limit {
        return Threw(IllegalArgument(AboveLimit));
      }
      var ok := Commit(from, to, a, flush);
      r := if ok then Returned else Threw(Runtime(PersistenceFailure, FlushError(flush)));
    }

    /** The end of transfer once every check passed: the setters move the
        amount and raise both versions, both entities are merged, and the
        flush commits them together or the transaction rolls back. */
    method Commit(from: Beneficio, to: Beneficio, amount: Money, flush: FlushOutcome) returns (ok: bool)
      requires from != to && from.id != to.id && em.Idle()
      requires from.id in em.rows && to.id in em.rows
      requires from.Snapshot() == em.rows[from.id] && to.Snapshot() == em.rows[to.id]
      modifies em, from, to
      ensures em.Idle()
      ensures ok <==> flush.Persisted?
      ensures em.rows == if ok then Transferred(old(em.rows), from.id, to.id, amount) else old(em.rows)
      ensures em.trace == old(em.trace) + [Write(from.id), Write(to.id)]
    {
      ghost var s := em.rows;
      from.valor := from.valor - amount;
      to.valor := to.valor + amount;
      from.version := from.version + 1;
      to.version := to.version + 1;
      em.Merge(from);
      em.Merge(to);
      assert s + em.staged == Transferred(s, from.id, to.id, amount);
      ok := em.Flush(flush);
    }
  }

  /** consultarSaldo: a null id, then a missing id, is an
      IllegalArgumentException; otherwise the stored balance. */
  function ConsultarSaldo(s: Store, beneficioId: Option<Id>): (r: Result<Money>)
    ensures r.Ok? <==> beneficioId.Some? && beneficioId.value in s
    ensures r.Ok? ==> r.value == s[beneficioId.value].valor
    ensures beneficioId.None? ==> r == Err(IllegalArgument(NullId))
    ensures beneficioId.Some? && beneficioId.value !in s ==> r == Err(IllegalArgument(NotFound(beneficioId.value)))
  {
    if beneficioId.None? then Err(IllegalArgument(NullId))
    else
      var b := Find(s, beneficioId.value);
      if b.None? then Err(IllegalArgument(NotFound(beneficioId.value)))
      else Ok(b.value.valor)
  }

  /** isTransferenciaPossivel: false on a null argument, otherwise the
      conjunction of found, active, enough balance and a positive amount. */
  function IsTransferenciaPossivel(s: Store, fromId: Option<Id>, amount: Option<Money>): (r: bool)
    ensures r <==> (fromId.Some? && amount.Some? && fromId.value in s &&
                    s[fromId.value].ativo && s[fromId.value].valor >= amount.value && amount.value > 0.0)
  {
    if fromId.None? || amount.None? then false
    else
      var from := Find(s, fromId.value);
      from.Some? && from.value.ativo && from.value.valor >= amount.value && amount.value > 0.0
  }

  // ---------------------------------------------------------------------
  // Agreement with the backend service
  // ---------------------------------------------------------------------

  /** On every input the EJB transfer succeeds exactly when the backend's
      pessimistic strategy does, and both leave the same store: the same
      balances and the same version bumps. */
  lemma AgreesWithPessimistic(s: Store, fromId: Option<Id>, toId: Option<Id>, amount: Option<Money>, flush: FlushOutcome)
    ensures EjbTransfer(s, fromId, toId, amount, flush).completion.Returned? <==>
            BackendService.PessimisticTransfer(s, fromId, toId, amount, flush).completion.Returned?
    ensures EjbTransfer(s, fromId, toId, amount, flush).store ==
            BackendService.PessimisticTransfer(s, fromId, toId, amount, flush).store
  {
  }

  /** The cap comes last: an amount over the limit from a source that cannot
      cover it reports the insufficient balance here, but the limit in the
      backend, which checks the cap before any lookup. */
  lemma CapCheckedLast()
    ensures var s := map[1 := Record(100.0, true, 0), 2 := Record(0.0, true, 0)];
      EjbTransfer(s, Some(1), Some(2), Some(2000000.0), Persisted).completion ==
        Threw(IllegalState(InsufficientBalance(100.0, 2000000.0))) &&
      BackendService.PessimisticTransfer(s, Some(1), Some(2), Some(2000000.0), Persisted).completion ==
        Threw(IllegalArgument(AboveLimit))
  {
  }

  /** The two balance queries give the same answer on every input. */
  lemma ConsultarSaldoAgrees(s: Store, beneficioId: Option<Id>)
    ensures ConsultarSaldo(s, beneficioId) == BackendService.ConsultarSaldo(s, beneficioId)
  {
  }

  /** The two "is the transfer possible" queries have the same truth table. */
  lemma PossivelAgrees(s: Store, fromId: Option<Id>, amount: Option<Money>)
    ensures IsTransferenciaPossivel(s, fromId, amount) == BackendService.IsTransferenciaPossivel(s, fromId, amount)
  {
  }
}
