/** Shared vocabulary of the benefit-balance engine: persisted records,
    identifiers, money, and the exceptions the services raise. */
module Model {

  datatype Option<+T> = None | Some(value: T)

  /** A java.lang.Long primary key. */
  type Id = int

  /** A java.math.BigDecimal amount: exact, so a Dafny real. */
  type Money = real

  /** The transfer cap, new BigDecimal("1000000"). */
  const Limit: Money := 1000000.0

  /** A persisted Beneficio row: its balance (valor), its active flag (ativo)
      and its @Version counter. */
  datatype Record = Record(valor: Money, ativo: bool, version: int)

  /** The table of benefits, keyed by id. */
  type Store = map<Id, Record>

  function Find(s: Store, id: Id): (r: Option<Record>)
    ensures r.Some? <==> id in s
    ensures r.Some? ==> r.value == s[id]
  {
    if id in s then Some(s[id]) else None
  }

  /** What a failed check reports: the content of the exception message. */
  datatype Problem =
    | NullParameters                                        // "Parâmetros não podem ser nulos"
    | SameBenefit                                           // "... para o mesmo benefício"
    | NonPositiveAmount                                     // "... deve ser positivo"
    | AboveLimit                                            // "... excede o limite permitido ..."
    | SourceNotFound(id: Id)                                // "Benefício de origem não encontrado: " + id
    | DestinationNotFound(id: Id)                           // "Benefício de destino não encontrado: " + id
    | SourceInactive                                        // "Benefício de origem não está ativo"
    | DestinationInactive                                   // "Benefício de destino não está ativo"
    | InsufficientBalance(balance: Money, requested: Money) // "Saldo insuficiente. Saldo atual: ..., Valor solicitado: ..."
    | NullId                                                // "ID do benefício não pode ser nulo"
    | NotFound(id: Id)                                      // "Benefício não encontrado: " + id
    | NullBenefit                                           // "Benefício não pode ser nulo"

  /** The message prefix of a RuntimeException that wraps a cause. */
  datatype Context =
    | PessimisticFailure               // "Falha na transferência com locking pessimista: " + cause
    | OptimisticFailure                // "Falha na transferência: " + cause
    | RetriesExhausted(attempts: nat)  // "Falha na transferência após " + attempts + " tentativas ..."
    | MixedFailure                     // "Falha na transferência com locking misto: " + cause
    | DestinationConflict              // "Conflito de concorrência no benefício de destino. ..."
    | PersistenceFailure               // "Erro na persistência durante transferência"

  /** The exceptions of the core, by kind. */
  datatype Error =
    | IllegalArgument(problem: Problem)
    | IllegalState(problem: Problem)
    | OptimisticLock                   // OptimisticLockException raised by the store
    | StorageError                     // any other failure raised by the store
    | Runtime(context: Context, cause: Error)

  /** How a call of a void Java method ends. */
  datatype Completion = Returned | Threw(error: Error)

  /** How a call of a value-returning Java method ends. */
  datatype Result<+T> = Ok(value: T) | Err(error: Error)

  /** How a transfer attempt ends, and the committed store it leaves. */
  datatype Step = Step(completion: Completion, store: Store)

  /** What the store reports when a transaction's writes are flushed: the
      store decides it, the services only react to it. */
  datatype FlushOutcome = Persisted | VersionConflict | StorageFailure

  /** The exception a failed flush raises. */
  function FlushError(f: FlushOutcome): (e: Error)
    requires !f.Persisted?
    ensures e == OptimisticLock <==> f.VersionConflict?
    ensures e == StorageError <==> f.StorageFailure?
  {
    if f.VersionConflict? then OptimisticLock else StorageError
  }

  /** The source-side and destination-side business rules of a transfer, as
      one predicate: both records exist, both are active, and the source
      holds at least the amount. */
  predicate Transferable(s: Store, f: Id, t: Id, amount: Money)
  {
    f in s && t in s && s[f].ativo && s[t].ativo && s[f].valor >= amount
  }

  /** The committed store after a successful transfer of `amount` from `f`
      to `t`: the source debited, the destination credited, and each row's
      version one higher; every other row as it was (see
      TransferredKeepsOtherRows). */
  function Transferred(s: Store, f: Id, t: Id, amount: Money): (r: Store)
    requires f in s && t in s && f != t
    ensures r.Keys == s.Keys
    ensures r[f].valor == s[f].valor - amount && r[t].valor == s[t].valor + amount
    ensures r[f].valor + r[t].valor == s[f].valor + s[t].valor
    ensures r[f].version == s[f].version + 1 && r[t].version == s[t].version + 1
    ensures r[f].ativo == s[f].ativo && r[t].ativo == s[t].ativo
  {
    s[f := Record(s[f].valor - amount, s[f].ativo, s[f].version + 1)]
     [t := Record(s[t].valor + amount, s[t].ativo, s[t].version + 1)]
  }

  /** A transfer touches only its two rows. */
  lemma TransferredKeepsOtherRows(s: Store, f: Id, t: Id, amount: Money)
    requires f in s && t in s && f != t
    ensures forall k :: k in s && k != f && k != t ==> Transferred(s, f, t, amount)[k] == s[k]
  {
  }
}
