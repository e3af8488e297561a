/** The balance record store the services talk to: Spring Data's
    BeneficioRepository in the backend and the JPA EntityManager in the EJB
    module, both reduced to a keyed table of rows, the writes of the open
    transaction, and a log of the calls made. */
module Persistence {
  import opened Model

  /** How a lookup locks the row it reads. */
  datatype LockMode = NoLock | PessimisticWrite

  /** One repository call, as the log records it. */
  datatype Access =
    | Lookup(id: Id, mode: LockMode)  // findById / findByIdWithPessimisticLock / em.find
    | Write(id: Id)                   // save / merge

  /** A managed Beneficio entity: the in-memory copy of one row that a
      transfer attempt reads, changes with its setters, and hands back. */
  class Beneficio {
    const id: Id
    var valor: Money
    var ativo: bool
    var version: int

    constructor (id: Id, r: Record)
      ensures this.id == id && Snapshot() == r
    {
      this.id := id;
      valor, ativo, version := r.valor, r.ativo, r.version;
    }

    /** The row this entity would persist as. */
    function Snapshot(): Record
      reads this
    {
      Record(valor, ativo, version)
    }
  }

  /** What a lookup found, as a row (Optional<Beneficio> or a null entity). */
  function Found(e: Option<Beneficio>): (r: Option<Record>)
    reads if e.Some? then {e.value} else {}
    ensures r.Some? <==> e.Some?
    ensures e.Some? ==> r.value == e.value.Snapshot()
  {
    if e.Some? then Some(e.value.Snapshot()) else None
  }

  /** An id larger than every key in `keys`: what an identity column hands
      out to a new row. */
  ghost function NextId(keys: set<Id>): (r: Id)
    ensures forall j :: j in keys ==> j < r
    decreases keys
  {
    if keys == {} then 1
    else
      assert exists k :: k in keys by {
        if forall k :: k !in keys { assert false; }
      }
      var k :| k in keys;
      var rest := keys - {k};
      var m := NextId(rest);
      var r := if m > k then m else k + 1;
      assert forall j :: j in keys ==> j == k || j in rest;
      r
  }

  class Database {
    /** The committed rows. */
    var rows: Store
    /** The writes of the open transaction, not yet committed. */
    var staged: Store
    /** Every lookup and write issued, in order. */
    ghost var trace: seq<Access>

    /** No transaction has writes pending. */
    predicate Idle()
      reads this
    {
      staged == map[]
    }

    constructor (initial: Store)
      ensures rows == initial && Idle() && trace == []
    {
      rows, staged, trace := initial, map[], [];
    }

    /** A lookup by id with the given lock mode; a fresh entity per call. */
    method FindById(id: Id, mode: LockMode) returns (e: Option<Beneficio>)
      modifies this`trace
      ensures trace == old(trace) + [Lookup(id, mode)]
      ensures e.Some? <==> id in rows
      ensures e.Some? ==> fresh(e.value) && e.value.id == id && e.value.Snapshot() == rows[id]
    {
      trace := trace + [Lookup(id, mode)];
      if id in rows {
        var b := new Beneficio(id, rows[id]);
        e := Some(b);
      } else {
        e := None;
      }
    }

    /** Spring Data's save of a managed entity: the row is written with its
        @Version counter one higher when the transaction flushes. */
    method Save(e: Beneficio)
      modifies this`staged, this`trace
      ensures staged == old(staged)[e.id := e.Snapshot().(version := e.version + 1)]
      ensures trace == old(trace) + [Write(e.id)]
    {
      staged := staged[e.id := e.Snapshot().(version := e.version + 1)];
      trace := trace + [Write(e.id)];
    }

    /** EntityManager.merge: the row is written exactly as the entity holds it. */
    method Merge(e: Beneficio)
      modifies this`staged, this`trace
      ensures staged == old(staged)[e.id := e.Snapshot()]
      ensures trace == old(trace) + [Write(e.id)]
    {
      staged := staged[e.id := e.Snapshot()];
      trace := trace + [Write(e.id)];
    }

    /** Ends the transaction: all staged writes commit together when the store
        reports Persisted; otherwise the transaction rolls back and no row
        changes. */
    method Flush(outcome: FlushOutcome) returns (ok: bool)
      modifies this`rows, this`staged
      ensures ok <==> outcome.Persisted?
      ensures rows == if ok then old(rows) + old(staged) else old(rows)
      ensures Idle()
    {
      ok := outcome.Persisted?;
      if ok {
        rows := rows + staged;
      }
      staged := map[];
    }

    /** The commit of another transaction, which a version conflict
        reveals: the committed rows become what that transaction left. It is
        the environment acting, not the service. */
    method ConcurrentCommit(other: Store)
      modifies this`rows
      ensures rows == other
    {
      rows := other;
    }

    /** Save of a new entity: the row gets a fresh id and version 0. */
    method Persist(r: Record) returns (id: Id)
      modifies this`rows, this`trace
      ensures id !in old(rows)
      ensures rows == old(rows)[id := r.(version := 0)]
      ensures trace == old(trace) + [Write(id)]
    {
      ghost var next := NextId(rows.Keys);
      assert next !in rows;
      id :| id !in rows;
      rows := rows[id := r.(version := 0)];
      trace := trace + [Write(id)];
    }
  }
}
