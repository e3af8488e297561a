/** The balance panel of the Angular front end (SaldoDisplayComponent): a
    one-field form, a loading flag, the last result shown, and a history of
    the successful lookups, newest first and never longer than five. */
module SaldoDisplay {
  import opened Model

  /** The JSON body of GET /beneficios/{id}/saldo. */
  datatype SaldoResponse = SaldoResponse(success: bool, beneficioId: int, saldo: real, timestamp: string)

  /** One history entry: the benefit asked about, its balance, and when. */
  datatype Consulta = Consulta(beneficioId: int, saldo: real, timestamp: string)

  /** What resultadoConsulta holds: the response as received, or the
      {success: false, message} object the error callback builds. */
  datatype Resultado = Received(response: SaldoResponse) | Failed(message: string)

  /** An HttpErrorResponse, reduced to the `message` field of its body; the
      body or the field may be absent. */
  datatype ErrorBody = ErrorBody(message: Option<string>)
  datatype HttpError = HttpError(error: Option<ErrorBody>)

  /** The history cap. */
  const MaxHistorico: nat := 5

  const FallbackMessage: string := "Erro ao consultar saldo"

  /** error.error?.message || 'Erro ao consultar saldo': the server's message
      when there is a non-empty one, the fallback otherwise. */
  function ErrorMessage(e: HttpError): (m: string)
    ensures m != []
    ensures (e.error.Some? && e.error.value.message.Some? && e.error.value.message.value != []) ==>
      m == e.error.value.message.value
    ensures (e.error.None? || e.error.value.message.None? || e.error.value.message.value == []) ==>
      m == FallbackMessage
  {
    match e.error
    case Some(ErrorBody(Some(msg))) => if msg == [] then FallbackMessage else msg
    case _ => FallbackMessage
  }

  /** Validators.required on the beneficioId control: a value is present and
      is not the empty string. */
  predicate FormValid(beneficioId: Option<string>)
  {
    beneficioId.Some? && beneficioId.value != []
  }

  /** The entry a successful response adds. */
  function Entry(result: SaldoResponse): Consulta
  {
    Consulta(result.beneficioId, result.saldo, result.timestamp)
  }

  /** The first `n` elements of `h`, or all of `h` when it is shorter. */
  function Take<T>(h: seq<T>, n: nat): (r: seq<T>)
    ensures |r| == if |h| < n then |h| else n
    ensures forall i :: 0 <= i < |r| ==> r[i] == h[i]
  {
    if |h| <= n then h else h[..n]
  }

  /** The history after unshift(c) and the slice(0, 5) that follows when it
      grew past five: `c` first, then the earlier entries in their order,
      the oldest one dropped when there is no room for it. */
  function Recorded(h: seq<Consulta>, c: Consulta): (r: seq<Consulta>)
    ensures |r| == if |h| + 1 < MaxHistorico then |h| + 1 else MaxHistorico
    ensures r[0] == c
    ensures forall i :: 1 <= i < |r| ==> r[i] == h[i - 1]
  {
    Take([c] + h, MaxHistorico)
  }

  class SaldoDisplayComponent {
    var carregando: bool
    var resultadoConsulta: Option<Resultado>
    var historicoConsultas: seq<Consulta>

    /** The state the component keeps between callbacks: the history within
        its cap. The constructor establishes it, every method keeps it, and a
        successful response restores it from any state; it is the bound
        ReplayKeepsRecentSuccesses starts from. */
    predicate Valid()
      reads this
    {
      |historicoConsultas| <= MaxHistorico
    }

    constructor ()
      ensures Valid()
      ensures !carregando && resultadoConsulta.None? && historicoConsultas == []
    {
      carregando, resultadoConsulta, historicoConsultas := false, None, [];
    }

    /** consultarSaldo: with an invalid form nothing happens and no request
        is sent; otherwise the loading flag goes up and a request for the
        form's beneficioId goes out, its answer arriving later through
        OnNext or OnError. */
    method ConsultarSaldo(beneficioId: Option<string>) returns (request: Option<string>)
      modifies this
      ensures !FormValid(beneficioId) ==> request.None? && unchanged(this)
      ensures FormValid(beneficioId) ==>
        request == beneficioId && carregando &&
        resultadoConsulta == old(resultadoConsulta) && historicoConsultas == old(historicoConsultas)
      ensures old(Valid()) ==> Valid()
    {
      if FormValid(beneficioId) {
        carregando := true;
        request := beneficioId;
      } else {
        request := None;
      }
    }

    /** The next callback: the response is shown and loading ends; only a
        successful response enters the history, at its head, pushing the
        oldest out past five. */
    method OnNext(result: SaldoResponse)
      modifies this
      ensures resultadoConsulta == Some(Received(result)) && !carregando
      ensures historicoConsultas ==
        if result.success then Recorded(old(historicoConsultas), Entry(result)) else old(historicoConsultas)
      ensures result.success ==> Valid()
      ensures old(Valid()) ==> Valid()
    {
      resultadoConsulta := Some(Received(result));
      carregando := false;
      if result.success {
        historicoConsultas := [Entry(result)] + historicoConsultas;
        if |historicoConsultas| > MaxHistorico {
          historicoConsultas := historicoConsultas[..MaxHistorico];
        }
      }
    }

    /** The error callback: a failure with the server's message or the
        fallback is shown, loading ends, and the history stays as it was. */
    method OnError(e: HttpError)
      modifies this
      ensures resultadoConsulta == Some(Failed(ErrorMessage(e))) && !carregando
      ensures historicoConsultas == old(historicoConsultas)
      ensures old(Valid()) ==> Valid()
    {
      resultadoConsulta := Some(Failed(ErrorMessage(e)));
      carregando := false;
    }
  }

  // ---------------------------------------------------------------------
  // The history over a run of responses
  // ---------------------------------------------------------------------

  /** The history after the responses `rs` arrive, in order, starting from `h`. */
  function Replay(h: seq<Consulta>, rs: seq<SaldoResponse>): seq<Consulta>
  {
    if rs == [] then h
    else
      var before := Replay(h, rs[..|rs| - 1]);
      var last := rs[|rs| - 1];
      if last.success then Recorded(before, Entry(last)) else before
  }

  /** The entries of the successful responses among `rs`, the latest first. */
  function Successes(rs: seq<SaldoResponse>): seq<Consulta>
  {
    if rs == [] then []
    else
      var last := rs[|rs| - 1];
      (if last.success then [Entry(last)] else []) + Successes(rs[..|rs| - 1])
  }

  /** Keeping the first five of a list that already lost its tail past five
      is the same as keeping the first five of the whole list. */
  lemma TakeAfterPrepend(c: Consulta, u: seq<Consulta>)
    ensures Take([c] + Take(u, MaxHistorico), MaxHistorico) == Take([c] + u, MaxHistorico)
  {
    var l := Take([c] + Take(u, MaxHistorico), MaxHistorico);
    var w := Take([c] + u, MaxHistorico);
    assert |l| == |w|;
    forall i | 0 <= i < |l|
      ensures l[i] == w[i]
    {
      if i > 0 {
        assert l[i] == Take(u, MaxHistorico)[i - 1];
      }
    }
  }

  /** Whatever the order of successes and failures, the history is the five
      most recent successful lookups, newest first, topped up from the
      history there was before. */
  lemma {:induction false} ReplayKeepsRecentSuccesses(h: seq<Consulta>, rs: seq<SaldoResponse>)
    requires |h| <= MaxHistorico
    ensures Replay(h, rs) == Take(Successes(rs) + h, MaxHistorico)
    ensures |Replay(h, rs)| <= MaxHistorico
    decreases |rs|
  {
    if rs != [] {
      var init, last := rs[..|rs| - 1], rs[|rs| - 1];
      ReplayKeepsRecentSuccesses(h, init);
      if last.success {
        TakeAfterPrepend(Entry(last), Successes(init) + h);
        assert [Entry(last)] + (Successes(init) + h) == Successes(rs) + h;
      } else {
        assert Successes(rs) == Successes(init);
      }
    }
  }

  /** Six lookups in a row from an empty history leave the five latest, the
      first one dropped. */
  lemma SixthLookupDropsOldest(c1: Consulta, c2: Consulta, c3: Consulta, c4: Consulta, c5: Consulta, c6: Consulta)
    ensures Recorded(Recorded(Recorded(Recorded(Recorded(Recorded([], c1), c2), c3), c4), c5), c6) ==
      [c6, c5, c4, c3, c2]
  {
  }
}
