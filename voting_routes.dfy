/** The voting router: the session's activities in priority order, the vote submission
    that refuses a second batch for a session and writes each vote by select-then-update-
    or-insert inside an explicit transaction, the per-session ranking, and the status
    endpoint. */
module VotingRoutes {
  import opened Base
  import opened JsModel
  import opened Votes
  import Numbers
  import Sorting
  import Text
  import VotingController

  const MsgInterno := "Erro interno do servidor"
  const MsgJaVotou := "Você já votou nesta sessão"

  /** A row of `atividades_classificadas`: `sessao_id` and `prioridade` are INT columns. */
  datatype AtividadeSessao = AtividadeSessao(id: int, sessao: int, atividade: string, objectivo: string,
                                             prioridade: int, criterios: VotingController.CriteriosSource)

  /** `sessao_id` from the query string, `1` when absent; text that is not an integer
      selects no session. */
  function SessaoQuery(p: Param): (r: Option<int>)
    ensures p.Absent? ==> r == Some(1)
    ensures p.IntText? ==> r == Some(p.n)
    ensures p.Junk? ==> r.None?
  {
    match p
    case Absent => Some(1)
    case IntText(n) => Some(n)
    case Junk => None
  }

  function DaSessao(atividades: seq<AtividadeSessao>, sessao: Option<int>): (r: seq<AtividadeSessao>)
    ensures forall a :: a in r <==> a in atividades && sessao == Some(a.sessao)
  {
    if atividades == [] then []
    else
      var init := atividades[..|atividades| - 1];
      var last := atividades[|atividades| - 1];
      assert atividades == init + [last];
      DaSessao(init, sessao) + (if sessao == Some(last.sessao) then [last] else [])
  }

  // ---- GET /atividades ----

  /** `ORDER BY prioridade DESC, atividade ASC`, names compared under the table's
      case-insensitive collation. */
  predicate PrioridadeOrder(x: AtividadeSessao, y: AtividadeSessao)
  {
    x.prioridade > y.prioridade
    || (x.prioridade == y.prioridade && Text.CollateLe(x.atividade, y.atividade))
  }

  lemma PrioridadeOrderPreorder(s: seq<AtividadeSessao>)
    ensures Sorting.PreorderOn(s, PrioridadeOrder)
  {
    forall x, y | x in s && y in s
      ensures PrioridadeOrder(x, y) || PrioridadeOrder(y, x)
    {
      Text.TextLeTotal(Text.ToLower(x.atividade), Text.ToLower(y.atividade));
    }
    forall x, y, z | x in s && y in s && z in s && PrioridadeOrder(x, y) && PrioridadeOrder(y, z)
      ensures PrioridadeOrder(x, z)
    {
      if x.prioridade == y.prioridade == z.prioridade {
        Text.TextLeTransitive(Text.ToLower(x.atividade), Text.ToLower(y.atividade), Text.ToLower(z.atividade));
      }
    }
  }

  /** An activity as returned, with `criterios` decoded. */
  datatype AtividadeCriterios = AtividadeCriterios(id: int, sessao: int, atividade: string, objectivo: string,
                                                   prioridade: int, criterios: Option<VotingController.Criterios>)

  /** `JSON.parse` of a text column, which throws on malformed text; null and objects pass through. */
  function Decodificar(a: AtividadeSessao, parse: string -> Option<VotingController.Criterios>): (r: Option<AtividadeCriterios>)
    ensures r.None? <==> a.criterios.CText? && parse(a.criterios.text).None?
    ensures r.Some? ==> r.value.id == a.id && r.value.prioridade == a.prioridade && r.value.atividade == a.atividade
  {
    match a.criterios
    case CText(t) =>
      (match parse(t)
       case Some(c) => Some(AtividadeCriterios(a.id, a.sessao, a.atividade, a.objectivo, a.prioridade, Some(c)))
       case None => None)
    case CNull => Some(AtividadeCriterios(a.id, a.sessao, a.atividade, a.objectivo, a.prioridade, None))
    case CObject(c) => Some(AtividadeCriterios(a.id, a.sessao, a.atividade, a.objectivo, a.prioridade, Some(c)))
  }

  function DecodificarTodas(s: seq<AtividadeSessao>, parse: string -> Option<VotingController.Criterios>): (r: Outcome<seq<AtividadeCriterios>>)
    ensures r.Fail? <==> exists i :: 0 <= i < |s| && Decodificar(s[i], parse).None?
    ensures r.Fail? ==> r == Fail(500, MsgInterno)
    ensures r.Ok? ==> |r.value| == |s| && forall i :: 0 <= i < |s| ==> Some(r.value[i]) == Decodificar(s[i], parse)
  {
    if s == [] then Ok([])
    else
      var init := s[..|s| - 1];
      assert forall i :: 0 <= i < |init| ==> init[i] == s[i];
      match (DecodificarTodas(init, parse), Decodificar(s[|s| - 1], parse))
      case (Ok(xs), Some(x)) => Ok(xs + [x])
      case _ => Fail(500, MsgInterno)
  }

  /** Some activity's criteria text does not parse. */
  predicate AlgumaMalFormada(d: seq<AtividadeSessao>, parse: string -> Option<VotingController.Criterios>)
  {
    exists i :: 0 <= i < |d| && Decodificar(d[i], parse).None?
  }

  /** GET /atividades: the session's activities, highest priority first and then by name,
      with their criteria decoded; a malformed criteria text fails the whole request. */
  function Atividades(atividades: seq<AtividadeSessao>, sessao: Param,
                      parse: string -> Option<VotingController.Criterios>): (r: Outcome<seq<AtividadeCriterios>>)
    ensures r.Fail? <==> AlgumaMalFormada(DaSessao(atividades, SessaoQuery(sessao)), parse)
    ensures r.Fail? ==> r == Fail(500, MsgInterno)
    ensures var d := DaSessao(atividades, SessaoQuery(sessao));
            r.Ok? ==> DecodificarTodas(d, parse).Ok? && multiset(r.value) == multiset(DecodificarTodas(d, parse).value)
  {
    var d := DaSessao(atividades, SessaoQuery(sessao));
    var o := Sorting.SortBy(d, PrioridadeOrder);
    var r := DecodificarTodas(o, parse);
    DecodificarReordenadas(d, o, parse);
    r
  }

  /** Decoding a reordering of the activities fails exactly when decoding them fails, and
      otherwise gives a reordering of their decodings. */
  lemma DecodificarReordenadas(d: seq<AtividadeSessao>, o: seq<AtividadeSessao>,
                               parse: string -> Option<VotingController.Criterios>)
    requires multiset(o) == multiset(d)
    ensures DecodificarTodas(o, parse).Fail? <==> AlgumaMalFormada(d, parse)
    ensures DecodificarTodas(o, parse).Ok? ==>
              DecodificarTodas(d, parse).Ok?
              && multiset(DecodificarTodas(o, parse).value) == multiset(DecodificarTodas(d, parse).value)
  {
    MesmaFalha(d, o, parse);
    var ro, rd := DecodificarTodas(o, parse), DecodificarTodas(d, parse);
    if ro.Ok? {
      ImagePermutation(o, d, ro.value, rd.value, a => Decodificar(a, parse));
    }
  }

  /** Decoding fails for a reordering of the activities exactly when it fails for them. */
  lemma MesmaFalha(d: seq<AtividadeSessao>, o: seq<AtividadeSessao>, parse: string -> Option<VotingController.Criterios>)
    requires multiset(o) == multiset(d)
    ensures (exists i :: 0 <= i < |o| && Decodificar(o[i], parse).None?)
            <==> (exists i :: 0 <= i < |d| && Decodificar(d[i], parse).None?)
  {
    if exists i :: 0 <= i < |o| && Decodificar(o[i], parse).None? {
      var i :| 0 <= i < |o| && Decodificar(o[i], parse).None?;
      assert o[i] in multiset(d);
      var k :| 0 <= k < |d| && d[k] == o[i];
    }
    if exists i :: 0 <= i < |d| && Decodificar(d[i], parse).None? {
      var i :| 0 <= i < |d| && Decodificar(d[i], parse).None?;
      assert d[i] in multiset(o);
      var k :| 0 <= k < |o| && o[k] == d[i];
    }
  }

  /** The listing holds the session's activities only, highest priority first and then
      by name under the collation. */
  lemma AtividadesOrdered(atividades: seq<AtividadeSessao>, sessao: Param,
                          parse: string -> Option<VotingController.Criterios>)
    requires Atividades(atividades, sessao, parse).Ok?
    ensures var r := Atividades(atividades, sessao, parse).value;
            && (forall i :: 0 <= i < |r| ==> SessaoQuery(sessao) == Some(r[i].sessao))
            && (forall i, j :: 0 <= i < j < |r| ==>
                  r[i].prioridade > r[j].prioridade
                  || (r[i].prioridade == r[j].prioridade
                      && Text.CollateLe(r[i].atividade, r[j].atividade)))
  {
    var d := DaSessao(atividades, SessaoQuery(sessao));
    var o := Sorting.SortBy(d, PrioridadeOrder);
    PrioridadeOrderPreorder(d);
    Sorting.SortBySorted(d, PrioridadeOrder);
    var r := Atividades(atividades, sessao, parse).value;
    assert DecodificarTodas(o, parse) == Ok(r);
    forall i | 0 <= i < |r| ensures SessaoQuery(sessao) == Some(r[i].sessao) {
      assert o[i] in multiset(d);
      assert r[i].sessao == o[i].sessao by {
        match o[i].criterios {
          case CText(t) =>
          case CNull =>
          case CObject(c) =>
        }
      }
    }
    forall i, j | 0 <= i < j < |r|
      ensures r[i].prioridade > r[j].prioridade
              || (r[i].prioridade == r[j].prioridade
                  && Text.CollateLe(r[i].atividade, r[j].atividade))
    {
      assert PrioridadeOrder(o[i], o[j]);
    }
  }

  // ---- POST /votar ----

  /** The row the route writes: the body's values as sent (`undefined` binds as NULL). */
  function LinhaBruta(v: VoteInput): (row: VoteRow)
    ensures row.pontuacao.Some? <==> v.pontuacao.Value?
    ensures row.prioridade.Some? <==> v.prioridadeUsuario.Value?
    ensures row.comentario.Some? <==> v.comentario.Value?
    ensures v.pontuacao.Value? ==> row.pontuacao == Some(v.pontuacao.v)
    ensures v.prioridadeUsuario.Value? ==> row.prioridade == Some(v.prioridadeUsuario.v)
    ensures v.comentario.Value? ==> row.comentario == Some(v.comentario.v)
  {
    VoteRow(Bound(v.pontuacao), Bound(v.prioridadeUsuario), Bound(v.comentario))
  }

  /** The session already counts as voted for the user: a status row with the flag set. */
  predicate JaVotou(status: StatusStore, usuario: int, sessao: Field<int>)
  {
    sessao.Value? && (usuario, sessao.v) in status && status[(usuario, sessao.v)]
  }

  /** Statement `i` of the loop fails: injected by `falhaEm`, or a NULL key column. */
  predicate VotoFalha(v: VoteInput, i: int, sessao: Field<int>, falhaEm: Option<nat>)
  {
    falhaEm == Some(i) || !v.atividade.Value? || !sessao.Value?
  }

  /** The loop over the votes: each one updates or inserts the row of its triple, and the
      first failing statement aborts it (`None`). */
  function Gravar(store: VoteStore, usuario: int, sessao: Field<int>, vs: seq<VoteInput>, falhaEm: Option<nat>): Option<VoteStore>
  {
    if vs == [] then Some(store)
    else
      var last := vs[|vs| - 1];
      match Gravar(store, usuario, sessao, vs[..|vs| - 1], falhaEm)
      case None => None
      case Some(st) =>
        if VotoFalha(last, |vs| - 1, sessao, falhaEm) then None
        else Some(st[VoteKey(usuario, last.atividade.v, sessao.v) := LinhaBruta(last)])
  }

  function Entradas(usuario: int, sessao: int, vs: seq<VoteInput>): (e: seq<(VoteKey, VoteRow)>)
    requires forall i :: 0 <= i < |vs| ==> vs[i].atividade.Value?
    ensures |e| == |vs|
    ensures forall i :: 0 <= i < |vs| ==> e[i] == (VoteKey(usuario, vs[i].atividade.v, sessao), LinhaBruta(vs[i]))
  {
    seq(|vs|, i requires 0 <= i < |vs| => (VoteKey(usuario, vs[i].atividade.v, sessao), LinhaBruta(vs[i])))
  }

  /** The loop goes through exactly when no statement fails. */
  lemma {:induction false} GravarSucceeds(store: VoteStore, usuario: int, sessao: Field<int>, vs: seq<VoteInput>,
                                          falhaEm: Option<nat>)
    ensures Gravar(store, usuario, sessao, vs, falhaEm).Some? <==>
              forall i :: 0 <= i < |vs| ==> !VotoFalha(vs[i], i, sessao, falhaEm)
  {
    if vs != [] {
      var init := vs[..|vs| - 1];
      assert forall i :: 0 <= i < |init| ==> init[i] == vs[i];
      GravarSucceeds(store, usuario, sessao, init, falhaEm);
    }
  }

  /** The writes of a batch are those of all but its last vote, then the last one's. */
  lemma EntradasSnoc(usuario: int, sessao: int, vs: seq<VoteInput>)
    requires vs != [] && forall i :: 0 <= i < |vs| ==> vs[i].atividade.Value?
    ensures Entradas(usuario, sessao, vs)
            == Entradas(usuario, sessao, vs[..|vs| - 1])
               + [(VoteKey(usuario, vs[|vs| - 1].atividade.v, sessao), LinhaBruta(vs[|vs| - 1]))]
  {
  }

  /** When the loop goes through it leaves the table overridden by the batch, so there is
      one row per (usuario, atividade, sessao) and the last vote for a triple wins. */
  lemma {:induction false} GravarIsOverride(store: VoteStore, usuario: int, sessao: Field<int>, vs: seq<VoteInput>,
                                            falhaEm: Option<nat>)
    requires vs != []
    requires Gravar(store, usuario, sessao, vs, falhaEm).Some?
    ensures sessao.Value? && forall i :: 0 <= i < |vs| ==> vs[i].atividade.Value?
    ensures Gravar(store, usuario, sessao, vs, falhaEm).value == store + Assign(Entradas(usuario, sessao.v, vs))
    decreases |vs|
  {
    GravarSucceeds(store, usuario, sessao, vs, falhaEm);
    var init := vs[..|vs| - 1];
    var last := vs[|vs| - 1];
    var k := VoteKey(usuario, last.atividade.v, sessao.v);
    assert forall i :: 0 <= i < |init| ==> init[i] == vs[i];
    GravarSucceeds(store, usuario, sessao, init, falhaEm);
    EntradasSnoc(usuario, sessao.v, vs);
    if init == [] {
      assert store + Assign([]) == store;
      OverrideStep(store, [], k, LinhaBruta(last));
    } else {
      GravarIsOverride(store, usuario, sessao, init, falhaEm);
      OverrideStep(store, Entradas(usuario, sessao.v, init), k, LinhaBruta(last));
    }
  }

  lemma {:induction false} GravarFailStays(store: VoteStore, usuario: int, sessao: Field<int>, vs: seq<VoteInput>,
                                           falhaEm: Option<nat>, j: nat)
    requires j <= |vs|
    requires Gravar(store, usuario, sessao, vs[..j], falhaEm).None?
    ensures Gravar(store, usuario, sessao, vs, falhaEm).None?
    decreases |vs| - j
  {
    if j == |vs| {
      assert vs[..j] == vs;
    } else {
      assert vs[..j + 1][..j] == vs[..j];
      GravarFailStays(store, usuario, sessao, vs, falhaEm, j + 1);
    }
  }

  /** The whole transaction commits: the votes, then the status write (statement |votos|). */
  predicate Confirma(store: VoteStore, usuario: int, sessao: Field<int>, vs: seq<VoteInput>, falhaEm: Option<nat>)
  {
    Gravar(store, usuario, sessao, vs, falhaEm).Some? && falhaEm != Some(|vs|) && sessao.Value?
  }

  /** POST /votar. A status row with the flag set refuses the batch before anything is
      written. Otherwise each vote updates the row of its (usuario, atividade, sessao) when
      one exists and inserts it otherwise, and the status row is then updated or inserted
      with the flag set; a failing statement rolls back every write of the request.
      `falhaEm` names the statement that fails (the status write is index |votos|). */
  method Votar(db: VoteTables, usuario: int, sessaoBody: Field<int>, votos: Option<seq<VoteInput>>,
               falhaEm: Option<nat>)
    returns (r: Outcome<()>)
    modifies db
    ensures JaVotou(old(db.status), usuario, Default(sessaoBody, 1)) ==> r == Fail(400, MsgJaVotou)
    ensures r.Fail? ==> db.votos == old(db.votos) && db.status == old(db.status)
    ensures !JaVotou(old(db.status), usuario, Default(sessaoBody, 1)) ==>
              (r.Ok? <==> votos.Some? && Confirma(old(db.votos), usuario, Default(sessaoBody, 1), votos.value, falhaEm))
    ensures r.Fail? && !JaVotou(old(db.status), usuario, Default(sessaoBody, 1)) ==> r == Fail(500, MsgInterno)
    ensures r.Ok? ==> && votos.Some? && Default(sessaoBody, 1).Value?
                      && Some(db.votos) == Gravar(old(db.votos), usuario, Default(sessaoBody, 1), votos.value, falhaEm)
                      && db.status == old(db.status)[(usuario, Default(sessaoBody, 1).v) := true]
  {
    var sessao := Default(sessaoBody, 1);
    var existente := sessao.Value? && (usuario, sessao.v) in db.status;
    if existente && db.status[(usuario, sessao.v)] {
      return Fail(400, MsgJaVotou);
    }
    // START TRANSACTION: writes go to a working copy until COMMIT
    if votos.None? {
      return Fail(500, MsgInterno);
    }
    var vs := votos.value;
    var trabalho := db.votos;
    var i := 0;
    while i < |vs|
      invariant 0 <= i <= |vs|
      invariant Gravar(db.votos, usuario, sessao, vs[..i], falhaEm) == Some(trabalho)
    {
      var v := vs[i];
      assert vs[..i + 1][..i] == vs[..i];
      assert vs[..i + 1][i] == v;
      if falhaEm == Some(i) || !v.atividade.Value? || !sessao.Value? {
        // ROLLBACK
        GravarFailStays(db.votos, usuario, sessao, vs, falhaEm, i + 1);
        return Fail(500, MsgInterno);
      }
      var k := VoteKey(usuario, v.atividade.v, sessao.v);
      if k in trabalho {
        trabalho := trabalho[k := LinhaBruta(v)];   // UPDATE
      } else {
        trabalho := trabalho[k := LinhaBruta(v)];   // INSERT
      }
      i := i + 1;
    }
    assert vs[..i] == vs;
    if falhaEm == Some(|vs|) || !sessao.Value? {
      // ROLLBACK
      return Fail(500, MsgInterno);
    }
    var novoStatus := if existente then db.status[(usuario, sessao.v) := true]   // UPDATE
                      else db.status[(usuario, sessao.v) := true];               // INSERT
    // COMMIT
    db.votos := trabalho;
    db.status := novoStatus;
    r := Ok(());
  }

  // ---- GET /resultados ----

  /** One ranked activity: the mean reported as a fraction (0 for no votes), the vote
      count, the number of distinct voters and the 1-based position. */
  datatype Classificada = Classificada(atividade: int, media: (int, int), totalVotos: nat,
                                       participantes: nat, ranking: nat)

  /** Each of the session's activities joined to the session's votes. */
  function StatsSessao(atividades: seq<AtividadeSessao>, vs: seq<Vote>, sessao: Option<int>): (r: seq<Stats>)
    ensures |r| == |DaSessao(atividades, sessao)|
    ensures forall i :: 0 <= i < |r| ==> r[i] == StatsOf(vs, DaSessao(atividades, sessao)[i].id, sessao)
    ensures AllValid(r)
  {
    var d := DaSessao(atividades, sessao);
    StatsFor(seq(|d|, i requires 0 <= i < |d| => d[i].id), vs, sessao)
  }

  /** The activity of the session a statistics entry belongs to. */
  predicate DeAtividade(x: Stats, atividades: seq<AtividadeSessao>, vs: seq<Vote>, sessao: Option<int>)
  {
    exists a :: a in atividades && sessao == Some(a.sessao) && x == StatsOf(vs, a.id, sessao)
  }

  /** The session's statistics in `ORDER BY pontuacao_media DESC` order. */
  function Ordenadas(atividades: seq<AtividadeSessao>, vs: seq<Vote>, sessao: Option<int>): (r: seq<Stats>)
    ensures multiset(r) == multiset(StatsSessao(atividades, vs, sessao))
    ensures |r| == |DaSessao(atividades, sessao)|
    ensures Sorting.SortedBy(r, MeanDesc)
    ensures forall i :: 0 <= i < |r| ==> DeAtividade(r[i], atividades, vs, sessao)
  {
    var st := StatsSessao(atividades, vs, sessao);
    var d := DaSessao(atividades, sessao);
    MeanDescPreorder(st);
    Sorting.SortBySorted(st, MeanDesc);
    var r := Sorting.SortBy(st, MeanDesc);
    assert forall i :: 0 <= i < |r| ==> DeAtividade(r[i], atividades, vs, sessao) by {
      forall i | 0 <= i < |r| ensures DeAtividade(r[i], atividades, vs, sessao) {
        assert r[i] in multiset(st);
        var k :| 0 <= k < |st| && st[k] == r[i];
        assert d[k] in atividades;
      }
    }
    r
  }

  /** `COUNT(DISTINCT vu.usuario_id)` over the votes joined to the activity. */
  function Votantes(vs: seq<Vote>, atividade: int, sessao: Option<int>): (n: nat)
    ensures n == |set i | 0 <= i < |vs| && Joined(vs[i], atividade, sessao) :: vs[i].key.usuario|
    ensures n <= StatsOf(vs, atividade, sessao).total
  {
    var j := JoinedVotes(vs, atividade, sessao);
    UsuariosBound(j);
    VotantesPorIndice(vs, atividade, sessao);
    |Usuarios(j)|
  }

  lemma VotantesPorIndice(vs: seq<Vote>, atividade: int, sessao: Option<int>)
    ensures Usuarios(JoinedVotes(vs, atividade, sessao))
            == set i | 0 <= i < |vs| && Joined(vs[i], atividade, sessao) :: vs[i].key.usuario
  {
    var j := JoinedVotes(vs, atividade, sessao);
    var porIndice := set i | 0 <= i < |vs| && Joined(vs[i], atividade, sessao) :: vs[i].key.usuario;
    forall u | u in Usuarios(j) ensures u in porIndice {
      var v :| v in j && v.key.usuario == u;
      var i :| 0 <= i < |vs| && vs[i] == v;
    }
    forall u | u in porIndice ensures u in Usuarios(j) {
      var i :| 0 <= i < |vs| && Joined(vs[i], atividade, sessao) && vs[i].key.usuario == u;
      assert vs[i] in j;
    }
  }

  /** GET /resultados: every activity of the session, voted or not, by mean score
      descending (activities without votes last), numbered from 1; each entry carries its
      activity's own statistics for the session, a missing mean reading as 0. */
  function Resultados(atividades: seq<AtividadeSessao>, vs: seq<Vote>, sessao: Param): (r: seq<Classificada>)
    ensures |r| == |DaSessao(atividades, SessaoQuery(sessao))|
    ensures forall i :: 0 <= i < |r| ==> r[i].ranking == i + 1
    ensures forall i :: 0 <= i < |r| ==>
              var x := Ordenadas(atividades, vs, SessaoQuery(sessao))[i];
              && r[i].atividade == x.atividade && r[i].totalVotos == x.total
              && r[i].media == Numbers.ReportedMean(x.media)
              && r[i].participantes == Votantes(vs, x.atividade, SessaoQuery(sessao))
  {
    var s := SessaoQuery(sessao);
    var ordenadas := Ordenadas(atividades, vs, s);
    assert AllValid(ordenadas) by {
      forall i | 0 <= i < |ordenadas| ensures Numbers.ValidAvg(ordenadas[i].media) {
        assert DeAtividade(ordenadas[i], atividades, vs, s);
      }
    }
    seq(|ordenadas|, i requires 0 <= i < |ordenadas| =>
      Classificada(ordenadas[i].atividade, Numbers.ReportedMean(ordenadas[i].media), ordenadas[i].total,
                   Votantes(vs, ordenadas[i].atividade, s), i + 1))
  }

  /** The ranking lists activities of the session with their own session statistics, in
      order of mean score with unvoted activities last. */
  lemma ResultadosRanked(atividades: seq<AtividadeSessao>, vs: seq<Vote>, sessao: Param)
    ensures var r := Resultados(atividades, vs, sessao);
            var s := SessaoQuery(sessao);
            && (forall i :: 0 <= i < |r| ==>
                  exists a :: a in atividades && s == Some(a.sessao) && a.id == r[i].atividade
                              && r[i].totalVotos == StatsOf(vs, a.id, s).total
                              && r[i].media == Numbers.ReportedMean(StatsOf(vs, a.id, s).media))
            && (forall i, j :: 0 <= i < j < |r| ==>
                  Numbers.AvgAtLeast(StatsOf(vs, r[i].atividade, s).media, StatsOf(vs, r[j].atividade, s).media))
  {
    ResultadosDeAtividades(atividades, vs, sessao);
    ResultadosPorMedia(atividades, vs, sessao);
  }

  lemma ResultadosDeAtividades(atividades: seq<AtividadeSessao>, vs: seq<Vote>, sessao: Param)
    ensures var r := Resultados(atividades, vs, sessao);
            var s := SessaoQuery(sessao);
            forall i :: 0 <= i < |r| ==>
              exists a :: a in atividades && s == Some(a.sessao) && a.id == r[i].atividade
                          && r[i].totalVotos == StatsOf(vs, a.id, s).total
                          && r[i].media == Numbers.ReportedMean(StatsOf(vs, a.id, s).media)
  {
    var s := SessaoQuery(sessao);
    var ordenadas := Ordenadas(atividades, vs, s);
    var r := Resultados(atividades, vs, sessao);
    forall i | 0 <= i < |r|
      ensures exists a :: a in atividades && s == Some(a.sessao) && a.id == r[i].atividade
                          && r[i].totalVotos == StatsOf(vs, a.id, s).total
                          && r[i].media == Numbers.ReportedMean(StatsOf(vs, a.id, s).media)
    {
      assert DeAtividade(ordenadas[i], atividades, vs, s);
    }
  }

  lemma ResultadosPorMedia(atividades: seq<AtividadeSessao>, vs: seq<Vote>, sessao: Param)
    ensures var r := Resultados(atividades, vs, sessao);
            var s := SessaoQuery(sessao);
            forall i, j :: 0 <= i < j < |r| ==>
              Numbers.AvgAtLeast(StatsOf(vs, r[i].atividade, s).media, StatsOf(vs, r[j].atividade, s).media)
  {
    var s := SessaoQuery(sessao);
    var ordenadas := Ordenadas(atividades, vs, s);
    var r := Resultados(atividades, vs, sessao);
    forall i, j | 0 <= i < j < |r|
      ensures Numbers.AvgAtLeast(StatsOf(vs, r[i].atividade, s).media, StatsOf(vs, r[j].atividade, s).media)
    {
      assert MeanDesc(ordenadas[i], ordenadas[j]);
      assert DeAtividade(ordenadas[i], atividades, vs, s);
      assert DeAtividade(ordenadas[j], atividades, vs, s);
    }
  }


  /** Every activity of the session appears in the ranking, including unvoted ones. */
  lemma ResultadosComplete(atividades: seq<AtividadeSessao>, vs: seq<Vote>, sessao: Param, a: AtividadeSessao)
    requires a in atividades && SessaoQuery(sessao) == Some(a.sessao)
    ensures exists i :: 0 <= i < |Resultados(atividades, vs, sessao)| && Resultados(atividades, vs, sessao)[i].atividade == a.id
  {
    var s := SessaoQuery(sessao);
    var st := StatsSessao(atividades, vs, s);
    var d := DaSessao(atividades, s);
    var ordenadas := Ordenadas(atividades, vs, s);
    assert a in d;
    var k :| 0 <= k < |d| && d[k] == a;
    assert st[k].atividade == a.id;
    assert st[k] in multiset(ordenadas);
    var i :| 0 <= i < |ordenadas| && ordenadas[i] == st[k];
    assert Resultados(atividades, vs, sessao)[i].atividade == a.id;
  }

  // ---- GET /status ----

  /** GET /status reads the status row and then names an undefined identifier when it
      builds the response, so every request ends in the 500 branch. */
  function Status(status: StatusStore, usuario: int, sessao: Param): (r: Outcome<bool>)
    ensures r == Fail(500, MsgInterno)
  {
    var s := SessaoQuery(sessao);
    var votacaoConcluida := s.Some? && (usuario, s.value) in status && status[(usuario, s.value)];
    var referencia: Outcome<bool> := Fail(500, MsgInterno);  // ReferenceError: votacao_concluida
    match referencia
    case Ok(_) => Ok(votacaoConcluida)
    case Fail(_, _) => Fail(500, MsgInterno)
  }
}
