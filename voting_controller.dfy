/** The vote controller: the activities offered for voting with the caller's own votes
    merged in, the validated batch upsert of votes inside one transaction, the global
    results (overall statistics and the ten best-rated activities) and the "has voted"
    check. */
module VotingController {
  import opened Base
  import opened JsModel
  import opened Votes
  import Numbers
  import Sorting

  // ---- getVotingActivities ----

  /** Criteria scores as a JSON object, in key order. */
  type Criterios = seq<(string, int)>

  /** The `criterios` column as the driver returns it: JSON text, SQL NULL, or an
      already-decoded object. */
  datatype CriteriosSource = CText(text: string) | CNull | CObject(c: Criterios)

  /** A row of the activity query; the four classification columns are passed through. */
  datatype AtividadeRow = AtividadeRow(id: int, objectivo: string, atividade: string, descricao: Option<string>,
                                       criterios: CriteriosSource, prioridade: JsValue, tempoImpacto: JsValue,
                                       capex: JsValue, risco: JsValue)

  /** One activity as returned for voting; `votos` is the caller's vote, or null. */
  datatype AtividadeVotacao = AtividadeVotacao(id: int, objectivo: string, atividade: string, descricao: Option<string>,
                                               criterios: Option<Criterios>, prioridade: JsValue, tempoImpacto: JsValue,
                                               capex: JsValue, risco: JsValue, votos: Option<VoteRow>)

  /** A row of the caller's votes: `atividade_id` and the three vote columns. */
  datatype VotoLido = VotoLido(atividade: int, row: VoteRow)

  const CriteriosPadrao: Criterios := [("ADP", 3), ("RVC", 3), ("SAH", 3), ("GRE", 2), ("SUS", 2)]

  /** The two built-in example activities. */
  const Exemplos: seq<AtividadeRow> := [
    AtividadeRow(1, "OE1 - Resiliência agro-pecuária", "Sensibilizar para construção de diques nas machambas",
                 Some("Minimizar alagamentos nas áreas agrícolas através de diques de proteção"),
                 CObject(CriteriosPadrao), JString("Alta"), JString("Médio"), JString("Alto"), JString("Baixo")),
    AtividadeRow(2, "OE1 - Resiliência agro-pecuária", "Adquirir sementes melhoradas tolerantes a estiagens",
                 Some("Implementar sementes resistentes à seca para aumentar resiliência agrícola"),
                 CObject([("ADP", 3), ("RVC", 3), ("SAH", 2), ("GRE", 2), ("SUS", 2)]),
                 JString("Alta"), JString("Curto"), JString("Baixo"), JString("Baixo"))
  ]

  /** The activities used: the query's rows when it succeeds with at least one row,
      otherwise the two examples. */
  function Fonte(consulta: Outcome<seq<AtividadeRow>>): (r: seq<AtividadeRow>)
    ensures r != []
    ensures consulta.Ok? && consulta.value != [] ==> r == consulta.value
    ensures consulta.Fail? || consulta.value == [] ==> r == Exemplos
  {
    if consulta.Ok? && consulta.value != [] then consulta.value else Exemplos
  }

  /** Decoded criteria: JSON text is parsed (`None` from `parse` is a parse error, which
      falls back to the default criteria), null stays null, an object is kept. */
  function CriteriosOf(c: CriteriosSource, parse: string -> Option<Criterios>): (r: Option<Criterios>)
    ensures c.CNull? ==> r.None?
    ensures c.CObject? ==> r == Some(c.c)
    ensures c.CText? ==> r == Some(if parse(c.text).Some? then parse(c.text).value else CriteriosPadrao)
  {
    match c
    case CText(t) => Some(match parse(t) case Some(v) => v case None => CriteriosPadrao)
    case CNull => None
    case CObject(v) => Some(v)
  }

  /** The vote a `votosMap` filled in row order holds for an activity: the last row for it. */
  function UltimoVoto(rows: seq<VotoLido>, atividade: int): (r: Option<VoteRow>)
    ensures r.None? <==> forall i :: 0 <= i < |rows| ==> rows[i].atividade != atividade
    ensures r.Some? ==> exists i :: 0 <= i < |rows| && rows[i] == VotoLido(atividade, r.value)
                                     && forall j :: i < j < |rows| ==> rows[j].atividade != atividade
  {
    if rows == [] then None
    else
      var init := rows[..|rows| - 1];
      var last := rows[|rows| - 1];
      assert forall i :: 0 <= i < |init| ==> init[i] == rows[i];
      if last.atividade == atividade then Some(last.row) else UltimoVoto(init, atividade)
  }

  /** The `forEach` that fills `votosMap`: one entry per activity id, later rows overwriting
      earlier ones. */
  method VotosMap(rows: seq<VotoLido>) returns (m: map<int, VoteRow>)
    ensures forall a :: a in m <==> UltimoVoto(rows, a).Some?
    ensures forall a :: a in m ==> m[a] == UltimoVoto(rows, a).value
  {
    m := map[];
    var i := 0;
    while i < |rows|
      invariant 0 <= i <= |rows|
      invariant forall a :: a in m <==> UltimoVoto(rows[..i], a).Some?
      invariant forall a :: a in m ==> m[a] == UltimoVoto(rows[..i], a).value
    {
      assert rows[..i + 1][..i] == rows[..i];
      m := m[rows[i].atividade := rows[i].row];
      i := i + 1;
    }
    assert rows[..i] == rows;
  }

  function Processar(a: AtividadeRow, votosMap: map<int, VoteRow>, parse: string -> Option<Criterios>): AtividadeVotacao
  {
    AtividadeVotacao(a.id, a.objectivo, a.atividade, a.descricao, CriteriosOf(a.criterios, parse),
                     a.prioridade, a.tempoImpacto, a.capex, a.risco,
                     if a.id in votosMap then Some(votosMap[a.id]) else None)
  }

  /** The activities for voting: one entry per activity used, in order, each carrying the
      caller's last vote for its id or null; a failing vote query leaves every vote null. */
  method GetVotingActivities(atividades: Outcome<seq<AtividadeRow>>, votos: Outcome<seq<VotoLido>>,
                             parse: string -> Option<Criterios>)
    returns (data: seq<AtividadeVotacao>, total: nat)
    ensures total == |data| == |Fonte(atividades)| > 0
    ensures forall i :: 0 <= i < |data| ==>
              var a := Fonte(atividades)[i];
              data[i] == AtividadeVotacao(a.id, a.objectivo, a.atividade, a.descricao, CriteriosOf(a.criterios, parse),
                                          a.prioridade, a.tempoImpacto, a.capex, a.risco,
                                          if votos.Ok? then UltimoVoto(votos.value, a.id) else None)
  {
    var fonte := Fonte(atividades);
    var votosMap: map<int, VoteRow> := map[];
    if votos.Ok? {
      votosMap := VotosMap(votos.value);
    }
    data := seq(|fonte|, i requires 0 <= i < |fonte| => Processar(fonte[i], votosMap, parse));
    total := |data|;
  }

  // ---- submitVotes ----

  const MsgNaoArray := "Lista de votos é obrigatória e deve ser um array"
  const MsgVazio := "Nenhum voto para submeter"
  const MsgInvalido := "Voto inválido"
  const MsgPontuacao := "Pontuação inválida"
  const MsgBaseDados := "Erro na base de dados"

  /** The approval query of `submitVotes`: its 403 for a user without an approved test and
      any database error are thrown inside a `try` whose `catch` only logs, so voting
      always proceeds. */
  function ApprovalCheck(aprovados: nat, consultaFalha: bool): (r: Outcome<()>)
    ensures r == Ok(())
  {
    var lancado: Outcome<()> :=
      if consultaFalha then Fail(500, MsgBaseDados)
      else if aprovados == 0 then Fail(403, "Usuário não está aprovado para votar. Complete o teste primeiro.")
      else Ok(());
    match lancado
    case Ok(_) => lancado
    case Fail(_, _) => Ok(())
  }

  /** A vote passes the checks: truthy `atividade_id` and `pontuacao`, and a score in 1..5. */
  predicate Aceite(v: VoteInput)
  {
    Truthy(v.atividade) && Truthy(v.pontuacao) && 1 <= v.pontuacao.v <= 5
  }

  function AtividadeId(v: VoteInput): int
    requires Aceite(v)
  {
    v.atividade.v
  }

  /** The row written for an accepted vote: `prioridade_usuario || pontuacao * 2` and
      `comentario || ''`. */
  function LinhaDe(v: VoteInput): (row: VoteRow)
    requires Aceite(v)
    ensures row.pontuacao == Some(v.pontuacao.v)
    ensures Truthy(v.prioridadeUsuario) ==> row.prioridade == Some(v.prioridadeUsuario.v)
    ensures !Truthy(v.prioridadeUsuario) ==> row.prioridade == Some(2 * v.pontuacao.v)
    ensures row.comentario == Some(if v.comentario.Value? then v.comentario.v else "")
  {
    VoteRow(Some(v.pontuacao.v),
            Some(if Truthy(v.prioridadeUsuario) then v.prioridadeUsuario.v else v.pontuacao.v * 2),
            Some(if v.comentario.Value? && v.comentario.v != "" then v.comentario.v else ""))
  }

  /** One iteration of the loop: the checks, then the upsert (which fails on a NULL key). */
  function Passo(store: VoteStore, usuario: int, sessao: Field<int>, v: VoteInput): (r: Outcome<VoteStore>)
    ensures r.Ok? <==> Aceite(v) && sessao.Value?
    ensures r.Ok? ==> r.value == store[VoteKey(usuario, v.atividade.v, sessao.v) := LinhaDe(v)]
    ensures !(Truthy(v.atividade) && Truthy(v.pontuacao)) ==> r == Fail(400, MsgInvalido)
    ensures Truthy(v.atividade) && Truthy(v.pontuacao) && !(1 <= v.pontuacao.v <= 5) ==> r == Fail(400, MsgPontuacao)
    ensures Aceite(v) && !sessao.Value? ==> r == Fail(500, MsgBaseDados)
  {
    if !Truthy(v.atividade) || !Truthy(v.pontuacao) then Fail(400, MsgInvalido)
    else if v.pontuacao.v < 1 || v.pontuacao.v > 5 then Fail(400, MsgPontuacao)
    else match KeyOf(usuario, v.atividade, sessao)
      case None => Fail(500, MsgBaseDados)
      case Some(k) => Ok(store[k := LinhaDe(v)])
  }

  /** The whole loop over a batch: the first failing vote decides the error. */
  function Aplicar(store: VoteStore, usuario: int, sessao: Field<int>, vs: seq<VoteInput>): Outcome<VoteStore>
  {
    if vs == [] then Ok(store)
    else
      match Aplicar(store, usuario, sessao, vs[..|vs| - 1])
      case Fail(s, m) => Fail(s, m)
      case Ok(st) => Passo(st, usuario, sessao, vs[|vs| - 1])
  }

  /** The (key, row) written by each vote of a batch that passes. */
  function Escritas(usuario: int, sessao: int, vs: seq<VoteInput>): (e: seq<(VoteKey, VoteRow)>)
    requires forall i :: 0 <= i < |vs| ==> Aceite(vs[i])
    ensures |e| == |vs|
    ensures forall i :: 0 <= i < |vs| ==> e[i] == (VoteKey(usuario, AtividadeId(vs[i]), sessao), LinhaDe(vs[i]))
  {
    seq(|vs|, i requires 0 <= i < |vs| => (VoteKey(usuario, AtividadeId(vs[i]), sessao), LinhaDe(vs[i])))
  }

  /** A batch goes through exactly when every vote passes the checks and, for a non-empty
      batch, the session id is bound, whatever the table holds. */
  lemma {:induction false} AplicarSucceeds(store: VoteStore, usuario: int, sessao: Field<int>, vs: seq<VoteInput>)
    ensures Aplicar(store, usuario, sessao, vs).Ok? <==>
              (vs == [] || sessao.Value?) && forall i :: 0 <= i < |vs| ==> Aceite(vs[i])
    decreases |vs|
  {
    if vs != [] {
      var init := vs[..|vs| - 1];
      assert forall i :: 0 <= i < |init| ==> init[i] == vs[i];
      AplicarSucceeds(store, usuario, sessao, init);
    }
  }

  /** The writes of a batch are those of all but its last vote, then the last one's. */
  lemma EscritasSnoc(usuario: int, sessao: int, vs: seq<VoteInput>)
    requires vs != [] && forall i :: 0 <= i < |vs| ==> Aceite(vs[i])
    ensures Escritas(usuario, sessao, vs)
            == Escritas(usuario, sessao, vs[..|vs| - 1])
               + [(VoteKey(usuario, vs[|vs| - 1].atividade.v, sessao), LinhaDe(vs[|vs| - 1]))]
  {
  }

  /** A batch goes through exactly when every vote passes the checks and the session id is
      bound, whatever the table holds; it then leaves the table overridden by the batch,
      later votes for the same key winning. */
  lemma {:induction false} AplicarIsOverride(store: VoteStore, usuario: int, sessao: Field<int>, vs: seq<VoteInput>)
    requires vs != []
    ensures Aplicar(store, usuario, sessao, vs).Ok? <==> sessao.Value? && forall i :: 0 <= i < |vs| ==> Aceite(vs[i])
    ensures Aplicar(store, usuario, sessao, vs).Ok? ==>
              Aplicar(store, usuario, sessao, vs).value == store + Assign(Escritas(usuario, sessao.v, vs))
    decreases |vs|
  {
    AplicarSucceeds(store, usuario, sessao, vs);
    if Aplicar(store, usuario, sessao, vs).Ok? {
      var init := vs[..|vs| - 1];
      var last := vs[|vs| - 1];
      var k := VoteKey(usuario, last.atividade.v, sessao.v);
      assert forall i :: 0 <= i < |init| ==> init[i] == vs[i];
      AplicarSucceeds(store, usuario, sessao, init);
      EscritasSnoc(usuario, sessao.v, vs);
      if init == [] {
        assert store + Assign([]) == store;
        OverrideStep(store, [], k, LinhaDe(last));
      } else {
        AplicarIsOverride(store, usuario, sessao, init);
        OverrideStep(store, Escritas(usuario, sessao.v, init), k, LinhaDe(last));
      }
    }
  }

  /** Sending the same batch twice leaves the same rows as sending it once. */
  lemma ResubmitIdempotent(store: VoteStore, usuario: int, sessao: Field<int>, vs: seq<VoteInput>)
    requires vs != []
    requires Aplicar(store, usuario, sessao, vs).Ok?
    ensures Aplicar(Aplicar(store, usuario, sessao, vs).value, usuario, sessao, vs)
            == Aplicar(store, usuario, sessao, vs)
  {
    var once := Aplicar(store, usuario, sessao, vs).value;
    AplicarIsOverride(store, usuario, sessao, vs);
    AplicarIsOverride(once, usuario, sessao, vs);
    var w := Assign(Escritas(usuario, sessao.v, vs));
    assert once + w == store + w;
  }

  /** Every stored score written by this path lies in 1..5. */
  predicate PontuacaoValida(row: VoteRow)
  {
    row.pontuacao.Some? && 1 <= row.pontuacao.value <= 5
  }

  lemma ScoresStayInRange(store: VoteStore, usuario: int, sessao: Field<int>, vs: seq<VoteInput>)
    requires vs != []
    requires RowsIn(store, PontuacaoValida)
    requires Aplicar(store, usuario, sessao, vs).Ok?
    ensures RowsIn(Aplicar(store, usuario, sessao, vs).value, PontuacaoValida)
  {
    AplicarIsOverride(store, usuario, sessao, vs);
    AssignRowsIn(Escritas(usuario, sessao.v, vs), PontuacaoValida);
  }

  /** One step further into the loop: once some prefix fails, the batch fails with that error. */
  lemma {:induction false} AplicarFailStays(store: VoteStore, usuario: int, sessao: Field<int>, vs: seq<VoteInput>, j: nat)
    requires j <= |vs|
    requires Aplicar(store, usuario, sessao, vs[..j]).Fail?
    ensures Aplicar(store, usuario, sessao, vs) == Aplicar(store, usuario, sessao, vs[..j])
    decreases |vs| - j
  {
    if j == |vs| {
      assert vs[..j] == vs;
    } else {
      assert vs[..j + 1][..j] == vs[..j];
      AplicarFailStays(store, usuario, sessao, vs, j + 1);
    }
  }

  /** The loop over the first i + 1 votes is the loop over the first i, then vote i. */
  lemma AplicarPrefixStep(store: VoteStore, usuario: int, sessao: Field<int>, vs: seq<VoteInput>, i: nat,
                          t: VoteStore)
    requires i < |vs| && Aplicar(store, usuario, sessao, vs[..i]) == Ok(t)
    ensures Aplicar(store, usuario, sessao, vs[..i + 1]) == Passo(t, usuario, sessao, vs[i])
  {
    assert vs[..i + 1][..i] == vs[..i];
  }

  datatype Submissao = Submissao(totalVotos: nat, sessao: Field<int>, usuario: int)

  /** POST submit: checks the array, runs the (non-blocking) approval query, then applies
      the batch to a transaction-local copy of the vote table that is committed only when
      every vote went through; the status write that follows may fail silently. */
  method SubmitVotes(db: VoteTables, usuario: int, votos: Option<seq<VoteInput>>, sessaoBody: Field<int>,
                     aprovados: nat, aprovacaoFalha: bool, statusOk: bool)
    returns (r: Outcome<Submissao>)
    modifies db
    ensures votos.None? ==> r == Fail(400, MsgNaoArray)
    ensures votos == Some([]) ==> r == Fail(400, MsgVazio)
    ensures r.Fail? ==> db.votos == old(db.votos) && db.status == old(db.status)
    ensures votos.Some? && votos.value != [] ==>
              var o := Aplicar(old(db.votos), usuario, Default(sessaoBody, 1), votos.value);
              && (o.Fail? ==> r == Fail(o.status, o.message))
              && (o.Ok? ==> && r == Ok(Submissao(|votos.value|, Default(sessaoBody, 1), usuario))
                            && db.votos == o.value
                            && db.status == if statusOk then old(db.status)[(usuario, Default(sessaoBody, 1).v) := true]
                                            else old(db.status))
  {
    var sessao := Default(sessaoBody, 1);
    if votos.None? {
      return Fail(400, MsgNaoArray);
    }
    var vs := votos.value;
    if |vs| == 0 {
      return Fail(400, MsgVazio);
    }
    // the approval gate never stops the batch
    var aprovacao := ApprovalCheck(aprovados, aprovacaoFalha);
    assert aprovacao.Ok?;
    var trabalho := db.votos;
    var i := 0;
    while i < |vs|
      invariant 0 <= i <= |vs|
      invariant Aplicar(db.votos, usuario, sessao, vs[..i]) == Ok(trabalho)
      invariant db.votos == old(db.votos) && db.status == old(db.status)
    {
      var v := vs[i];
      AplicarPrefixStep(db.votos, usuario, sessao, vs, i, trabalho);
      if !Truthy(v.atividade) || !Truthy(v.pontuacao) {
        AplicarFailStays(db.votos, usuario, sessao, vs, i + 1);
        return Fail(400, MsgInvalido);
      }
      if v.pontuacao.v < 1 || v.pontuacao.v > 5 {
        AplicarFailStays(db.votos, usuario, sessao, vs, i + 1);
        return Fail(400, MsgPontuacao);
      }
      if !sessao.Value? {
        AplicarFailStays(db.votos, usuario, sessao, vs, i + 1);
        return Fail(500, MsgBaseDados);
      }
      trabalho := trabalho[VoteKey(usuario, v.atividade.v, sessao.v) := LinhaDe(v)];
      i := i + 1;
    }
    assert vs[..i] == vs;
    AplicarIsOverride(db.votos, usuario, sessao, vs);
    db.votos := trabalho;
    if statusOk {
      db.status := db.status[(usuario, sessao.v) := true];
    }
    r := Ok(Submissao(|vs|, sessao, usuario));
  }

  // ---- checkUserVoted ----

  datatype Votou = Votou(jaVotou: bool, totalVotos: nat)

  function CheckUserVoted(votos: VoteStore, usuario: int): (r: Votou)
    ensures r.totalVotos == TotalVotos(votos, usuario)
    ensures r.jaVotou <==> exists k :: k in votos && k.usuario == usuario
  {
    JaVotouIffHasVote(votos, usuario);
    var total := TotalVotos(votos, usuario);
    Votou(total > 0, total)
  }

  /** After a batch goes through, the check reports that the user has voted. */
  lemma VotedAfterSubmit(store: VoteStore, usuario: int, sessao: Field<int>, vs: seq<VoteInput>)
    requires vs != []
    requires Aplicar(store, usuario, sessao, vs).Ok?
    ensures CheckUserVoted(Aplicar(store, usuario, sessao, vs).value, usuario).jaVotou
  {
    AplicarIsOverride(store, usuario, sessao, vs);
    var e := Escritas(usuario, sessao.v, vs);
    assert e[0].0 in Assign(e);
    assert e[0].0 in Aplicar(store, usuario, sessao, vs).value;
  }

  // ---- getVotingResults ----

  datatype Estatisticas = Estatisticas(totalParticipantes: nat, totalVotos: nat, mediaGeral: Numbers.Avg)

  /** `COUNT(DISTINCT usuario_id)`, `COUNT(*)` and `AVG(pontuacao)` over the whole table. */
  function EstatisticasOf(vs: seq<Vote>): (e: Estatisticas)
    ensures e.totalVotos == |vs|
    ensures e.totalParticipantes == |set i | 0 <= i < |vs| :: vs[i].key.usuario|
    ensures e.totalParticipantes <= e.totalVotos
    ensures e.totalParticipantes == 0 <==> e.totalVotos == 0
    ensures Numbers.ValidAvg(e.mediaGeral)
    ensures e.mediaGeral.Null? <==> forall i :: 0 <= i < |vs| ==> vs[i].row.pontuacao.None?
    ensures e.mediaGeral.Avg? ==> e.mediaGeral.sum == Sum(Valores(vs, Pontuacao))
                                  && e.mediaGeral.count == |Valores(vs, Pontuacao)|
  {
    UsuariosBound(vs);
    UsuariosPorIndice(vs);
    Estatisticas(|Usuarios(vs)|, |vs|, AvgOf(vs, Pontuacao))
  }

  /** Every activity's statistics over all sessions, `ORDER BY media DESC, total DESC`. */
  function Classificacao(atividades: seq<int>, vs: seq<Vote>): (r: seq<Stats>)
    ensures |r| == |atividades|
    ensures multiset(r) == multiset(StatsFor(atividades, vs, None))
    ensures Sorting.SortedBy(r, MeanThenTotalDesc)
  {
    var s := StatsFor(atividades, vs, None);
    MeanThenTotalPreorder(s);
    Sorting.SortBySorted(s, MeanThenTotalDesc);
    Sorting.SortBy(s, MeanThenTotalDesc)
  }

  /** `LIMIT 10` of the ranking. */
  function TopAtividades(atividades: seq<int>, vs: seq<Vote>): (r: seq<Stats>)
    ensures |r| == Min(10, |atividades|)
    ensures r == Classificacao(atividades, vs)[..|r|]
  {
    Classificacao(atividades, vs)[..Min(10, |atividades|)]
  }

  /** The top list holds each listed activity's own statistics, in ranking order, and
      every activity left out ranks no higher than any activity shown. */
  lemma TopAtividadesRanked(atividades: seq<int>, vs: seq<Vote>)
    ensures forall x :: x in TopAtividades(atividades, vs) ==>
              x.atividade in atividades && x == StatsOf(vs, x.atividade, None)
    ensures Sorting.SortedBy(TopAtividades(atividades, vs), MeanThenTotalDesc)
    ensures forall i, j :: 0 <= i < |TopAtividades(atividades, vs)| <= j < |atividades| ==>
              MeanThenTotalDesc(TopAtividades(atividades, vs)[i], Classificacao(atividades, vs)[j])
  {
    var c := Classificacao(atividades, vs);
    var t := TopAtividades(atividades, vs);
    var s := StatsFor(atividades, vs, None);
    forall x | x in t
      ensures x.atividade in atividades && x == StatsOf(vs, x.atividade, None)
    {
      assert x in c;
      assert x in multiset(s);
      var k :| 0 <= k < |s| && s[k] == x;
    }
  }
}
