/** The session routes: the paginated, filtered listing with its enrichment loop, one
    session by id, session creation with validation, coercion and a best-effort activity
    loop, and enrolment (add, status upsert, remove) in `participantes_sessao`. */
module SessionRoutes {
  import opened Base
  import opened Text
  import opened JsModel
  import opened SessionTables
  import Numbers
  import Sorting
  import SessionController

  const MsgLimite := "O limite máximo por página é 100"
  const FacilitadorPadrao := "Facilitador não definido"
  const MsgIdInvalido := "ID da sessão inválido"
  const MsgSessaoNaoEncontrada := "Sessão não encontrada"

  // ---- GET / : parameters ----

  /** `parseInt(limit) || 10` (the default 10 reads back as 10). Never 0. */
  function LimitNum(limit: Param): (r: int)
    ensures r != 0
    ensures r == 10 <==> (limit.IntText? ==> limit.n == 0 || limit.n == 10)
  {
    IntOr(limit, 10)
  }

  /** `parseInt(page) || 1`. */
  function PageNum(page: Param): (r: int)
    ensures r != 0
    ensures page.IntText? && page.n != 0 ==> r == page.n
  {
    IntOr(page, 1)
  }

  /** The offset as the route computes it: `parseInt((page - 1) * limit) || 0` on the raw
      query values, so a limit that is not a number, or is 0, gives offset 0 whatever the
      page, and page 0 gives a negative offset. */
  function OffsetEscrito(page: Param, limit: Param): (r: int)
    ensures SessionController.Numero(page, 1).Some? && SessionController.Numero(limit, 10).Some? ==> r == (SessionController.Numero(page, 1).value - 1) * SessionController.Numero(limit, 10).value
    ensures SessionController.Numero(page, 1).None? || SessionController.Numero(limit, 10).None? ==> r == 0
  {
    match (SessionController.Numero(page, 1), SessionController.Numero(limit, 10))
    case (Some(p), Some(l)) => (p - 1) * l
    case _ => 0
  }

  /** Page 3 with a limit that is not a number is served from offset 0, the rows of
      page 1, although the response reports page 3 and limit 10; page 2 repeats page 1. */
  lemma OffsetEscritoIgnoraPagina()
    ensures PageNum(IntText(3)) == 3 && LimitNum(Junk) == 10
    ensures OffsetEscrito(IntText(3), Junk) == 0
    ensures OffsetEscrito(IntText(2), Junk) == OffsetEscrito(IntText(1), Junk)
    ensures OffsetEscrito(IntText(3), IntText(0)) == 0 && LimitNum(IntText(0)) == 10
    ensures PageNum(IntText(0)) == 1 && OffsetEscrito(IntText(0), Absent) == -10
  {
  }

  /** The offset of the page the response reports: `(pageNum - 1) * limitNum`. */
  function Offset(page: Param, limit: Param): (r: int)
    ensures PageNum(page) >= 1 && LimitNum(limit) >= 1 ==> r >= 0
  {
    (PageNum(page) - 1) * LimitNum(limit)
  }

  /** Pages follow each other: page k + 1 starts where page k ends, and page 1 at 0. The
      as-written offset agrees whenever page and limit are absent or non-zero numbers. */
  lemma {:induction false} OffsetConsecutivo(k: int, limit: Param)
    requires k >= 1
    ensures Offset(IntText(1), limit) == 0
    ensures Offset(IntText(k + 1), limit) == Offset(IntText(k), limit) + LimitNum(limit)
    ensures (limit.Absent? || (limit.IntText? && limit.n != 0)) ==>
              OffsetEscrito(IntText(k), limit) == Offset(IntText(k), limit)
  {
    var l := LimitNum(limit);
    calc {
      Offset(IntText(k + 1), limit);
      k * l;
      (k - 1) * l + l;
    }
  }

  /** `Math.ceil(total / limitNum) || 1`. */
  function Pages(total: nat, limitNum: int): (r: int)
    requires limitNum != 0
    ensures total == 0 ==> r == 1
    ensures limitNum > 0 && total > 0 ==> (r - 1) * limitNum < total <= r * limitNum
    ensures limitNum > 0 ==> r >= 1
  {
    var c := Numbers.CeilDiv(total, limitNum);
    if c == 0 then 1 else c
  }

  /** Scaling by a positive number keeps strict order. */
  lemma MulLtCancel(a: int, b: int, l: int)
    requires l > 0 && a * l < b * l
    ensures a < b
  {
  }

  /** Row i lies on page i / l + 1. */
  lemma PaginaDaLinha(i: nat, l: int)
    requires l > 0
    ensures (i / l) * l <= i < (i / l + 1) * l
  {
    assert i == (i / l) * l + i % l;
    assert (i / l + 1) * l == (i / l) * l + l;
  }

  /** Every row of the count lies on one of the pages 1 .. pages. */
  lemma PagesCover(total: nat, limit: Param, i: nat)
    requires LimitNum(limit) > 0 && i < total
    ensures var k := i / LimitNum(limit) + 1;
            && 1 <= k <= Pages(total, LimitNum(limit))
            && Offset(IntText(k), limit) <= i < Offset(IntText(k), limit) + LimitNum(limit)
  {
    var l := LimitNum(limit);
    var q := i / l;
    var p := Pages(total, l);
    PaginaDaLinha(i, l);
    assert Offset(IntText(q + 1), limit) == q * l by {
      assert PageNum(IntText(q + 1)) == q + 1;
    }
    assert (q + 1) * l == q * l + l;
    assert q * l < p * l by {
      assert total <= p * l;
    }
    MulLtCancel(q, p, l);
  }

  // ---- GET / : filters ----

  /** A filter for a query value that is present, non-empty and not a wildcard. */
  function Filtro(c: Coluna, v: Option<string>, curinga: string): (r: seq<(Coluna, string)>)
    ensures forall x :: (c, x) in r <==> v == Some(x) && x != "" && x != curinga && x != "all"
    ensures forall f :: f in r ==> f.0 == c
  {
    if v.Some? && v.value != "" && v.value != curinga && v.value != "all" then [(c, v.value)] else []
  }

  /** The filters of both the row query and the count query: `status` on `estado`
      ('todas' and 'all' mean every value), `tipo` ('todos', 'all'), `provincia`
      ('todas', 'all') and `distrito` ('todos', 'all'). */
  function Filtros(status: Option<string>, tipo: Option<string>, provincia: Option<string>, distrito: Option<string>)
    : (r: seq<(Coluna, string)>)
    ensures forall x :: (Estado, x) in r <==> status == Some(x) && x != "" && x != "todas" && x != "all"
    ensures forall x :: (Tipo, x) in r <==> tipo == Some(x) && x != "" && x != "todos" && x != "all"
    ensures forall x :: (Provincia, x) in r <==> provincia == Some(x) && x != "" && x != "todas" && x != "all"
    ensures forall x :: (Distrito, x) in r <==> distrito == Some(x) && x != "" && x != "todos" && x != "all"
  {
    var e := Filtro(Estado, status, "todas");
    var t := Filtro(Tipo, tipo, "todos");
    var p := Filtro(Provincia, provincia, "todas");
    var d := Filtro(Distrito, distrito, "todos");
    assert forall x :: (Estado, x) in e + t + p + d <==> (Estado, x) in e;
    assert forall x :: (Tipo, x) in e + t + p + d <==> (Tipo, x) in t;
    assert forall x :: (Provincia, x) in e + t + p + d <==> (Provincia, x) in p;
    assert forall x :: (Distrito, x) in e + t + p + d <==> (Distrito, x) in d;
    e + t + p + d
  }

  /** A wildcard value filters nothing: the listing is the same as without it. */
  lemma CuringaNaoFiltra(tipo: Option<string>, provincia: Option<string>, distrito: Option<string>, sessoes: seq<Sessao>)
    ensures Filtrar(sessoes, Filtros(Some("todas"), tipo, provincia, distrito))
            == Filtrar(sessoes, Filtros(Some("all"), tipo, provincia, distrito))
            == Filtrar(sessoes, Filtros(None, tipo, provincia, distrito))
  {
    assert Filtros(Some("todas"), tipo, provincia, distrito) == Filtros(None, tipo, provincia, distrito);
    assert Filtros(Some("all"), tipo, provincia, distrito) == Filtros(None, tipo, provincia, distrito);
  }

  // ---- GET / : rows and enrichment ----

  /** A listed session after the enrichment loop. */
  datatype SessaoListada = SessaoListada(sessao: Sessao, facilitadorNome: string, totalParticipantes: nat,
                                         confirmados: int, previstos: int, duracao: int)

  /** `parseInt(column) || d` on an integer column (NULL reads as NaN). */
  function ColunaOr(c: Option<int>, d: int): (r: int)
    ensures d != 0 ==> r != 0
    ensures c.Some? && c.value != 0 ==> r == c.value
  {
    if c.Some? && c.value != 0 then c.value else d
  }

  /** The route's offset and the corrected one differ only for page 0 and for a limit that
      is not a number or is 0; the listing serves the corrected one. */
  lemma OffsetsConcordam(page: Param, limit: Param)
    requires page != IntText(0)
    requires limit.Absent? || (limit.IntText? && limit.n != 0)
    ensures OffsetEscrito(page, limit) == Offset(page, limit)
  {
  }

  /** The facilitator's name from the sub-select, or the placeholder when it is NULL or empty. */
  function NomeFacilitador(row: SessaoRow, usuarios: map<int, string>): (r: string)
    ensures r != ""
    ensures row.facilitador.Some? && row.facilitador.value in usuarios && usuarios[row.facilitador.value] != ""
            ==> r == usuarios[row.facilitador.value]
  {
    if row.facilitador.Some? && row.facilitador.value in usuarios && usuarios[row.facilitador.value] != ""
    then usuarios[row.facilitador.value] else FacilitadorPadrao
  }

  /** One session as the loop leaves it: the participant count, a non-empty facilitator
      name, and non-zero `participantes_previstos` (20) and `duracao` (2). */
  function Enriquecida(s: Sessao, usuarios: map<int, string>, participantes: Participantes): (r: SessaoListada)
    ensures r.sessao == s && r.facilitadorNome != ""
    ensures r.totalParticipantes == Inscritos(participantes, s.id)
    ensures r.previstos != 0 && r.duracao != 0
    ensures s.row.confirmados.None? ==> r.confirmados == 0
  {
    SessaoListada(s, NomeFacilitador(s.row, usuarios), Inscritos(participantes, s.id),
                  ColunaOr(s.row.confirmados, 0), ColunaOr(s.row.previstos, 20), ColunaOr(s.row.duracao, 2))
  }

  /** The enrichment loop over the fetched rows. */
  method Enriquecer(rows: seq<Sessao>, usuarios: map<int, string>, participantes: Participantes)
    returns (out: seq<SessaoListada>)
    ensures |out| == |rows|
    ensures forall i :: 0 <= i < |rows| ==> out[i] == Enriquecida(rows[i], usuarios, participantes)
  {
    out := [];
    for i := 0 to |rows|
      invariant |out| == i
      invariant forall j :: 0 <= j < i ==> out[j] == Enriquecida(rows[j], usuarios, participantes)
    {
      out := out + [Enriquecida(rows[i], usuarios, participantes)];
    }
  }

  /** The rows of the main query: the filtered sessions by date then creation time, both
      descending, one page of them; a negative LIMIT or OFFSET is refused by the engine
      and the listing is then empty. */
  function Linhas(sessoes: seq<Sessao>, filtros: seq<(Coluna, string)>, offset: int, limit: int): (r: seq<Sessao>)
    ensures limit < 0 || offset < 0 ==> r == []
    ensures limit >= 0 && offset >= 0 ==>
              r == Pagina(Sorting.SortBy(Filtrar(sessoes, filtros), DataCriadoDesc), offset, limit)
    ensures limit >= 0 ==> |r| <= limit
    ensures forall i :: 0 <= i < |r| ==> r[i] in sessoes && Passa(r[i].row, filtros)
    ensures forall i, j :: 0 <= i < j < |r| ==> DataCriadoDesc(r[i], r[j])
  {
    if limit < 0 || offset < 0 then []
    else
      var filtradas := Filtrar(sessoes, filtros);
      DataCriadoDescPreorder(filtradas);
      SessionController.PaginaOrdenada(filtradas, DataCriadoDesc, offset, limit)
  }

  datatype Paginacao = Paginacao(page: int, limit: int, total: nat, pages: int)

  datatype Listagem = Listagem(data: seq<SessaoListada>, paginacao: Paginacao)

  /** GET /: a limit above 100 is refused with 400; otherwise one page of the filtered
      sessions, enriched, with the count under the same filters and the page count. */
  method ListarSessoes(db: SessionTables, page: Param, limit: Param, status: Option<string>, tipo: Option<string>,
                       provincia: Option<string>, distrito: Option<string>)
    returns (r: Outcome<Listagem>)
    ensures r.Fail? <==> LimitNum(limit) > 100
    ensures r.Fail? ==> r == Fail(400, MsgLimite)
    ensures r.Ok? ==> |r.value.data| == |Linhas(db.sessoes, Filtros(status, tipo, provincia, distrito), Offset(page, limit), LimitNum(limit))|
    ensures r.Ok? ==> forall i :: 0 <= i < |r.value.data| ==>
              r.value.data[i] == Enriquecida(Linhas(db.sessoes, Filtros(status, tipo, provincia, distrito),
                                                    Offset(page, limit), LimitNum(limit))[i], db.usuarios, db.participantes)
    ensures r.Ok? ==> r.value.paginacao.total == |Filtrar(db.sessoes, Filtros(status, tipo, provincia, distrito))|
    ensures r.Ok? ==> r.value.paginacao == Paginacao(PageNum(page), LimitNum(limit), r.value.paginacao.total,
                                                     Pages(r.value.paginacao.total, LimitNum(limit)))
  {
    var limitNum := LimitNum(limit);
    var pageNum := PageNum(page);
    var offsetNum := Offset(page, limit);
    if limitNum > 100 {
      return Fail(400, MsgLimite);
    }
    var filtros := Filtros(status, tipo, provincia, distrito);
    var sessoes := Linhas(db.sessoes, filtros, offsetNum, limitNum);
    var total := |Filtrar(db.sessoes, filtros)|;
    var data := Enriquecer(sessoes, db.usuarios, db.participantes);
    r := Ok(Listagem(data, Paginacao(pageNum, limitNum, total, Pages(total, limitNum))));
  }

  // ---- GET /:id ----

  datatype Detalhe = Detalhe(sessao: Sessao, facilitadorNome: string, totalParticipantes: nat)

  /** GET /:id: 400 for an id that is not a positive integer, 404 for an absent session,
      otherwise the session with its participant count and facilitator name. */
  function ObterSessao(sessoes: seq<Sessao>, usuarios: map<int, string>, participantes: Participantes, id: Param)
    : (r: Outcome<Detalhe>)
    ensures !id.IntText? || id.n <= 0 ==> r == Fail(400, MsgIdInvalido)
    ensures id.IntText? && id.n > 0 && id.n !in Ids(sessoes) ==> r == Fail(404, MsgSessaoNaoEncontrada)
    ensures r.Ok? <==> id.IntText? && id.n > 0 && id.n in Ids(sessoes)
    ensures r.Ok? ==> r.value.sessao.id == id.n && r.value.sessao in sessoes
    ensures r.Ok? ==> r.value.totalParticipantes == Inscritos(participantes, id.n) && r.value.facilitadorNome != ""
  {
    match ParseInt(id)
    case None => Fail(400, MsgIdInvalido)
    case Some(n) =>
      if n <= 0 then Fail(400, MsgIdInvalido)
      else match Buscar(sessoes, n)
        case None => Fail(404, MsgSessaoNaoEncontrada)
        case Some(row) => Ok(Detalhe(Sessao(n, row), NomeFacilitador(row, usuarios), Inscritos(participantes, n)))
  }

  // ---- POST / ----

  const MsgTitulo := "Título é obrigatório"
  const MsgData := "Data é obrigatória"
  const MsgLocal := "Distrito e província são obrigatórios"
  const MsgFacilitador := "Facilitador não encontrado"
  const MsgDataInvalida := "Valor de data ou horário inválido"
  const MsgErroCriar := "Erro interno do servidor ao criar sessão"

  /** JavaScript truthiness of a text field. */
  predicate Preenchido(f: Field<string>)
  {
    f.Value? && f.v != ""
  }

  /** `f?.trim() || d`. */
  function TrimOu(f: Field<string>, d: string): (r: string)
    ensures d != "" ==> r != ""
    ensures f.Value? && Trim(f.v) != "" ==> r == Trim(f.v)
  {
    if f.Value? && Trim(f.v) != "" then Trim(f.v) else d
  }

  /** `f || d` on a numeric field (the body's `parseInt(x) || d` reads a number the same way). */
  function IntFieldOr(f: Field<int>, d: int): (r: int)
    ensures d != 0 ==> r != 0
    ensures f.Value? && f.v != 0 ==> r == f.v
  {
    if f.Value? && f.v != 0 then f.v else d
  }

  /** The first validation that refuses the body, in the order the route checks them. */
  function Validacao(body: SessaoBody): (r: Option<string>)
    ensures r.None? <==> body.titulo.Value? && Trim(body.titulo.v) != "" && Preenchido(body.data)
                         && Preenchido(body.distrito) && Preenchido(body.provincia)
    ensures r.Some? ==> r.value in {MsgTitulo, MsgData, MsgLocal}
    ensures !(body.titulo.Value? && Trim(body.titulo.v) != "") ==> r == Some(MsgTitulo)
  {
    if !(body.titulo.Value? && Trim(body.titulo.v) != "") then Some(MsgTitulo)
    else if !Preenchido(body.data) then Some(MsgData)
    else if !Preenchido(body.distrito) || !Preenchido(body.provincia) then Some(MsgLocal)
    else None
  }

  /** `tiposPermitidos.includes(tipo) ? tipo : 'presencial'` with `tipo` defaulting to 'presencial'. */
  function TipoFinal(tipo: Field<string>): (r: string)
    ensures r in TiposPermitidos
    ensures tipo.Value? && tipo.v in TiposPermitidos ==> r == tipo.v
    ensures !(tipo.Value? && tipo.v in TiposPermitidos) ==> r == "presencial"
  {
    if tipo.Value? && tipo.v in TiposPermitidos then tipo.v else "presencial"
  }

  /** The row the route inserts for a body that passed validation: trimmed text, the
      defaults, the requesting user as facilitator, no PIN and `estado` 'agendada'. It
      always meets the NOT NULL and ENUM constraints of `sessions`. */
  function LinhaRota(usuario: int, body: SessaoBody, agora: int): (r: SessaoRow)
    requires Validacao(body).None?
    ensures SessaoInserivel(r)
    ensures r.titulo == Some(Trim(body.titulo.v)) && r.titulo.value != ""
    ensures r.distrito == Some(Trim(body.distrito.v)) && r.provincia == Some(Trim(body.provincia.v))
    ensures r.data == Some(body.data.v)
    ensures r.tipo == Some(TipoFinal(body.tipo)) && r.estado == "agendada" && r.pin.None?
    ensures r.facilitador == Some(usuario)
    ensures r.duracao.Some? && r.duracao.value != 0 && r.previstos.Some? && r.previstos.value != 0
    ensures r.horario.Some? && r.horario.value != ""
  {
    SessaoRow(Some(Trim(body.titulo.v)), Some(TrimOu(body.descricao, "")), Some(body.data.v),
              Some(if Preenchido(body.horario) then body.horario.v else "10:00:00"),
              Some(IntFieldOr(Default(body.duracao, 2), 2)), Some(Trim(body.distrito.v)), Some(Trim(body.provincia.v)),
              Some(usuario), Some(IntFieldOr(Default(body.previstos, 20), 20)), Some(0), Some(TipoFinal(Default(body.tipo, "presencial"))),
              Some(TrimOu(body.localizacao, "")), Some(TrimOu(body.linkVirtual, "")), Some(TrimOu(body.observacoes, "")),
              "agendada", None, agora)
  }

  /** An activity row of the route: linked to the session both by `sessao_id` and inside
      `criterios`, with a name, an objective and non-zero scores whatever was sent; it
      has no `codigo`, which the insert does not name. */
  function LinhaAtividadeRota(sessao: int, a: AtividadeBody): (r: AtividadeCriada)
    ensures r.sessao == Some(sessao) && r.criterios.ComIndicadores? && r.criterios.sessao == sessao
    ensures AtividadeInserivel(r) && r.atividade.value != "" && r.objectivo.value != ""
    ensures r.prioridade != 0 && r.tempoImpacto != 0 && r.capex != 0 && r.risco != 0
    ensures Preenchido(a.atividade) ==> r.atividade == Some(a.atividade.v)
  {
    AtividadeCriada(Some(sessao),
                    Some(if Preenchido(a.atividade) then a.atividade.v else "Atividade sem nome"),
                    Some(if Preenchido(a.descricao) then a.descricao.v else ""),
                    Some(if Preenchido(a.objetivoEstrategico) then a.objetivoEstrategico.v else "OE - Não definido"),
                    ComIndicadores(if a.indicadores.Value? then a.indicadores.v else [], sessao),
                    IntFieldOr(a.prioridade, 1), IntFieldOr(a.tempoImpacto, 2), IntFieldOr(a.capex, 3), IntFieldOr(a.risco, 2))
  }

  /** The activity rows that were written: a failing insert is logged and skipped. */
  function Inseridas(sessao: int, ats: seq<AtividadeBody>, falhas: set<nat>): (r: seq<AtividadeCriada>)
    ensures |r| <= |ats|
    ensures forall x :: x in r ==> x.sessao == Some(sessao) && AtividadeInserivel(x)
  {
    if ats == [] then []
    else
      Inseridas(sessao, ats[..|ats| - 1], falhas)
      + (if |ats| - 1 in falhas then [] else [LinhaAtividadeRota(sessao, ats[|ats| - 1])])
  }

  /** The indices of the activities whose insert fails. */
  function Falhadas(n: nat, falhas: set<nat>): set<nat>
  {
    set i: nat | i < n && i in falhas
  }

  /** Inserted plus skipped activities are all the activities. */
  lemma {:induction false} InseridasMaisFalhadas(sessao: int, ats: seq<AtividadeBody>, falhas: set<nat>)
    ensures |Inseridas(sessao, ats, falhas)| + |Falhadas(|ats|, falhas)| == |ats|
  {
    if ats != [] {
      var n := |ats| - 1;
      var init := ats[..n];
      InseridasMaisFalhadas(sessao, init, falhas);
      if n in falhas {
        assert Falhadas(|ats|, falhas) == Falhadas(n, falhas) + {n};
      } else {
        assert Falhadas(|ats|, falhas) == Falhadas(n, falhas);
      }
    }
  }

  /** When every insert is refused, as under a schema whose `codigo` column is NOT NULL
      without a default, nothing is written and the message does not mention activities. */
  lemma {:induction false} TodasRecusadas(sessao: int, ats: seq<AtividadeBody>, falhas: set<nat>)
    requires forall i :: 0 <= i < |ats| ==> i in falhas
    ensures Inseridas(sessao, ats, falhas) == []
    ensures Mensagem(|Inseridas(sessao, ats, falhas)|) == "Sessão criada com sucesso"
  {
    if ats != [] {
      TodasRecusadas(sessao, ats[..|ats| - 1], falhas);
    }
  }

  /** The activity loop: each insert on its own, the ones in `falhas` failing and skipped. */
  method InserirAtividadesRota(sessao: int, ats: seq<AtividadeBody>, falhas: set<nat>)
    returns (linhas: seq<AtividadeCriada>)
    ensures linhas == Inseridas(sessao, ats, falhas)
  {
    linhas := [];
    for i := 0 to |ats|
      invariant linhas == Inseridas(sessao, ats[..i], falhas)
    {
      assert ats[..i + 1][..i] == ats[..i];
      if i !in falhas {
        linhas := linhas + [LinhaAtividadeRota(sessao, ats[i])];
      }
    }
    assert ats[..|ats|] == ats;
  }

  /** The success message: " e N atividades" only when some activity was written. */
  function Mensagem(inseridas: nat): (m: string)
    ensures inseridas == 0 ==> m == "Sessão criada com sucesso"
    ensures inseridas > 0 ==> m == "Sessão criada com sucesso e " + NatToDecimal(inseridas) + " atividades"
  {
    "Sessão criada com sucesso" + (if inseridas > 0 then " e " + NatToDecimal(inseridas) + " atividades" else "")
  }

  datatype Criacao = Criacao(id: int, inseridas: nat, mensagem: string)

  /** What the route answers when the session insert fails with `code`. */
  function ErroInsercao(code: string): (r: Outcome<Criacao>)
    ensures r.Fail?
    ensures r.status == 400 <==> code in {"ER_NO_REFERENCED_ROW", "ER_TRUNCATED_WRONG_VALUE"}
    ensures r.status != 400 ==> r == Fail(500, MsgErroCriar)
  {
    if code == "ER_NO_REFERENCED_ROW" then Fail(400, MsgFacilitador)
    else if code == "ER_TRUNCATED_WRONG_VALUE" then Fail(400, MsgDataInvalida)
    else Fail(500, MsgErroCriar)
  }

  /** POST /: validation (400), then `atividades.length` is read for the log, which
      throws on `null` (500); the session insert, whose failure code `erroInsercao`
      chooses the answer; then each activity is inserted on its own, the ones in
      `falhas` failing and being skipped. */
  method CriarSessao(db: SessionTables, usuario: int, body: SessaoBody, agora: int, erroInsercao: Option<string>,
                     falhas: set<nat>)
    returns (r: Outcome<Criacao>)
    requires db.Valid()
    modifies db
    ensures db.Valid()
    ensures Validacao(body).Some? ==> r == Fail(400, Validacao(body).value)
    ensures Validacao(body).None? && body.atividades.Null? ==> r == Fail(500, MsgErroCriar)
    ensures Validacao(body).None? && !body.atividades.Null? && erroInsercao.Some? ==> r == ErroInsercao(erroInsercao.value)
    ensures r.Ok? <==> Validacao(body).None? && !body.atividades.Null? && erroInsercao.None?
    ensures r.Fail? ==> unchanged(db)
    ensures r.Ok? ==> r.value.id == old(db.proximoId) && r.value.id !in Ids(old(db.sessoes))
    ensures r.Ok? ==> db.sessoes == old(db.sessoes) + [Sessao(r.value.id, LinhaRota(usuario, body, agora))]
    ensures r.Ok? ==> db.atividades == old(db.atividades) + Inseridas(r.value.id, Itens(Default(body.atividades, [])), falhas)
    ensures r.Ok? ==> r.value.inseridas == |Inseridas(r.value.id, Itens(Default(body.atividades, [])), falhas)|
                      && r.value.inseridas <= |Itens(Default(body.atividades, []))|
                      && r.value.mensagem == Mensagem(r.value.inseridas)
    ensures db.perguntas == old(db.perguntas) && db.participantes == old(db.participantes) && db.usuarios == old(db.usuarios)
  {
    var erro := Validacao(body);
    if erro.Some? {
      return Fail(400, erro.value);
    }
    var atividades := Default(body.atividades, []);
    if atividades.Null? {
      return Fail(500, MsgErroCriar);
    }
    if erroInsercao.Some? {
      return ErroInsercao(erroInsercao.value);
    }
    var id := db.InserirSessao(LinhaRota(usuario, body, agora));
    var linhas := InserirAtividadesRota(id, Itens(atividades), falhas);
    db.InserirAtividades(linhas);
    var inseridas := |linhas|;
    r := Ok(Criacao(id, inseridas, Mensagem(inseridas)));
  }

  // ---- participants ----

  const MsgIds := "IDs inválidos"
  const MsgStatus := "Status inválido. Use: pendente, confirmado ou cancelado"
  const MsgUsuarioNaoEncontrado := "Usuário não encontrado"
  const MsgJaParticipante := "Usuário já é participante desta sessão"
  const MsgErroAdicionar := "Erro interno do servidor ao adicionar participante"
  const MsgErroStatus := "Erro interno do servidor ao atualizar status"
  const MsgNaoParticipante := "Participante não encontrado nesta sessão"

  /** POST /:sessaoId/participantes: 400 for ids that are not numbers or a status
      outside the ENUM (`status` defaults to 'pendente'), 404 for a missing session or
      user, 409 for an existing enrolment, otherwise one new row. */
  function Adicionar(p: Participantes, sessoes: seq<Sessao>, usuarios: map<int, string>, sessaoId: Param,
                     usuarioId: Param, status: Field<string>): (r: Outcome<Participantes>)
    ensures r.Ok? <==> && sessaoId.IntText? && usuarioId.IntText? && Default(status, "pendente").Value?
                       && Default(status, "pendente").v in StatusValidos && sessaoId.n in Ids(sessoes)
                       && usuarioId.n in usuarios && (sessaoId.n, usuarioId.n) !in p
    ensures r.Ok? ==> r.value == p[(sessaoId.n, usuarioId.n) := Default(status, "pendente").v]
    ensures r.Fail? ==> r.status in {400, 404, 409}
    ensures sessaoId.IntText? && usuarioId.IntText? && (sessaoId.n, usuarioId.n) in p && Integro(p, sessoes, usuarios)
            && Default(status, "pendente").Value? && Default(status, "pendente").v in StatusValidos
            ==> r == Fail(409, MsgJaParticipante)
  {
    var st := Default(status, "pendente");
    if !sessaoId.IntText? || !usuarioId.IntText? then Fail(400, MsgIds)
    else if !(st.Value? && st.v in StatusValidos) then Fail(400, MsgStatus)
    else if sessaoId.n !in Ids(sessoes) then Fail(404, MsgSessaoNaoEncontrada)
    else if usuarioId.n !in usuarios then Fail(404, MsgUsuarioNaoEncontrado)
    else if (sessaoId.n, usuarioId.n) in p then Fail(409, MsgJaParticipante)
    else Ok(p[(sessaoId.n, usuarioId.n) := st.v])
  }

  /** PATCH /:sessaoId/participantes/:usuarioId: 400 for bad ids or a status that is
      missing, empty or outside the ENUM; an existing row is updated and otherwise one is
      inserted. A failure of the existence check is swallowed, so the insert then hits
      the unique key (500); an insert for a missing session or user breaks a foreign key
      (500). */
  function AtualizarStatus(p: Participantes, sessoes: seq<Sessao>, usuarios: map<int, string>, sessaoId: Param,
                           usuarioId: Param, status: Field<string>, verificacaoFalha: bool): (r: Outcome<Participantes>)
    ensures !sessaoId.IntText? || !usuarioId.IntText? ==> r == Fail(400, MsgIds)
    ensures sessaoId.IntText? && usuarioId.IntText? && !(Preenchido(status) && status.v in StatusValidos)
            ==> r == Fail(400, MsgStatus)
    ensures r.Ok? ==> r.value == p[(sessaoId.n, usuarioId.n) := status.v] && status.v in StatusValidos
    ensures r.Fail? ==> r.status in {400, 500}
    ensures (sessaoId.IntText? && usuarioId.IntText? && Preenchido(status) && status.v in StatusValidos
             && (sessaoId.n, usuarioId.n) in p && !verificacaoFalha) ==> r.Ok?
  {
    if !sessaoId.IntText? || !usuarioId.IntText? then Fail(400, MsgIds)
    else if !(Preenchido(status) && status.v in StatusValidos) then Fail(400, MsgStatus)
    else
      var k := (sessaoId.n, usuarioId.n);
      var existe := !verificacaoFalha && k in p;
      if existe then Ok(p[k := status.v])                                  // UPDATE
      else if k in p then Fail(500, MsgErroStatus)                          // INSERT hits the unique key
      else if k.0 !in Ids(sessoes) || k.1 !in usuarios then Fail(500, MsgErroStatus)   // foreign key
      else Ok(p[k := status.v])                                            // INSERT
  }

  /** DELETE /:sessaoId/participantes/:usuarioId: 400 for bad ids, 404 when no row was
      deleted, otherwise the row is gone. */
  function Remover(p: Participantes, sessaoId: Param, usuarioId: Param): (r: Outcome<Participantes>)
    ensures !sessaoId.IntText? || !usuarioId.IntText? ==> r == Fail(400, MsgIds)
    ensures sessaoId.IntText? && usuarioId.IntText? ==>
              (r.Ok? <==> (sessaoId.n, usuarioId.n) in p)
    ensures r.Fail? && sessaoId.IntText? && usuarioId.IntText? ==> r == Fail(404, MsgNaoParticipante)
    ensures r.Ok? ==> r.value == p - {(sessaoId.n, usuarioId.n)}
  {
    if !sessaoId.IntText? || !usuarioId.IntText? then Fail(400, MsgIds)
    else if (sessaoId.n, usuarioId.n) !in p then Fail(404, MsgNaoParticipante)
    else Ok(p - {(sessaoId.n, usuarioId.n)})
  }

  /** All three operations keep the participant rows consistent with the sessions and
      users and within the status ENUM. */
  lemma IntegridadePreservada(p: Participantes, sessoes: seq<Sessao>, usuarios: map<int, string>, sessaoId: Param,
                              usuarioId: Param, status: Field<string>, verificacaoFalha: bool)
    requires Integro(p, sessoes, usuarios)
    ensures Adicionar(p, sessoes, usuarios, sessaoId, usuarioId, status).Ok? ==>
              Integro(Adicionar(p, sessoes, usuarios, sessaoId, usuarioId, status).value, sessoes, usuarios)
    ensures AtualizarStatus(p, sessoes, usuarios, sessaoId, usuarioId, status, verificacaoFalha).Ok? ==>
              Integro(AtualizarStatus(p, sessoes, usuarios, sessaoId, usuarioId, status, verificacaoFalha).value, sessoes, usuarios)
    ensures Remover(p, sessaoId, usuarioId).Ok? ==> Integro(Remover(p, sessaoId, usuarioId).value, sessoes, usuarios)
  {
    var a := AtualizarStatus(p, sessoes, usuarios, sessaoId, usuarioId, status, verificacaoFalha);
    if a.Ok? {
      var k := (sessaoId.n, usuarioId.n);
      assert k.0 in Ids(sessoes) && k.1 in usuarios by {
        if !(k in p) {
          assert !(k.0 !in Ids(sessoes) || k.1 !in usuarios);
        }
      }
    }
  }

  /** Adding inserts exactly one row; adding the same pair again is refused with 409;
      removing it afterwards gives back the rows as they were, and a second removal
      finds nothing (404). */
  lemma AdicionarRemover(p: Participantes, sessoes: seq<Sessao>, usuarios: map<int, string>, s: int, u: int,
                         status: Field<string>)
    requires Adicionar(p, sessoes, usuarios, IntText(s), IntText(u), status).Ok?
    ensures |Adicionar(p, sessoes, usuarios, IntText(s), IntText(u), status).value| == |p| + 1
    ensures Adicionar(Adicionar(p, sessoes, usuarios, IntText(s), IntText(u), status).value, sessoes, usuarios,
                      IntText(s), IntText(u), status) == Fail(409, MsgJaParticipante)
    ensures Remover(Adicionar(p, sessoes, usuarios, IntText(s), IntText(u), status).value, IntText(s), IntText(u)) == Ok(p)
    ensures Remover(p, IntText(s), IntText(u)) == Fail(404, MsgNaoParticipante)
  {
    var q := Adicionar(p, sessoes, usuarios, IntText(s), IntText(u), status).value;
    assert q - {(s, u)} == p;
  }

  /** The status upsert leaves exactly one row for the pair, holding the new status, and
      adds a row only when there was none. */
  lemma AtualizarStatusUpsert(p: Participantes, sessoes: seq<Sessao>, usuarios: map<int, string>, s: int, u: int,
                              status: Field<string>, verificacaoFalha: bool)
    requires AtualizarStatus(p, sessoes, usuarios, IntText(s), IntText(u), status, verificacaoFalha).Ok?
    ensures (s, u) in AtualizarStatus(p, sessoes, usuarios, IntText(s), IntText(u), status, verificacaoFalha).value
    ensures AtualizarStatus(p, sessoes, usuarios, IntText(s), IntText(u), status, verificacaoFalha).value[(s, u)] == status.v
    ensures |AtualizarStatus(p, sessoes, usuarios, IntText(s), IntText(u), status, verificacaoFalha).value|
            == if (s, u) in p then |p| else |p| + 1
  {
  }

  /** The participant handlers on the tables: the rows change exactly as the functions
      above say, and only on success. */
  method AdicionarParticipante(db: SessionTables, sessaoId: Param, usuarioId: Param, status: Field<string>)
    returns (r: Outcome<()>)
    requires db.Valid()
    modifies db
    ensures db.Valid()
    ensures var o := Adicionar(old(db.participantes), db.sessoes, db.usuarios, sessaoId, usuarioId, status);
            && (r.Ok? <==> o.Ok?)
            && (o.Ok? ==> db.participantes == o.value)
            && (o.Fail? ==> r == Fail(o.status, o.message) && db.participantes == old(db.participantes))
    ensures db.sessoes == old(db.sessoes) && db.usuarios == old(db.usuarios) && db.proximoId == old(db.proximoId)
    ensures db.atividades == old(db.atividades) && db.perguntas == old(db.perguntas)
  {
    var o := Adicionar(db.participantes, db.sessoes, db.usuarios, sessaoId, usuarioId, status);
    IntegridadePreservada(db.participantes, db.sessoes, db.usuarios, sessaoId, usuarioId, status, false);
    if o.Fail? {
      return Fail(o.status, o.message);
    }
    db.participantes := o.value;   // INSERT
    r := Ok(());
  }

  method AtualizarStatusParticipante(db: SessionTables, sessaoId: Param, usuarioId: Param, status: Field<string>,
                                     verificacaoFalha: bool)
    returns (r: Outcome<()>)
    requires db.Valid()
    modifies db
    ensures db.Valid()
    ensures var o := AtualizarStatus(old(db.participantes), db.sessoes, db.usuarios, sessaoId, usuarioId, status, verificacaoFalha);
            && (r.Ok? <==> o.Ok?)
            && (o.Ok? ==> db.participantes == o.value)
            && (o.Fail? ==> r == Fail(o.status, o.message) && db.participantes == old(db.participantes))
    ensures db.sessoes == old(db.sessoes) && db.usuarios == old(db.usuarios) && db.proximoId == old(db.proximoId)
    ensures db.atividades == old(db.atividades) && db.perguntas == old(db.perguntas)
  {
    var o := AtualizarStatus(db.participantes, db.sessoes, db.usuarios, sessaoId, usuarioId, status, verificacaoFalha);
    IntegridadePreservada(db.participantes, db.sessoes, db.usuarios, sessaoId, usuarioId, status, verificacaoFalha);
    if o.Fail? {
      return Fail(o.status, o.message);
    }
    db.participantes := o.value;   // UPDATE or INSERT
    r := Ok(());
  }

  method RemoverParticipante(db: SessionTables, sessaoId: Param, usuarioId: Param)
    returns (r: Outcome<()>)
    requires db.Valid()
    modifies db
    ensures db.Valid()
    ensures var o := Remover(old(db.participantes), sessaoId, usuarioId);
            && (r.Ok? <==> o.Ok?)
            && (o.Ok? ==> db.participantes == o.value)
            && (o.Fail? ==> r == Fail(o.status, o.message) && db.participantes == old(db.participantes))
    ensures db.sessoes == old(db.sessoes) && db.usuarios == old(db.usuarios) && db.proximoId == old(db.proximoId)
    ensures db.atividades == old(db.atividades) && db.perguntas == old(db.perguntas)
  {
    var o := Remover(db.participantes, sessaoId, usuarioId);
    IntegridadePreservada(db.participantes, db.sessoes, db.usuarios, sessaoId, usuarioId, Undefined, false);
    if o.Fail? {
      return Fail(o.status, o.message);
    }
    db.participantes := o.value;   // DELETE
    r := Ok(());
  }
}
