/** The session tables as the session handlers see them: `sessions` in insertion order
    with its AUTO_INCREMENT id, the activities and test questions created with a session,
    `participantes_sessao` keyed by its unique (sessao_id, usuario_id) pair, and the user
    names the listings join in. Also the filtering, ordering and paging the listings share. */
module SessionTables {
  import opened Base
  import opened Text
  import opened JsModel
  import Sorting

  /** A row of `sessions`; `None` stands for SQL NULL. `criadoEm` is `created_at`. */
  datatype SessaoRow = SessaoRow(
    titulo: Option<string>, descricao: Option<string>, data: Option<string>, horario: Option<string>,
    duracao: Option<int>, distrito: Option<string>, provincia: Option<string>, facilitador: Option<int>,
    previstos: Option<int>, confirmados: Option<int>, tipo: Option<string>, localizacao: Option<string>,
    linkVirtual: Option<string>, observacoes: Option<string>, estado: string, pin: Option<string>,
    criadoEm: int)

  datatype Sessao = Sessao(id: int, row: SessaoRow)

  /** The `criterios` JSON written with an activity created alongside its session. */
  datatype CriteriosCriados = SoSessao(sessao: int) | ComIndicadores(indicadores: seq<string>, sessao: int)

  /** A row of `atividades_classificadas` written when a session is created. */
  datatype AtividadeCriada = AtividadeCriada(sessao: Option<int>, atividade: Option<string>, descricao: Option<string>,
                                             objectivo: Option<string>, criterios: CriteriosCriados,
                                             prioridade: int, tempoImpacto: int, capex: int, risco: int)

  /** `JSON.stringify` of a question's options: the `{}` default, `null`, or a list. */
  datatype OpcoesJson = ObjetoVazio | JsonNull | Lista(itens: seq<string>)

  /** A row of `perguntas_teste` written when a session is created (`ativa` is always 1). */
  datatype PerguntaCriada = PerguntaCriada(sessao: int, pergunta: Option<string>, opcoes: OpcoesJson,
                                           respostaCorreta: string, modulo: Option<string>, dificuldade: Option<string>)

  /** The values of the `status` ENUM of `participantes_sessao`. */
  const StatusValidos: set<string> := {"pendente", "confirmado", "cancelado"}

  /** The values of the `tipo` ENUM of `sessions`. */
  const TiposPermitidos: set<string> := {"presencial", "virtual", "hibrido"}

  /** One element of the `atividades` array of a create request. */
  datatype AtividadeBody = AtividadeBody(atividade: Field<string>, descricao: Field<string>,
                                         objetivoEstrategico: Field<string>, indicadores: Field<seq<string>>,
                                         prioridade: Field<int>, tempoImpacto: Field<int>, capex: Field<int>,
                                         risco: Field<int>)

  /** One element of the `perguntas` array of a create request. */
  datatype PerguntaBody = PerguntaBody(pergunta: Field<string>, opcoes: Field<seq<string>>,
                                       respostaCorreta: Field<string>, modulo: Field<string>,
                                       dificuldade: Field<string>)

  /** The body of a session create request, as both create handlers read it. */
  datatype SessaoBody = SessaoBody(
    titulo: Field<string>, descricao: Field<string>, data: Field<string>, horario: Field<string>,
    duracao: Field<int>, distrito: Field<string>, provincia: Field<string>, facilitador: Field<int>,
    tipo: Field<string>, previstos: Field<int>, localizacao: Field<string>, linkVirtual: Field<string>,
    observacoes: Field<string>, atividades: Field<seq<AtividadeBody>>, perguntas: Field<seq<PerguntaBody>>)

  /** `if (list && list.length > 0) for (const x of list)`: the elements a loop visits. */
  function Itens<T>(f: Field<seq<T>>): (r: seq<T>)
    ensures f.Value? ==> r == f.v
    ensures !f.Value? ==> r == []
  {
    if f.Value? then f.v else []
  }

  /** The `sessions` insert is refused when a NOT NULL column (titulo, data, horario,
      distrito, provincia) gets NULL or `tipo` is outside its ENUM. */
  predicate SessaoInserivel(row: SessaoRow)
  {
    && row.titulo.Some? && row.data.Some? && row.horario.Some? && row.distrito.Some? && row.provincia.Some?
    && (row.tipo.Some? ==> row.tipo.value in TiposPermitidos)
  }

  /** The `atividades_classificadas` insert is refused when `atividade` or
      `objectivo_estrategico` (both NOT NULL) gets NULL. The inserts never name
      `codigo`, so that column is not part of these rows. */
  predicate AtividadeInserivel(row: AtividadeCriada)
  {
    row.atividade.Some? && row.objectivo.Some?
  }

  /** The ids of a list of sessions. */
  function Ids(sessoes: seq<Sessao>): set<int>
  {
    set s | s in sessoes :: s.id
  }

  /** The participant rows: (sessao_id, usuario_id) to status. */
  type Participantes = map<(int, int), string>

  /** Participant rows refer to existing sessions and users (the two foreign keys) and
      hold a status of the ENUM. */
  predicate Integro(p: Participantes, sessoes: seq<Sessao>, usuarios: map<int, string>)
  {
    forall k :: k in p ==> k.0 in Ids(sessoes) && k.1 in usuarios && p[k] in StatusValidos
  }

  class SessionTables {
    var sessoes: seq<Sessao>
    var proximoId: int
    var atividades: seq<AtividadeCriada>
    var perguntas: seq<PerguntaCriada>
    var participantes: Participantes
    /** `usuarios`, id to `nome`; the session handlers only read it. */
    var usuarios: map<int, string>

    /** Ids are positive, increase with insertion and stay below the next AUTO_INCREMENT
        value, and the participant rows are consistent with the other tables. */
    predicate Valid()
      reads this
    {
      && proximoId >= 1
      && (forall i :: 0 <= i < |sessoes| ==> 1 <= sessoes[i].id < proximoId)
      && (forall i, j :: 0 <= i < j < |sessoes| ==> sessoes[i].id < sessoes[j].id)
      && Integro(participantes, sessoes, usuarios)
    }

    constructor(usuarios: map<int, string>)
      ensures Valid()
      ensures sessoes == [] && atividades == [] && perguntas == [] && participantes == map[]
      ensures this.usuarios == usuarios && proximoId == 1
    {
      sessoes := [];
      proximoId := 1;
      atividades := [];
      perguntas := [];
      participantes := map[];
      this.usuarios := usuarios;
    }

    /** `INSERT INTO sessions`: the row gets the next AUTO_INCREMENT id, which no
        existing session has. */
    method InserirSessao(row: SessaoRow) returns (id: int)
      requires Valid()
      modifies this
      ensures Valid()
      ensures id == old(proximoId) && id >= 1 && id !in Ids(old(sessoes))
      ensures sessoes == old(sessoes) + [Sessao(id, row)] && proximoId == id + 1
      ensures atividades == old(atividades) && perguntas == old(perguntas)
      ensures participantes == old(participantes) && usuarios == old(usuarios)
    {
      id := proximoId;
      assert forall s :: s in sessoes ==> s.id < id;
      sessoes := sessoes + [Sessao(id, row)];
      proximoId := proximoId + 1;
      assert Ids(old(sessoes)) <= Ids(sessoes);
    }

    /** `INSERT INTO atividades`: the rows are appended; no other table changes. */
    method InserirAtividades(linhas: seq<AtividadeCriada>)
      requires Valid()
      modifies this
      ensures Valid()
      ensures atividades == old(atividades) + linhas
      ensures sessoes == old(sessoes) && proximoId == old(proximoId) && perguntas == old(perguntas)
      ensures participantes == old(participantes) && usuarios == old(usuarios)
    {
      atividades := atividades + linhas;
    }

    /** `INSERT INTO perguntas`: the rows are appended; no other table changes. */
    method InserirPerguntas(linhas: seq<PerguntaCriada>)
      requires Valid()
      modifies this
      ensures Valid()
      ensures perguntas == old(perguntas) + linhas
      ensures sessoes == old(sessoes) && proximoId == old(proximoId) && atividades == old(atividades)
      ensures participantes == old(participantes) && usuarios == old(usuarios)
    {
      perguntas := perguntas + linhas;
    }
  }

  /** `SELECT ... FROM sessions WHERE id = ?`: the row with that id, if any. */
  function Buscar(sessoes: seq<Sessao>, id: int): (r: Option<SessaoRow>)
    ensures r.Some? <==> id in Ids(sessoes)
    ensures r.Some? ==> Sessao(id, r.value) in sessoes
  {
    if sessoes == [] then None
    else if sessoes[0].id == id then Some(sessoes[0].row)
    else
      assert sessoes == [sessoes[0]] + sessoes[1..];
      Buscar(sessoes[1..], id)
  }

  /** `SELECT COUNT(*) FROM participantes_sessao WHERE sessao_id = ?`. */
  function Inscritos(participantes: Participantes, sessao: int): nat
  {
    |set k | k in participantes && k.0 == sessao|
  }

  // ---- filters ----

  /** The columns the listings filter on. */
  datatype Coluna = Estado | Tipo | Provincia | Distrito

  function ValorDe(row: SessaoRow, c: Coluna): Option<string>
  {
    match c
    case Estado => Some(row.estado)
    case Tipo => row.tipo
    case Provincia => row.provincia
    case Distrito => row.distrito
  }

  /** `AND column = ?` for each filter: a NULL column matches no value. */
  predicate Passa(row: SessaoRow, filtros: seq<(Coluna, string)>)
  {
    forall i :: 0 <= i < |filtros| ==> ValorDe(row, filtros[i].0) == Some(filtros[i].1)
  }

  /** The sessions a `WHERE` clause keeps, in table order. */
  function Filtrar(sessoes: seq<Sessao>, filtros: seq<(Coluna, string)>): (r: seq<Sessao>)
    ensures forall s :: s in r <==> s in sessoes && Passa(s.row, filtros)
    ensures |r| == CountWhere(sessoes, (s: Sessao) => Passa(s.row, filtros))
    ensures filtros == [] ==> r == sessoes
  {
    if sessoes == [] then []
    else
      var init := sessoes[..|sessoes| - 1];
      var last := sessoes[|sessoes| - 1];
      assert sessoes == init + [last];
      Filtrar(init, filtros) + (if Passa(last.row, filtros) then [last] else [])
  }

  // ---- ordering ----

  /** `ORDER BY data DESC` with NULL dates last. Dates are ISO `YYYY-MM-DD` text, whose
      text order is the calendar order. */
  predicate DataDesc(x: Sessao, y: Sessao)
  {
    y.row.data.None? || (x.row.data.Some? && TextLe(y.row.data.value, x.row.data.value))
  }

  /** `ORDER BY data DESC, created_at DESC`. */
  predicate DataCriadoDesc(x: Sessao, y: Sessao)
  {
    DataDesc(x, y) && (DataDesc(y, x) ==> x.row.criadoEm >= y.row.criadoEm)
  }

  lemma DataDescPreorder(s: seq<Sessao>)
    ensures Sorting.PreorderOn(s, DataDesc)
  {
    forall x, y | x in s && y in s
      ensures DataDesc(x, y) || DataDesc(y, x)
    {
      if x.row.data.Some? && y.row.data.Some? {
        TextLeTotal(x.row.data.value, y.row.data.value);
      }
    }
    forall x, y, z | x in s && y in s && z in s && DataDesc(x, y) && DataDesc(y, z)
      ensures DataDesc(x, z)
    {
      if z.row.data.Some? {
        TextLeTransitive(z.row.data.value, y.row.data.value, x.row.data.value);
      }
    }
  }

  lemma DataCriadoDescPreorder(s: seq<Sessao>)
    ensures Sorting.PreorderOn(s, DataCriadoDesc)
  {
    DataDescPreorder(s);
    forall x, y | x in s && y in s
      ensures DataCriadoDesc(x, y) || DataCriadoDesc(y, x)
    {
    }
    forall x, y, z | x in s && y in s && z in s && DataCriadoDesc(x, y) && DataCriadoDesc(y, z)
      ensures DataCriadoDesc(x, z)
    {
      assert DataDesc(x, z);
      if DataDesc(z, x) {
        assert DataDesc(y, x) && DataDesc(z, y);
      }
    }
  }

  /** The listing order of the sessions. */
  function Ordenar(sessoes: seq<Sessao>, le: (Sessao, Sessao) -> bool): (r: seq<Sessao>)
    requires Sorting.PreorderOn(sessoes, le)
    ensures multiset(r) == multiset(sessoes)
    ensures Sorting.SortedBy(r, le)
  {
    Sorting.SortBySorted(sessoes, le);
    Sorting.SortBy(sessoes, le)
  }

  // ---- paging ----

  /** `LIMIT limit OFFSET offset`. */
  function Pagina<T>(s: seq<T>, offset: nat, limit: nat): (r: seq<T>)
    ensures |r| <= limit
    ensures offset >= |s| ==> r == []
    ensures offset + limit <= |s| ==> |r| == limit
    ensures offset < |s| < offset + limit ==> |r| == |s| - offset
    ensures forall i :: 0 <= i < |r| ==> offset + i < |s| && r[i] == s[offset + i]
  {
    if offset >= |s| then []
    else s[offset..if offset + limit <= |s| then offset + limit else |s|]
  }

  /** Two consecutive pages are the page that spans both, so paging through the
      listing visits every row once and in order. */
  lemma PaginasConsecutivas<T>(s: seq<T>, offset: nat, a: nat, b: nat)
    ensures Pagina(s, offset, a) + Pagina(s, offset + a, b) == Pagina(s, offset, a + b)
  {
    if offset < |s| && offset + a < |s| {
      var fim := if offset + a + b <= |s| then offset + a + b else |s|;
      assert s[offset..offset + a] + s[offset + a..fim] == s[offset..fim];
    }
  }
}
