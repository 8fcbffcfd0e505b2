/** The session controller: `clean`, the PIN generator, session creation with its
    activities and test questions in one transaction, the controller's vote upsert and
    the filtered session listing. */
module SessionController {
  import opened Base
  import opened Text
  import opened JsModel
  import opened SessionTables
  import opened Votes
  import Sorting

  /** What the error handler answers for a refused statement (any database code other
      than the few it names). */
  const MsgBaseDados := "Erro na base de dados"
  /** The message of the TypeError thrown by `null.toLowerCase()`. */
  const MsgToLowerNull := "Cannot read properties of null (reading 'toLowerCase')"
  const MsgVotosInvalidos := "Dados de votação inválidos"

  // ---- clean ----

  /** `clean(val, fallback)`: `undefined` becomes the fallback; `null`, "" and 0 pass. */
  function Clean<T>(val: Field<T>, fallback: Field<T>): (r: Field<T>)
    ensures r == fallback <==> val.Undefined? || val == fallback
    ensures r.Undefined? <==> val.Undefined? && fallback.Undefined?
  {
    if val.Undefined? then fallback else val
  }

  /** With a value as fallback, `clean` is the destructuring default; with the default
      `null` it never changes the SQL binding, since `undefined` and `null` both bind as
      NULL; and cleaning twice is cleaning once. */
  lemma CleanLaws<T>(val: Field<T>, d: T)
    ensures Clean(val, Value(d)) == Default(val, d)
    ensures Bound(Clean(val, Null)) == Bound(val)
    ensures Clean(Clean(val, Value(d)), Value(d)) == Clean(val, Value(d))
    ensures !Clean(val, Null).Undefined?
  {
  }

  // ---- gerarNovoPin ----

  /** The 32 PIN symbols: capital letters and digits without 0, 1, I and O. */
  const Alfabeto := "ABCDEFGHJKLMNPQRSTUVWXYZ23456789"

  /** A PIN symbol that cannot be misread as another one. */
  predicate Legivel(c: char)
  {
    (IsUpper(c) && c != 'I' && c != 'O') || ('2' <= c <= '9')
  }

  /** The symbol at position `i`: the letters A to Z without I and O, then the digits
      2 to 9. */
  function Simbolo(i: nat): char
    requires i < 32
  {
    if i < 8 then ('A' as int + i) as char
    else if i < 13 then ('A' as int + i + 1) as char
    else if i < 24 then ('A' as int + i + 2) as char
    else ('2' as int + i - 24) as char
  }

  lemma AlfabetoSimbolos()
    ensures |Alfabeto| == 32
    ensures forall i :: 0 <= i < 32 ==> Alfabeto[i] == Simbolo(i)
  {
  }

  lemma AlfabetoLegivel()
    ensures |Alfabeto| == 32
    ensures forall c :: c in Alfabeto <==> Legivel(c)
    ensures forall i, j :: 0 <= i < j < |Alfabeto| ==> Alfabeto[i] != Alfabeto[j]
  {
    AlfabetoSimbolos();
    forall c | Legivel(c) ensures c in Alfabeto {
      assert Alfabeto[Posicao(c)] == c;
    }
    forall i | 0 <= i < 32 ensures Legivel(Alfabeto[i]) && Posicao(Alfabeto[i]) == i {
    }
  }

  /** The random draws `Math.floor(Math.random() * 32)`, one per symbol. */
  predicate Sorteios(draws: seq<nat>)
  {
    forall i :: 0 <= i < |draws| ==> draws[i] < |Alfabeto|
  }

  /** The PIN the draws select. */
  function PinDe(draws: seq<nat>): (pin: string)
    requires Sorteios(draws)
    ensures |pin| == |draws|
    ensures forall i :: 0 <= i < |pin| ==> pin[i] in Alfabeto && Legivel(pin[i])
  {
    AlfabetoLegivel();
    seq(|draws|, i requires 0 <= i < |draws| => Alfabeto[draws[i]])
  }

  /** The position of a PIN symbol in the alphabet. */
  function Posicao(c: char): (i: nat)
    requires Legivel(c)
    ensures i < |Alfabeto| && Alfabeto[i] == c
  {
    AlfabetoSimbolos();
    if 'A' <= c <= 'H' then (c as int - 'A' as int)
    else if 'J' <= c <= 'N' then (c as int - 'A' as int) - 1
    else if 'P' <= c <= 'Z' then (c as int - 'A' as int) - 2
    else 24 + (c as int - '2' as int)
  }

  function Posicoes(pin: string): (draws: seq<nat>)
    requires forall i :: 0 <= i < |pin| ==> pin[i] in Alfabeto
    ensures Sorteios(draws) && |draws| == |pin|
  {
    AlfabetoLegivel();
    seq(|pin|, i requires 0 <= i < |pin| => Posicao(pin[i]))
  }

  /** Draws and PINs correspond one to one: every string of alphabet symbols is the PIN
      of exactly one sequence of draws. */
  lemma PinBijection(draws: seq<nat>, pin: string)
    requires Sorteios(draws)
    requires forall i :: 0 <= i < |pin| ==> pin[i] in Alfabeto
    ensures Posicoes(PinDe(draws)) == draws
    ensures PinDe(Posicoes(pin)) == pin
  {
    AlfabetoLegivel();
    var p := Posicoes(PinDe(draws));
    assert forall i :: 0 <= i < |draws| ==> p[i] == draws[i] by {
      forall i | 0 <= i < |draws| ensures p[i] == draws[i] {
        assert Alfabeto[p[i]] == Alfabeto[draws[i]];
      }
    }
  }

  /** `gerarNovoPin`: six symbols appended one draw at a time. */
  method GerarNovoPin(draws: seq<nat>) returns (pin: string)
    requires |draws| == 6 && Sorteios(draws)
    ensures pin == PinDe(draws)
    ensures |pin| == 6
  {
    pin := "";
    for i := 0 to 6
      invariant pin == PinDe(draws[..i])
    {
      pin := pin + [Alfabeto[draws[i]]];
    }
    assert draws[..6] == draws;
  }

  // ---- createSession ----

  /** The created session: its id and PIN. */
  datatype Criada = Criada(id: int, pin: string)

  /** The `sessions` row: `descricao`, `duracao`, `facilitador_id` and `tipo` default
      only when undefined; the PIN is the one just drawn and `estado` is 'agendada'. */
  function LinhaSessao(usuario: int, body: SessaoBody, pin: string, agora: int): (r: SessaoRow)
    ensures r.titulo == Bound(body.titulo) && r.data == Bound(body.data) && r.horario == Bound(body.horario)
    ensures r.distrito == Bound(body.distrito) && r.provincia == Bound(body.provincia)
    ensures body.descricao.Undefined? ==> r.descricao == Some("")
    ensures body.duracao.Undefined? ==> r.duracao == Some(2)
    ensures body.facilitador.Undefined? ==> r.facilitador == Some(usuario)
    ensures body.tipo.Undefined? ==> r.tipo == Some("presencial")
    ensures body.tipo.Null? ==> r.tipo.None?
    ensures r.estado == "agendada" && r.pin == Some(pin)
    ensures r.previstos == Some(20) && r.confirmados == Some(0)
  {
    SessaoRow(Bound(Clean(body.titulo, Null)), Bound(Clean(body.descricao, Value(""))), Bound(Clean(body.data, Null)),
              Bound(Clean(body.horario, Null)), Bound(Clean(body.duracao, Value(2))), Bound(Clean(body.distrito, Null)),
              Bound(Clean(body.provincia, Null)), Bound(Clean(body.facilitador, Value(usuario))),
              Some(20), Some(0), Bound(Clean(body.tipo, Value("presencial"))), None, None, None, "agendada",
              Some(pin), agora)
  }

  /** An activity row: the session link lives only inside the `criterios` JSON; the
      scores take the column defaults. */
  function LinhaAtividade(sessao: int, a: AtividadeBody): (r: AtividadeCriada)
    ensures r.sessao.None? && r.criterios == SoSessao(sessao)
    ensures r.atividade == Bound(a.atividade) && r.objectivo == Bound(a.objetivoEstrategico)
    ensures r.prioridade == 1 && r.tempoImpacto == 2 && r.capex == 3 && r.risco == 2
  {
    AtividadeCriada(None, Bound(Clean(a.atividade, Null)), None, Bound(Clean(a.objetivoEstrategico, Null)),
                    SoSessao(sessao), 1, 2, 3, 2)
  }

  function LinhasAtividade(sessao: int, ats: seq<AtividadeBody>): (r: seq<AtividadeCriada>)
    ensures |r| == |ats|
    ensures forall i :: 0 <= i < |ats| ==> r[i] == LinhaAtividade(sessao, ats[i])
  {
    seq(|ats|, i requires 0 <= i < |ats| => LinhaAtividade(sessao, ats[i]))
  }

  /** `clean(p.resposta_correta, 'a').toLowerCase()` throws on `null`. */
  predicate PerguntaAceite(p: PerguntaBody)
  {
    !p.respostaCorreta.Null?
  }

  function Opcoes(f: Field<seq<string>>): (o: OpcoesJson)
    ensures f.Undefined? ==> o == ObjetoVazio
    ensures f.Null? ==> o == JsonNull
    ensures f.Value? ==> o == Lista(f.v)
  {
    match f
    case Undefined => ObjetoVazio
    case Null => JsonNull
    case Value(l) => Lista(l)
  }

  /** A question row: the answer lower-cased (default 'a'), `modulo` 'Geral' and
      `dificuldade` 'medio' when undefined. */
  function LinhaPergunta(sessao: int, p: PerguntaBody): (r: PerguntaCriada)
    requires PerguntaAceite(p)
    ensures r.sessao == sessao
    ensures ToLower(r.respostaCorreta) == r.respostaCorreta
    ensures p.respostaCorreta.Undefined? ==> r.respostaCorreta == "a"
    ensures p.respostaCorreta.Value? ==> r.respostaCorreta == ToLower(p.respostaCorreta.v)
    ensures p.pergunta.Undefined? ==> r.pergunta == Some("Pergunta sem título")
    ensures p.modulo.Undefined? ==> r.modulo == Some("Geral")
    ensures p.dificuldade.Undefined? ==> r.dificuldade == Some("medio")
  {
    var resposta := ToLower(Clean(p.respostaCorreta, Value("a")).v);
    ToLowerIdempotent(Clean(p.respostaCorreta, Value("a")).v);
    PerguntaCriada(sessao, Bound(Clean(p.pergunta, Value("Pergunta sem título"))), Opcoes(p.opcoes),
                   resposta, Bound(Clean(p.modulo, Value("Geral"))), Bound(Clean(p.dificuldade, Value("medio"))))
  }

  lemma ToLowerIdempotent(s: string)
    ensures ToLower(ToLower(s)) == ToLower(s)
  {
  }

  function LinhasPergunta(sessao: int, ps: seq<PerguntaBody>): (r: seq<PerguntaCriada>)
    requires forall i :: 0 <= i < |ps| ==> PerguntaAceite(ps[i])
    ensures |r| == |ps|
    ensures forall i :: 0 <= i < |ps| ==> r[i] == LinhaPergunta(sessao, ps[i])
  {
    seq(|ps|, i requires 0 <= i < |ps| => LinhaPergunta(sessao, ps[i]))
  }

  predicate AtividadesAceites(ats: seq<AtividadeBody>)
  {
    forall i :: 0 <= i < |ats| ==> AtividadeInserivel(LinhaAtividade(0, ats[i]))
  }

  predicate PerguntasAceites(ps: seq<PerguntaBody>)
  {
    forall i :: 0 <= i < |ps| ==> PerguntaAceite(ps[i])
  }

  /** Every statement of the transaction goes through. */
  predicate CriacaoAceite(usuario: int, body: SessaoBody)
  {
    && SessaoInserivel(LinhaSessao(usuario, body, "", 0))
    && AtividadesAceites(Itens(Default(body.atividades, [])))
    && PerguntasAceites(Itens(Default(body.perguntas, [])))
  }

  /** Whether the session row is accepted does not depend on the PIN or the clock. */
  lemma SessaoInserivelIndependente(usuario: int, body: SessaoBody, pin: string, agora: int)
    ensures SessaoInserivel(LinhaSessao(usuario, body, pin, agora)) == SessaoInserivel(LinhaSessao(usuario, body, "", 0))
  {
  }

  /** The activity inserts, in order, up to the first refused one. */
  method InserirAtividades(sessao: int, ats: seq<AtividadeBody>) returns (ok: bool, linhas: seq<AtividadeCriada>)
    ensures ok <==> AtividadesAceites(ats)
    ensures ok ==> linhas == LinhasAtividade(sessao, ats)
  {
    linhas := [];
    for i := 0 to |ats|
      invariant linhas == LinhasAtividade(sessao, ats[..i])
      invariant AtividadesAceites(ats[..i])
    {
      var a := LinhaAtividade(sessao, ats[i]);
      if !AtividadeInserivel(a) {
        assert !AtividadesAceites(ats);
        return false, linhas;
      }
      assert ats[..i + 1] == ats[..i] + [ats[i]];
      linhas := linhas + [a];
    }
    assert ats[..|ats|] == ats;
    ok := true;
  }

  /** The question inserts, in order, up to the first answer that is `null`. */
  method InserirPerguntas(sessao: int, ps: seq<PerguntaBody>) returns (ok: bool, linhas: seq<PerguntaCriada>)
    ensures ok <==> PerguntasAceites(ps)
    ensures ok ==> linhas == LinhasPergunta(sessao, ps)
  {
    linhas := [];
    for i := 0 to |ps|
      invariant PerguntasAceites(ps[..i])
      invariant linhas == LinhasPergunta(sessao, ps[..i])
    {
      if !PerguntaAceite(ps[i]) {
        assert !PerguntasAceites(ps);
        return false, linhas;
      }
      assert ps[..i + 1] == ps[..i] + [ps[i]];
      linhas := linhas + [LinhaPergunta(sessao, ps[i])];
    }
    assert ps[..|ps|] == ps;
    ok := true;
  }

  /** `createSession`: draws a PIN, inserts the session, then each activity and each
      question, all in one transaction; any refused statement rolls everything back.
      The PIN is never compared with the PINs of other sessions. */
  method CreateSession(db: SessionTables, usuario: int, body: SessaoBody, draws: seq<nat>, agora: int)
    returns (r: Outcome<Criada>)
    requires db.Valid()
    requires |draws| == 6 && Sorteios(draws)
    modifies db
    ensures db.Valid()
    ensures r.Ok? <==> CriacaoAceite(usuario, body)
    ensures r.Ok? ==> r.value == Criada(old(db.proximoId), PinDe(draws)) && r.value.id !in Ids(old(db.sessoes))
    ensures r.Ok? ==> db.sessoes == old(db.sessoes) + [Sessao(r.value.id, LinhaSessao(usuario, body, r.value.pin, agora))]
    ensures r.Ok? ==> db.atividades == old(db.atividades) + LinhasAtividade(r.value.id, Itens(Default(body.atividades, [])))
    ensures r.Ok? ==> db.perguntas == old(db.perguntas) + LinhasPergunta(r.value.id, Itens(Default(body.perguntas, [])))
    ensures r.Ok? ==> db.proximoId == old(db.proximoId) + 1
    ensures r.Fail? ==> && db.sessoes == old(db.sessoes) && db.atividades == old(db.atividades)
                        && db.perguntas == old(db.perguntas) && db.proximoId == old(db.proximoId)
    ensures r.Fail? ==> r.status == 500
    ensures r.Fail? && r.message == MsgToLowerNull ==>
              SessaoInserivel(LinhaSessao(usuario, body, "", 0)) && AtividadesAceites(Itens(Default(body.atividades, [])))
    ensures db.participantes == old(db.participantes) && db.usuarios == old(db.usuarios)
  {
    var pin := GerarNovoPin(draws);
    var linha := LinhaSessao(usuario, body, pin, agora);
    SessaoInserivelIndependente(usuario, body, pin, agora);
    if !SessaoInserivel(linha) {
      return Fail(500, MsgBaseDados);
    }
    // START TRANSACTION: rows are collected and written at COMMIT
    var id := db.proximoId;
    var okAtividades, novasAtividades := InserirAtividades(id, Itens(Default(body.atividades, [])));
    if !okAtividades {
      return Fail(500, MsgBaseDados);   // ROLLBACK
    }
    var okPerguntas, novasPerguntas := InserirPerguntas(id, Itens(Default(body.perguntas, [])));
    if !okPerguntas {
      return Fail(500, MsgToLowerNull);  // ROLLBACK
    }
    // COMMIT
    id := db.InserirSessao(linha);
    db.InserirAtividades(novasAtividades);
    db.InserirPerguntas(novasPerguntas);
    r := Ok(Criada(id, pin));
  }

  // ---- submitVotes ----

  /** The row the controller's session upsert writes: `pontuacao` defaults to 0, the
      priority is read from `prioridade` and nothing is range-checked. */
  function RegistoLinha(v: VoteInput): (row: VoteRow)
    ensures v.pontuacao.Undefined? ==> row.pontuacao == Some(0)
    ensures v.pontuacao.Value? ==> row.pontuacao == Some(v.pontuacao.v)
    ensures row.prioridade == Bound(v.prioridade) && row.comentario == Bound(v.comentario)
  {
    VoteRow(Bound(Clean(v.pontuacao, Value(0))), Bound(Clean(v.prioridade, Null)), Bound(Clean(v.comentario, Null)))
  }

  /** The vote table after the upserts of a batch, or `None` when a statement binds a
      NULL key column (a missing `atividade_id`, or a `sessao_id` sent as null). */
  function Registar(store: VoteStore, usuario: int, sessao: Field<int>, vs: seq<VoteInput>): Option<VoteStore>
  {
    if vs == [] then Some(store)
    else
      var last := vs[|vs| - 1];
      match Registar(store, usuario, sessao, vs[..|vs| - 1])
      case None => None
      case Some(st) =>
        match KeyOf(usuario, last.atividade, sessao)
        case None => None
        case Some(k) => Some(st[k := RegistoLinha(last)])
  }

  function Registos(usuario: int, sessao: int, vs: seq<VoteInput>): (e: seq<(VoteKey, VoteRow)>)
    requires forall i :: 0 <= i < |vs| ==> vs[i].atividade.Value?
    ensures |e| == |vs|
    ensures forall i :: 0 <= i < |vs| ==> e[i] == (VoteKey(usuario, vs[i].atividade.v, sessao), RegistoLinha(vs[i]))
  {
    seq(|vs|, i requires 0 <= i < |vs| => (VoteKey(usuario, vs[i].atividade.v, sessao), RegistoLinha(vs[i])))
  }

  /** The batch goes through exactly when every vote has a key. */
  lemma {:induction false} RegistarSucceeds(store: VoteStore, usuario: int, sessao: Field<int>, vs: seq<VoteInput>)
    ensures Registar(store, usuario, sessao, vs).Some? <==>
              forall i :: 0 <= i < |vs| ==> KeyOf(usuario, vs[i].atividade, sessao).Some?
  {
    if vs != [] {
      var init := vs[..|vs| - 1];
      assert forall i :: 0 <= i < |init| ==> init[i] == vs[i];
      RegistarSucceeds(store, usuario, sessao, init);
    }
  }

  /** The writes of a batch are those of all but its last vote, then the last one's. */
  lemma RegistosSnoc(usuario: int, sessao: int, vs: seq<VoteInput>)
    requires vs != [] && forall i :: 0 <= i < |vs| ==> vs[i].atividade.Value?
    ensures Registos(usuario, sessao, vs)
            == Registos(usuario, sessao, vs[..|vs| - 1])
               + [(VoteKey(usuario, vs[|vs| - 1].atividade.v, sessao), RegistoLinha(vs[|vs| - 1]))]
  {
  }

  /** A batch that goes through overrides the table with its votes, the last vote for
      an activity winning. */
  lemma {:induction false} RegistarIsOverride(store: VoteStore, usuario: int, sessao: Field<int>, vs: seq<VoteInput>)
    requires vs != []
    requires Registar(store, usuario, sessao, vs).Some?
    ensures sessao.Value? && forall i :: 0 <= i < |vs| ==> vs[i].atividade.Value?
    ensures Registar(store, usuario, sessao, vs).value == store + Assign(Registos(usuario, sessao.v, vs))
    decreases |vs|
  {
    RegistarSucceeds(store, usuario, sessao, vs);
    var init := vs[..|vs| - 1];
    var last := vs[|vs| - 1];
    var k := VoteKey(usuario, last.atividade.v, sessao.v);
    assert forall i :: 0 <= i < |init| ==> init[i] == vs[i];
    RegistarSucceeds(store, usuario, sessao, init);
    RegistosSnoc(usuario, sessao.v, vs);
    if init == [] {
      assert store + Assign([]) == store;
      OverrideStep(store, [], k, RegistoLinha(last));
    } else {
      RegistarIsOverride(store, usuario, sessao, init);
      OverrideStep(store, Registos(usuario, sessao.v, init), k, RegistoLinha(last));
    }
  }

  lemma {:induction false} RegistarFailStays(store: VoteStore, usuario: int, sessao: Field<int>, vs: seq<VoteInput>, j: nat)
    requires j <= |vs|
    requires Registar(store, usuario, sessao, vs[..j]).None?
    ensures Registar(store, usuario, sessao, vs).None?
    decreases |vs| - j
  {
    if j == |vs| {
      assert vs[..j] == vs;
    } else {
      assert vs[..j + 1][..j] == vs[..j];
      RegistarFailStays(store, usuario, sessao, vs, j + 1);
    }
  }

  /** Sending the same batch again leaves the table as the first time. */
  lemma RegistarIdempotent(store: VoteStore, usuario: int, sessao: Field<int>, vs: seq<VoteInput>)
    requires vs != [] && Registar(store, usuario, sessao, vs).Some?
    ensures Registar(Registar(store, usuario, sessao, vs).value, usuario, sessao, vs).Some?
    ensures Registar(Registar(store, usuario, sessao, vs).value, usuario, sessao, vs)
            == Registar(store, usuario, sessao, vs)
  {
    var once := Registar(store, usuario, sessao, vs).value;
    RegistarIsOverride(store, usuario, sessao, vs);
    RegistarSucceeds(store, usuario, sessao, vs);
    RegistarSucceeds(once, usuario, sessao, vs);
    RegistarIsOverride(once, usuario, sessao, vs);
    var a := Assign(Registos(usuario, sessao.v, vs));
    assert (store + a) + a == store + a;
  }

  /** The controller's `submitVotes`: a missing or non-array `votos` is refused with
      400; otherwise every vote is upserted with `sessao_id` defaulting to 1 inside one
      transaction, and the voting status table is not touched. */
  method SubmitVotes(db: VoteTables, usuario: int, sessaoBody: Field<int>, votos: Option<seq<VoteInput>>)
    returns (r: Outcome<()>)
    modifies db
    ensures votos.None? ==> r == Fail(400, MsgVotosInvalidos)
    ensures r.Fail? ==> db.votos == old(db.votos)
    ensures votos.Some? ==> (r.Ok? <==> Registar(old(db.votos), usuario, Clean(sessaoBody, Value(1)), votos.value).Some?)
    ensures votos.Some? && r.Fail? ==> r == Fail(500, MsgBaseDados)
    ensures r.Ok? ==> Some(db.votos) == Registar(old(db.votos), usuario, Clean(sessaoBody, Value(1)), votos.value)
    ensures db.status == old(db.status)
  {
    if votos.None? {
      return Fail(400, MsgVotosInvalidos);
    }
    var sessao := Clean(sessaoBody, Value(1));
    var vs := votos.value;
    var trabalho := db.votos;
    for i := 0 to |vs|
      invariant Registar(db.votos, usuario, sessao, vs[..i]) == Some(trabalho)
    {
      assert vs[..i + 1][..i] == vs[..i];
      assert vs[..i + 1][i] == vs[i];
      var k := KeyOf(usuario, vs[i].atividade, sessao);
      if k.None? {
        // ROLLBACK
        RegistarFailStays(db.votos, usuario, sessao, vs, i + 1);
        return Fail(500, MsgBaseDados);
      }
      trabalho := trabalho[k.value := RegistoLinha(vs[i])];   // INSERT ... ON DUPLICATE KEY UPDATE
    }
    assert vs[..|vs|] == vs;
    // COMMIT
    db.votos := trabalho;
    r := Ok(());
  }

  // ---- listSessions ----

  /** A listed session with the facilitator's name from the LEFT JOIN. */
  datatype ComFacilitador = ComFacilitador(sessao: Sessao, facilitadorNome: Option<string>)

  datatype Listagem = Listagem(data: seq<ComFacilitador>, page: Option<int>, total: nat)

  /** A filter is added only for a non-empty value, in the order provincia, distrito,
      estado, tipo. */
  function FiltrosControlador(provincia: string, distrito: string, estado: string, tipo: string)
    : (r: seq<(Coluna, string)>)
    ensures forall v :: (Provincia, v) in r <==> provincia != "" && v == provincia
    ensures forall v :: (Distrito, v) in r <==> distrito != "" && v == distrito
    ensures forall v :: (Estado, v) in r <==> estado != "" && v == estado
    ensures forall v :: (Tipo, v) in r <==> tipo != "" && v == tipo
  {
    (if provincia != "" then [(Provincia, provincia)] else [])
    + (if distrito != "" then [(Distrito, distrito)] else [])
    + (if estado != "" then [(Estado, estado)] else [])
    + (if tipo != "" then [(Tipo, tipo)] else [])
  }

  /** A query-string number as JavaScript arithmetic reads it (`None` for NaN), with the
      destructuring default for an absent value. */
  function Numero(p: Param, d: int): (r: Option<int>)
    ensures p.Absent? ==> r == Some(d)
    ensures p.IntText? ==> r == Some(p.n)
    ensures p.Junk? ==> r.None?
  {
    match p
    case Absent => Some(d)
    case IntText(n) => Some(n)
    case Junk => None
  }

  function ComNome(s: Sessao, usuarios: map<int, string>): (c: ComFacilitador)
    ensures c.sessao == s
    ensures c.facilitadorNome.Some? <==> s.row.facilitador.Some? && s.row.facilitador.value in usuarios
  {
    ComFacilitador(s, if s.row.facilitador.Some? && s.row.facilitador.value in usuarios
                      then Some(usuarios[s.row.facilitador.value]) else None)
  }

  /** The rows of a page with the facilitator's name joined in. */
  function ComNomes(pagina: seq<Sessao>, usuarios: map<int, string>): (data: seq<ComFacilitador>)
    ensures |data| == |pagina|
    ensures forall i :: 0 <= i < |data| ==> data[i] == ComNome(pagina[i], usuarios)
  {
    seq(|pagina|, i requires 0 <= i < |pagina| => ComNome(pagina[i], usuarios))
  }

  /** One page of the filtered sessions in a listing order: the rows from `offset` on, at
      most `limit` of them, of the list sorted in that order. */
  function PaginaOrdenada(filtradas: seq<Sessao>, le: (Sessao, Sessao) -> bool, offset: nat, limit: nat)
    : (r: seq<Sessao>)
    requires Sorting.PreorderOn(filtradas, le)
    ensures r == Pagina(Ordenar(filtradas, le), offset, limit)
    ensures |r| <= limit
    ensures forall i :: 0 <= i < |r| ==> r[i] in filtradas
    ensures forall i, j :: 0 <= i < j < |r| ==> le(r[i], r[j])
  {
    var ordenadas := Ordenar(filtradas, le);
    var pagina := Pagina(ordenadas, offset, limit);
    assert forall i :: 0 <= i < |pagina| ==> pagina[i] in filtradas by {
      forall i | 0 <= i < |pagina| ensures pagina[i] in filtradas {
        assert pagina[i] in ordenadas;
        assert pagina[i] in multiset(ordenadas);
      }
    }
    pagina
  }

  /** The page and limit give the statement a non-negative LIMIT and OFFSET. */
  predicate Paginavel(page: Param, limit: Param)
  {
    Numero(page, 1).Some? && Numero(limit, 20).Some? && Numero(limit, 20).value >= 0
    && (Numero(page, 1).value - 1) * Numero(limit, 20).value >= 0
  }

  /** `listSessions`: the sessions that pass the filters, by date descending, from
      offset (page - 1) * limit; the statement is refused (500) when the limit or the
      offset is not a non-negative number. */
  function ListSessions(sessoes: seq<Sessao>, usuarios: map<int, string>, page: Param, limit: Param,
                        provincia: string, distrito: string, estado: string, tipo: string): (r: Outcome<Listagem>)
    ensures r.Fail? <==> !Paginavel(page, limit)
    ensures r.Fail? ==> r == Fail(500, MsgBaseDados)
    ensures r.Ok? ==> r.value.total == |Filtrar(sessoes, FiltrosControlador(provincia, distrito, estado, tipo))|
    ensures r.Ok? ==> |r.value.data| <= Numero(limit, 20).value
    ensures r.Ok? ==> forall i :: 0 <= i < |r.value.data| ==>
              r.value.data[i].sessao in sessoes
              && Passa(r.value.data[i].sessao.row, FiltrosControlador(provincia, distrito, estado, tipo))
    ensures r.Ok? ==> forall i, j :: 0 <= i < j < |r.value.data| ==> DataDesc(r.value.data[i].sessao, r.value.data[j].sessao)
    ensures r.Ok? ==> r.value.page == if page.Absent? then Some(1) else ParseInt(page)
    ensures r.Ok? ==>
              var filtradas := Filtrar(sessoes, FiltrosControlador(provincia, distrito, estado, tipo));
              var l := Numero(limit, 20).value;
              var pagina := Pagina(Sorting.SortBy(filtradas, DataDesc), (Numero(page, 1).value - 1) * l, l);
              |r.value.data| == |pagina|
              && forall i :: 0 <= i < |pagina| ==> r.value.data[i] == ComNome(pagina[i], usuarios)
  {
    var p := Numero(page, 1);
    var l := Numero(limit, 20);
    if !Paginavel(page, limit) then Fail(500, MsgBaseDados)
    else
      var filtradas := Filtrar(sessoes, FiltrosControlador(provincia, distrito, estado, tipo));
      DataDescPreorder(filtradas);
      var pagina := PaginaOrdenada(filtradas, DataDesc, (p.value - 1) * l.value, l.value);
      Ok(Listagem(ComNomes(pagina, usuarios), if page.Absent? then Some(1) else ParseInt(page), |filtradas|))
  }
}
