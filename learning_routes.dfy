/** The learning routes: the unrounded test submission (scored against the answers
    sent, pass at 75), the random ten-question test without the right answers, and
    the progress upsert with its defaults. */
module LearningRoutes {
  import opened Base
  import opened JsModel
  import opened LearningTables
  import LearningController

  // ---- POST /teste/submeter ----

  /** One element of the `respostas` array; `respostaUsuario` is `None` when the field
      is missing or is not a string (strict equality with a string then fails). */
  datatype Resposta = Resposta(perguntaId: int, respostaUsuario: Option<string>)

  /** One entry of `detalhes`. */
  datatype Item = Item(perguntaId: int, correta: bool)

  /** `SELECT resposta_correta FROM perguntas_teste WHERE id = ?`: the first row with
      that id, active or not. */
  function Lookup(perguntas: seq<Pergunta>, id: int): (r: Option<Pergunta>)
    ensures r.None? <==> forall i :: 0 <= i < |perguntas| ==> perguntas[i].id != id
    ensures r.Some? ==> r.value in perguntas && r.value.id == id
  {
    if perguntas == [] then None
    else if perguntas[0].id == id then Some(perguntas[0])
    else
      var rest := Lookup(perguntas[1..], id);
      assert forall i :: 0 < i < |perguntas| ==> perguntas[i] == perguntas[1..][i - 1];
      rest
  }

  predicate Known(perguntas: seq<Pergunta>, r: Resposta)
  {
    Lookup(perguntas, r.perguntaId).Some?
  }

  predicate Hit(perguntas: seq<Pergunta>, r: Resposta)
  {
    Known(perguntas, r) && r.respostaUsuario == Some(Lookup(perguntas, r.perguntaId).value.respostaCorreta)
  }

  /** Answers that name an existing question and match its right answer. */
  function Hits(perguntas: seq<Pergunta>, rs: seq<Resposta>): (n: nat)
    ensures n <= |rs|
  {
    if rs == [] then 0
    else Hits(perguntas, rs[..|rs| - 1]) + (if Hit(perguntas, rs[|rs| - 1]) then 1 else 0)
  }

  /** `detalhes`: one entry per answer naming an existing question, in order. */
  function Items(perguntas: seq<Pergunta>, rs: seq<Resposta>): (d: seq<Item>)
    ensures |d| <= |rs|
  {
    if rs == [] then []
    else
      var r := rs[|rs| - 1];
      Items(perguntas, rs[..|rs| - 1]) + (if Known(perguntas, r) then [Item(r.perguntaId, Hit(perguntas, r))] else [])
  }

  /** Right answers are at most the known answers, and the entries marked right are
      exactly the right answers. */
  lemma {:induction false} HitsWithinItems(perguntas: seq<Pergunta>, rs: seq<Resposta>)
    ensures Hits(perguntas, rs) <= |Items(perguntas, rs)|
    ensures Hits(perguntas, rs) == CountWhere(Items(perguntas, rs), (x: Item) => x.correta)
  {
    if rs != [] {
      var init := rs[..|rs| - 1];
      var r := rs[|rs| - 1];
      HitsWithinItems(perguntas, init);
      var extra := if Known(perguntas, r) then [Item(r.perguntaId, Hit(perguntas, r))] else [];
      CountWhereConcat(Items(perguntas, init), extra, (x: Item) => x.correta);
      if extra != [] {
        assert extra[..0] == [];
      }
    }
  }

  /** An answer to an unknown question adds nothing to the right answers or the
      details, though it still counts in the denominator. */
  lemma {:induction false} UnknownAnswerAddsNothing(perguntas: seq<Pergunta>, rs: seq<Resposta>, r: Resposta)
    requires forall i :: 0 <= i < |perguntas| ==> perguntas[i].id != r.perguntaId
    ensures Hits(perguntas, rs + [r]) == Hits(perguntas, rs)
    ensures Items(perguntas, rs + [r]) == Items(perguntas, rs)
  {
    assert (rs + [r])[..|rs|] == rs;
  }

  /** The loop over `respostas`: one lookup per answer. */
  method ScoreAnswers(perguntas: seq<Pergunta>, rs: seq<Resposta>) returns (acertos: nat, detalhes: seq<Item>)
    ensures acertos == Hits(perguntas, rs)
    ensures detalhes == Items(perguntas, rs)
  {
    acertos, detalhes := 0, [];
    var i := 0;
    while i < |rs|
      invariant 0 <= i <= |rs|
      invariant acertos == Hits(perguntas, rs[..i])
      invariant detalhes == Items(perguntas, rs[..i])
    {
      var r := rs[i];
      var pergunta := Lookup(perguntas, r.perguntaId);
      if pergunta.Some? {
        var correta := r.respostaUsuario == Some(pergunta.value.respostaCorreta);
        if correta {
          acertos := acertos + 1;
        }
        detalhes := detalhes + [Item(r.perguntaId, correta)];
      }
      assert rs[..i + 1][..i] == rs[..i];
      i := i + 1;
    }
    assert rs[..|rs|] == rs;
  }

  /** `(acertos / n) * 100`, unrounded; 0 / 0 is `NaN`. */
  function Percentagem(acertos: nat, n: nat): (p: Pontuacao)
    ensures n == 0 <==> p.NaN?
    ensures n > 0 ==> p.Ratio? && p.den == n && p.num == 100 * acertos
  {
    if n == 0 then NaN else Ratio(100 * acertos, n)
  }

  /** `pontuacao >= 75`; any comparison with `NaN` is false. */
  predicate AtLeast75(p: Pontuacao)
  {
    p.Ratio? && p.den > 0 && p.num >= 75 * p.den
  }

  /** The unrounded pass rule in integers: 4 * acertos >= 3 * n, never for no answers. */
  lemma UnroundedPassRule(acertos: nat, n: nat)
    ensures AtLeast75(Percentagem(acertos, n)) <==> n > 0 && 4 * acertos >= 3 * n
  {
  }

  /** The two pass rules disagree: 38 right of 51 (74.5%) passes the controller's
      rounded rule and fails this route's unrounded one; 3 of 4 passes both. */
  lemma PassRulesDiverge()
    ensures LearningController.Aprovado(38, 51) && !AtLeast75(Percentagem(38, 51))
    ensures LearningController.Aprovado(3, 4) && AtLeast75(Percentagem(3, 4))
  {
    LearningController.RoundedExamples();
  }

  /** Over the same counts, the unrounded rule is the stricter one, and they disagree
      exactly when 149 * n <= 200 * acertos < 150 * n. */
  lemma UnroundedPassImpliesRounded(acertos: nat, n: nat)
    requires n > 0
    ensures AtLeast75(Percentagem(acertos, n)) ==> LearningController.Aprovado(acertos, n)
    ensures (LearningController.Aprovado(acertos, n) && !AtLeast75(Percentagem(acertos, n)))
            <==> 149 * n <= 200 * acertos < 150 * n
  {
    LearningController.RoundedPassRule(acertos, n);
  }

  datatype Report = Report(aprovado: bool, nota: nat, totalPerguntas: nat, pontuacao: Pontuacao)

  const MsgProcessar := "Erro ao processar teste"

  /** `POST /teste/submeter`: 400 unless `respostas` is an array (`None` stands for a
      missing, falsy or non-array value). An empty array scores `0 / 0`, NaN, which the
      INSERT cannot bind as a number: the statement fails and the route answers 500
      with nothing written. Otherwise the answers are scored against the question bank
      and one result row is appended. `sessao_id` has no default: a missing one is
      stored as NULL. */
  method SubmeterTeste(db: Tables, usuario: int, respostas: Option<seq<Resposta>>, sessao: Field<int>,
                       perguntas: seq<Pergunta>, agora: int)
    returns (r: Outcome<Report>)
    modifies db
    ensures respostas.None? <==> r == Fail(BadRequest, "Formato de resposta inválido")
    ensures respostas == Some([]) ==> r == Fail(ServerError, MsgProcessar)
    ensures r.Ok? <==> respostas.Some? && |respostas.value| > 0
    ensures r.Fail? ==> db.resultados == old(db.resultados)
    ensures db.progresso == old(db.progresso)
    ensures r.Ok? ==>
      var rs := respostas.value;
      var a := Hits(perguntas, rs);
      && r.value == Report(AtLeast75(Percentagem(a, |rs|)), a, |rs|, Percentagem(a, |rs|))
      && (r.value.aprovado <==> |rs| > 0 && 4 * a >= 3 * |rs|)
      && db.resultados == old(db.resultados) + [Resultado(usuario, if sessao.Value? then sessao else Null,
                                                          r.value.pontuacao, r.value.aprovado, |rs|, a, None, agora)]
  {
    if respostas.None? {
      return Fail(BadRequest, "Formato de resposta inválido");
    }
    var rs := respostas.value;
    var acertos, detalhes := ScoreAnswers(perguntas, rs);
    if |rs| == 0 {
      // INSERT ... pontuacao = NaN: refused, caught, 500
      return Fail(ServerError, MsgProcessar);
    }
    var pontuacao := Percentagem(acertos, |rs|);
    var aprovado := AtLeast75(pontuacao);
    UnroundedPassRule(acertos, |rs|);
    var sessaoId := if sessao.Value? then sessao else Null;
    db.resultados := db.resultados + [Resultado(usuario, sessaoId, pontuacao, aprovado, |rs|, acertos, None, agora)];
    r := Ok(Report(aprovado, acertos, |rs|, pontuacao));
  }

  // ---- GET /teste/perguntas ----

  /** A question as sent to the participant: no right answer. `opcoes` is `None` for a
      null `opcoes_json`. */
  datatype Publica = Publica(id: int, pergunta: string, opcoes: Option<LearningController.Opcoes>, dificuldade: string)

  const MsgCarregar := "Erro ao carregar teste"

  /** `opcoes_json` as sent: parsed when it is text; `None` for a parse failure, which
      makes the route answer 500. */
  function OpcoesPublicas(json: Option<string>, parse: string -> Option<LearningController.Opcoes>)
    : (r: Outcome<Option<LearningController.Opcoes>>)
    ensures json.None? ==> r == Ok(None)
    ensures json.Some? && parse(json.value).Some? ==> r == Ok(Some(parse(json.value).value))
    ensures json.Some? && parse(json.value).None? ==> r == Fail(ServerError, MsgCarregar)
  {
    match json
    case None => Ok(None)
    case Some(text) =>
      match parse(text)
      case Some(o) => Ok(Some(o))
      case None => Fail(ServerError, MsgCarregar)
  }

  /** The public form of a question whose options parse. */
  function Publicada(q: Pergunta, parse: string -> Option<LearningController.Opcoes>): Publica
    requires OpcoesPublicas(q.opcoes, parse).Ok?
  {
    Publica(q.id, q.pergunta, OpcoesPublicas(q.opcoes, parse).value, q.dificuldade)
  }

  /** `ORDER BY RAND() LIMIT 10` over the active questions, then the projection. The
      random order is the input `draw`, a permutation of the active questions' positions,
      so no question is drawn twice. */
  function PerguntasTeste(perguntas: seq<Pergunta>, draw: seq<nat>, parse: string -> Option<LearningController.Opcoes>)
    : (r: Outcome<seq<Publica>>)
    requires |draw| == |LearningController.ActivePerguntas(perguntas)|
    requires forall i :: 0 <= i < |draw| ==> draw[i] < |draw|
    requires forall i, j :: 0 <= i < j < |draw| ==> draw[i] != draw[j]
    ensures var ativas := LearningController.ActivePerguntas(perguntas);
            r.Fail? <==> exists i :: 0 <= i < Min(10, |draw|) && OpcoesPublicas(ativas[draw[i]].opcoes, parse).Fail?
    ensures r.Fail? ==> r == Fail(ServerError, MsgCarregar)
    ensures r.Ok? ==> |r.value| == Min(10, |draw|)
    ensures r.Ok? ==> forall i :: 0 <= i < |r.value| ==>
                        var q := LearningController.ActivePerguntas(perguntas)[draw[i]];
                        && q.ativa && q in perguntas
                        && OpcoesPublicas(q.opcoes, parse).Ok?
                        && r.value[i] == Publicada(q, parse)
  {
    var ativas := LearningController.ActivePerguntas(perguntas);
    var picks := draw[..Min(10, |draw|)];
    Project(ativas, picks, parse)
  }

  /** The projection of the drawn positions: one public question per pick, in the order
      drawn, failing as soon as one question's options do not parse. */
  function Project(ativas: seq<Pergunta>, picks: seq<nat>, parse: string -> Option<LearningController.Opcoes>)
    : (r: Outcome<seq<Publica>>)
    requires forall i :: 0 <= i < |picks| ==> picks[i] < |ativas|
    ensures r.Fail? <==> exists i :: 0 <= i < |picks| && OpcoesPublicas(ativas[picks[i]].opcoes, parse).Fail?
    ensures r.Fail? ==> r == Fail(ServerError, MsgCarregar)
    ensures r.Ok? ==> |r.value| == |picks|
    ensures r.Ok? ==> forall i :: 0 <= i < |picks| ==>
                        OpcoesPublicas(ativas[picks[i]].opcoes, parse).Ok?
                        && r.value[i] == Publicada(ativas[picks[i]], parse)
  {
    if picks == [] then Ok([])
    else
      var init := picks[..|picks| - 1];
      var q := ativas[picks[|picks| - 1]];
      assert forall i :: 0 <= i < |init| ==> init[i] == picks[i];
      match Project(ativas, init, parse)
      case Fail(status, message) => Fail(status, message)
      case Ok(feitas) =>
        match OpcoesPublicas(q.opcoes, parse)
        case Fail(status, message) => Fail(status, message)
        case Ok(opcoes) => Ok(feitas + [Publica(q.id, q.pergunta, opcoes, q.dificuldade)])
  }

  // ---- POST /progresso ----

  /** `POST /progresso`: the (usuario, modulo) row is inserted or replaced, with
      `concluido` defaulting to true and `progresso` to 100 when not sent. */
  method RegistarProgresso(db: Tables, usuario: int, modulo: int, concluido: Field<bool>, progresso: Field<int>)
    modifies db
    ensures db.progresso == old(db.progresso)[(usuario, modulo) := ProgressRow(Bound(Default(concluido, true)),
                                                                            Bound(Default(progresso, 100)))]
    ensures Concluido(db.progresso, usuario, modulo) <==> concluido.Undefined? || concluido == Value(true)
    ensures db.resultados == old(db.resultados)
  {
    db.progresso := db.progresso[(usuario, modulo) := ProgressRow(Bound(Default(concluido, true)),
                                                                  Bound(Default(progresso, 100)))];
  }

  /** Marking a module through this route with the defaults makes it count as
      completed in the controller's module list. */
  lemma DefaultProgressCompletes(progresso: map<(int, int), ProgressRow>, usuario: int, modulos: seq<Modulo>, m: Modulo)
    requires m in modulos && m.ativo
    ensures Concluidos(progresso[(usuario, m.id) := ProgressRow(Some(true), Some(100))], usuario, modulos) > 0
  {
    var p := progresso[(usuario, m.id) := ProgressRow(Some(true), Some(100))];
    var ativos := Active(modulos);
    assert m in ativos;
    var i :| 0 <= i < |ativos| && ativos[i] == m;
    CountWherePositive(ativos, (x: Modulo) => Concluido(p, usuario, x.id));
  }
}
