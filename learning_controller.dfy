/** The learning controller: the module list with the user's progress, the module
    progress upsert, the test questions grouped by module, the scored test
    submission (rounded percentage, pass at 75) and the latest test result. */
module LearningController {
  import opened Base
  import opened JsModel
  import opened LearningTables
  import Text
  import Numbers
  import Sorting
  import Helpers

  // ---- module progress percentages ----

  /** `total > 0 ? Math.round(concluidos / total * 100) : 0`, written three times in
      the controller; on counts it is `calcularProgresso`. */
  function ModulePercent(concluidos: nat, total: nat): (r: int)
    ensures r == Helpers.CalcularProgresso(concluidos, total)
    ensures concluidos <= total ==> 0 <= r <= 100
    ensures total == 0 ==> r == 0
  {
    if total == 0 then 0
    else if concluidos <= total then
      Numbers.RoundPercentInRange(concluidos, total);
      Numbers.RoundPercent(concluidos, total)
    else Numbers.RoundPercent(concluidos, total)
  }

  datatype ModuloView = ModuloView(modulo: Modulo, concluido: bool)
  datatype Progresso = Progresso(total: nat, concluidos: nat, percentual: int)
  datatype ModulesPage = ModulesPage(modulos: seq<ModuloView>, progresso: Progresso)

  /** `ORDER BY m.ordem, m.id`. */
  predicate ModuleOrder(x: ModuloView, y: ModuloView)
  {
    x.modulo.ordem < y.modulo.ordem || (x.modulo.ordem == y.modulo.ordem && x.modulo.id <= y.modulo.id)
  }

  predicate Done(v: ModuloView) { v.concluido }

  /** The rows of the `LEFT JOIN`: each active module with `COALESCE(p.concluido, FALSE)`. */
  function Views(progresso: map<(int, int), ProgressRow>, usuario: int, ms: seq<Modulo>): (r: seq<ModuloView>)
    ensures |r| == |ms|
    ensures forall i :: 0 <= i < |ms| ==> r[i].modulo == ms[i]
    ensures CountWhere(r, Done) == CountWhere(ms, (m: Modulo) => Concluido(progresso, usuario, m.id))
  {
    if ms == [] then []
    else
      var init := ms[..|ms| - 1];
      var last := ms[|ms| - 1];
      var r := Views(progresso, usuario, init) + [ModuloView(last, Concluido(progresso, usuario, last.id))];
      assert r[..|r| - 1] == Views(progresso, usuario, init);
      r
  }

  /** `getModules`: the active modules in order with the user's completion flag, and
      the counts and percentage of completed ones. */
  function GetModules(db: Tables, usuario: int, modulos: seq<Modulo>): (r: ModulesPage)
    reads db
    ensures multiset(r.modulos) == multiset(Views(db.progresso, usuario, Active(modulos)))
    ensures r.progresso.total == |Active(modulos)|
    ensures r.progresso.concluidos == Concluidos(db.progresso, usuario, modulos)
    ensures r.progresso.percentual == ModulePercent(r.progresso.concluidos, r.progresso.total)
    ensures 0 <= r.progresso.percentual <= 100
  {
    var linhas := Views(db.progresso, usuario, Active(modulos));
    var ordenadas := Sorting.SortBy(linhas, ModuleOrder);
    CountWherePermutation(ordenadas, linhas, Done);
    var total := |ordenadas|;
    var concluidos := CountWhere(ordenadas, Done);
    ModulesPage(ordenadas, Progresso(total, concluidos, ModulePercent(concluidos, total)))
  }

  /** The module list is in `ordem`, then `id`, order. */
  lemma GetModulesOrdered(db: Tables, usuario: int, modulos: seq<Modulo>)
    ensures Sorting.SortedBy(GetModules(db, usuario, modulos).modulos, ModuleOrder)
  {
    Sorting.SortBySorted(Views(db.progresso, usuario, Active(modulos)), ModuleOrder);
  }

  // ---- updateModuleProgress ----

  datatype ProgressUpdate = ProgressUpdate(moduloId: int, concluido: bool, totalModulos: nat,
                                           concluidos: nat, percentual: int)

  /** `updateModuleProgress`: 404 unless `id` names an active module; otherwise the
      (usuario, id) row is inserted or its `concluido` replaced by `body.concluido === true`,
      and the new totals are reported. */
  method UpdateModuleProgress(db: Tables, usuario: int, id: int, concluido: JsValue, modulos: seq<Modulo>)
    returns (r: Outcome<ProgressUpdate>)
    modifies db
    ensures r.Fail? <==> (forall m :: m in modulos && m.id == id ==> !m.ativo)
    ensures r.Fail? ==> r == Fail(NotFound, "Módulo não encontrado") && db.progresso == old(db.progresso)
    ensures r.Ok? ==> db.progresso.Keys == old(db.progresso).Keys + {(usuario, id)}
    ensures r.Ok? ==> forall k :: k in old(db.progresso) && k != (usuario, id) ==> db.progresso[k] == old(db.progresso)[k]
    ensures r.Ok? ==> (Concluido(db.progresso, usuario, id) <==> concluido == JBool(true))
    ensures r.Ok? ==> db.progresso[(usuario, id)].progresso ==
                      (if (usuario, id) in old(db.progresso) then old(db.progresso)[(usuario, id)].progresso else None)
    ensures r.Ok? ==> r.value == ProgressUpdate(id, concluido == JBool(true), |Active(modulos)|,
                                                Concluidos(db.progresso, usuario, modulos),
                                                ModulePercent(Concluidos(db.progresso, usuario, modulos), |Active(modulos)|))
    ensures db.resultados == old(db.resultados)
  {
    if forall m :: m in modulos && m.id == id ==> !m.ativo {
      return Fail(NotFound, "Módulo não encontrado");
    }
    var feito := concluido == JBool(true);
    var progressoAntes := if (usuario, id) in db.progresso then db.progresso[(usuario, id)].progresso else None;
    db.progresso := db.progresso[(usuario, id) := ProgressRow(Some(feito), progressoAntes)];
    var total := |Active(modulos)|;
    var concluidos := Concluidos(db.progresso, usuario, modulos);
    r := Ok(ProgressUpdate(id, feito, total, concluidos, ModulePercent(concluidos, total)));
  }

  // ---- getTestQuestions ----

  /** The options of a question as a JSON object: (letter, text) pairs. */
  type Opcoes = seq<(string, string)>

  function FourOptions(text: string): (o: Opcoes)
  {
    [("a", text), ("b", text), ("c", text), ("d", text)]
  }

  datatype Processada = Processada(id: int, pergunta: string, modulo: string, opcoes: Opcoes,
                                   respostaCorreta: string, explicacao: string)

  /** The options of a question: four 'Não definido' when `opcoes_json` is empty, the
      parsed JSON otherwise, and four 'Erro' when parsing fails (`parse` stands for
      `JSON.parse`, `None` for a throw). */
  function OpcoesOf(json: Option<string>, parse: string -> Option<Opcoes>): (o: Opcoes)
    ensures json.None? || json == Some("") ==> o == FourOptions("Não definido")
    ensures json.Some? && json.value != "" && parse(json.value).Some? ==> o == parse(json.value).value
    ensures json.Some? && json.value != "" && parse(json.value).None? ==> o == FourOptions("Erro")
  {
    match json
    case None => FourOptions("Não definido")
    case Some(text) =>
      if text == "" then FourOptions("Não definido")
      else match parse(text)
        case Some(o) => o
        case None => FourOptions("Erro")
  }

  function Processar(p: Pergunta, parse: string -> Option<Opcoes>): Processada
  {
    Processada(p.id, p.pergunta, p.modulo, OpcoesOf(p.opcoes, parse), p.respostaCorreta,
               match p.explicacao case Some(e) => e case None => "")
  }

  function ModuloOf(q: Processada): string { q.modulo }

  function ActivePerguntas(perguntas: seq<Pergunta>): (r: seq<Pergunta>)
    ensures forall q :: q in r <==> q in perguntas && q.ativa
  {
    if perguntas == [] then []
    else
      var init := perguntas[..|perguntas| - 1];
      var last := perguntas[|perguntas| - 1];
      assert perguntas == init + [last];
      ActivePerguntas(init) + (if last.ativa then [last] else [])
  }

  /** `ORDER BY modulo, id ASC`, the module name under the table's case-insensitive
      collation. */
  predicate PerguntaOrder(x: Pergunta, y: Pergunta)
  {
    Text.CollateLe(x.modulo, y.modulo) && (Text.CollateLe(y.modulo, x.modulo) ==> x.id <= y.id)
  }

  lemma PerguntaOrderPreorder(s: seq<Pergunta>)
    ensures Sorting.PreorderOn(s, PerguntaOrder)
  {
    forall x, y | x in s && y in s
      ensures PerguntaOrder(x, y) || PerguntaOrder(y, x)
    {
      Text.TextLeTotal(Text.ToLower(x.modulo), Text.ToLower(y.modulo));
    }
    forall x, y, z | x in s && y in s && z in s && PerguntaOrder(x, y) && PerguntaOrder(y, z)
      ensures PerguntaOrder(x, z)
    {
      var lx, ly, lz := Text.ToLower(x.modulo), Text.ToLower(y.modulo), Text.ToLower(z.modulo);
      Text.TextLeTransitive(lx, ly, lz);
      if Text.TextLe(lz, lx) {
        Text.TextLeTransitive(lz, lx, ly);
        Text.TextLeTransitive(ly, lz, lx);
      }
    }
  }

  /** The active questions in the query's order: a sorted permutation of them. */
  function OrdemTeste(perguntas: seq<Pergunta>): (r: seq<Pergunta>)
    ensures multiset(r) == multiset(ActivePerguntas(perguntas))
    ensures Sorting.SortedBy(r, PerguntaOrder)
  {
    var ativas := ActivePerguntas(perguntas);
    PerguntaOrderPreorder(ativas);
    Sorting.SortBySorted(ativas, PerguntaOrder);
    Sorting.SortBy(ativas, PerguntaOrder)
  }

  /** `getTestQuestions`: every active question processed, in the query's order (module,
      then id), and the same questions grouped by module. */
  method GetTestQuestions(perguntas: seq<Pergunta>, parse: string -> Option<Opcoes>)
    returns (processadas: seq<Processada>, porModulo: map<string, seq<Processada>>, total: nat)
    ensures total == |processadas| == |ActivePerguntas(perguntas)|
    ensures forall i :: 0 <= i < total ==> processadas[i] == Processar(OrdemTeste(perguntas)[i], parse)
    ensures forall q :: q in ActivePerguntas(perguntas) ==> Processar(q, parse) in processadas
    ensures forall i, j :: 0 <= i < j < total ==>
              Text.CollateLe(processadas[i].modulo, processadas[j].modulo)
              && (Text.CollateLe(processadas[j].modulo, processadas[i].modulo) ==> processadas[i].id <= processadas[j].id)
    ensures forall k :: k in porModulo <==> exists q :: q in processadas && q.modulo == k
    ensures forall k :: k in porModulo ==> porModulo[k] == Helpers.Group(processadas, ModuloOf, k)
  {
    var ordenadas := OrdemTeste(perguntas);
    processadas := seq(|ordenadas|, i requires 0 <= i < |ordenadas| => Processar(ordenadas[i], parse));
    ProcessadasCobrem(ActivePerguntas(perguntas), ordenadas, processadas, parse);
    ProcessadasOrdenadas(ordenadas, processadas, parse);
    porModulo := Helpers.AgruparPor(processadas, ModuloOf);
    forall k ensures k in porModulo <==> exists q :: q in processadas && q.modulo == k {
      if k in porModulo {
        var q :| q in processadas && ModuloOf(q) == k;
        assert q.modulo == k;
      }
      if exists q :: q in processadas && q.modulo == k {
        var q :| q in processadas && q.modulo == k;
        assert ModuloOf(q) == k;
      }
    }
    total := |processadas|;
  }

  /** Processing a permutation of the active questions processes each of them. */
  lemma ProcessadasCobrem(ativas: seq<Pergunta>, ordenadas: seq<Pergunta>, processadas: seq<Processada>,
                          parse: string -> Option<Opcoes>)
    requires multiset(ordenadas) == multiset(ativas)
    requires |processadas| == |ordenadas|
    requires forall i :: 0 <= i < |ordenadas| ==> processadas[i] == Processar(ordenadas[i], parse)
    ensures forall q :: q in ativas ==> Processar(q, parse) in processadas
  {
    forall q | q in ativas ensures Processar(q, parse) in processadas {
      assert q in multiset(ordenadas);
      var i :| 0 <= i < |ordenadas| && ordenadas[i] == q;
      assert processadas[i] == Processar(q, parse);
    }
  }

  /** Processing keeps module and id, so it keeps the query's order. */
  lemma ProcessadasOrdenadas(ordenadas: seq<Pergunta>, processadas: seq<Processada>, parse: string -> Option<Opcoes>)
    requires Sorting.SortedBy(ordenadas, PerguntaOrder)
    requires |processadas| == |ordenadas|
    requires forall i :: 0 <= i < |ordenadas| ==> processadas[i] == Processar(ordenadas[i], parse)
    ensures forall i, j :: 0 <= i < j < |processadas| ==>
              Text.CollateLe(processadas[i].modulo, processadas[j].modulo)
              && (Text.CollateLe(processadas[j].modulo, processadas[i].modulo) ==> processadas[i].id <= processadas[j].id)
  {
    forall i, j | 0 <= i < j < |processadas|
      ensures Text.CollateLe(processadas[i].modulo, processadas[j].modulo)
              && (Text.CollateLe(processadas[j].modulo, processadas[i].modulo) ==> processadas[i].id <= processadas[j].id)
    {
      assert PerguntaOrder(ordenadas[i], ordenadas[j]);
    }
  }

  /** A question appears in its own module's group and in no other. */
  lemma GroupedByOwnModule(processadas: seq<Processada>, q: Processada, k: string)
    requires q in processadas
    ensures q in Helpers.Group(processadas, ModuloOf, q.modulo)
    ensures k != q.modulo ==> q !in Helpers.Group(processadas, ModuloOf, k)
  {
    var i :| 0 <= i < |processadas| && processadas[i] == q;
    assert ModuloOf(processadas[i]) == q.modulo;
  }

  // ---- submitTest ----

  /** The answers sent, keyed by question id. */
  type Respostas = map<int, string>

  predicate Correct(q: Pergunta, respostas: Respostas)
  {
    q.id in respostas && respostas[q.id] == q.respostaCorreta
  }

  /** Number of questions answered exactly right. */
  function Acertos(qs: seq<Pergunta>, respostas: Respostas): (n: nat)
    ensures n <= |qs|
  {
    if qs == [] then 0
    else Acertos(qs[..|qs| - 1], respostas) + (if Correct(qs[|qs| - 1], respostas) then 1 else 0)
  }

  /** Full marks exactly when every question is answered right. */
  lemma {:induction false} FullMarks(qs: seq<Pergunta>, respostas: Respostas)
    ensures Acertos(qs, respostas) == |qs| <==> forall i :: 0 <= i < |qs| ==> Correct(qs[i], respostas)
  {
    if qs != [] {
      var init := qs[..|qs| - 1];
      FullMarks(init, respostas);
      assert forall i :: 0 <= i < |init| ==> init[i] == qs[i];
    }
  }

  function DetalheOf(q: Pergunta, respostas: Respostas): Detalhe
  {
    Detalhe(q.id, if q.id in respostas then Some(respostas[q.id]) else None,
            q.respostaCorreta, q.modulo, Correct(q, respostas))
  }

  /** Answers to ids that are not among the questions change nothing. */
  lemma {:induction false} UnknownAnswersIgnored(qs: seq<Pergunta>, respostas: Respostas, id: int, resposta: string)
    requires forall i :: 0 <= i < |qs| ==> qs[i].id != id
    ensures Acertos(qs, respostas[id := resposta]) == Acertos(qs, respostas)
    ensures forall i :: 0 <= i < |qs| ==> DetalheOf(qs[i], respostas[id := resposta]) == DetalheOf(qs[i], respostas)
  {
    if qs != [] {
      var init := qs[..|qs| - 1];
      UnknownAnswersIgnored(init, respostas, id, resposta);
      assert Correct(qs[|qs| - 1], respostas[id := resposta]) == Correct(qs[|qs| - 1], respostas);
    }
  }

  /** Per-module statistics: questions and right answers. */
  datatype Tally = Tally(total: nat, acertos: nat)

  function TotalOf(t: Tally): nat { t.total }
  function AcertosOf(t: Tally): nat { t.acertos }

  /** One question's effect on `desempenhoPorModulo`: its module's entry is created
      if needed and its counters bumped. */
  function Bump(t: map<string, Tally>, m: string, correta: bool): (r: map<string, Tally>)
  {
    var antes := if m in t then t[m] else Tally(0, 0);
    t[m := Tally(antes.total + 1, antes.acertos + if correta then 1 else 0)]
  }

  /** The update as the loop writes it: a missing module starts at zero, then both
      counters move. */
  lemma BumpAsWritten(t: map<string, Tally>, m: string, correta: bool)
    ensures var t1 := if m in t then t else t[m := Tally(0, 0)];
            t1[m := Tally(t1[m].total + 1, t1[m].acertos + if correta then 1 else 0)] == Bump(t, m, correta)
  {
  }

  /** A key appended to the insertion order unless already present. */
  function AddKey(o: seq<string>, m: string): seq<string>
  {
    if m in o then o else o + [m]
  }

  /** The `desempenhoPorModulo` object after the given questions. */
  function TallyOf(qs: seq<Pergunta>, respostas: Respostas): map<string, Tally>
  {
    if qs == [] then map[]
    else Bump(TallyOf(qs[..|qs| - 1], respostas), qs[|qs| - 1].modulo, Correct(qs[|qs| - 1], respostas))
  }

  /** The keys of `desempenhoPorModulo` in insertion order: modules by first appearance. */
  function ModuleKeys(qs: seq<Pergunta>): seq<string>
  {
    if qs == [] then [] else AddKey(ModuleKeys(qs[..|qs| - 1]), qs[|qs| - 1].modulo)
  }

  /** The key order lists each module of the questions exactly once. */
  lemma {:induction false} KeysShape(qs: seq<Pergunta>)
    ensures forall m :: m in ModuleKeys(qs) <==> exists i :: 0 <= i < |qs| && qs[i].modulo == m
    ensures forall i, j :: 0 <= i < j < |ModuleKeys(qs)| ==> ModuleKeys(qs)[i] != ModuleKeys(qs)[j]
  {
    if qs != [] {
      var init := qs[..|qs| - 1];
      KeysShape(init);
      var m := qs[|qs| - 1].modulo;
      forall k | k in ModuleKeys(qs)
        ensures exists i :: 0 <= i < |qs| && qs[i].modulo == k
      {
        if k != m {
          var i :| 0 <= i < |init| && init[i].modulo == k;
          assert qs[i].modulo == k;
        }
      }
      forall k | exists i :: 0 <= i < |qs| && qs[i].modulo == k
        ensures k in ModuleKeys(qs)
      {
        var i :| 0 <= i < |qs| && qs[i].modulo == k;
        if i < |init| {
          assert init[i].modulo == k;
        }
      }
    }
  }

  /** The statistics have an entry exactly for each key of the key order, and every
      entry counts at least one question and at most as many right answers as questions. */
  lemma {:induction false} TallyShape(qs: seq<Pergunta>, respostas: Respostas)
    ensures forall m :: m in TallyOf(qs, respostas) <==> m in ModuleKeys(qs)
    ensures forall m :: m in TallyOf(qs, respostas) ==>
              1 <= TallyOf(qs, respostas)[m].total && TallyOf(qs, respostas)[m].acertos <= TallyOf(qs, respostas)[m].total
  {
    if qs != [] {
      TallyShape(qs[..|qs| - 1], respostas);
    }
  }

  /** One more question: how the right answers, the statistics and the key order of
      a prefix grow. */
  lemma PrefixStep(qs: seq<Pergunta>, i: nat, respostas: Respostas)
    requires i < |qs|
    ensures Acertos(qs[..i + 1], respostas) == Acertos(qs[..i], respostas) + if Correct(qs[i], respostas) then 1 else 0
    ensures TallyOf(qs[..i + 1], respostas) == Bump(TallyOf(qs[..i], respostas), qs[i].modulo, Correct(qs[i], respostas))
    ensures ModuleKeys(qs[..i + 1]) == AddKey(ModuleKeys(qs[..i]), qs[i].modulo)
    ensures forall m :: m in TallyOf(qs[..i], respostas) <==> m in ModuleKeys(qs[..i])
  {
    assert qs[..i + 1][..i] == qs[..i];
    TallyShape(qs[..i], respostas);
  }

  /** Sum of one statistic over the given keys. */
  function Sum(keys: seq<string>, t: map<string, Tally>, f: Tally -> nat): nat
    requires forall k :: k in keys ==> k in t
  {
    if keys == [] then 0 else Sum(keys[..|keys| - 1], t, f) + f(t[keys[|keys| - 1]])
  }

  lemma {:induction false} SumUpdate(keys: seq<string>, t: map<string, Tally>, k: string, v: Tally, f: Tally -> nat)
    requires forall x :: x in keys ==> x in t
    requires forall i, j :: 0 <= i < j < |keys| ==> keys[i] != keys[j]
    ensures k !in keys ==> Sum(keys, t[k := v], f) == Sum(keys, t, f)
    ensures k in keys ==> Sum(keys, t[k := v], f) + f(t[k]) == Sum(keys, t, f) + f(v)
  {
    if keys != [] {
      var init := keys[..|keys| - 1];
      var last := keys[|keys| - 1];
      assert forall x :: x in init ==> x in keys;
      SumUpdate(init, t, k, v, f);
      if k == last {
        assert k !in init by {
          forall i | 0 <= i < |init| ensures init[i] != k { assert keys[i] != keys[|keys| - 1]; }
        }
      }
    }
  }

  /** Bumping one module adds one to the total and the right answer, if any, to the
      right answers summed over the key order. */
  lemma BumpSums(o: seq<string>, t: map<string, Tally>, m: string, correta: bool)
    requires forall k :: k in t <==> k in o
    requires forall i, j :: 0 <= i < j < |o| ==> o[i] != o[j]
    ensures forall k :: k in AddKey(o, m) ==> k in Bump(t, m, correta)
    ensures Sum(AddKey(o, m), Bump(t, m, correta), TotalOf) == Sum(o, t, TotalOf) + 1
    ensures Sum(AddKey(o, m), Bump(t, m, correta), AcertosOf) == Sum(o, t, AcertosOf) + if correta then 1 else 0
  {
    var b := Bump(t, m, correta);
    SumUpdate(o, t, m, b[m], TotalOf);
    SumUpdate(o, t, m, b[m], AcertosOf);
    if m !in o {
      var o2 := o + [m];
      assert o2[..|o2| - 1] == o;
      assert Sum(o2, b, TotalOf) == Sum(o, b, TotalOf) + b[m].total;
      assert Sum(o2, b, AcertosOf) == Sum(o, b, AcertosOf) + b[m].acertos;
    }
  }

  /** The per-module totals add up to the number of questions, and the per-module
      right answers to the right answers. */
  lemma {:induction false} TallySums(qs: seq<Pergunta>, respostas: Respostas)
    ensures forall m :: m in ModuleKeys(qs) ==> m in TallyOf(qs, respostas)
    ensures Sum(ModuleKeys(qs), TallyOf(qs, respostas), TotalOf) == |qs|
    ensures Sum(ModuleKeys(qs), TallyOf(qs, respostas), AcertosOf) == Acertos(qs, respostas)
  {
    TallyShape(qs, respostas);
    if qs != [] {
      var n := |qs| - 1;
      assert qs[..n + 1] == qs;
      KeysShape(qs[..n]);
      PrefixStep(qs, n, respostas);
      TallySums(qs[..n], respostas);
      BumpSums(ModuleKeys(qs[..n]), TallyOf(qs[..n], respostas), qs[n].modulo, Correct(qs[n], respostas));
    }
  }

  /** The `forEach` over the active questions: right answers, one detail per question
      in order, and the per-module statistics with their insertion order. */
  method Score(qs: seq<Pergunta>, respostas: Respostas)
    returns (acertos: nat, detalhes: seq<Detalhe>, porModulo: map<string, Tally>, ordem: seq<string>)
    ensures acertos == Acertos(qs, respostas)
    ensures |detalhes| == |qs| && forall i :: 0 <= i < |qs| ==> detalhes[i] == DetalheOf(qs[i], respostas)
    ensures porModulo == TallyOf(qs, respostas) && ordem == ModuleKeys(qs)
  {
    acertos, detalhes, porModulo, ordem := 0, [], map[], [];
    var i := 0;
    ghost var feitas: seq<Pergunta> := [];
    while i < |qs|
      invariant 0 <= i <= |qs| && feitas == qs[..i]
      invariant acertos == Acertos(feitas, respostas)
      invariant |detalhes| == i && forall j :: 0 <= j < i ==> detalhes[j] == DetalheOf(qs[j], respostas)
      invariant porModulo == TallyOf(feitas, respostas) && ordem == ModuleKeys(feitas)
    {
      var q := qs[i];
      SnocStep(feitas, q, respostas);
      var respostaUsuario := if q.id in respostas then Some(respostas[q.id]) else None;
      var correta := respostaUsuario == Some(q.respostaCorreta);
      assert correta == Correct(q, respostas);
      if correta {
        acertos := acertos + 1;
      }
      ghost var antes := porModulo;
      if q.modulo !in porModulo {
        porModulo := porModulo[q.modulo := Tally(0, 0)];
        ordem := ordem + [q.modulo];
      }
      porModulo := porModulo[q.modulo := Tally(porModulo[q.modulo].total + 1,
                                               porModulo[q.modulo].acertos + if correta then 1 else 0)];
      BumpAsWritten(antes, q.modulo, correta);
      ghost var d0 := detalhes;
      detalhes := detalhes + [Detalhe(q.id, respostaUsuario, q.respostaCorreta, q.modulo, correta)];
      assert forall j :: 0 <= j < i ==> detalhes[j] == d0[j];
      assert detalhes[i] == DetalheOf(q, respostas);
      assert qs[..i + 1] == feitas + [q];
      feitas := feitas + [q];
      i := i + 1;
    }
    assert qs[..|qs|] == qs;
  }

  /** One more question after `feitas`: how the right answers, the statistics and the
      key order grow. */
  lemma SnocStep(feitas: seq<Pergunta>, q: Pergunta, respostas: Respostas)
    ensures Acertos(feitas + [q], respostas) == Acertos(feitas, respostas) + if Correct(q, respostas) then 1 else 0
    ensures TallyOf(feitas + [q], respostas) == Bump(TallyOf(feitas, respostas), q.modulo, Correct(q, respostas))
    ensures ModuleKeys(feitas + [q]) == AddKey(ModuleKeys(feitas), q.modulo)
    ensures forall m :: m in TallyOf(feitas, respostas) <==> m in ModuleKeys(feitas)
  {
    assert (feitas + [q])[..|feitas|] == feitas;
    TallyShape(feitas, respostas);
  }

  datatype Desempenho = Desempenho(modulo: string, total: nat, acertos: nat, desempenho: int)

  /** `Object.entries(desempenhoPorModulo).map(...)`, each module's percentage rounded. */
  function DesempenhoOf(ordem: seq<string>, t: map<string, Tally>): (r: seq<Desempenho>)
    requires forall m :: m in ordem ==> m in t && 1 <= t[m].total && t[m].acertos <= t[m].total
    ensures |r| == |ordem|
    ensures forall i :: 0 <= i < |ordem| ==> r[i].modulo == ordem[i] && 0 <= r[i].desempenho <= 100
  {
    if ordem == [] then []
    else
      var m := ordem[|ordem| - 1];
      Numbers.RoundPercentInRange(t[m].acertos, t[m].total);
      DesempenhoOf(ordem[..|ordem| - 1], t)
        + [Desempenho(m, t[m].total, t[m].acertos, Numbers.RoundPercent(t[m].acertos, t[m].total))]
  }

  /** The `desempenho` list of the given questions. */
  function DesempenhoTable(qs: seq<Pergunta>, respostas: Respostas): (r: seq<Desempenho>)
    ensures |r| == |ModuleKeys(qs)|
    ensures forall i :: 0 <= i < |r| ==> r[i].modulo == ModuleKeys(qs)[i] && 0 <= r[i].desempenho <= 100
  {
    TallyShape(qs, respostas);
    DesempenhoOf(ModuleKeys(qs), TallyOf(qs, respostas))
  }

  /** `aprovado`: the rounded percentage is at least 75. */
  predicate Aprovado(acertos: nat, total: nat)
    requires total > 0
  {
    Numbers.RoundPercent(acertos, total) >= 75
  }

  /** The rounded pass rule in integers: 200 * acertos >= 149 * total. */
  lemma RoundedPassRule(acertos: nat, total: nat)
    requires total > 0
    ensures Aprovado(acertos, total) <==> 200 * acertos >= 149 * total
  {
    var r := Numbers.RoundPercent(acertos, total);
    assert 2 * total * r == 2 * (total * r);
    if r >= 75 {
      Numbers.PositiveFactorMonotone(total, 75, r);
    } else {
      Numbers.PositiveFactorMonotone(total, r, 74);
    }
  }

  /** 3 of 4 passes, and so does 38 of 51 (74.5 rounds to 75). */
  lemma RoundedExamples()
    ensures Aprovado(3, 4) && Numbers.RoundPercent(3, 4) == 75
    ensures Aprovado(38, 51) && Numbers.RoundPercent(38, 51) == 75
    ensures !Aprovado(37, 50)
  {
    RoundedPassRule(3, 4);
    RoundedPassRule(38, 51);
    RoundedPassRule(37, 50);
  }

  datatype TestReport = TestReport(aprovado: bool, pontuacao: int, acertos: nat, total: nat,
                                   detalhes: seq<Detalhe>, desempenho: seq<Desempenho>, message: string)

  function ReportMessage(aprovado: bool, acertos: nat, total: nat): string
  {
    if aprovado then "Parabéns! Você foi aprovado e pode participar da votação."
    else "Você acertou " + Text.NatToDecimal(acertos) + " de " + Text.NatToDecimal(total)
         + ". É necessário 75% para aprovação."
  }

  /** `respostas` as sent: missing or another falsy value (`null`, `0`, `false`), a
      string that is handed to `JSON.parse`, or a value that is used as it is. */
  datatype RespostasIn = Falsy | Texto(text: string) | Valor(answers: Respostas)

  /** The result of `JSON.parse` on a string: a throw, `null`, or any other value, given
      by what indexing it with a question id yields (an object's or an array's entries,
      a string's characters, nothing at all for a number). */
  datatype Parsed = Malformed | ParsedNull | ParsedValue(answers: Respostas)

  /** `!respostas`: missing, falsy or the empty string. */
  predicate Ausente(respostas: RespostasIn)
  {
    respostas.Falsy? || respostas == Texto("")
  }

  /** `typeof respostas === 'string' ? JSON.parse(respostas) : respostas`. */
  function Lido(respostas: RespostasIn, parse: string -> Parsed): (p: Parsed)
    ensures respostas.Texto? ==> p == parse(respostas.text)
    ensures respostas.Valor? ==> p == ParsedValue(respostas.answers)
    ensures respostas.Falsy? ==> p == ParsedNull
  {
    match respostas
    case Falsy => ParsedNull
    case Texto(text) => parse(text)
    case Valor(answers) => ParsedValue(answers)
  }

  /** `submitTest`, inside `withTransaction`: 400 without answers (any falsy
      `respostas`); a string is then parsed, and text that does not parse throws
      (500); 400 without active questions; answers that parsed to `null` throw a
      TypeError at the first lookup (500). Otherwise the answers are scored against
      every active question and one result row is appended. Every failure throws
      before any write, so the rollback leaves the tables as they were. */
  method SubmitTest(db: Tables, usuario: int, respostas: RespostasIn, parse: string -> Parsed,
                    sessao: Field<int>, perguntas: seq<Pergunta>, agora: int)
    returns (r: Outcome<TestReport>)
    modifies db
    ensures Ausente(respostas) ==> r == Fail(BadRequest, "Respostas são obrigatórias")
    ensures !Ausente(respostas) && Lido(respostas, parse).Malformed? ==> r.Fail? && r.status == ServerError
    ensures !Ausente(respostas) && !Lido(respostas, parse).Malformed? && ActivePerguntas(perguntas) == [] ==>
              r == Fail(BadRequest, "Nenhuma pergunta encontrada")
    ensures !Ausente(respostas) && Lido(respostas, parse).ParsedNull? && ActivePerguntas(perguntas) != [] ==>
              r.Fail? && r.status == ServerError
    ensures r.Ok? <==> !Ausente(respostas) && Lido(respostas, parse).ParsedValue? && ActivePerguntas(perguntas) != []
    ensures r.Fail? ==> db.resultados == old(db.resultados)
    ensures db.progresso == old(db.progresso)
    ensures r.Ok? ==>
      var qs := ActivePerguntas(perguntas);
      var answers := Lido(respostas, parse).answers;
      var a := Acertos(qs, answers);
      && r.value.total == |qs|
      && r.value.acertos == a
      && r.value.pontuacao == Numbers.RoundPercent(a, |qs|)
      && 0 <= r.value.pontuacao <= 100
      && (r.value.aprovado <==> Aprovado(a, |qs|))
      && |r.value.detalhes| == |qs|
      && (forall i :: 0 <= i < |qs| ==> r.value.detalhes[i] == DetalheOf(qs[i], answers))
      && r.value.desempenho == DesempenhoTable(qs, answers)
      && db.resultados == old(db.resultados) + [Resultado(usuario, Default(sessao, 1),
                                                          Rounded(r.value.pontuacao), r.value.aprovado, |qs|, a,
                                                          Some(r.value.detalhes), agora)]
  {
    if Ausente(respostas) {
      return Fail(BadRequest, "Respostas são obrigatórias");
    }
    var lido := Lido(respostas, parse);
    if lido.Malformed? {
      return Fail(ServerError, "SyntaxError");
    }
    var qs := ActivePerguntas(perguntas);
    if qs == [] {
      return Fail(BadRequest, "Nenhuma pergunta encontrada");
    }
    if lido.ParsedNull? {
      return Fail(ServerError, "TypeError");
    }
    var answers := lido.answers;
    var acertos, detalhes, porModulo, ordem := Score(qs, answers);
    TallyShape(qs, answers);
    var total := |qs|;
    Numbers.RoundPercentInRange(acertos, total);
    var pontuacao := Numbers.RoundPercent(acertos, total);
    var aprovado := pontuacao >= 75;
    var desempenho := DesempenhoOf(ordem, porModulo);
    var sessaoId := Default(sessao, 1);
    db.resultados := db.resultados + [Resultado(usuario, sessaoId, Rounded(pontuacao), aprovado, total, acertos,
                                                Some(detalhes), agora)];
    r := Ok(TestReport(aprovado, pontuacao, acertos, total, detalhes, desempenho,
                       ReportMessage(aprovado, acertos, total)));
  }

  // ---- getTestResult / getUserProgress ----

  /** `ORDER BY data_realizacao DESC LIMIT 1` over the user's results (among equal
      timestamps the model takes the one inserted last). */
  function LatestResult(rows: seq<Resultado>, usuario: int): (r: Option<Resultado>)
    ensures r.None? <==> forall i :: 0 <= i < |rows| ==> rows[i].usuario != usuario
    ensures r.Some? ==> r.value in rows && r.value.usuario == usuario
    ensures r.Some? ==> forall i :: 0 <= i < |rows| && rows[i].usuario == usuario ==>
                          rows[i].realizadoEm <= r.value.realizadoEm
  {
    if rows == [] then None
    else
      var init := rows[..|rows| - 1];
      var last := rows[|rows| - 1];
      assert forall i :: 0 <= i < |init| ==> init[i] == rows[i];
      var before := LatestResult(init, usuario);
      if last.usuario == usuario && (before.None? || before.value.realizadoEm <= last.realizadoEm)
      then Some(last)
      else before
  }

  /** `getTestResult`: the latest result of the user, `None` for "Nenhum teste realizado". */
  function GetTestResult(db: Tables, usuario: int): (r: Option<Resultado>)
    reads db
    ensures r.None? <==> forall x :: x in db.resultados ==> x.usuario != usuario
    ensures r.Some? ==> r.value in db.resultados && r.value.usuario == usuario
    ensures r.Some? ==> forall x :: x in db.resultados && x.usuario == usuario ==> x.realizadoEm <= r.value.realizadoEm
  {
    var r := LatestResult(db.resultados, usuario);
    assert r.Some? ==> forall x :: x in db.resultados && x.usuario == usuario ==> x.realizadoEm <= r.value.realizadoEm by {
      if r.Some? {
        forall x | x in db.resultados && x.usuario == usuario ensures x.realizadoEm <= r.value.realizadoEm {
          var i :| 0 <= i < |db.resultados| && db.resultados[i] == x;
        }
      }
    }
    r
  }

  datatype UserProgress = UserProgress(modulos: Progresso, teste: Option<Resultado>, aprovado: bool)

  /** `getUserProgress`: module counts and percentage, the latest result, and whether
      that result passed (false when there is none). */
  function GetUserProgress(db: Tables, usuario: int, modulos: seq<Modulo>): (r: UserProgress)
    reads db
    ensures r.modulos.total == |Active(modulos)| && r.modulos.concluidos <= r.modulos.total
    ensures r.modulos.concluidos == Concluidos(db.progresso, usuario, modulos)
    ensures r.modulos.percentual == Helpers.CalcularProgresso(r.modulos.concluidos, r.modulos.total)
    ensures 0 <= r.modulos.percentual <= 100
    ensures r.teste == GetTestResult(db, usuario)
    ensures r.aprovado <==> r.teste.Some? && r.teste.value.aprovado
    ensures r.aprovado ==> exists x :: x in db.resultados && x.usuario == usuario && x.aprovado
  {
    var total := |Active(modulos)|;
    var concluidos := Concluidos(db.progresso, usuario, modulos);
    var teste := LatestResult(db.resultados, usuario);
    UserProgress(Progresso(total, concluidos, ModulePercent(concluidos, total)), teste,
                 teste.Some? && teste.value.aprovado)
  }
}
