/** The learning tables that both the learning controller and the learning routes
    read and write: the question bank `perguntas_teste`, the modules
    `modulos_aprendizagem`, the per-user progress `progresso_aprendizagem` (one row per
    (usuario, modulo), the key its `ON DUPLICATE KEY UPDATE` statements rely on) and the
    append-only `resultados_teste`. */
module LearningTables {
  import opened Base
  import opened JsModel

  /** A row of `perguntas_teste`; `opcoes` is the stored options JSON, `None` when
      the column is null or empty. */
  datatype Pergunta = Pergunta(id: int, pergunta: string, opcoes: Option<string>,
                               respostaCorreta: string, modulo: string,
                               explicacao: Option<string>, dificuldade: string, ativa: bool)

  /** A row of `modulos_aprendizagem`. */
  datatype Modulo = Modulo(id: int, titulo: string, ordem: int, ativo: bool)

  /** A row of `progresso_aprendizagem`; `None` stands for SQL NULL (also for a column
      the inserting statement does not set). */
  datatype ProgressRow = ProgressRow(concluido: Option<bool>, progresso: Option<int>)

  /** A stored score: the rounded percentage, the exact unrounded ratio
      `num / den`, or `NaN` (0 / 0). */
  datatype Pontuacao = Rounded(value: int) | Ratio(num: int, den: int) | NaN

  /** One per-question entry of `detalhes_respostas`. */
  datatype Detalhe = Detalhe(perguntaId: int, respostaUsuario: Option<string>,
                             respostaCorreta: string, modulo: string, correta: bool)

  /** A row of `resultados_teste`; `detalhes` is `None` when the statement leaves the
      column out, and `realizadoEm` is the `NOW()` of the insert. */
  datatype Resultado = Resultado(usuario: int, sessao: Field<int>, pontuacao: Pontuacao,
                                 aprovado: bool, totalPerguntas: nat, acertos: nat,
                                 detalhes: Option<seq<Detalhe>>, realizadoEm: int)

  /** The two learning tables the handlers write. */
  class Tables {
    var progresso: map<(int, int), ProgressRow>
    var resultados: seq<Resultado>

    constructor()
      ensures progresso == map[] && resultados == []
    {
      progresso := map[];
      resultados := [];
    }
  }

  /** `COALESCE(p.concluido, FALSE)` for module `modulo` of user `usuario`. */
  predicate Concluido(progresso: map<(int, int), ProgressRow>, usuario: int, modulo: int)
  {
    (usuario, modulo) in progresso && progresso[(usuario, modulo)].concluido == Some(true)
  }

  function Active(modulos: seq<Modulo>): (r: seq<Modulo>)
    ensures forall m :: m in r <==> m in modulos && m.ativo
  {
    if modulos == [] then []
    else
      var init := modulos[..|modulos| - 1];
      var last := modulos[|modulos| - 1];
      assert modulos == init + [last];
      Active(init) + (if last.ativo then [last] else [])
  }

  /** `SUM(CASE WHEN p.concluido = TRUE THEN 1 ELSE 0 END)` over the active modules. */
  function Concluidos(progresso: map<(int, int), ProgressRow>, usuario: int, modulos: seq<Modulo>): (n: nat)
    ensures n <= |Active(modulos)|
  {
    CountWhere(Active(modulos), (m: Modulo) => Concluido(progresso, usuario, m.id))
  }
}
