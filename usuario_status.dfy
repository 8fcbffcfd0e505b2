/** GET /usuario/status: the user's learning and voting progress, read from four
    counting queries with fall-backs. The fall-backs for steps 2 to 4 call helper
    functions through `this`, which at module level is the exports object and has no
    such functions; the call throws, and the outer handler answers with a fixed
    demonstration record instead. */
module UsuarioStatus {
  import opened Base
  import Numbers

  /** What one counting step found: a count, or a missing table / unexpected row
      shape, or a query error. */
  datatype Step = Count(n: nat) | Missing | Failed

  datatype Progress = Progress(modulosConcluidos: int, totalModulos: int, testeAprovado: bool,
                               votacaoConcluida: bool, progressoPercentual: int)

  /** The user row lookup: an error, no row, or the row's id. */
  datatype Lookup = LookupFailed | NoUser | Found(id: int)

  datatype Status =
    | Refused(status: int)
    | Live(progress: Progress)
    | Demo(progress: Progress)

  const DemoProgress := Progress(3, 5, true, false, 60)

  /** `Math.min(Math.round(concluidos / total * 100), 100)` when `total > 0`, else 0. */
  function ProgressoPercentual(concluidos: int, total: int): (r: int)
    ensures total <= 0 ==> r == 0
    ensures r <= 100
  {
    if total > 0 then
      var rounded := Numbers.RoundPercent(concluidos, total);
      if rounded < 100 then rounded else 100
    else 0
  }

  /** For a non-negative count the percentage lies in [0, 100]: it is the rounded
      ratio up to the whole, and the cap for anything beyond. */
  lemma ProgressoPercentualRange(concluidos: int, total: int)
    requires total > 0 && concluidos >= 0
    ensures 0 <= ProgressoPercentual(concluidos, total) <= 100
    ensures concluidos <= total ==> ProgressoPercentual(concluidos, total) == Numbers.RoundPercent(concluidos, total)
    ensures concluidos >= total ==> ProgressoPercentual(concluidos, total) == 100
  {
    Numbers.RoundPercentMonotone(0, concluidos, total);
    Numbers.RoundPercentInRange(0, total);
    if concluidos >= total {
      Numbers.RoundPercentMonotone(total, concluidos, total);
      Numbers.RoundPercentWhole(total);
    } else {
      Numbers.RoundPercentInRange(concluidos, total);
    }
  }

  /** The handler. The four steps are given in order: modules, completed modules,
      approved tests and completed voting. */
  method GetStatus(user: Lookup, modulos: Step, concluidos: Step, teste: Step, votacao: Step)
    returns (r: Status)
    ensures user == LookupFailed ==> r == Refused(ServerError)
    ensures user == NoUser ==> r == Refused(NotFound)
    ensures user.Found? && (!concluidos.Count? || !teste.Count? || !votacao.Count?) ==> r == Demo(DemoProgress)
    ensures user.Found? && concluidos.Count? && teste.Count? && votacao.Count? ==>
      && r.Live?
      && r.progress.totalModulos == (if modulos.Count? then modulos.n else 5)
      && r.progress.modulosConcluidos == concluidos.n
      && (r.progress.testeAprovado <==> teste.n > 0)
      && (r.progress.votacaoConcluida <==> votacao.n > 0)
      && r.progress.progressoPercentual == ProgressoPercentual(concluidos.n, r.progress.totalModulos)
      && 0 <= r.progress.progressoPercentual <= 100
  {
    if user == LookupFailed {
      return Refused(ServerError);
    }
    if user == NoUser {
      return Refused(NotFound);
    }
    var progresso := Progress(0, 5, false, false, 0);
    // 1. modules: every failure falls back to 5
    if modulos.Count? {
      progresso := progresso.(totalModulos := modulos.n);
    }
    // 2.-4. the fall-backs throw, which ends in the demonstration answer
    if !concluidos.Count? || !teste.Count? || !votacao.Count? {
      return Demo(DemoProgress);
    }
    progresso := progresso.(modulosConcluidos := concluidos.n);
    progresso := progresso.(testeAprovado := teste.n > 0);
    progresso := progresso.(votacaoConcluida := votacao.n > 0);
    progresso := progresso.(progressoPercentual := ProgressoPercentual(progresso.modulosConcluidos, progresso.totalModulos));
    if progresso.totalModulos > 0 {
      ProgressoPercentualRange(progresso.modulosConcluidos, progresso.totalModulos);
    }
    r := Live(progresso);
  }

  /** The mock tables the fall-backs were meant to read. */
  function MockModulosConcluidos(perfil: string): (n: int)
    ensures perfil !in {"admin", "facilitador", "coordenador"} ==> n == 2
    ensures 2 <= n <= 5
  {
    match perfil
    case "admin" => 5
    case "facilitador" => 4
    case "coordenador" => 3
    case "participante" => 2
    case _ => 2
  }

  function MockTesteAprovado(perfil: string): (b: bool)
    ensures b <==> perfil in {"admin", "facilitador", "coordenador"}
  {
    match perfil
    case "admin" => true
    case "facilitador" => true
    case "coordenador" => true
    case _ => false
  }

  function MockVotacaoConcluida(perfil: string): (b: bool)
    ensures b <==> perfil == "admin"
  {
    perfil == "admin"
  }
}
