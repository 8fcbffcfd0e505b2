/** The three ways a batch of votes reaches `votos_usuario`: the voting controller's
    `submitVotes`, the voting route `POST /votar` and the session controller's
    `submitVotes`. The same request body is read differently by each; these lemmas
    pin the differences down on concrete batches and for all batches. */
module VotePaths {
  import opened Base
  import opened JsModel
  import opened Votes
  import VotingController
  import VotingRoutes
  import SessionController

  /** A vote for activity 10 with score 7 and nothing else set. */
  const ForaDaEscala := VoteInput(Value(10), Value(7), Undefined, Undefined, Undefined)

  /** A score outside 1..5 is refused only by the voting controller; the route and the
      session controller both store it. */
  lemma EscalaSoNoControlador(store: VoteStore, usuario: int)
    ensures VotingController.Aplicar(store, usuario, Value(1), [ForaDaEscala])
            == Fail(400, VotingController.MsgPontuacao)
    ensures VotingRoutes.Gravar(store, usuario, Value(1), [ForaDaEscala], None)
            == Some(store[VoteKey(usuario, 10, 1) := VoteRow(Some(7), None, None)])
    ensures SessionController.Registar(store, usuario, Value(1), [ForaDaEscala])
            == Some(store[VoteKey(usuario, 10, 1) := VoteRow(Some(7), None, None)])
  {
    assert [ForaDaEscala][..0] == [];
  }

  /** The priority: the controller and the route read `prioridade_usuario`, the session
      controller reads `prioridade`; without it the controller stores twice the score
      and the others store NULL. */
  lemma PrioridadePorCaminho(v: VoteInput)
    requires VotingController.Aceite(v)
    ensures VotingController.LinhaDe(v).prioridade
            == Some(if Truthy(v.prioridadeUsuario) then v.prioridadeUsuario.v else 2 * v.pontuacao.v)
    ensures VotingRoutes.LinhaBruta(v).prioridade == Bound(v.prioridadeUsuario)
    ensures SessionController.RegistoLinha(v).prioridade == Bound(v.prioridade)
  {
  }

  /** A missing score: refused by the controller, stored as NULL by the route and as 0 by
      the session controller. */
  lemma PontuacaoAusente(v: VoteInput)
    requires v.pontuacao.Undefined?
    ensures !VotingController.Aceite(v)
    ensures VotingRoutes.LinhaBruta(v).pontuacao.None?
    ensures SessionController.RegistoLinha(v).pontuacao == Some(0)
  {
  }

  /** An empty array: the route's transaction commits (so the session is marked as voted
      with no vote stored) and the session controller succeeds without writing, while the
      controller refuses it with 400 (`VotingController.SubmitVotes`). */
  lemma LoteVazio(store: VoteStore, usuario: int, sessao: int)
    ensures VotingRoutes.Confirma(store, usuario, Value(sessao), [], None)
    ensures VotingRoutes.Gravar(store, usuario, Value(sessao), [], None) == Some(store)
    ensures SessionController.Registar(store, usuario, Value(sessao), []) == Some(store)
  {
  }

  /** A second batch for the same session through the route: once the first has been
      committed, the status flag it set makes the second answer 400. */
  method SegundoLoteRota(db: VoteTables, usuario: int, sessao: int, vs: seq<VoteInput>)
    returns (primeiro: Outcome<()>, segundo: Outcome<()>)
    modifies db
    ensures primeiro.Ok? ==> segundo == Fail(400, VotingRoutes.MsgJaVotou)
  {
    primeiro := VotingRoutes.Votar(db, usuario, Value(sessao), Some(vs), None);
    segundo := VotingRoutes.Votar(db, usuario, Value(sessao), Some(vs), None);
  }

  /** A second batch for the same session: the two controllers accept it again, and for
      the same batch leave the table as the first time did (the route refuses it,
      `SegundoLoteRota`). */
  lemma SegundoLote(store: VoteStore, usuario: int, sessao: int, vs: seq<VoteInput>)
    requires vs != []
    requires VotingController.Aplicar(store, usuario, Value(sessao), vs).Ok?
    ensures var once := VotingController.Aplicar(store, usuario, Value(sessao), vs).value;
            VotingController.Aplicar(once, usuario, Value(sessao), vs) == Ok(once)
    ensures SessionController.Registar(store, usuario, Value(sessao), vs).Some?
    ensures var once := SessionController.Registar(store, usuario, Value(sessao), vs).value;
            SessionController.Registar(once, usuario, Value(sessao), vs) == Some(once)
  {
    VotingController.ResubmitIdempotent(store, usuario, Value(sessao), vs);
    SessionController.RegistarSucceeds(store, usuario, Value(sessao), vs);
    SessionController.RegistarIdempotent(store, usuario, Value(sessao), vs);
  }

  /** Whenever the controller accepts a batch, the route and the session controller can
      write it too (the route when no statement is made to fail): the controller's checks
      only add refusals. */
  lemma {:induction false} ControladorMaisEstrito(store: VoteStore, usuario: int, sessao: Field<int>, vs: seq<VoteInput>)
    requires vs != []
    requires VotingController.Aplicar(store, usuario, sessao, vs).Ok?
    ensures VotingRoutes.Gravar(store, usuario, sessao, vs, None).Some?
    ensures SessionController.Registar(store, usuario, sessao, vs).Some?
  {
    VotingController.AplicarIsOverride(store, usuario, sessao, vs);
    VotingRoutes.GravarSucceeds(store, usuario, sessao, vs, None);
    SessionController.RegistarSucceeds(store, usuario, sessao, vs);
  }
}
