/** The vote store shared by the three vote submission paths and the result
    queries: `votos_usuario` as a map from (usuario, atividade, sessao) to the vote,
    `usuario_votacao_status` as a map from (usuario, sessao) to `votacao_concluida`,
    and the per-activity aggregates (vote count and mean kept as a (sum, count) pair). */
module Votes {
  import opened Base
  import opened JsModel
  import Numbers
  import Sorting

  /** The unique key of `votos_usuario`. */
  datatype VoteKey = VoteKey(usuario: int, atividade: int, sessao: int)

  /** The stored vote; `None` stands for SQL NULL. */
  datatype VoteRow = VoteRow(pontuacao: Option<int>, prioridade: Option<int>, comentario: Option<string>)

  type VoteStore = map<VoteKey, VoteRow>

  /** `usuario_votacao_status`: (usuario, sessao) to `votacao_concluida`. */
  type StatusStore = map<(int, int), bool>

  /** One element of a `votos` array as sent: the controller reads
      `prioridade_usuario`, the session controller reads `prioridade`. */
  datatype VoteInput = VoteInput(atividade: Field<int>, pontuacao: Field<int>, prioridadeUsuario: Field<int>,
                                 prioridade: Field<int>, comentario: Field<string>)

  class VoteTables {
    var votos: VoteStore
    var status: StatusStore

    constructor()
      ensures votos == map[] && status == map[]
    {
      votos := map[];
      status := map[];
    }
  }

  /** The key a statement writes: a key column bound to NULL (`undefined` or `null`)
      is refused, so `None` means the statement fails. */
  function KeyOf(usuario: int, atividade: Field<int>, sessao: Field<int>): (k: Option<VoteKey>)
    ensures k.Some? <==> atividade.Value? && sessao.Value?
    ensures k.Some? ==> k.value == VoteKey(usuario, atividade.v, sessao.v)
  {
    match (atividade, sessao)
    case (Value(a), Value(s)) => Some(VoteKey(usuario, a, s))
    case _ => None
  }

  /** JavaScript truthiness of a numeric body field: `undefined`, `null` and 0 are falsy. */
  predicate Truthy(f: Field<int>)
  {
    f.Value? && f.v != 0
  }

  // ---- batches as overrides ----

  /** The rows a batch leaves behind, keyed by their unique key: a later entry for the
      same key replaces an earlier one. */
  function Assign(entries: seq<(VoteKey, VoteRow)>): (m: VoteStore)
    ensures forall k :: k in m <==> exists i :: 0 <= i < |entries| && entries[i].0 == k
  {
    if entries == [] then map[]
    else
      var init := entries[..|entries| - 1];
      var last := entries[|entries| - 1];
      var m := Assign(init);
      assert forall i :: 0 <= i < |init| ==> init[i] == entries[i];
      m[last.0 := last.1]
  }

  /** Writing one more row over `store + Assign(entries)` is the same as assigning it last. */
  lemma OverrideStep(store: VoteStore, entries: seq<(VoteKey, VoteRow)>, k: VoteKey, row: VoteRow)
    ensures (store + Assign(entries))[k := row] == store + Assign(entries + [(k, row)])
  {
    assert (entries + [(k, row)])[..|entries|] == entries;
  }

  /** Every row written over a store lies in a set of rows `ok`, so a store whose rows all lie
      in it keeps that property. */
  predicate RowsIn(store: VoteStore, ok: VoteRow -> bool)
  {
    forall k :: k in store ==> ok(store[k])
  }

  lemma {:induction false} AssignRowsIn(entries: seq<(VoteKey, VoteRow)>, ok: VoteRow -> bool)
    requires forall i :: 0 <= i < |entries| ==> ok(entries[i].1)
    ensures RowsIn(Assign(entries), ok)
  {
    if entries != [] {
      var init := entries[..|entries| - 1];
      assert forall i :: 0 <= i < |init| ==> init[i] == entries[i];
      AssignRowsIn(init, ok);
    }
  }

  // ---- checkUserVoted ----

  /** `SELECT COUNT(*) FROM votos_usuario WHERE usuario_id = ?`. */
  function TotalVotos(votos: VoteStore, usuario: int): (n: nat)
  {
    |set k | k in votos && k.usuario == usuario|
  }

  /** `ja_votou`: the count is positive exactly when the user has a vote. */
  lemma JaVotouIffHasVote(votos: VoteStore, usuario: int)
    ensures TotalVotos(votos, usuario) > 0 <==> exists k :: k in votos && k.usuario == usuario
  {
    var s := set k | k in votos && k.usuario == usuario;
    if exists k :: k in votos && k.usuario == usuario {
      var k :| k in votos && k.usuario == usuario;
      assert k in s;
    }
  }

  // ---- aggregates ----

  /** A row of `votos_usuario` as a query sees it. */
  datatype Vote = Vote(key: VoteKey, row: VoteRow)

  function Pontuacao(r: VoteRow): Option<int> { r.pontuacao }
  function Prioridade(r: VoteRow): Option<int> { r.prioridade }

  /** The non-null values of a column, in the order of the votes. */
  function Valores(vs: seq<Vote>, column: VoteRow -> Option<int>): (r: seq<int>)
    ensures |r| <= |vs|
    ensures forall x :: x in r ==> exists i :: 0 <= i < |vs| && column(vs[i].row) == Some(x)
    ensures r == [] <==> forall i :: 0 <= i < |vs| ==> column(vs[i].row).None?
  {
    if vs == [] then []
    else
      var init := vs[..|vs| - 1];
      assert forall i :: 0 <= i < |init| ==> init[i] == vs[i];
      Valores(init, column) + (match column(vs[|vs| - 1].row) case Some(x) => [x] case None => [])
  }

  /** The sum of a sequence of integers, first element first. */
  function Sum(xs: seq<int>): int
  {
    if xs == [] then 0 else xs[0] + Sum(xs[1..])
  }

  lemma {:induction false} SumSnoc(xs: seq<int>, x: int)
    ensures Sum(xs + [x]) == Sum(xs) + x
    decreases |xs|
  {
    if xs == [] {
      assert [] + [x] == [x];
    } else {
      assert (xs + [x])[1..] == xs[1..] + [x];
      SumSnoc(xs[1..], x);
    }
  }

  /** SQL `AVG(column)` over the votes: `Null` when no vote has a non-null value, and
      otherwise the sum and the number of the non-null values, NULLs being skipped. */
  function AvgOf(vs: seq<Vote>, column: VoteRow -> Option<int>): (a: Numbers.Avg)
    ensures Numbers.ValidAvg(a)
    ensures a.Null? <==> Valores(vs, column) == []
    ensures a.Avg? ==> a.sum == Sum(Valores(vs, column)) && a.count == |Valores(vs, column)|
  {
    if vs == [] then Numbers.Null
    else
      var init := vs[..|vs| - 1];
      var a := AvgOf(init, column);
      match column(vs[|vs| - 1].row)
      case None =>
        assert Valores(vs, column) == Valores(init, column) + [] == Valores(init, column);
        a
      case Some(v) =>
        assert Valores(vs, column) == Valores(init, column) + [v];
        SumSnoc(Valores(init, column), v);
        if a.Null? then Numbers.Avg(v, 1) else Numbers.Avg(a.sum + v, a.count + 1)
  }

  /** The distinct users among some votes. */
  function Usuarios(vs: seq<Vote>): set<int>
  {
    set v | v in vs :: v.key.usuario
  }

  /** The same set, read by position: the voters of `COUNT(DISTINCT usuario_id)`. */
  lemma UsuariosPorIndice(vs: seq<Vote>)
    ensures Usuarios(vs) == set i | 0 <= i < |vs| :: vs[i].key.usuario
  {
    forall u | u in Usuarios(vs) ensures u in set i | 0 <= i < |vs| :: vs[i].key.usuario {
      var v :| v in vs && v.key.usuario == u;
      var i :| 0 <= i < |vs| && vs[i] == v;
    }
  }

  lemma {:induction false} UsuariosBound(vs: seq<Vote>)
    ensures |Usuarios(vs)| <= |vs|
    ensures |Usuarios(vs)| == 0 <==> vs == []
  {
    if vs != [] {
      var init := vs[..|vs| - 1];
      var last := vs[|vs| - 1];
      assert vs == init + [last];
      UsuariosBound(init);
      assert Usuarios(vs) == Usuarios(init) + {last.key.usuario};
      assert last.key.usuario in Usuarios(vs);
    }
  }

  /** Per-activity aggregates of a `LEFT JOIN ... GROUP BY`. */
  datatype Stats = Stats(atividade: int, total: nat, media: Numbers.Avg, mediaPrioridade: Numbers.Avg)

  /** The votes joined to an activity: same `atividade_id`, and the same session
      when the join also names one. */
  predicate Joined(v: Vote, atividade: int, sessao: Option<int>)
  {
    v.key.atividade == atividade && (sessao.Some? ==> v.key.sessao == sessao.value)
  }

  function JoinedVotes(vs: seq<Vote>, atividade: int, sessao: Option<int>): (r: seq<Vote>)
    ensures forall v :: v in r <==> v in vs && Joined(v, atividade, sessao)
    ensures |r| == CountWhere(vs, (v: Vote) => Joined(v, atividade, sessao))
  {
    if vs == [] then []
    else
      var init := vs[..|vs| - 1];
      var last := vs[|vs| - 1];
      assert vs == init + [last];
      JoinedVotes(init, atividade, sessao) + (if Joined(last, atividade, sessao) then [last] else [])
  }

  /** `COUNT(v.id)`, `AVG(v.pontuacao)` and `AVG(v.prioridade_usuario)` for one
      activity; an activity without votes has count 0 and NULL means. */
  function StatsOf(vs: seq<Vote>, atividade: int, sessao: Option<int>): (s: Stats)
    ensures s.atividade == atividade
    ensures s.total == CountWhere(vs, (v: Vote) => Joined(v, atividade, sessao))
    ensures Numbers.ValidAvg(s.media) && Numbers.ValidAvg(s.mediaPrioridade)
    ensures s.media == AvgOf(JoinedVotes(vs, atividade, sessao), Pontuacao)
    ensures s.mediaPrioridade == AvgOf(JoinedVotes(vs, atividade, sessao), Prioridade)
    ensures s.total == 0 ==> s.media.Null? && s.mediaPrioridade.Null?
  {
    var joined := JoinedVotes(vs, atividade, sessao);
    Stats(atividade, |joined|, AvgOf(joined, Pontuacao), AvgOf(joined, Prioridade))
  }

  /** `ORDER BY media DESC` (NULL last). */
  predicate MeanDesc(x: Stats, y: Stats)
  {
    Numbers.AvgAtLeast(x.media, y.media)
  }

  /** `ORDER BY media DESC, total_votos DESC`. */
  predicate MeanThenTotalDesc(x: Stats, y: Stats)
  {
    Numbers.AvgAtLeast(x.media, y.media) && (Numbers.AvgAtLeast(y.media, x.media) ==> x.total >= y.total)
  }

  predicate AllValid(s: seq<Stats>)
  {
    forall i :: 0 <= i < |s| ==> Numbers.ValidAvg(s[i].media)
  }

  lemma MeanDescPreorder(s: seq<Stats>)
    requires AllValid(s)
    ensures Sorting.PreorderOn(s, MeanDesc)
  {
    forall x, y, z | x in s && y in s && z in s && MeanDesc(x, y) && MeanDesc(y, z)
      ensures MeanDesc(x, z)
    {
      Numbers.AvgAtLeastTransitive(x.media, y.media, z.media);
    }
    forall x, y | x in s && y in s
      ensures MeanDesc(x, y) || MeanDesc(y, x)
    {
      Numbers.AvgAtLeastTotal(x.media, y.media);
    }
  }

  lemma MeanThenTotalPreorder(s: seq<Stats>)
    requires AllValid(s)
    ensures Sorting.PreorderOn(s, MeanThenTotalDesc)
  {
    forall x, y, z | x in s && y in s && z in s && MeanThenTotalDesc(x, y) && MeanThenTotalDesc(y, z)
      ensures MeanThenTotalDesc(x, z)
    {
      Numbers.AvgAtLeastTransitive(x.media, y.media, z.media);
      if Numbers.AvgAtLeast(z.media, x.media) {
        Numbers.AvgAtLeastTransitive(z.media, x.media, y.media);
        Numbers.AvgAtLeastTransitive(y.media, z.media, x.media);
      }
    }
    forall x, y | x in s && y in s
      ensures MeanThenTotalDesc(x, y) || MeanThenTotalDesc(y, x)
    {
      Numbers.AvgAtLeastTotal(x.media, y.media);
    }
  }

  /** The statistics of each listed activity, in the order listed. */
  function StatsFor(ids: seq<int>, vs: seq<Vote>, sessao: Option<int>): (r: seq<Stats>)
    ensures |r| == |ids|
    ensures forall i :: 0 <= i < |ids| ==> r[i] == StatsOf(vs, ids[i], sessao)
    ensures AllValid(r)
  {
    seq(|ids|, i requires 0 <= i < |ids| => StatsOf(vs, ids[i], sessao))
  }
}
