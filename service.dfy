/** The task lifecycle service `TarefaService`: creation defaults, the
    forward-only status machine, updates of the editable fields, deletion and
    the two read-only reports, over the task table. */
module Service {
  import opened Wrappers
  import opened Model
  import opened Repository

  /** Why a service operation throws: no task with that id, a task already
      concluded, or a row the NOT NULL `titulo` column refuses. */
  datatype Erro = NaoEncontrada | JaConcluida | TituloNulo

  /** Position of a status on the board, left to right. */
  function Rank(s: Status): nat {
    match s
    case AFazer => 0
    case EmProgresso => 1
    case Concluido => 2
  }

  /** The status a move leads to: one column to the right, or none from the
      last column. */
  function Proximo(s: Status): (n: Option<Status>)
    ensures n.None? <==> s == Concluido
    ensures n.Some? ==> Rank(n.value) == Rank(s) + 1
  {
    match s
    case AFazer => Some(EmProgresso)
    case EmProgresso => Some(Concluido)
    case Concluido => None
  }

  /** The status after `k` successive moves of one task, or `None` when one
      of them is rejected. */
  function Advance(s: Status, k: nat): (r: Option<Status>)
    ensures r.Some? ==> Rank(r.value) == Rank(s) + k
    decreases k
  {
    if k == 0 then Some(s)
    else
      match Proximo(s)
      case None => None
      case Some(n) => Advance(n, k - 1)
  }

  /** From status `s`, exactly `2 - Rank(s)` moves succeed, and each one that
      succeeds moves one column right: a new task is moved at most twice. */
  lemma {:induction false} AdvanceBound(s: Status, k: nat)
    ensures Advance(s, k).Some? <==> k <= 2 - Rank(s)
    ensures Advance(s, k).Some? ==> Rank(Advance(s, k).value) == Rank(s) + k
    decreases k
  {
    if k > 0 {
      match Proximo(s)
      case None =>
      case Some(n) => AdvanceBound(n, k - 1);
    }
  }

  /** A task is overdue: not concluded and due strictly before today. */
  predicate Atrasada(x: Registro, hoje: Date)
    ensures Atrasada(x, hoje) <==> Proximo(x.status).Some? && x.dataLimite.Some? && x.dataLimite.value < hoje
    ensures x.dataLimite.None? ==> !Atrasada(x, hoje)
  {
    x.status != Concluido && x.dataLimite.Some? && x.dataLimite.value < hoje
  }

  /** What every modelled operation keeps between one table and the next: the
      identity counter never goes back, a newly appearing id was never handed
      out before, and every task that survives has kept its creation date and
      has not moved left on the board. A create whose entity already carries
      the id of a stored task is not modelled, and it breaks this relation:
      `save` then overwrites that row with status "a fazer". */
  ghost predicate Evolves(before: Tabela, after: Tabela)
    ensures before == after ==> Evolves(before, after)
  {
    && before.proximoId <= after.proximoId
    && (forall id :: id in after.linhas && id !in before.linhas ==> before.proximoId <= id)
    && (forall id :: id in before.linhas && id in after.linhas ==>
          && Rank(before.linhas[id].status) <= Rank(after.linhas[id].status)
          && after.linhas[id].dataCriacao == before.linhas[id].dataCriacao)
  }

  /** `Evolves` composes: the guarantees hold between the first and the last
      of three successive tables. This compares the two ends only; what holds
      of every table in between is `DeletedStaysDeleted` and `SurvivorKeeps`. */
  lemma EvolvesTransitive(a: Tabela, b: Tabela, c: Tabela)
    requires Valida(a) && Evolves(a, b) && Evolves(b, c)
    ensures Evolves(a, c)
  {
  }

  /** A run of well-formed tables, each linked to the previous one by
      `Evolves`, which every operation of `TarefaService` guarantees. */
  ghost predicate Historia(ts: seq<Tabela>) {
    && (forall i :: 0 <= i < |ts| ==> Valida(ts[i]))
    && (forall i :: 0 <= i < |ts| - 1 ==> Evolves(ts[i], ts[i + 1]))
  }

  /** An id stored at some point of a run stays below the identity counter
      from then on. */
  lemma {:induction false} HandedOut(ts: seq<Tabela>, id: nat, i: nat, m: nat)
    requires Historia(ts) && i <= m < |ts| && id in ts[i].linhas
    ensures id < ts[m].proximoId
    decreases m
  {
    if m > i {
      HandedOut(ts, id, i, m - 1);
      assert Evolves(ts[m - 1], ts[m]);
    }
  }

  /** A deleted id never comes back: once an id stored at step `i` is absent
      at step `j`, it is absent at every later step, so it is never
      reassigned to another task. */
  lemma {:induction false} DeletedStaysDeleted(ts: seq<Tabela>, id: nat, i: nat, j: nat, k: nat)
    requires Historia(ts) && i <= j <= k < |ts|
    requires id in ts[i].linhas && id !in ts[j].linhas
    ensures id !in ts[k].linhas
    decreases k
  {
    if k > j {
      DeletedStaysDeleted(ts, id, i, j, k - 1);
      HandedOut(ts, id, i, k - 1);
      assert Evolves(ts[k - 1], ts[k]);
    }
  }

  /** An id stored at steps `i` and `k` is stored at every step between. */
  lemma {:induction false} PresentBetween(ts: seq<Tabela>, id: nat, i: nat, j: nat, k: nat)
    requires Historia(ts) && i <= j <= k < |ts|
    requires id in ts[i].linhas && id in ts[k].linhas
    ensures id in ts[j].linhas
    decreases k - j
  {
    if j < k {
      PresentBetween(ts, id, i, j + 1, k);
      HandedOut(ts, id, i, j);
      assert Evolves(ts[j], ts[j + 1]);
    }
  }

  /** A task present at both ends of a run has kept its creation date and has
      not moved left on the board. This holds of runs of the modelled
      operations, whose creates carry entities without id. */
  lemma {:induction false} SurvivorKeeps(ts: seq<Tabela>, id: nat, i: nat, k: nat)
    requires Historia(ts) && i <= k < |ts|
    requires id in ts[i].linhas && id in ts[k].linhas
    ensures ts[k].linhas[id].dataCriacao == ts[i].linhas[id].dataCriacao
    ensures Rank(ts[i].linhas[id].status) <= Rank(ts[k].linhas[id].status)
    decreases k
  {
    if k > i {
      PresentBetween(ts, id, i, k - 1, k);
      SurvivorKeeps(ts, id, i, k - 1);
      assert Evolves(ts[k - 1], ts[k]);
    }
  }

  class TarefaService {
    var tabela: Tabela
    /** The database's placement of null priorities in an ascending sort. */
    const nulls: NullOrder

    ghost predicate Valid()
      reads this
    {
      Valida(tabela)
    }

    /** An empty table whose identity counter starts at 1. */
    constructor (nulls: NullOrder)
      ensures Valid() && tabela == Tabela(map[], 1) && this.nulls == nulls
    {
      tabela := Tabela(map[], 1);
      this.nulls := nulls;
    }

    /** `save` of an entity without id: the row is inserted under the next
        identity value, which is written back into the entity. A null title
        is refused by the NOT NULL column and nothing is stored. */
    method SaveNew(tarefa: Tarefa) returns (r: Result<Registro, Erro>)
      requires Valid()
      modifies this, tarefa
      ensures Valid() && Evolves(old(tabela), tabela)
      ensures old(tarefa.titulo).None? ==>
                && r == Failure(TituloNulo) && tabela == old(tabela)
                && tarefa.State() == old(tarefa.State())
      ensures old(tarefa.titulo).Some? ==>
                && r == Success(RowOf(old(tabela.proximoId), old(tarefa.State())))
                && tabela == Tabela(old(tabela.linhas)[r.value.id := r.value], old(tabela.proximoId) + 1)
                && tarefa.State() == old(tarefa.State()).(id := Some(r.value.id))
    {
      if tarefa.titulo.None? {
        return Failure(TituloNulo);
      }
      var id := tabela.proximoId;
      var linha := RowOf(id, tarefa.State());
      tabela := Tabela(tabela.linhas[id := linha], id + 1);
      tarefa.SetId(Some(id));
      r := Success(linha);
    }

    /** `save` of an entity loaded from the table: its row is overwritten,
        except the creation date, whose column is not updatable. A null title
        is refused by the NOT NULL column and nothing is stored. */
    method SaveExisting(tarefa: Tarefa) returns (r: Result<Registro, Erro>)
      requires Valid()
      requires tarefa.id.Some? && tarefa.id.value in tabela.linhas
      modifies this
      ensures Valid()
      ensures tarefa.titulo.None? ==> r == Failure(TituloNulo) && tabela == old(tabela)
      ensures tarefa.titulo.Some? ==>
                var id := tarefa.id.value;
                && r == Success(RowOf(id, tarefa.State().(dataCriacao := old(tabela.linhas[id].dataCriacao))))
                && tabela == old(tabela).(linhas := old(tabela.linhas)[id := r.value])
    {
      if tarefa.titulo.None? {
        return Failure(TituloNulo);
      }
      var id := tarefa.id.value;
      var linha := RowOf(id, tarefa.State().(dataCriacao := tabela.linhas[id].dataCriacao));
      tabela := tabela.(linhas := tabela.linhas[id := linha]);
      r := Success(linha);
    }

    /** `criarTarefa` for an entity without id: whatever status and creation
        date it carries, it is stored as "to do", created today, under a fresh
        id. */
    method CriarTarefa(tarefa: Tarefa, hoje: Date) returns (r: Result<Registro, Erro>)
      requires Valid()
      modifies this, tarefa
      ensures Valid() && Evolves(old(tabela), tabela)
      ensures tarefa.status == AFazer && tarefa.dataCriacao == hoje
      ensures old(tarefa.titulo).None? ==>
                && r == Failure(TituloNulo) && tabela == old(tabela)
                && tarefa.State() == old(tarefa.State()).(status := AFazer, dataCriacao := hoje)
      ensures old(tarefa.titulo).Some? ==>
                && r.Success?
                && r.value.id !in old(tabela.linhas)
                && r.value == Registro(r.value.id, old(tarefa.titulo).value, old(tarefa.descricao), hoje,
                                       AFazer, old(tarefa.prioridade), old(tarefa.dataLimite))
                && tabela == Tabela(old(tabela.linhas)[r.value.id := r.value], old(tabela.proximoId) + 1)
                && tarefa.State() == old(tarefa.State()).(status := AFazer, dataCriacao := hoje,
                                                          id := Some(r.value.id))
    {
      tarefa.SetStatus(AFazer);
      tarefa.SetDataCriacao(hoje);
      r := SaveNew(tarefa);
    }

    /** `listarTarefasPorStatus`: one column of the board, by ascending
        priority. Nothing is changed. */
    method ListarTarefasPorStatus(status: Status) returns (r: seq<Registro>)
      requires Valid()
      ensures r == FindByStatusOrderByPrioridadeAsc(tabela, status, nulls)
      ensures SortedByPrioridade(r, nulls)
      ensures forall x :: x in r <==> Stored(tabela, x) && x.status == status
    {
      r := FindByStatusOrderByPrioridadeAsc(tabela, status, nulls);
      assert forall x :: x in r <==> multiset(r)[x] > 0;
    }

    /** `moverTarefa`: the task moves exactly one column to the right; a
        missing id and a concluded task are rejected and nothing changes. */
    method MoverTarefa(id: int) returns (r: Result<Registro, Erro>)
      requires Valid()
      modifies this
      ensures Valid() && Evolves(old(tabela), tabela)
      ensures id !in old(tabela.linhas) ==> r == Failure(NaoEncontrada) && tabela == old(tabela)
      ensures id in old(tabela.linhas) ==>
                var antes := old(tabela.linhas[id]);
                match Proximo(antes.status)
                case None => r == Failure(JaConcluida) && tabela == old(tabela)
                case Some(s) =>
                  && r == Success(antes.(status := s))
                  && tabela == old(tabela).(linhas := old(tabela.linhas)[id := r.value])
    {
      var encontrada := FindById(tabela, id);
      if encontrada.None? {
        return Failure(NaoEncontrada);
      }
      var tarefa := new Tarefa.Load(encontrada.value);
      match tarefa.status {
        case AFazer => tarefa.SetStatus(EmProgresso);
        case EmProgresso => tarefa.SetStatus(Concluido);
        case Concluido => return Failure(JaConcluida);
      }
      r := SaveExisting(tarefa);
    }

    /** `atualizarTarefa`: title, description, priority and due date are all
        replaced by the given entity's values, null description, priority and
        due date included; a null title is refused by the NOT NULL column.
        Id, status and creation date are kept. */
    method AtualizarTarefa(id: int, tarefa: Tarefa) returns (r: Result<Registro, Erro>)
      requires Valid()
      modifies this
      ensures Valid() && Evolves(old(tabela), tabela)
      ensures id !in old(tabela.linhas) ==> r == Failure(NaoEncontrada) && tabela == old(tabela)
      ensures id in old(tabela.linhas) && tarefa.titulo.None? ==>
                r == Failure(TituloNulo) && tabela == old(tabela)
      ensures id in old(tabela.linhas) && tarefa.titulo.Some? ==>
                var antes := old(tabela.linhas[id]);
                && r == Success(antes.(titulo := tarefa.titulo.value, descricao := tarefa.descricao,
                                       prioridade := tarefa.prioridade, dataLimite := tarefa.dataLimite))
                && tabela == old(tabela).(linhas := old(tabela.linhas)[id := r.value])
    {
      var encontrada := FindById(tabela, id);
      if encontrada.None? {
        return Failure(NaoEncontrada);
      }
      var existente := new Tarefa.Load(encontrada.value);
      existente.SetTitulo(tarefa.titulo);
      existente.SetDescricao(tarefa.descricao);
      existente.SetPrioridade(tarefa.prioridade);
      existente.SetDataLimite(tarefa.dataLimite);
      r := SaveExisting(existente);
    }

    /** `excluirTarefa`: a missing id is rejected; otherwise exactly that
        task is removed. */
    method ExcluirTarefa(id: int) returns (r: Result<(), Erro>)
      requires Valid()
      modifies this
      ensures Valid() && Evolves(old(tabela), tabela)
      ensures id !in old(tabela.linhas) ==> r == Failure(NaoEncontrada) && tabela == old(tabela)
      ensures id in old(tabela.linhas) ==>
                r == Success(()) && tabela == old(tabela).(linhas := old(tabela.linhas) - {id})
    {
      if !ExistsById(tabela, id) {
        return Failure(NaoEncontrada);
      }
      tabela := tabela.(linhas := tabela.linhas - {id});
      r := Success(());
    }

    /** `gerarRelatorioTarefasAtrasadas`: every overdue task as of `hoje`,
        each exactly once. Nothing is changed. */
    method GerarRelatorioTarefasAtrasadas(hoje: Date) returns (r: seq<Registro>)
      requires Valid()
      ensures r == FindByStatusNotAndDataLimiteBefore(tabela, Concluido, hoje)
      ensures forall x :: multiset(r)[x] == if Stored(tabela, x) && Atrasada(x, hoje) then 1 else 0
    {
      r := FindByStatusNotAndDataLimiteBefore(tabela, Concluido, hoje);
    }
  }

  /** A task that has just been created is moved three times: the first two
      moves succeed, to "in progress" and then to "concluded", and the third
      is rejected with the table left as it was. */
  method MoveNewTaskThrice(s: TarefaService, titulo: string, hoje: Date)
    returns (criada: Result<Registro, Erro>, m1: Result<Registro, Erro>,
             m2: Result<Registro, Erro>, m3: Result<Registro, Erro>)
    requires s.Valid()
    modifies s
    ensures criada.Success?
    ensures m1.Success? && m1.value.status == EmProgresso
    ensures m2.Success? && m2.value.status == Concluido
    ensures m3 == Failure(JaConcluida)
  {
    var tarefa := new Tarefa.WithFields(Some(titulo), None, None, None, hoje);
    criada := s.CriarTarefa(tarefa, hoje);
    var id := criada.value.id;
    m1 := s.MoverTarefa(id);
    m2 := s.MoverTarefa(id);
    m3 := s.MoverTarefa(id);
  }

  /** Once a task has been deleted, moving, updating or deleting it again is
      rejected as "not found". */
  method DeleteIsTerminal(s: TarefaService, id: int, dados: Tarefa)
    returns (e: Result<(), Erro>, m: Result<Registro, Erro>,
             a: Result<Registro, Erro>, e2: Result<(), Erro>)
    requires s.Valid()
    modifies s
    ensures e.Success? ==>
              && m == Failure(NaoEncontrada)
              && a == Failure(NaoEncontrada)
              && e2 == Failure(NaoEncontrada)
  {
    e := s.ExcluirTarefa(id);
    m := s.MoverTarefa(id);
    a := s.AtualizarTarefa(id, dados);
    e2 := s.ExcluirTarefa(id);
  }

  /** A list holding exactly the rows `a` and `b`, once each, sorted by
      priority, where `a` may not precede `b`: it is `[b, a]`. */
  lemma {:induction false} SortedPair(r: seq<Registro>, a: Registro, b: Registro, nulls: NullOrder)
    requires a != b
    requires forall x :: multiset(r)[x] == if x == a || x == b then 1 else 0
    requires SortedByPrioridade(r, nulls)
    requires !PrioridadeLe(a.prioridade, b.prioridade, nulls)
    ensures r == [b, a]
  {
    assert multiset(r) == multiset{a, b};
    assert |r| == 2 by {
      assert |multiset(r)| == |r|;
    }
    assert r[0] in multiset(r) && r[1] in multiset(r);
  }

  /** A list holding exactly the row `a`, once: it is `[a]`. */
  lemma {:induction false} Singleton(r: seq<Registro>, a: Registro)
    requires forall x :: multiset(r)[x] == if x == a then 1 else 0
    ensures r == [a]
  {
    assert multiset(r) == multiset{a};
    assert |r| == 1 by {
      assert |multiset(r)| == |r|;
    }
    assert r[0] in multiset(r);
  }

  /** On a table holding just the two "to do" tasks `a` and `b`, where `a`
      may not precede `b`, the "to do" column is `[b, a]`. */
  lemma ColumnOfTwo(t: Tabela, a: Registro, b: Registro, nulls: NullOrder)
    requires Valida(t) && a.id != b.id && t.linhas == map[a.id := a, b.id := b]
    requires a.status == AFazer && b.status == AFazer
    requires !PrioridadeLe(a.prioridade, b.prioridade, nulls)
    ensures FindByStatusOrderByPrioridadeAsc(t, AFazer, nulls) == [b, a]
  {
    var r := FindByStatusOrderByPrioridadeAsc(t, AFazer, nulls);
    forall x
      ensures multiset(r)[x] == if x == a || x == b then 1 else 0
    {
      assert Stored(t, x) && x.status == AFazer <==> x == a || x == b;
    }
    SortedPair(r, a, b, nulls);
  }

  /** On a table holding just the tasks `a` and `b`, of which only `a` is
      overdue, the overdue report is `[a]`. */
  lemma ReportOfTwo(t: Tabela, a: Registro, b: Registro, hoje: Date)
    requires Valida(t) && a.id != b.id && t.linhas == map[a.id := a, b.id := b]
    requires Atrasada(a, hoje) && !Atrasada(b, hoje)
    ensures FindByStatusNotAndDataLimiteBefore(t, Concluido, hoje) == [a]
  {
    var r := FindByStatusNotAndDataLimiteBefore(t, Concluido, hoje);
    forall x
      ensures multiset(r)[x] == if x == a then 1 else 0
    {
      assert Stored(t, x) && Atrasada(x, hoje) <==> x == a;
    }
    Singleton(r, a);
  }

  /** Tasks A (priority rank 2, due the day before `hoje`) and B (priority
      rank 0, due a month after `hoje`) created on an empty table. */
  method CreateTwo(hoje: Date) returns (s: TarefaService, a: Registro, b: Registro)
    ensures fresh(s) && s.Valid() && s.nulls == NullsLast
    ensures a.id != b.id && s.tabela.linhas == map[a.id := a, b.id := b]
    ensures a == Registro(a.id, "A", None, hoje, AFazer, Some(2), Some(hoje - 1))
    ensures b == Registro(b.id, "B", None, hoje, AFazer, Some(0), Some(hoje + 30))
  {
    s := new TarefaService(NullsLast);
    var ta := new Tarefa.WithFields(Some("A"), None, Some(2), Some(hoje - 1), hoje);
    var ra := s.CriarTarefa(ta, hoje);
    a := ra.value;
    var tb := new Tarefa.WithFields(Some("B"), None, Some(0), Some(hoje + 30), hoje);
    var rb := s.CriarTarefa(tb, hoje);
    b := rb.value;
  }

  /** Task `a` of a two-task table moved once, then the overdue report as
      of `hoje`. */
  method MoveThenReport(s: TarefaService, a: Registro, b: Registro, hoje: Date)
    returns (movida: Registro, relatorio: seq<Registro>)
    requires s.Valid() && a.id != b.id && s.tabela.linhas == map[a.id := a, b.id := b]
    requires a.status == AFazer && a.dataLimite == Some(hoje - 1) && !Atrasada(b, hoje)
    modifies s
    ensures movida == a.(status := EmProgresso)
    ensures relatorio == [movida]
  {
    var rm := s.MoverTarefa(a.id);
    movida := rm.value;
    assert s.tabela.linhas == map[a.id := movida, b.id := b];
    relatorio := s.GerarRelatorioTarefasAtrasadas(hoje);
    ReportOfTwo(s.tabela, movida, b, hoje);
  }

  /** The board scenario: after `CreateTwo`, the "to do" column lists B
      before A; after A is moved, the overdue report as of `hoje` holds A
      alone, now in progress. */
  method BoardScenario(hoje: Date)
    returns (a: Registro, b: Registro, coluna: seq<Registro>, movida: Registro, relatorio: seq<Registro>)
    ensures a.status == AFazer && b.status == AFazer && a.dataCriacao == hoje
    ensures a.prioridade == Some(2) && b.prioridade == Some(0)
    ensures a.dataLimite == Some(hoje - 1) && b.dataLimite == Some(hoje + 30)
    ensures coluna == [b, a]
    ensures movida == a.(status := EmProgresso)
    ensures relatorio == [movida]
  {
    var s;
    s, a, b := CreateTwo(hoje);
    coluna := s.ListarTarefasPorStatus(AFazer);
    ColumnOfTwo(s.tabela, a, b, NullsLast);
    movida, relatorio := MoveThenReport(s, a, b, hoje);
  }
}
