/** The task table and the four derived queries that `TarefaRepository`
    declares. Each query is a pure function of the table: a query never
    changes what is stored. */
module Repository {
  import opened Wrappers
  import opened Model

  /** The stored rows by id, and the identity counter that gives the next
      inserted row its id. */
  datatype Tabela = Tabela(linhas: map<nat, Registro>, proximoId: nat)

  /** Each row is stored under its own id. */
  ghost predicate KeyedById(linhas: map<nat, Registro>) {
    forall k :: k in linhas ==> linhas[k].id == k
  }

  /** A well-formed table: rows keyed by their ids, and every id already
      handed out by the identity counter. */
  ghost predicate Valida(t: Tabela) {
    && KeyedById(t.linhas)
    && forall k :: k in t.linhas ==> k < t.proximoId
  }

  /** Row `x` is stored in `t`. */
  predicate Stored(t: Tabela, x: Registro) {
    x.id in t.linhas && t.linhas[x.id] == x
  }

  /** `existsById`: some stored row carries `id`. Any `Long` may be asked
      for; a negative one is never stored. */
  predicate ExistsById(t: Tabela, id: int)
    ensures id < 0 ==> !ExistsById(t, id)
  {
    id in t.linhas
  }

  /** In a table keyed by id, an id exists exactly when some stored row
      carries it. */
  lemma ExistsByIdStored(t: Tabela, id: int)
    requires KeyedById(t.linhas)
    ensures ExistsById(t, id) <==> exists x :: Stored(t, x) && x.id == id
  {
    if id in t.linhas {
      assert Stored(t, t.linhas[id]);
    }
  }

  /** `findById`: the row stored under `id`, present exactly when
      `existsById` holds. */
  function FindById(t: Tabela, id: int): (r: Option<Registro>)
    ensures r.Some? <==> ExistsById(t, id)
    ensures KeyedById(t.linhas) && r.Some? ==> Stored(t, r.value) && r.value.id == id
  {
    if id in t.linhas then Some(t.linhas[id]) else None
  }

  /** The rows appear in ascending primary-key order (so no row twice). */
  predicate IdsIncreasing(s: seq<Registro>) {
    forall i, j :: 0 <= i < j < |s| ==> s[i].id < s[j].id
  }

  /** A scan of the ids below `n`, in primary-key order, keeping the rows that
      satisfy `p`. */
  function Select(linhas: map<nat, Registro>, n: nat, p: Registro -> bool): (r: seq<Registro>)
    requires KeyedById(linhas)
    ensures IdsIncreasing(r)
    ensures forall x :: x in r <==> x.id < n && x.id in linhas && linhas[x.id] == x && p(x)
  {
    if n == 0 then []
    else
      var prefix := Select(linhas, n - 1, p);
      if n - 1 in linhas && p(linhas[n - 1]) then prefix + [linhas[n - 1]] else prefix
  }

  /** In a sequence in ascending id order, every row occurs at most once. */
  lemma {:induction false} OccursOnce(s: seq<Registro>)
    requires IdsIncreasing(s)
    ensures forall x :: multiset(s)[x] == if x in s then 1 else 0
  {
    if s != [] {
      OccursOnce(s[1..]);
      assert s == [s[0]] + s[1..];
      forall j | 0 <= j < |s[1..]|
        ensures s[1..][j] != s[0]
      {
        assert s[1..][j].id == s[j + 1].id;
      }
    }
  }

  /** A derived "find by" query: every stored row satisfying `p`, each
      exactly once, in primary-key order. */
  function Query(t: Tabela, p: Registro -> bool): (r: seq<Registro>)
    requires Valida(t)
    ensures IdsIncreasing(r)
    ensures forall x :: multiset(r)[x] == if Stored(t, x) && p(x) then 1 else 0
  {
    var r := Select(t.linhas, t.proximoId, p);
    OccursOnce(r);
    r
  }

  /** Where the database places rows whose priority is null in an ascending
      sort: this differs from one database to another. */
  datatype NullOrder = NullsFirst | NullsLast

  /** Priority `a` may come before priority `b` in an ascending sort. */
  predicate PrioridadeLe(a: Option<Prioridade>, b: Option<Prioridade>, nulls: NullOrder) {
    match (a, b)
    case (Some(x), Some(y)) => x <= y
    case (None, None) => true
    case (None, Some(_)) => nulls == NullsFirst
    case (Some(_), None) => nulls == NullsLast
  }

  /** The priority order is a total preorder, whichever way nulls are placed. */
  lemma PrioridadeLeTotal(a: Option<Prioridade>, b: Option<Prioridade>, nulls: NullOrder)
    ensures PrioridadeLe(a, b, nulls) || PrioridadeLe(b, a, nulls)
  {
  }

  lemma PrioridadeLeTransitive(a: Option<Prioridade>, b: Option<Prioridade>, c: Option<Prioridade>, nulls: NullOrder)
    requires PrioridadeLe(a, b, nulls) && PrioridadeLe(b, c, nulls)
    ensures PrioridadeLe(a, c, nulls)
  {
  }

  /** Rows in ascending priority order. */
  predicate SortedByPrioridade(s: seq<Registro>, nulls: NullOrder) {
    forall i, j :: 0 <= i < j < |s| ==> PrioridadeLe(s[i].prioridade, s[j].prioridade, nulls)
  }

  /** `x` placed into a priority-sorted sequence. */
  function InsertSorted(x: Registro, s: seq<Registro>, nulls: NullOrder): (r: seq<Registro>)
    requires SortedByPrioridade(s, nulls)
    ensures SortedByPrioridade(r, nulls)
    ensures multiset(r) == multiset(s) + multiset{x}
  {
    if s == [] then [x]
    else if PrioridadeLe(x.prioridade, s[0].prioridade, nulls) then
      InsertFrontSorted(x, s, nulls);
      [x] + s
    else
      var rest := InsertSorted(x, s[1..], nulls);
      assert s == [s[0]] + s[1..];
      PrioridadeLeTotal(x.prioridade, s[0].prioridade, nulls);
      InsertBehindSorted(s[0], rest, x, s[1..], nulls);
      [s[0]] + rest
  }

  lemma InsertFrontSorted(x: Registro, s: seq<Registro>, nulls: NullOrder)
    requires SortedByPrioridade(s, nulls) && s != []
    requires PrioridadeLe(x.prioridade, s[0].prioridade, nulls)
    ensures SortedByPrioridade([x] + s, nulls)
  {
    forall j | 0 <= j < |s|
      ensures PrioridadeLe(x.prioridade, s[j].prioridade, nulls)
    {
      if j > 0 {
        PrioridadeLeTransitive(x.prioridade, s[0].prioridade, s[j].prioridade, nulls);
      }
    }
  }

  lemma InsertBehindSorted(y: Registro, rest: seq<Registro>, x: Registro, tail: seq<Registro>, nulls: NullOrder)
    requires SortedByPrioridade(rest, nulls)
    requires multiset(rest) == multiset(tail) + multiset{x}
    requires PrioridadeLe(y.prioridade, x.prioridade, nulls)
    requires forall z :: z in tail ==> PrioridadeLe(y.prioridade, z.prioridade, nulls)
    ensures SortedByPrioridade([y] + rest, nulls)
  {
    forall j | 0 <= j < |rest|
      ensures PrioridadeLe(y.prioridade, rest[j].prioridade, nulls)
    {
      assert rest[j] in multiset(rest);
    }
  }

  /** Sorting by ascending priority: a sorted permutation of the input. */
  function SortByPrioridade(s: seq<Registro>, nulls: NullOrder): (r: seq<Registro>)
    ensures SortedByPrioridade(r, nulls)
    ensures multiset(r) == multiset(s)
  {
    if s == [] then []
    else
      assert s == [s[0]] + s[1..];
      InsertSorted(s[0], SortByPrioridade(s[1..], nulls), nulls)
  }

  /** `findByStatusOrderByPrioridadeAsc`: the tasks with the given status,
      each exactly once, in ascending priority order. */
  function FindByStatusOrderByPrioridadeAsc(t: Tabela, status: Status, nulls: NullOrder): (r: seq<Registro>)
    requires Valida(t)
    ensures SortedByPrioridade(r, nulls)
    ensures forall x :: multiset(r)[x] == if Stored(t, x) && x.status == status then 1 else 0
  {
    SortByPrioridade(Query(t, (x: Registro) => x.status == status), nulls)
  }

  /** `findByPrioridade`: the tasks whose priority equals the argument (a null
      argument selects the tasks without priority), each exactly once. */
  function FindByPrioridade(t: Tabela, prioridade: Option<Prioridade>): (r: seq<Registro>)
    requires Valida(t)
    ensures forall x :: multiset(r)[x] == if Stored(t, x) && x.prioridade == prioridade then 1 else 0
  {
    Query(t, (x: Registro) => x.prioridade == prioridade)
  }

  /** `findByDataLimite`: the tasks whose due date equals the argument (a null
      argument selects the tasks without due date), each exactly once. */
  function FindByDataLimite(t: Tabela, dataLimite: Option<Date>): (r: seq<Registro>)
    requires Valida(t)
    ensures forall x :: multiset(r)[x] == if Stored(t, x) && x.dataLimite == dataLimite then 1 else 0
  {
    Query(t, (x: Registro) => x.dataLimite == dataLimite)
  }

  /** `findByStatusNotAndDataLimiteBefore`: the tasks whose status differs from
      the argument and whose due date lies strictly before the given date,
      each exactly once. A task without due date never matches. */
  function FindByStatusNotAndDataLimiteBefore(t: Tabela, status: Status, data: Date): (r: seq<Registro>)
    requires Valida(t)
    // A corollary of the next clause, stated on its own for readers.
    ensures forall x :: x in r ==> x.dataLimite.Some?
    ensures forall x :: multiset(r)[x] ==
                          (if Stored(t, x) && x.status != status && x.dataLimite.Some? && x.dataLimite.value < data
                           then 1 else 0)
  {
    Query(t, (x: Registro) => x.status != status && x.dataLimite.Some? && x.dataLimite.value < data)
  }
}
