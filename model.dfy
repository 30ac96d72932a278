/** The task entity `Tarefa`: its status, its priority key, the mutable
    entity object that constructors and setters act on, and the row that the
    table holds once the entity is persisted. */
module Model {
  import opened Wrappers

  /** A calendar date (`LocalDate`) as a day number: earlier dates are smaller. */
  type Date = int

  /** The three columns of the task board, in the order a task moves through them. */
  datatype Status = AFazer | EmProgresso | Concluido

  /** A priority, represented by its rank in the database's ascending order of
      the stored priority name (the enum is stored as text). */
  type Prioridade = nat

  /** The values of the fields of one entity object; a null field is `None`. */
  datatype TarefaState = TarefaState(
    id: Option<nat>,
    titulo: Option<string>,
    descricao: Option<string>,
    dataCriacao: Date,
    status: Status,
    prioridade: Option<Prioridade>,
    dataLimite: Option<Date>)

  /** A persisted row. The id has been assigned by the table, and the columns
      declared NOT NULL (titulo, dataCriacao, status) hold values. */
  datatype Registro = Registro(
    id: nat,
    titulo: string,
    descricao: Option<string>,
    dataCriacao: Date,
    status: Status,
    prioridade: Option<Prioridade>,
    dataLimite: Option<Date>)

  /** The row written for an entity state under the given id. */
  function RowOf(id: nat, e: TarefaState): Registro
    requires e.titulo.Some?
  {
    Registro(id, e.titulo.value, e.descricao, e.dataCriacao, e.status, e.prioridade, e.dataLimite)
  }

  /** The mutable entity object. Its getters are plain field reads. */
  class Tarefa {
    var id: Option<nat>
    var titulo: Option<string>
    var descricao: Option<string>
    var dataCriacao: Date
    var status: Status
    var prioridade: Option<Prioridade>
    var dataLimite: Option<Date>

    /** All fields at once. */
    function State(): TarefaState
      reads this
    {
      TarefaState(id, titulo, descricao, dataCriacao, status, prioridade, dataLimite)
    }

    /** The no-argument constructor: no id, status "to do", created today,
        every other field null. */
    constructor (hoje: Date)
      ensures State() == TarefaState(None, None, None, hoje, AFazer, None, None)
    {
      id := None;
      titulo := None;
      descricao := None;
      dataCriacao := hoje;
      status := AFazer;
      prioridade := None;
      dataLimite := None;
    }

    /** The four-argument constructor: the defaults of the no-argument
        constructor, then the four given fields. */
    constructor WithFields(titulo: Option<string>, descricao: Option<string>,
                           prioridade: Option<Prioridade>, dataLimite: Option<Date>, hoje: Date)
      ensures State() == TarefaState(None, titulo, descricao, hoje, AFazer, prioridade, dataLimite)
    {
      this.id := None;
      this.dataCriacao := hoje;
      this.status := AFazer;
      this.titulo := titulo;
      this.descricao := descricao;
      this.prioridade := prioridade;
      this.dataLimite := dataLimite;
    }

    /** An entity materialised from a stored row, as the persistence layer
        does when a task is looked up by id. */
    constructor Load(r: Registro)
      ensures State() == TarefaState(Some(r.id), Some(r.titulo), r.descricao, r.dataCriacao,
                                     r.status, r.prioridade, r.dataLimite)
    {
      id := Some(r.id);
      titulo := Some(r.titulo);
      descricao := r.descricao;
      dataCriacao := r.dataCriacao;
      status := r.status;
      prioridade := r.prioridade;
      dataLimite := r.dataLimite;
    }

    method SetId(v: Option<nat>)
      modifies this
      ensures State() == old(State()).(id := v)
    {
      id := v;
    }

    method SetTitulo(v: Option<string>)
      modifies this
      ensures State() == old(State()).(titulo := v)
    {
      titulo := v;
    }

    method SetDescricao(v: Option<string>)
      modifies this
      ensures State() == old(State()).(descricao := v)
    {
      descricao := v;
    }

    method SetDataCriacao(v: Date)
      modifies this
      ensures State() == old(State()).(dataCriacao := v)
    {
      dataCriacao := v;
    }

    method SetStatus(v: Status)
      modifies this
      ensures State() == old(State()).(status := v)
    {
      status := v;
    }

    method SetPrioridade(v: Option<Prioridade>)
      modifies this
      ensures State() == old(State()).(prioridade := v)
    {
      prioridade := v;
    }

    method SetDataLimite(v: Option<Date>)
      modifies this
      ensures State() == old(State()).(dataLimite := v)
    {
      dataLimite := v;
    }
  }
}
