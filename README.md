# Task board service: a verified model

This project models the task-tracking backend of the `atividade` Spring
application. Tasks (`Tarefa`) sit on a three-column board: "a fazer" (to do),
"em progresso" (in progress) and "concluído" (done). The service `TarefaService`:

- creates a task. Its status is forced to "a fazer" and its creation date to
  today.
- moves a task exactly one column to the right. A task that is already
  concluded, or a missing id, is rejected.
- overwrites a task's title, description, priority and due date.
- deletes a task.
- lists one column sorted by ascending priority.
- reports the overdue tasks: not concluded, and due strictly before today.

The queries are the derived queries declared by `TarefaRepository`.

Modules follow the Java packages:

- `Wrappers` (wrappers.dfy) holds `Option`, for Java's nullable references, and
  `Result`, for an operation that either returns or throws.
- `Model` (model.dfy) models `Tarefa.java`.
  - `Status` is a three-constructor datatype.
  - A priority is a `nat`: the rank of its stored name in the database's
    ascending order.
  - Dates are day numbers.
  - `class Tarefa` is the mutable entity, with the two constructors of the source
    and one setter per field.
  - `Registro` is a persisted row. In it, the NOT NULL columns (title, creation
    date, status) and the id always hold values.
- `Repository` (repository.dfy) models `TarefaRepository.java`.
  - The table `Tabela` maps ids to rows. It also holds the identity counter that
    gives a new row its id.
  - The four declared queries are pure functions of the table, so no query
    changes what is stored.
  - A "find by" query scans the table in primary-key order.
  - `FindByStatusOrderByPrioridadeAsc` then sorts the result by priority. Where
    null priorities go is a parameter, because databases disagree on it.
- `Service` (service.dfy) models `TarefaService.java`.
  - `class TarefaService` holds the table.
  - `CriarTarefa` overwrites the status and creation date of the caller's
    entity through its setters, then inserts it under a fresh id.
  - `MoverTarefa` and `AtualizarTarefa` load the entity from its row, change it
    through the setters, and save it back.
  - `ExcluirTarefa` checks that the id exists, then deletes that row.
  - The two reports delegate to the repository queries.
  - `Proximo` and `Rank` give the status machine as a function.
  - `Evolves` is the relation that every modelled operation keeps between the
    old table and the new one (a create of an entity that already carries an id
    is not modelled; see "## Left out"):
    - a newly appearing id was never handed out before.
    - creation dates never change.
    - no task moves back on the board.
  - `Historia` is a run of tables linked by `Evolves`. Over a run, a deleted id
    never comes back (`DeletedStaysDeleted`), and a task present at both ends
    kept its creation date and never moved left (`SurvivorKeeps`).
  - The client methods at the end check, from the contracts alone, the scenarios
    of a task moved three times, of a deleted id, and of a two-task board.

"Today" (`LocalDate.now()`) is a parameter `hoje` of the operations that read
the clock.

The model follows the source code in two places where a reader might expect
otherwise:

- The source declares the title column `nullable = false` and checks nothing
  else about titles. So a create or update whose title is null is refused with
  the error `TituloNulo`, and nothing is stored. An empty title is accepted.
- The source throws one exception type both for a missing id and for a task
  that is already concluded. The model distinguishes them as `NaoEncontrada`
  and `JaConcluida`.

## Model

| member | source | states |
|---|---|---|
| `Model.Tarefa.constructor` | atividade/src/main/java/com/example/atividade/model/Tarefa.java:31-34 | a new entity has no id, status "a fazer", today as creation date, and every other field null |
| `Model.Tarefa.WithFields` | atividade/src/main/java/com/example/atividade/model/Tarefa.java:36-42 | the no-argument defaults (no id, "a fazer", created today), with title, description, priority and due date set to the arguments |
| `Model.Tarefa.Load` | atividade/src/main/java/com/example/atividade/model/Tarefa.java:9-28 | an entity materialised from a stored row carries that row's id and field values |
| `Model.Tarefa.SetId` | atividade/src/main/java/com/example/atividade/model/Tarefa.java:49-51 | only the id changes, to the given value |
| `Model.Tarefa.SetTitulo` | atividade/src/main/java/com/example/atividade/model/Tarefa.java:57-59 | only the title changes, to the given value |
| `Model.Tarefa.SetDescricao` | atividade/src/main/java/com/example/atividade/model/Tarefa.java:65-67 | only the description changes, to the given value |
| `Model.Tarefa.SetDataCriacao` | atividade/src/main/java/com/example/atividade/model/Tarefa.java:73-75 | only the creation date changes, to the given value |
| `Model.Tarefa.SetStatus` | atividade/src/main/java/com/example/atividade/model/Tarefa.java:81-83 | only the status changes, to the given value |
| `Model.Tarefa.SetPrioridade` | atividade/src/main/java/com/example/atividade/model/Tarefa.java:89-91 | only the priority changes, to the given value |
| `Model.Tarefa.SetDataLimite` | atividade/src/main/java/com/example/atividade/model/Tarefa.java:97-99 | only the due date changes, to the given value |
| `Repository.ExistsById` | atividade/src/main/java/com/example/atividade/service/TarefaService.java:93 | a negative id never exists |
| `Repository.ExistsByIdStored` | atividade/src/main/java/com/example/atividade/service/TarefaService.java:93 | in a table keyed by id, an id exists exactly when some stored row carries it |
| `Repository.FindById` | atividade/src/main/java/com/example/atividade/service/TarefaService.java:48 | a row is found exactly when the id exists, and the row found is the stored row carrying that id |
| `Repository.Select` | atividade/src/main/java/com/example/atividade/repository/TarefaRepository.java:12 | a scan of the ids below a bound yields a row exactly when it is stored under its id below the bound and satisfies the filter, in strictly ascending id order |
| `Repository.OccursOnce` | atividade/src/main/java/com/example/atividade/repository/TarefaRepository.java:12 | in a list in ascending id order every row occurs at most once |
| `Repository.Query` | atividade/src/main/java/com/example/atividade/repository/TarefaRepository.java:12 | a derived query returns every stored row that satisfies its filter exactly once, and nothing else |
| `Repository.InsertSorted` | atividade/src/main/java/com/example/atividade/repository/TarefaRepository.java:14-15 | inserting into a priority-sorted list keeps it sorted and adds exactly that row |
| `Repository.SortByPrioridade` | atividade/src/main/java/com/example/atividade/repository/TarefaRepository.java:14-15 | the result is sorted by ascending priority and is a permutation of the input |
| `Repository.PrioridadeLeTotal` | atividade/src/main/java/com/example/atividade/model/Tarefa.java:25-26 | any two priorities, null included, are comparable |
| `Repository.PrioridadeLeTransitive` | atividade/src/main/java/com/example/atividade/model/Tarefa.java:25-26 | the priority order is transitive, wherever nulls are placed |
| `Repository.FindByStatusOrderByPrioridadeAsc` | atividade/src/main/java/com/example/atividade/repository/TarefaRepository.java:14-15 | every stored task with the given status occurs exactly once, no other task occurs, and the list is in ascending priority order |
| `Repository.FindByPrioridade` | atividade/src/main/java/com/example/atividade/repository/TarefaRepository.java:17-18 | exactly the stored tasks whose priority equals the argument, each once; a null argument selects the tasks without priority |
| `Repository.FindByDataLimite` | atividade/src/main/java/com/example/atividade/repository/TarefaRepository.java:20-21 | exactly the stored tasks whose due date equals the argument, each once; a null argument selects the tasks without due date |
| `Repository.FindByStatusNotAndDataLimiteBefore` | atividade/src/main/java/com/example/atividade/repository/TarefaRepository.java:23-24 | exactly the stored tasks with a status other than the argument and a due date strictly before the given date, each once; a task without due date never occurs |
| `Service.Proximo` | atividade/src/main/java/com/example/atividade/service/TarefaService.java:55-59 | a move has no next status exactly from "concluído"; otherwise the next status is one column to the right |
| `Service.AdvanceBound` | atividade/src/main/java/com/example/atividade/service/TarefaService.java:55-59 | from status s, k successive moves all succeed if and only if k is at most 2 minus the column of s, and they end k columns further right |
| `Service.Advance` | atividade/src/main/java/com/example/atividade/service/TarefaService.java:55-59 | after k successive successful moves, a task stands k columns further right |
| `Service.Atrasada` | atividade/src/main/java/com/example/atividade/service/TarefaService.java:105 | a task is overdue exactly when the status machine still allows it a move and its due date is before today; a task without due date is never overdue |
| `Service.Evolves` | atividade/src/main/java/com/example/atividade/model/Tarefa.java:9-19 | a table that does not change evolves into itself, so every rejected operation keeps the relation |
| `Service.EvolvesTransitive` | atividade/src/main/java/com/example/atividade/model/Tarefa.java:18-19 | the relation composes: between the first and the last of three successive tables, the counter has not gone back, new ids were never handed out before, creation dates are kept and no task has moved left |
| `Service.HandedOut` | atividade/src/main/java/com/example/atividade/model/Tarefa.java:9-10 | over a run of operations, an id once stored stays below the identity counter from then on |
| `Service.DeletedStaysDeleted` | atividade/src/main/java/com/example/atividade/service/TarefaService.java:92-96 | over a run of operations, an id that was stored and then is absent stays absent at every later step, so it is never reassigned |
| `Service.PresentBetween` | atividade/src/main/java/com/example/atividade/model/Tarefa.java:9-10 | over a run of operations, an id stored at two steps is stored at every step between them |
| `Service.SurvivorKeeps` | atividade/src/main/java/com/example/atividade/model/Tarefa.java:18-19 | over a run of operations, a task present at both ends has kept its creation date and has not moved left on the board |
| `Service.TarefaService.constructor` | atividade/src/main/java/com/example/atividade/service/TarefaService.java:16-17 | the service starts over an empty, well-formed table whose identity counter starts at 1 |
| `Service.TarefaService.SaveNew` | atividade/src/main/java/com/example/atividade/service/TarefaService.java:28 | a null title is refused with nothing stored; otherwise the row is inserted under the next identity value, and that id is written back into the entity |
| `Service.TarefaService.SaveExisting` | atividade/src/main/java/com/example/atividade/service/TarefaService.java:84 | a null title is refused with nothing stored; otherwise only that task's row is overwritten, and its stored creation date is kept because the column is not updatable |
| `Service.TarefaService.CriarTarefa` | atividade/src/main/java/com/example/atividade/service/TarefaService.java:25-29 | whatever status and creation date an entity without id carries, the stored task is "a fazer", created today, under an id not in use before; the other four fields come from the input, no other row changes and the identity counter goes up by one; the caller's entity changes only in status, creation date and (on success) id; a null title is refused and nothing is stored |
| `Service.TarefaService.ListarTarefasPorStatus` | atividade/src/main/java/com/example/atividade/service/TarefaService.java:36-38 | returns the repository's column query: exactly the stored tasks with that status, sorted by priority; nothing changes |
| `Service.TarefaService.MoverTarefa` | atividade/src/main/java/com/example/atividade/service/TarefaService.java:47-62 | a missing id fails "not found" and a concluded task fails "already concluded", both with the table unchanged; otherwise only that task's status changes, one column to the right |
| `Service.TarefaService.AtualizarTarefa` | atividade/src/main/java/com/example/atividade/service/TarefaService.java:71-85 | a missing id fails "not found" with the table unchanged; a null input title fails "null title" with the table unchanged; otherwise title, description, priority and due date take the input's values (a null description, priority or due date included), while id, status, creation date and all other tasks are unchanged |
| `Service.TarefaService.ExcluirTarefa` | atividade/src/main/java/com/example/atividade/service/TarefaService.java:92-97 | a missing id fails "not found" with the table unchanged; otherwise exactly that id is removed and every other row is untouched |
| `Service.TarefaService.GerarRelatorioTarefasAtrasadas` | atividade/src/main/java/com/example/atividade/service/TarefaService.java:104-106 | every stored task that is not concluded and is due strictly before today occurs exactly once, and no other task occurs; nothing changes |
| `Service.MoveNewTaskThrice` | atividade/src/main/java/com/example/atividade/service/TarefaService.java:55-58 | a newly created task moves to "em progresso", then to "concluído", and a third move is rejected as already concluded |
| `Service.DeleteIsTerminal` | atividade/src/main/java/com/example/atividade/service/TarefaService.java:92-96 | after a successful delete, moving, updating or deleting the same id fails as not found |
| `Service.ColumnOfTwo` | atividade/src/main/java/com/example/atividade/repository/TarefaRepository.java:14-15 | with two "a fazer" tasks, the one of lower priority is listed first |
| `Service.ReportOfTwo` | atividade/src/main/java/com/example/atividade/service/TarefaService.java:104-105 | with one overdue task and one that is not overdue, the report holds only the overdue one |
| `Service.CreateTwo` | atividade/src/main/java/com/example/atividade/service/TarefaService.java:25-28 | two tasks created on an empty table get distinct ids and are stored "a fazer", created today, with the fields given |
| `Service.MoveThenReport` | atividade/src/main/java/com/example/atividade/service/TarefaService.java:54-61 | a task that is overdue and "a fazer" is still overdue after one move, now "em progresso" |
| `Service.BoardScenario` | atividade/src/main/java/com/example/atividade/service/TarefaService.java:36-37 | A (priority rank 2, due the day before today) and B (priority rank 0, due 30 days after today): the "a fazer" column is [B, A]; after A moves, the overdue report is [A] |

## Left out

- The HTTP controller (`TarefaController.java`) is not part of this model. It
  routes requests and maps exceptions to response codes.
- Spring dependency injection is not modelled. The service owns its table.
- The wall clock is not modelled. `LocalDate.now()` becomes the parameter `hoje`.
- Concurrent read-modify-write of one id is not modelled. The model is
  sequential, and the outcome of such a race belongs to the database.
- `Service.TarefaService.CriarTarefa` always inserts under a fresh id. When the
  caller's entity already carries an id, `save` merges instead of inserting.
  That case is reachable: a request body may carry an id, which reaches the
  entity through `setId`. With the id of a stored task, the merge overwrites
  that row: its status returns to "a fazer", even from "concluído", and its
  title, description, priority and due date are replaced (its stored creation
  date stays, the column being not updatable). So `Service.Evolves`,
  `Service.EvolvesTransitive` and `Service.SurvivorKeeps` ("no task moves back
  on the board") hold only for creates of entities without an id.
- The concrete `Prioridade` enum is not part of this model, because its source
  is not available.
  - A priority is its rank in the database's order of the stored names.
  - Where null priorities go is the `NullOrder` setting.
- `Repository.FindByStatusOrderByPrioridadeAsc`: the order among tasks of equal
  priority is not stated. The source leaves it to the database.
- `Service.TarefaService.GerarRelatorioTarefasAtrasadas`: the order of the
  report is not stated. The source leaves it to the database. (The model scans
  in id order.)
- Getters are not separate members. They are plain field reads of
  `Model.Tarefa`.
- `Model.Tarefa.SetStatus` does not accept null: the status field has a
  non-null type. The service only passes constant statuses, and the column is
  NOT NULL.
- `Model.Tarefa.SetDataCriacao` does not accept null: the creation-date field
  has a non-null type. The service only passes today's date, and the column is
  NOT NULL.
- The only store failure modelled is a NOT NULL title. Other failures propagate
  unchanged in the source: connectivity, and any other constraint.
- Identity values that a database may consume on a failed insert are not
  modelled. Stored ids are unbounded naturals, so the 64-bit `Long` limit is
  left out.
- The id arguments of moving, updating and deleting are unbounded integers. A
  negative id is accepted and fails "not found", as in the source. A null id
  argument is not modelled.
- The entity object returned by `save` is modelled as the row's value. The fact
  that, in the source, it is the caller's own object is left out.
- `findByStatusOrderByPrioridadeAsc` and `findByStatusNotAndDataLimiteBefore`
  take a non-null status and date in the model.
  - `listarTarefasPorStatus` passes on its caller's status, and the controller
    never passes null. A null status would select nothing, since the column is
    NOT NULL.
  - The overdue report passes `CONCLUIDO` and today's date, never null.
