# GlobalQHSE learning platform — verified model of the business rules

GlobalQHSE is a Django learning-management system. Companies sign training
contracts (`Contrato`) for courses (`Curso`). A course is split into sub-courses
(`Subcurso`) and modules (`Modulo`) and ends with a test (`Prueba`). Students
(`Estudiante`) register with their company's organisation code. They work
through the content and sit the test, and they get a certificate
(`Certificado`) once the course is complete.

This project models the rules behind that flow in Dafny and proves properties
about them:

- **Grading** (`grading.dfy`, module `Grading`): `EstudiantePrueba.calificar`.
  - It counts case-insensitive exact matches of the submitted answers.
  - The score is `correct / total × 100`, and the attempt passes at 60 or more.
  - The attempt counter goes up by one, and a test without questions is an error.
- **Course progress** (`progress.dfy`, module `CourseProgress`): `Progreso.calcular_porcentaje_completado`.
  - It averages the sub-course percentages and weighs them 0.5/0.3/0.2 (content, simulation, test) or 0.8/0.2 (content, test).
  - It rounds to hundredths, treats anything from 99 up as 100, and sets the completion flags.
- **Certificates** (`certificates.dfy`, module `Certificates`): the guard chain of `Certificado.emitir_certificado` and the insert of one certificate row.
- **Contracts** (`contracts.dfy`, module `Contracts`):
  - date validation (`clean`)
  - the organisation-code policy of `save`
  - the contract table with its "one active contract per instructor and course" constraint
- **Expired-contract sweep** (`sweep.dfy`, module `ContractSweep`): the `inactivar_contratos` management command.
- **Registration** (`enrollment.dfy`, module `Enrollment`):
  - `Estudiante.save` checks the organisation code.
  - `Estudiante.crear_estudiante_con_cursos` creates the incomplete progress, test, sub-course and module rows for every contracted course.
- **Counters** (`signals.dfy`, module `Signals`): the post-save and post-delete handlers that maintain `Subcurso.cantidad_modulos` and `Curso.cantidadSubcursos`.
- `base.dfy` (module `Base`) holds the shared vocabulary:
  - nullable values
  - outcomes
  - Python truthiness of nullable booleans
  - ASCII `lower()`/`upper()`

The shape of the model follows the shape of the code:

- Code that updates a record in place becomes a class whose methods update fields. This covers `calificar` and `calcular_porcentaje_completado`, the certificate and contract tables, and the counter catalogue.
- Loops become `while` loops with invariants. Each is proved against a specification function: `Aciertos`, `SumaAvance`, `Barrido` and the `Filas…` functions.
- Pure decisions become functions: the weighting, the normalisation, the guard chain, `clean` and the code policy.

Database tables are sequences or maps of rows.

Two facts about the code shape the model:

- **Grading score.** `Pregunta.puntajePregunta` is stored, but `calificar` never reads it. The score is the unweighted share of correct answers.
- **Save in the sweep.** The sweep re-saves each contract through `Contrato.save`. The code policy therefore runs again, and it keeps the stored code because that code is never empty.

## Model

| member | source | states |
|---|---|---|
| `Base.Truthy` | globalqhse/models.py:294 | a nullable flag counts as true exactly when it is `True`; `None` counts as false |
| `Base.Lower` | globalqhse/models.py:455 | `lower()` keeps the length and lower-cases each character |
| `Base.Upper` | globalqhse/models.py:180 | `upper()` keeps the length and upper-cases each character |
| `Base.LowerIdempotent` | globalqhse/models.py:455 | lower-casing twice is lower-casing once, so the answer comparison is an equivalence modulo case |
| `Grading.Respuesta` | globalqhse/models.py:455 | the answer submitted for a question is the one stored under its id, and "" when it was left unanswered |
| `Grading.Acierta` | globalqhse/models.py:455 | a question is right when the lower-cased answer equals the lower-cased key; an exact match is always right, a right answer has the key's length, and an empty key is matched only by an empty answer |
| `Grading.Aciertos` | globalqhse/models.py:453-456 | the number of correct answers never exceeds the number of questions |
| `Grading.Calificacion` | globalqhse/models.py:458 | the score times the number of questions is 100 times the number of correct answers |
| `Grading.AciertosTodos` | globalqhse/models.py:453-456 | the count of correct answers equals the number of questions iff every question is answered right |
| `Grading.AciertosNinguno` | globalqhse/models.py:453-456 | the count of correct answers is 0 iff no question is answered right |
| `Grading.CalificacionExtremos` | globalqhse/models.py:453-458 | the score of an attempt on a test with questions is 100 iff every question is answered right, and 0 iff none is |
| `Grading.CalificacionRango` | globalqhse/models.py:458-459 | for a count of correct answers out of a positive total: the score is in [0, 100]; it is 100 iff the count equals the total and 0 iff the count is 0; it passes (>= 60) iff 100·correct >= 60·total |
| `Grading.EstudiantePrueba.constructor` | globalqhse/models.py:438-440 | a new attempt row is not passed, scored 0 and at attempt 0 |
| `Grading.EstudiantePrueba.Calificar` | globalqhse/models.py:446-468 | no questions: fails with "No hay preguntas…" and changes nothing; otherwise the score is `Calificacion(Aciertos, n)`, the pass flag holds iff the score is >= 60, and the attempt counter goes up by exactly one |
| `Grading.AciertosIgnoraMayusculas` | globalqhse/models.py:455 | answers that differ only in letter case earn the same number of correct answers |
| `Grading.AciertosTodoCorrecto` | globalqhse/models.py:453-456 | submitting every answer key, in any case, gets every question right |
| `Grading.SinRespuestaSoloClaveVacia` | globalqhse/models.py:455 | an unanswered question counts as correct only when its answer key is empty |
| `Grading.UmbralInclusivo` | globalqhse/models.py:458-459 | the pass mark is inclusive: 3 of 5 scores exactly 60 and passes; 2 of 4 scores 50 and fails |
| `CourseProgress.Round2` | globalqhse/models.py:326 | the result is a whole number of hundredths within 0.005 of the input |
| `CourseProgress.Round2Centesimas` | globalqhse/models.py:326 | rounding leaves a whole number of hundredths unchanged |
| `CourseProgress.Round2Rango` | globalqhse/models.py:326 | rounding keeps a percentage within [0, 100] |
| `CourseProgress.Normalizar` | globalqhse/models.py:327-328 | values >= 99 become exactly 100; values below 99 are kept; the result is 100 or below 99 |
| `CourseProgress.Round2Umbral` | globalqhse/models.py:326-328 | a value rounds to 99 or more exactly when it is at least 98.995 (the tie goes up, to the even hundredth) |
| `CourseProgress.SumaAvance` | globalqhse/models.py:282-288 | the sum over the course's sub-courses of the student's row percentage, a missing row counting 0; with no rows at all it is 0 |
| `CourseProgress.PorcentajeContenido` | globalqhse/models.py:278-291 | the average of that sum over the sub-courses: times the number of sub-courses it gives back the sum, and a course without sub-courses (divisor 1) scores 0 |
| `CourseProgress.Ponderado` | globalqhse/models.py:294-323 | the weighted value 0.5/0.3/0.2 (content, simulation, test) or 0.8/0.2 (content, test): in [0, 100] for content in range; at most 80 without a passed test; at most 70 on a simulation course without the simulation; exactly 100 with full content and every required component |
| `CourseProgress.PorcentajeCurso` | globalqhse/models.py:326-328 | the stored value, weighted, rounded and normalised: either 100 or below 99, and 100 exactly when the weighted value is at least 98.995 |
| `CourseProgress.SumaAvanceRango` | globalqhse/models.py:282-288 | with sub-course percentages in range the sum lies in [0, 100·n], and it equals 100·n iff every sub-course has a row at 100 % |
| `CourseProgress.ContenidoRango` | globalqhse/models.py:278-291 | the content percentage is in [0, 100]; it is 100 iff the course has sub-courses and all of them are at 100 % (a course without sub-courses divides by 1 and scores 0) |
| `CourseProgress.PorcentajeCursoRango` | globalqhse/models.py:299-328 | the stored course percentage is in [0, 100] and is either exactly 100 or below 99 |
| `CourseProgress.CompletarRequierePruebaYSimulacion` | globalqhse/models.py:294-332 | a course reaches 100 only with a passed test, and a simulation course only with the simulation done |
| `CourseProgress.ToleranciaCompletaSinContenidoCompleto` | globalqhse/models.py:299-332 | 98 % content with the simulation done and the test passed weighs 99 and is stored as 100 (complete) although the content is not complete |
| `CourseProgress.PesosConSimulacion` | globalqhse/models.py:299-312 | two sub-courses at 100 %, the simulation done and the test passed give exactly 100 |
| `CourseProgress.PesosSinSimulacion` | globalqhse/models.py:313-323 | without a simulation: full content and no test attempt give 80 (not complete); one sub-course at 50 % gives content 50 and course 40 |
| `CourseProgress.Progreso.constructor` | globalqhse/models.py:254-257 | a new progress row is incomplete at 0 % with no content flag |
| `CourseProgress.Progreso.CalcularPorcentajeCompletado` | globalqhse/models.py:272-337 | the stored percentage is the weighted, rounded and normalised value of the content average; `contenidoCompletado` records whether the content is 100; `completado` holds iff the percentage is 100; the simulation flag is untouched |
| `CourseProgress.RecalcularEsIdempotente` | globalqhse/models.py:272-337 | recomputing on unchanged inputs stores the same percentage and flags as the first recomputation |
| `Certificates.Mensaje` | globalqhse/models.py:494-621 | each outcome's returned string is non-empty; the five fixed answers are full sentences ending in '.', and the error answer is a prefix ending in a space, to which the exception text is appended |
| `Certificates.HayProgresoCompletado` | globalqhse/models.py:492-494 | the first guard passes iff a progress row of this student and course marked completed exists |
| `Certificates.TieneCertificado` | globalqhse/models.py:497-498 | the second guard fires iff a certificate row of this student and course exists, which needs a non-empty table |
| `Certificates.TituloDisponible` | globalqhse/models.py:503-504 | the title is usable iff it is neither `None` nor the empty string (Python truthiness) |
| `Certificates.Decidir` | globalqhse/models.py:488-621 | the guards in source order, each outcome stated as an iff: "not completed" iff no completed progress row; "already issued" iff completed and a certificate exists; "incomplete data" iff completed, not issued and a name is empty; "title unavailable" iff in addition both names are present and the title is `None` or empty; the error iff in addition the title is present and the document was not produced; issued iff every guard passes and the document was produced |
| `Certificates.Emitir` | globalqhse/models.py:611-618 | the table after a call: existing rows are kept unchanged in place; a row is added iff the answer is "issued", and it is then exactly one row for the pair with the rendered document |
| `Certificates.MensajeDistingue` | globalqhse/models.py:493-621 | the returned messages are pairwise distinct, and none is an extension of the error prefix, so the returned string determines the outcome |
| `Certificates.CuentaPositiva` | globalqhse/models.py:483 | a pair has a certificate exactly when its row count is positive |
| `Certificates.UnicosCuentaUno` | globalqhse/models.py:483 | with the (student, course) pairs unique, each pair has at most one certificate |
| `Certificates.EmitirPreservaUnicos` | globalqhse/models.py:488-618 | one call keeps the pairs unique, adds at most one row, and adds one only for a completed course |
| `Certificates.SegundaEmisionYaEmitida` | globalqhse/models.py:497-498 | after a successful issue, the next call for the same pair answers "already issued" whatever it would render |
| `Certificates.EmisionesRepetidas` | globalqhse/models.py:483-621 | any number of calls never gives any pair a second certificate, and a pair without a completed progress row never gains one |
| `Certificates.TablaCertificados.EmitirCertificado` | globalqhse/models.py:488-621 | the answer is `Decidir` on the table before the call; the table gains exactly the new row when issued and is unchanged otherwise; uniqueness is kept |
| `Contracts.Clean` | globalqhse/models.py:197-200 | passes iff the start date is not after the end date; otherwise fails with the date message |
| `Contracts.Prefijo` | globalqhse/models.py:180 | the first three characters of the company name (fewer if it is shorter), upper-cased |
| `Contracts.CodigoGenerado` | globalqhse/models.py:180-182 | a generated code is the prefix, a dash, and five characters from A–Z and 0–9 |
| `Contracts.CodigoAlGuardar` | globalqhse/models.py:175-182 | a non-empty forced code wins; otherwise an existing code is kept; otherwise a code is generated; the stored code is never empty |
| `Contracts.CodigoEstable` | globalqhse/models.py:177-182 | saving again without a forced code keeps the stored code whatever the random draw |
| `Contracts.Guardado` | globalqhse/models.py:175-184 | `save` changes only the code of the row, and leaves it non-empty |
| `Contracts.ChocanActivos` | globalqhse/models.py:163-168 | two rows fall under the partial unique constraint only when both are active; rows of different instructors or different courses never do |
| `Contracts.ChocaCon` | globalqhse/models.py:163-168 | the table has an active contract of the same instructor and course as the new one; an inactive contract and an empty table never clash |
| `Contracts.TablaContratos.Guardar` | globalqhse/models.py:163-184 | the insert succeeds iff no active contract of the same instructor and course exists; then the saved row is appended; otherwise it fails with the constraint's name and the table is unchanged; the table invariant is kept |
| `ContractSweep.Vencido` | globalqhse/management/commands/inactivar_contratos.py:12-15 | the selection: active with an end date before today; an inactive contract, or one ending today or later, is not selected |
| `ContractSweep.Inactivado` | globalqhse/management/commands/inactivar_contratos.py:17-19 | one contract after the sweep: no longer selected, never reactivated, changed in `activo` only, and unchanged when not selected |
| `ContractSweep.Barrido` | globalqhse/management/commands/inactivar_contratos.py:12-19 | the table after the sweep: the same number of rows, none of them selected any more |
| `ContractSweep.Seleccionados` | globalqhse/management/commands/inactivar_contratos.py:12-22 | the number the command reports: at most the number of rows, and all of them when every row is selected |
| `ContractSweep.BarridoPorFila` | globalqhse/management/commands/inactivar_contratos.py:12-19 | the sweep treats each contract on its own, in place |
| `ContractSweep.BarridoEfecto` | globalqhse/management/commands/inactivar_contratos.py:12-19 | afterwards no contract is active and expired; unselected contracts are untouched; a selected one changes only `activo`, from true to false; none is reactivated |
| `ContractSweep.BarridoIdempotente` | globalqhse/management/commands/inactivar_contratos.py:12-22 | a second sweep on the same day changes nothing and deactivates nothing |
| `ContractSweep.SinSeleccionados` | globalqhse/management/commands/inactivar_contratos.py:12-15 | a table without active expired contracts has nothing to deactivate |
| `ContractSweep.BarridoPreservaValidez` | globalqhse/management/commands/inactivar_contratos.py:17-19 | the sweep keeps the table invariant (non-empty codes, one active contract per instructor and course) |
| `ContractSweep.BarrerFilas` | globalqhse/management/commands/inactivar_contratos.py:17-22 | the loop over the selected contracts leaves the rows equal to `Barrido` of the rows before and counts exactly `Seleccionados` of them |
| `ContractSweep.BarridoSigue` | globalqhse/management/commands/inactivar_contratos.py:17-20 | deactivating and counting the next row, only when it is selected, extends the swept prefix and the count by that row |
| `ContractSweep.InactivarContratos` | globalqhse/management/commands/inactivar_contratos.py:8-22 | the table after the command is `Barrido` of the table before; the reported total is the number of contracts selected |
| `Enrollment.GuardarEstudiante` | globalqhse/models.py:351-356 | saving succeeds iff some contract carries the student's code, and stamps the student role; otherwise it fails with the instructor-code message |
| `Enrollment.CodigoValido` | globalqhse/models.py:354 | the code is accepted (here and at models.py:367-369) iff some contract, active or not, carries it, which needs a non-empty contract table |
| `Enrollment.Contratado` | globalqhse/models.py:382-383 | a course is contracted under a code iff some contract with that code covers it; a contracted course implies the code is accepted |
| `Enrollment.CursosContratados` | globalqhse/models.py:367-383 | the courses the registration enrols in, in table order: no more than the catalogue holds, each covered by a contract with the code |
| `Enrollment.InscripcionEsperada` | globalqhse/models.py:372-426 | what a successful registration stores: the student with the given code and the student role; one progress row per contracted course; every progress, test, sub-course and module row belongs to the student and is incomplete (0 %, not passed, attempt 0) |
| `Enrollment.CursosContratadosMiembro` | globalqhse/models.py:367-383 | a course is enrolled iff it exists and some contract with the code covers it |
| `Enrollment.FilasPruebaMiembro` | globalqhse/models.py:402-406 | the test rows of one course are exactly the initial rows of its tests |
| `Enrollment.FilasSubcursoMiembro` | globalqhse/models.py:409-413 | the sub-course rows of one course are exactly the initial rows of its sub-courses |
| `Enrollment.FilasModuloMiembro` | globalqhse/models.py:416-420 | the module rows of one sub-course are exactly the initial rows of its modules |
| `Enrollment.FilasModuloCursoMiembro` | globalqhse/models.py:409-420 | the module rows of one course are exactly the initial rows of the modules of its sub-courses |
| `Enrollment.FilasModuloCursoSinRepetidos` | globalqhse/models.py:409-426 | with unique catalogue keys, the module rows of one course are distinct |
| `Enrollment.InscripcionProgresos` | globalqhse/models.py:382-399 | exactly the contracted courses get a progress row (incomplete, 0 %, simulation not done); with distinct course ids there is one row per course |
| `Enrollment.InscripcionPruebas` | globalqhse/models.py:382-406 | exactly the tests of contracted courses get an attempt row (not passed, 0, attempt 0); with unique keys there is one row per test |
| `Enrollment.InscripcionSubcursos` | globalqhse/models.py:382-413 | exactly the sub-courses of contracted courses get a row (incomplete, 0 %); with unique keys there is one row per sub-course |
| `Enrollment.InscripcionModulos` | globalqhse/models.py:382-420 | exactly the modules of those sub-courses get a row (incomplete); with unique keys there is one row per module |
| `Enrollment.AgregarFilasPrueba` | globalqhse/models.py:402-406 | the inner loop appends exactly the test rows of the given tests |
| `Enrollment.AgregarFilasModulo` | globalqhse/models.py:416-420 | the inner loop appends exactly the module rows of the given modules |
| `Enrollment.AgregarFilasSubcurso` | globalqhse/models.py:409-420 | the loop appends the sub-course rows and, nested, the module rows of each sub-course |
| `Enrollment.CrearEstudianteConCursos` | globalqhse/models.py:358-433 | fails with the contract message when no contract carries the code; fails with the creation error when the e-mail is taken; otherwise stores exactly `InscripcionEsperada` |
| `Signals.ModulosDelSubcurso` | globalqhse/signals.py:9-10 | the modules pointing at a sub-course, whose number `cantidad_modulos` should equal: existing modules only |
| `Signals.ModulosDisjuntos` | globalqhse/signals.py:9-10 | a module is counted under at most one sub-course |
| `Signals.SubcursosDelCurso` | globalqhse/signals.py:33 | `curso.subcursos`, whose `count()` the handlers store (also at signals.py:42): existing sub-courses only |
| `Signals.SubcursosDisjuntos` | globalqhse/signals.py:33 | a sub-course is counted under at most one course |
| `Signals.ModulosDeAlta` | globalqhse/signals.py:9-10 | inserting a module adds one to the module count of its sub-course and changes no other count |
| `Signals.ModulosDeBaja` | globalqhse/signals.py:19-20 | deleting a module takes one from the module count of its sub-course and changes no other count |
| `Signals.ModulosDeCambio` | globalqhse/signals.py:9 | re-pointing a module moves one unit from the old sub-course's count to the new one's |
| `Signals.SubcursosDeAlta` | globalqhse/signals.py:31-33 | inserting a sub-course adds one to the count of its course only |
| `Signals.SubcursosDeBaja` | globalqhse/signals.py:41-42 | deleting a sub-course takes one from the count of its course only |
| `Signals.SubcursosDeCambio` | globalqhse/signals.py:31 | re-pointing a sub-course moves one unit from the old course's count to the new one's |
| `Signals.GuardarModuloCuentas` | globalqhse/signals.py:6-11 | with exact counters, saving a module keeps them exact iff the module is new or keeps its sub-course |
| `Signals.EliminarModuloCuentas` | globalqhse/signals.py:15-24 | with exact counters, the counter of a deleted module's sub-course is positive, and the decrement keeps the counters exact |
| `Signals.GuardarSubcursoCuentas` | globalqhse/signals.py:26-34 | creating a sub-course keeps the counters exact, and the recount equals the old counter plus one; re-saving one keeps them exact iff it stays in its course |
| `Signals.EliminarSubcursoCuentas` | globalqhse/signals.py:36-43 | deleting a sub-course with its modules keeps the counters exact, and the recount equals the old counter minus one |
| `Signals.Contadores.CrearCurso` | globalqhse/models.py:139 | a new course's sub-course counter starts at 0 |
| `Signals.Contadores.GuardarModulo` | globalqhse/signals.py:6-12 | the row is written; a new module with a sub-course raises that counter by exactly one; a re-save changes no counter; without a sub-course a new module fails on the counter (`cantidad_modulos` on `None`) and a re-saved one on the progress refresh (`actualizar_progreso` on `None`); counters stay exact iff the module is new or keeps its sub-course |
| `Signals.Contadores.EliminarModulo` | globalqhse/signals.py:15-24 | the counter drops by one only while positive, so it never goes negative; a missing sub-course row is ignored; no sub-course raises and the delete is rolled back; exact counters stay exact |
| `Signals.Contadores.GuardarSubcurso` | globalqhse/signals.py:26-34 | creating sets the course counter to the recounted number of its sub-courses; re-saving leaves every counter alone; exact counters stay exact iff the sub-course stays in its course |
| `Signals.Contadores.EliminarSubcurso` | globalqhse/signals.py:36-43 | the sub-course and its modules are removed, and the course counter is set to the recounted number of remaining sub-courses; exact counters stay exact |

## Left out

- PDF rendering in `emitir_certificado`: the document is an opaque value. Rendering or storing it fails exactly when the value is `None`, which gives the "Error al emitir el certificado" answer. That is the only failure inside the `try` that is modelled.
- Floating point: percentages and scores are exact reals, and `round(x, 2)` is exact round-half-to-even on hundredths. The binary-float effects of Python's `round` are not modelled.
- Unicode case mapping: `lower()` and `upper()` change only ASCII letters.
- Randomness: the five-character suffix of a generated contract code is a parameter, constrained to the alphabet A–Z and 0–9.
- The clock: the sweep takes "today" as a day number, and contract dates are day numbers.
- I/O:
  - the command's output lines
  - the logging in `calificar`
  - password hashing
  - the e-mail uniqueness check, which is a set of taken addresses standing in for the database constraint
- The `_skip_post_save` flag set around the saves in `calificar` and `calcular_porcentaje_completado`: the handlers that read it are not part of this model.
- `Subcurso.actualizar_progreso`: the counter handlers call it after updating the counters (signals.py:12, 22), but it is not defined in models.py. For a module with a sub-course the model stops after the counter update and reports success. A re-saved module without a sub-course fails on that call, on `None` (signals.py:12), and the model gives that error.
- `Certificado.post`, which is an HTTP handler on the model.
- `Contrato.obtener_contratos_activos`, which is not used by the modelled operations.
- The role-stamping `save` of administrators and instructors.
- Views, serializers, URLs, the admin site, e-mail and middlewares.
- Enrollment.CrearEstudianteConCursos: database failures other than a taken e-mail are not modelled. They would give the same creation error and roll back the whole registration.
- Enrollment.GuardarEstudiante: like the source, it accepts a code whose contracts are all inactive.
- Enrollment.InscripcionPruebas: the catalogue lets a course have any number of tests, which is more general than the one-to-one link of `Prueba.curso`.
- Signals.Contadores.GuardarModulo: re-saving a module under another sub-course leaves both counters stale. The contract states this drift (exact counters are kept iff the sub-course is unchanged) and does not repair it. The same holds for Signals.Contadores.GuardarSubcurso when a sub-course moves to another course.
- Signals.Contadores.EliminarSubcurso: the cascade that deletes the sub-course's modules is modelled by its net effect only. The per-module delete handlers touch only the counter of the sub-course being removed. Cascades from deleting a course are not modelled.
- ContractSweep.InactivarContratos: the save of each contract is modelled as setting `activo` to false. Re-running the code policy is the identity on a table whose codes are non-empty (`Contracts.CodigoEstable`), and the table invariant guarantees that.
- Signals.Contadores.GuardarModulo, Signals.Contadores.EliminarModulo: the handlers read the sub-course through the module instance (`instance.subcurso`, signals.py:8, 18), and `instance.curso` likewise at signals.py:32, 41. They update that in-memory copy and `save()` writes every column back from it. The model reads and writes the table row itself. A caller holding a stale copy therefore loses updates in the source: two modules created through two stale copies of one sub-course leave its counter at 1. The model does not capture this, and its "exact counters stay exact" clauses hold only for fresh instances.
- Grading.EstudiantePrueba.Calificar: answers are keyed by the question id. The source looks the answer up under `str(pregunta.id)`, so an answer stored under an integer key or under a padded string such as "05" counts as unanswered there. A non-string answer makes `.lower()` raise, and the error is logged and re-raised. The model's string-valued map keyed by id expresses neither case.
