# Climate-adaptation workshop backend, modelled in Dafny

This project models the domain core of an Express backend for climate-adaptation workshops. Participants take a learning test, then vote on classified adaptation activities inside a workshop session. Facilitators create sessions, enrol participants and read the rankings.

Every SQL statement is replaced by an operation on an in-memory table, keyed by that table's unique key:
- `votos_usuario` is a map from (usuario, atividade, sessao) to (pontuacao, prioridade_usuario, comentario).
- `usuario_votacao_status` is a map from (usuario, sessao) to the completion flag.
- `participantes_sessao` is a map from (sessao_id, usuario_id) to the status.
- `sessions`, `atividades_classificadas` and `perguntas_teste` are sequences in insertion order.
- The learning tables are maps keyed by id.

Imperative handlers are methods on classes over these tables. Each method is proved against a specification function of the old state, and the properties are proved about that function. Pure decision code (the middleware, the helpers, the error mapping) is written as functions with lemmas.

Modules, one per source file, plus shared ones:
- `Base`, `JsModel`, `Text`, `Numbers`, `Sorting`: outcomes, JavaScript undefined/null/value fields and query parameters, ASCII text, integer division, rounding and averages, and a sort by a total preorder.
- `PgAdapter` (config/database.js), `DbHelpers` (utils/database.js), `ErrorHandler`, `Auth`, `Validation`, `Security`, `Helpers`.
- `UsuarioStatus` (routes/usuario.js), `LearningTables`, `LearningController`, `LearningRoutes`.
- `Votes` (the vote tables and aggregates), `VotingController`, `VotingRoutes`.
- `SessionTables`, `SessionController`, `SessionRoutes`.
- `VotePaths`: the three ways a batch of votes is stored, compared.

Values are modelled as follows:
- Percentages are exact integers: `Math.round(100a/t)` is `(200a + t) div 2t`.
- An unrounded score is kept as a ratio.
- SQL `AVG` is a (sum, count) pair, compared by cross-multiplication.
- Randomness is passed in as draws.
- `jwt.verify`, bcrypt and `JSON.parse` are passed in as oracles.
- The failure of a given statement is passed in as a parameter.

## Model

| member | source | states |
|---|---|---|
| PgAdapter.Numbered | config/database.js:24-28 | every '?' of the statement is replaced by a numbered placeholder; none is left |
| PgAdapter.Processed | config/database.js:22-28 | the statement is rewritten only when a non-empty parameter array is given, and then holds no '?'; otherwise it is sent unchanged |
| PgAdapter.Rewrite | config/database.js:26-27 | the one-pass rewrite with a counter starting at 1 produces `Numbered(sql, 1)` and leaves the counter at one more than the number of marks |
| PgAdapter.Execute | config/database.js:19-37 | a successful query comes back as a one-element array of its rows; a failure is rethrown with the same status and message |
| PgAdapter.NumberedNoMarks | config/database.js:27 | a statement without marks is not changed |
| PgAdapter.NumberedFirstMark | config/database.js:26-27 | marks are numbered left to right and consecutively: the first gets `$n` and numbering continues from n+1 |
| PgAdapter.NumberedLength | config/database.js:27 | the rewritten statement is at least one character longer per mark |
| PgAdapter.QuotedMarkRewritten | config/database.js:27 | the rewrite is textual: a '?' inside a quoted literal is numbered too |
| DbHelpers.WithConnection | utils/database.js:5-17 | the answer is the operation's value or error, and the connection is released exactly once, after the operation |
| DbHelpers.TransactionTrace | utils/database.js:20-35 | the connection log starts with begin and ends with one release; the operation runs only after a successful begin; commit succeeds only after begin and operation did, and then no rollback happens; otherwise a rollback comes just before the release |
| DbHelpers.TransactionOutcome | utils/database.js:20-35 | the transaction answers the operation's value exactly when begin, operation and commit succeed; an operation error is rethrown as it was |
| DbHelpers.WithTransaction | utils/database.js:20-35 | the method's answer and connection log are those of `TransactionOutcome` and `TransactionTrace` |
| DbHelpers.WhereMarks | utils/database.js:42 | the `where` clause carries one '?' per key |
| DbHelpers.FindOneMarks | utils/database.js:39-47 | the `findOne` statement carries exactly one '?' per key, matching the value array |
| DbHelpers.InsertMarks | utils/database.js:57-65 | the `insert` statement carries exactly one '?' per column, matching the value array |
| DbHelpers.FirstMatch | utils/database.js:44-49 | the first row that holds every given column value, or none when no row does |
| DbHelpers.FindOne | utils/database.js:39-50 | an empty `where` makes the statement fail; otherwise the answer is a matching row from the table, the first in table order, or null when no row matches |
| DbHelpers.Exists | utils/database.js:52-55 | true exactly when some row holds the given values; fails like `findOne` for an empty `where` |
| ErrorHandler.Thrown | middleware/errorHandler.js:4-12 | an application error reaches the handler with its status and message, no database code and not marked as a validation error |
| ErrorHandler.CodeError | middleware/errorHandler.js:30-45 | ER_DUP_ENTRY gives 409; ER_NO_REFERENCED_ROW or ER_ROW_IS_REFERENCED gives 400; ECONNREFUSED gives 503; any other code gives 500 |
| ErrorHandler.FieldErrors | middleware/errorHandler.js:58-61 | one entry per detail, with the path joined by '.' and the message kept |
| ErrorHandler.HandleError | middleware/errorHandler.js:16-87 | the status is the highest-priority rule that applies and is never 0; `success` is false; `details` appears exactly for a validation error not overridden by an upload limit; the original message appears exactly in development; a plain error keeps its own status, or 500 |
| ErrorHandler.NotFoundHandler | middleware/errorHandler.js:90-93 | forwards an operational error with status 404 |
| ErrorHandler.NotFoundAnswered | middleware/errorHandler.js:90-93 | an unknown route is answered with 404 and a message naming the method and path |
| ErrorHandler.UploadLimitOverridesCode | middleware/errorHandler.js:30-45 | an upload-limit code first falls into the database switch's 500 and then ends at 413 (also middleware/errorHandler.js lines 68-74) |
| Auth.UserRolesExactly | middleware/auth.js:27-32 | the profiles are exactly admin, facilitador, participante and coordenador, four distinct values |
| Auth.SplitSpace | middleware/auth.js:37 | `split(' ')` yields at least one field and no field holds a space |
| Auth.SplitSpaceJoin | middleware/auth.js:37 | joining the fields with ' ' gives the header back |
| Auth.Token | middleware/auth.js:36-37 | an absent header gives undefined, never null; an empty header gives ""; a token taken from a non-empty header holds no space |
| Auth.TokenIsSecondField | middleware/auth.js:37 | for `scheme token rest` the token is the text between the first and second space |
| Auth.SplitOfPrefix | middleware/auth.js:37 | splitting a space-free word followed by a space gives that word, then the fields of the rest |
| Auth.AuthenticateToken | middleware/auth.js:35-80 | 401 exactly when no token can be taken from the header; success exactly when a token is present and verifies, with the verified user attached; any other refusal is 403 |
| Auth.RequireRole | middleware/auth.js:83-122 | passes exactly when there is a user whose profile is allowed; 401 without a user, 403 otherwise |
| Auth.ResourceUserId | middleware/auth.js:135 | the `userId` parameter when it is truthy, else `id` |
| Auth.RequireOwnershipOrRole | middleware/auth.js:125-171 | 401 without a user; otherwise passes exactly when the resource id equals the user's id written in decimal or the profile is allowed; refusals are 401 or 403 |
| Auth.OptionalAuth | middleware/auth.js:174-191 | never refuses; attaches a user exactly when a non-empty token verifies, and then the same user `authenticateToken` would attach |
| Auth.EmptyHeaderIsNotMissing | middleware/auth.js:37 | an empty header yields an empty token, which `authenticateToken` sends to verification (403) and `optionalAuth` skips; a header without a space yields no token (401) (also middleware/auth.js line 46; middleware/auth.js line 178) |
| Security.VerifyPassword | utils/security.js:11-17 | false when either argument is missing or empty; otherwise the result of the hash comparison |
| Security.PasswordStrength | utils/security.js:20-43 | strong exactly when long enough and holding an upper-case letter, a lower-case letter and a digit; the length rule is reported first |
| Security.RecoveryCode | utils/security.js:46-48 | six decimal digits, no leading zero, value 100000 plus the draw |
| Security.StripUnsafe | utils/security.js:53 | `/['"\\;]/g` removal: the result keeps exactly the characters of the input other than ' " \ ; and is shorter by the number of those |
| Security.StripUnsafeConcat | utils/security.js:53 | the replacement works character by character: it commutes with concatenation |
| Security.StripUnsafeKeepsSafe | utils/security.js:53 | a string without those characters is left unchanged |
| Security.StripUnsafeIdempotent | utils/security.js:53 | sanitising twice is sanitising once |
| Security.SanitizeInput | utils/security.js:51-56 | a string comes back as `StripUnsafe` of itself, so free of ' " \ ; with every other character kept in order; any other value passes unchanged |
| Helpers.ExtrairPaginacao | utils/helpers.js:93-99 | the page is at least 1 and the limit lies in 1..100, both defaulting to 1 and 20 and kept when valid; the offset is (page-1)*limit and never negative |
| Helpers.CalcularProgresso | utils/helpers.js:77-80 | a zero total gives 0; otherwise the result is 100·concluidos/total rounded to the nearest integer, halves up |
| Helpers.CalcularProgressoRange | utils/helpers.js:77-80 | the progress of a part of the whole lies in 0..100 and is 100 for the whole |
| Helpers.Dashed | utils/helpers.js:69 | every character other than a-z and 0-9 becomes '-', position by position |
| Helpers.Collapsed | utils/helpers.js:70 | runs of '-' become one: no two dashes are adjacent, the first and last characters are kept, nothing new appears |
| Helpers.CollapsedKept | utils/helpers.js:70 | collapsing removes dashes only: the non-dash characters stay, in order |
| Helpers.TrimDashesWellFormed | utils/helpers.js:71 | removing the edge dashes of a collapsed slug leaves only a-z, 0-9 and single inner dashes |
| Helpers.SanitizarTexto | utils/helpers.js:62-72 | the slug holds only a-z, 0-9 and single dashes, never at an edge, is no longer than the text, and its non-dash characters are, in order, the a-z/0-9 characters of the lower-cased text; missing or empty text gives "" |
| Helpers.DashedKept | utils/helpers.js:69 | after the replacement the non-dash characters are exactly the a-z/0-9 characters, in order |
| Helpers.TrimDashesKept | utils/helpers.js:71 | trimming the edges removes dashes only |
| Helpers.SlugFixedPoint | utils/helpers.js:62-72 | a well-formed slug goes through every step unchanged |
| Helpers.SanitizarTextoIdempotent | utils/helpers.js:62-72 | slugging a slug gives it back |
| Helpers.OrdenarPor | utils/helpers.js:111-128 | numeric property: the sorted copy holds the same elements as the input |
| Helpers.OrdenarPorSorted | utils/helpers.js:111-128 | numeric property: the copy is in ascending key order for 'asc' and descending otherwise |
| Helpers.OrdenarPorTexto | utils/helpers.js:111-128 | text property that does not read as a number: the sorted copy holds the same elements as the input |
| Helpers.OrdenarPorTextoSorted | utils/helpers.js:111-128 | text property: with `<` and `>` on strings, the copy is in ascending string order for 'asc' and descending otherwise |
| Helpers.Group | utils/helpers.js:133-142 | the elements with a given key: each is an element of the input with that key, and every input element with that key is in the group |
| Helpers.GroupCount | utils/helpers.js:133-142 | nothing is lost or repeated: an input element with the key occurs in the group exactly as often as in the input, any other not at all |
| Helpers.GroupConcat | utils/helpers.js:133-142 | grouping keeps input order: the group of a concatenation is the first part's group followed by the second's |
| Helpers.AgruparPor | utils/helpers.js:133-142 | the map has a key exactly for each key value that occurs, and each group is `Group` of it |
| Helpers.GerarCodigo | utils/helpers.js:35-50 | the code has `tamanho` characters (none for a non-positive size), each the drawn character of the digit or upper-case alphanumeric alphabet |
| Helpers.Titled | utils/helpers.js:169-171 | title case keeps the length |
| Helpers.ParaTitulo | utils/helpers.js:167-172 | missing text gives ""; otherwise the same length as the input |
| Helpers.RunStart | utils/helpers.js:169 | the start of the whitespace-free run holding a position |
| Helpers.ParaTituloAt | utils/helpers.js:167-172 | position by position: whitespace is kept, the first word character of a run is upper-cased, later ones lower-cased, characters before it kept |
| Helpers.EstaVazio | utils/helpers.js:55-57 | not empty exactly for a non-empty string, an object with keys or an array with elements |
| Validation.ClockTimeMeaning | middleware/validation.js:63 | the time pattern accepts exactly one or two digits of hours below 24, a colon and two digits of minutes below 60 |
| Validation.Check | middleware/validation.js:85-88 | a check reports an error exactly when it fails |
| Validation.SchemaErrors | middleware/validation.js:85-94 | every reported error names a key of the schema |
| Validation.Stripped | middleware/validation.js:85-88 | the validated body keeps exactly the schema's keys that were sent, each holding its converted value (integer text becomes a number); unknown keys are dropped (also middleware/validation.js line 106) |
| Validation.ValidateRequest | middleware/validation.js:83-109 | accepted exactly when the schema reports no error; a refusal is 400 carrying every error found; an accepted request's body is replaced by the stripped, converted body |
| Validation.ErrorsNameFailingKeys | middleware/validation.js:85-94 | with `abortEarly: false` every failing key is reported and only failing keys are |
| Validation.NoErrorsIffNoneFails | middleware/validation.js:90 | the body is accepted exactly when no key of the schema fails |
| Validation.IntegerKey | middleware/validation.js:64 | a number key passes exactly when, if present, it converts to an integer within ±(2^53 − 1) and within its bounds, and when absent it is optional (also middleware/validation.js line 67; middleware/validation.js line 68; middleware/validation.js lines 76-78) |
| Validation.OnlyErrors | middleware/validation.js:69 | a `valid(...)` key: a listed value passes at once; any other value gets `any.only` followed by the type's own errors (also middleware/validation.js line 34; middleware/validation.js line 51) |
| Validation.PlainTextKey | middleware/validation.js:7-14 | a plain text key passes exactly when, if present, it is a string that is empty only where allowed and otherwise within its length bounds, and when absent it is optional (also middleware/validation.js lines 60-72) |
| Validation.VotoAccepts | middleware/validation.js:75-80 | a vote body is accepted exactly when `atividade_id` is a safe integer, `pontuacao` an integer in 1..5, `prioridade_usuario` absent or in 1..10 and `comentario` absent or a string of at most 500 characters |
| Validation.SessaoBounds | middleware/validation.js:59-73 | an accepted session has a 5-200 character title, a valid clock time, `duracao` in 1..8 and `participantes_previstos` in 1..1000 when given, a `tipo` from the three allowed, and `distrito`, `provincia` and `data` present |
| Validation.CodigoSixDigits | middleware/validation.js:28 | the recovery code passes exactly when it is six decimal digits |
| Validation.ConfirmationMatches | middleware/validation.js:31-35 | an accepted password change or reset repeats the new password exactly, and that password has at least 6 characters (also middleware/validation.js lines 48-52) |
| UsuarioStatus.ProgressoPercentual | routes/usuario.js:216-223 | 0 when there are no modules; never above 100 |
| UsuarioStatus.ProgressoPercentualRange | routes/usuario.js:216-223 | for a non-negative count the percentage lies in 0..100: the rounded ratio up to the whole, the cap of 100 beyond it |
| UsuarioStatus.GetStatus | routes/usuario.js:32-283 | a failed user lookup gives 500 and a missing user 404; a failure of any of steps 2 to 4 ends in the fixed demonstration record (3 of 5, approved, not voted, 60%); otherwise the live counts, a module total that falls back to 5, approval and voting exactly when their counts are positive, and the capped percentage |
| UsuarioStatus.MockModulosConcluidos | routes/usuario.js:288-296 | 5, 4 or 3 for admin, facilitador and coordenador, and 2 for any other profile |
| UsuarioStatus.MockTesteAprovado | routes/usuario.js:298-306 | approved exactly for admin, facilitador and coordenador |
| UsuarioStatus.MockVotacaoConcluida | routes/usuario.js:308-316 | voted exactly for admin |
| LearningTables.Active | controllers/learningController.js:20 | exactly the active modules |
| LearningTables.Concluidos | controllers/learningController.js:81-87 | the completed count never exceeds the number of active modules |
| LearningController.ModulePercent | controllers/learningController.js:28-30 | the percentage is `calcularProgresso` of the counts: 0 for no modules, in 0..100 for a part of the whole (also controllers/learningController.js lines 91-93; controllers/learningController.js lines 345-347) |
| LearningController.Views | controllers/learningController.js:13-23 | one row per module, in order, whose completion flags count exactly the completed modules |
| LearningController.GetModules | controllers/learningController.js:7-44 | the listed rows are the active modules with their flags; the total is the number of active modules, the completed count and the percentage agree with them, and the percentage lies in 0..100 |
| LearningController.GetModulesOrdered | controllers/learningController.js:21 | the list is ordered by `ordem`, then `id` |
| LearningController.UpdateModuleProgress | controllers/learningController.js:47-113 | 404 and no write exactly when `id` names no active module; otherwise the (user, module) row is inserted or its flag replaced by `concluido === true`, no other row changes, and the reported totals are recomputed from the new state |
| LearningController.OpcoesOf | controllers/learningController.js:128-141 | empty JSON gives four 'Não definido' options, parseable JSON its parsed value, and a parse failure four 'Erro' options |
| LearningController.ActivePerguntas | controllers/learningController.js:120-125 | exactly the active questions |
| LearningController.GetTestQuestions | controllers/learningController.js:116-173 | every active question processed once, in `ORDER BY modulo, id` (modulo under the case-insensitive collation, then id), each the processing of the sorted query row at its position; the total is their number; the grouping has a key exactly for each module present, and each group is the module's questions in order |
| LearningController.OrdemTeste | controllers/learningController.js:121-124 | `WHERE ativa = TRUE ORDER BY modulo, id`: a permutation of the active questions, sorted by module then id |
| LearningController.PerguntaOrderPreorder | controllers/learningController.js:124 | `ORDER BY modulo, id` with the case-insensitive collation is total and transitive |
| LearningController.GroupedByOwnModule | controllers/learningController.js:154-160 | each question appears in its own module's group and in no other |
| LearningController.Acertos | controllers/learningController.js:204-208 | the right answers never exceed the questions |
| LearningController.FullMarks | controllers/learningController.js:204-208 | full marks exactly when every question is answered right |
| LearningController.UnknownAnswersIgnored | controllers/learningController.js:204-206 | an answer to an id that is not among the questions changes neither the score nor any detail |
| LearningController.KeysShape | controllers/learningController.js:211-213 | the module order lists each module of the questions exactly once (also controllers/learningController.js line 229) |
| LearningController.TallyShape | controllers/learningController.js:210-215 | the statistics have an entry exactly for each listed module, each with at least one question and no more right answers than questions |
| LearningController.TallySums | controllers/learningController.js:198-215 | the per-module totals add up to the number of questions and the per-module right answers to the overall right answers |
| LearningController.Score | controllers/learningController.js:198-224 | the loop yields the right answers, one detail per question in order, the per-module statistics and the module order of their specifications |
| LearningController.DesempenhoOf | controllers/learningController.js:229-234 | one entry per module in key order, each percentage in 0..100 |
| LearningController.DesempenhoTable | controllers/learningController.js:229-234 | the performance list has one entry per module of the questions, in first-appearance order, each in 0..100 |
| LearningController.RoundedPassRule | controllers/learningController.js:226-227 | the rounded pass rule means 200·acertos ≥ 149·total |
| LearningController.RoundedExamples | controllers/learningController.js:226-227 | 3 of 4 and 38 of 51 pass (both round to 75); 37 of 50 does not |
| LearningController.SubmitTest | controllers/learningController.js:176-267 | 400 without answers (any falsy `respostas`); 500 when string answers do not parse, or parse to `null` while there are active questions; 400 without active questions; none of these writes anything; otherwise the score, the rounded percentage, the pass flag, the details and the per-module performance follow their specifications, and exactly one result row is appended with `sessao_id` defaulting to 1 |
| LearningController.LatestResult | controllers/learningController.js:276-284 | none exactly when the user has no result; otherwise one of the user's results with the latest timestamp |
| LearningController.GetTestResult | controllers/learningController.js:270-316 | none ("Nenhum teste realizado") exactly when the user has no result; otherwise one of the user's results, and none of the user's results is later (`ORDER BY data_realizacao DESC LIMIT 1`) |
| LearningController.GetUserProgress | controllers/learningController.js:319-362 | the module total is the number of active modules and the completed count is the number of those the user has completed; the percentage is `calcularProgresso` of the two and lies in 0..100; the test entry is the user's latest result, and `aprovado` is that result's flag, false without any result |
| LearningRoutes.Lookup | routes/learning.js:89 | none exactly when no question has the id; otherwise a question with that id |
| LearningRoutes.Hits | routes/learning.js:88-96 | the right answers never exceed the answers sent |
| LearningRoutes.Items | routes/learning.js:88-96 | at most one detail per answer sent |
| LearningRoutes.HitsWithinItems | routes/learning.js:88-96 | the right answers are exactly the details marked right, so never more than the details |
| LearningRoutes.UnknownAnswerAddsNothing | routes/learning.js:91 | an answer to an unknown question adds neither a right answer nor a detail |
| LearningRoutes.ScoreAnswers | routes/learning.js:85-96 | the loop yields the right answers and details of their specifications |
| LearningRoutes.Percentagem | routes/learning.js:98 | the score is the unrounded ratio 100·acertos/n, and NaN exactly for no answers |
| LearningRoutes.UnroundedPassRule | routes/learning.js:98-99 | the route passes exactly when there are answers and 4·acertos ≥ 3·n |
| LearningRoutes.PassRulesDiverge | routes/learning.js:98-99 | 38 right of 51 passes the controller's rounded rule but not the route's unrounded one; 3 of 4 passes both |
| LearningRoutes.UnroundedPassImpliesRounded | routes/learning.js:98-99 | passing the route's rule implies passing the controller's; they disagree only when the unrounded score is just below 75 |
| LearningRoutes.SubmeterTeste | routes/learning.js:76-115 | 400 exactly when `respostas` is not an array, with no write; an empty array scores NaN, whose INSERT fails, so the answer is 500 with no write; otherwise the unrounded score and pass flag over the answers sent, and one result row appended whose `sessao_id` is NULL when not sent |
| LearningRoutes.OpcoesPublicas | routes/learning.js:65 | null options stay null; text options are parsed, and a parse failure fails the request |
| LearningRoutes.PerguntasTeste | routes/learning.js:52-73 | the first min(10, n) questions of the drawn order of the active questions, no position drawn twice; 500 'Erro ao carregar teste' exactly when one of them has options that do not parse; otherwise each entry is the drawn question's id, text, parsed options (null kept null) and difficulty, without the right answer |
| LearningRoutes.Project | routes/learning.js:62-67 | fails with 500 'Erro ao carregar teste' exactly when one picked question's options do not parse; otherwise one entry per pick, in order, with its id, text, parsed options (null kept null) and difficulty |
| LearningRoutes.RegistarProgresso | routes/learning.js:33-52 | the (user, module) row is inserted or replaced with `concluido` defaulting to true and `progresso` to 100; completion holds exactly when `concluido` is absent or true |
| LearningRoutes.DefaultProgressCompletes | routes/learning.js:35-45 | marking an active module with the defaults makes the controller count at least one completed module |
| Votes.VoteTables.constructor | controllers/votingController.js:196-223 | both vote tables start empty |
| Votes.KeyOf | controllers/votingController.js:184-206 | a row key exists exactly when the activity id and session id are bound, and it is their triple with the user |
| Votes.Assign | controllers/votingController.js:196-206 | a batch of writes keys exactly the keys it writes |
| Votes.OverrideStep | controllers/votingController.js:196-206 | one more upsert after a batch equals the batch extended by that write, so a batch acts as a map override |
| Votes.AssignRowsIn | controllers/votingController.js:196-206 | when every written row satisfies a property, every row of the batch's result does |
| Votes.JaVotouIffHasVote | controllers/votingController.js:304-311 | the user's vote count is positive exactly when the table holds a row of that user |
| Votes.AvgOf | controllers/votingController.js:250 | `AVG` over a column: NULL exactly when every value is NULL; otherwise the sum of the non-NULL values over their count (also controllers/votingController.js lines 263-264; routes/voting.js line 133) |
| Votes.Valores | controllers/votingController.js:250 | the non-NULL values of a column: empty exactly when every value is NULL, no more than the rows |
| Votes.UsuariosBound | controllers/votingController.js:248 | `COUNT(DISTINCT usuario_id)` is at most the row count and zero only for no rows (also routes/voting.js line 135) |
| Votes.JoinedVotes | controllers/votingController.js:266 | the `LEFT JOIN` picks exactly the votes of the activity (and session, when given) (also routes/voting.js line 137) |
| Votes.StatsOf | controllers/votingController.js:262-264 | one activity's count is the number of joined votes, and its two means are `AVG` of the score and of the priority over those votes, NULL when it has no vote (also routes/voting.js lines 133-135) |
| Votes.MeanDescPreorder | routes/voting.js:140 | ordering by mean descending (NULL last) is total and transitive |
| Votes.MeanThenTotalPreorder | controllers/votingController.js:268 | ordering by mean then vote count, both descending, is total and transitive |
| Votes.StatsFor | controllers/votingController.js:256-270 | one statistics entry per activity, in order, each the activity's own |
| VotingController.Fonte | controllers/votingController.js:61-71 | the query's rows when it returned some; the two built-in activities when it returned none or failed; never empty |
| VotingController.CriteriosOf | controllers/votingController.js:97-107 | text criteria are parsed, falling back to the default criteria on a parse error; other values pass through |
| VotingController.UltimoVoto | controllers/votingController.js:83-89 | none exactly when no row has the activity; otherwise a row of that activity, the last one |
| VotingController.VotosMap | controllers/votingController.js:74-89 | the map holds an activity exactly when some row does, and its value is that activity's last row |
| VotingController.GetVotingActivities | controllers/votingController.js:7-132 | one entry per activity used, in order, carrying its id, objective, name, description, decoded criteria, priority, impact time, capex and risk, and the user's last vote for its id, or null when there is none or the vote query failed |
| VotingController.ApprovalCheck | controllers/votingController.js:155-168 | the approval query never blocks: the 403 and any database error are swallowed |
| VotingController.LinhaDe | controllers/votingController.js:184-194 | the stored row has the sent score, the priority when truthy and twice the score otherwise, and the comment or '' |
| VotingController.Passo | controllers/votingController.js:171-206 | a falsy activity or score gives 400 'inválidos', a score outside 1..5 gives 400 with the range message, and an unbound session gives 500; otherwise the vote upserts its key |
| VotingController.Escritas | controllers/votingController.js:184-206 | one write per vote, in order, keyed by its triple |
| VotingController.AplicarIsOverride | controllers/votingController.js:171-209 | the batch goes through exactly when every vote is accepted and the session is bound, and it then leaves the table overridden by the batch's writes, later votes winning |
| VotingController.ResubmitIdempotent | controllers/votingController.js:196-206 | sending the same accepted batch twice leaves the same table as once |
| VotingController.ScoresStayInRange | controllers/votingController.js:180-182 | when every stored score lies in 1..5, it still does after an accepted batch |
| VotingController.AplicarFailStays | controllers/votingController.js:171-182 | once a vote fails, the whole batch fails with that error (also utils/database.js lines 20-35) |
| VotingController.SubmitVotes | controllers/votingController.js:135-238 | 400 for a missing array and for an empty one; a failing vote leaves both tables untouched with its error; an accepted batch commits the override and sets the (user, session) status flag, the session defaulting to 1 |
| VotingController.CheckUserVoted | controllers/votingController.js:300-321 | the count is the user's row count, and `ja_votou` holds exactly when the user has a row |
| VotingController.VotedAfterSubmit | controllers/votingController.js:196-206 | after an accepted batch the check reports that the user has voted (also controllers/votingController.js lines 304-311) |
| VotingController.EstatisticasOf | controllers/votingController.js:246-253 | the vote count is the row count, the participant count is the number of distinct voter ids (`COUNT(DISTINCT usuario_id)`), and the mean is the sum of the non-NULL scores over their count, NULL exactly when every score is NULL |
| VotingController.Classificacao | controllers/votingController.js:256-270 | a permutation of the per-activity statistics, sorted by mean then vote count, both descending |
| VotingController.TopAtividades | controllers/votingController.js:269 | the first min(10, n) entries of the ranking |
| VotingController.TopAtividadesRanked | controllers/votingController.js:256-270 | each entry shown is an activity's own statistics, the list is ranked, and no activity left out ranks above one shown |
| VotingRoutes.SessaoQuery | routes/voting.js:9 | the session id defaults to 1 when absent (also routes/voting.js line 121; routes/voting.js line 167) |
| VotingRoutes.DaSessao | routes/voting.js:11-15 | exactly the activities of the requested session |
| VotingRoutes.PrioridadeOrderPreorder | routes/voting.js:14 | `prioridade DESC, atividade ASC`, names compared case-insensitively, is total and transitive |
| VotingRoutes.Decodificar | routes/voting.js:18-23 | decoding fails exactly for criteria text that does not parse, and keeps the activity's other fields |
| VotingRoutes.DecodificarTodas | routes/voting.js:18-35 | one parse failure fails the whole listing with 500; otherwise each activity is decoded in place |
| VotingRoutes.Atividades | routes/voting.js:7-37 | 500 exactly when some activity of the session has criteria that do not decode; otherwise the listing is, as a multiset, the decoded activities of the session |
| VotingRoutes.AtividadesOrdered | routes/voting.js:11-23 | every entry belongs to the session, highest priority first, then by name in the case-insensitive collation |
| VotingRoutes.LinhaBruta | routes/voting.js:73 | score, priority and comment are stored with the values sent, missing ones as NULL (also routes/voting.js line 79) |
| VotingRoutes.Entradas | routes/voting.js:63-81 | one write per vote, keyed by its (user, activity, session) triple |
| VotingRoutes.GravarSucceeds | routes/voting.js:63-82 | the loop goes through exactly when no statement fails |
| VotingRoutes.GravarIsOverride | routes/voting.js:63-82 | a completed loop leaves the table overridden by the batch: one row per triple, the last vote for a triple winning |
| VotingRoutes.GravarFailStays | routes/voting.js:104-107 | once a statement fails, the whole loop fails |
| VotingRoutes.Votar | routes/voting.js:40-116 | 400 with nothing written when the status flag is set; otherwise it commits exactly when every statement succeeds, then the votes are written and the status flag set; any failure gives 500 and leaves both tables as they were |
| VotingRoutes.StatsSessao | routes/voting.js:123-141 | one statistics entry per activity of the session, restricted to that session's votes |
| VotingRoutes.Ordenadas | routes/voting.js:140 | a permutation of the session's statistics, sorted by mean descending |
| VotingRoutes.Votantes | routes/voting.js:135 | the distinct voters of an activity are the set of user ids of its joined votes, and never exceed its vote count |
| VotingRoutes.Resultados | routes/voting.js:119-162 | one entry per activity of the session, ranked from 1, each with its vote count, its mean (0 for none) and its number of distinct voters |
| VotingRoutes.ResultadosRanked | routes/voting.js:123-148 | each entry is an activity of the session with its own statistics, and the means do not increase down the list |
| VotingRoutes.ResultadosComplete | routes/voting.js:136-138 | every activity of the session appears, voted or not |
| VotingRoutes.Status | routes/voting.js:165-189 | every request ends in 500, because the response names an undefined identifier |
| VotePaths.EscalaSoNoControlador | controllers/votingController.js:180-182 | a score of 7 is refused with 400 by the voting controller but stored by the voting route and the session controller (also routes/voting.js lines 63-81; controllers/sessionController.js lines 123-142) |
| VotePaths.PrioridadePorCaminho | controllers/votingController.js:188 | the controller defaults the priority to twice the score; the route stores `prioridade_usuario` as sent; the session controller reads `prioridade` (also routes/voting.js line 79; controllers/sessionController.js lines 123-142) |
| VotePaths.PontuacaoAusente | controllers/votingController.js:176-178 | a missing score: refused by the controller, NULL from the route, 0 from the session controller (also routes/voting.js line 79; controllers/sessionController.js lines 135-139) |
| VotePaths.LoteVazio | controllers/votingController.js:150-152 | an empty batch: the route commits and marks the session voted, the session controller writes nothing and succeeds, and the controller refuses it (also routes/voting.js lines 63-97; controllers/sessionController.js lines 121-145) |
| VotePaths.SegundoLoteRota | routes/voting.js:46-56 | through the route, a second batch for a session whose first batch was committed is refused with 400 |
| VotePaths.SegundoLote | controllers/votingController.js:196-206 | both controllers accept a second batch again and, for the same batch, end with the same table (also controllers/sessionController.js lines 123-142) |
| VotePaths.ControladorMaisEstrito | controllers/votingController.js:171-206 | every batch the voting controller accepts is also written by the route (no failing statement) and by the session controller (also routes/voting.js lines 63-82; controllers/sessionController.js lines 123-142) |
| SessionTables.Itens | controllers/sessionController.js:78-79 | the loop visits the sent list, or nothing when it is missing (also routes/sessions.js lines 514-517) |
| SessionTables.SessionTables.constructor | scripts/initDatabase.js:19-37 | the tables start empty with AUTO_INCREMENT at 1 |
| SessionTables.SessionTables.InserirSessao | routes/sessions.js:497-505 | the new id is the next AUTO_INCREMENT value, unused before; the row is appended and no other table changes (also controllers/sessionController.js lines 58-75) |
| SessionTables.SessionTables.InserirAtividades | controllers/sessionController.js:80-87 | the activity rows are appended in order and no other table changes (also routes/sessions.js line 520) |
| SessionTables.SessionTables.InserirPerguntas | controllers/sessionController.js:94-104 | the question rows are appended in order and no other table changes |
| SessionTables.Buscar | routes/sessions.js:321-327 | a row is found exactly when the id is in the table, and it is that id's row |
| SessionTables.Filtrar | routes/sessions.js:68-86 | exactly the sessions that pass every `AND column = ?` filter, counted as `COUNT(*)` counts them; no filter keeps all (also controllers/sessionController.js lines 29-32) |
| SessionTables.DataDescPreorder | controllers/sessionController.js:37 | `ORDER BY data DESC` is total and transitive |
| SessionTables.DataCriadoDescPreorder | routes/sessions.js:89 | `ORDER BY data DESC, created_at DESC` is total and transitive |
| SessionTables.Ordenar | routes/sessions.js:89 | a sorted permutation of the sessions (also controllers/sessionController.js line 37) |
| SessionTables.Pagina | routes/sessions.js:90 | `LIMIT ? OFFSET ?`: at most `limit` rows, the rows from `offset` in order, empty past the end, full when enough rows remain and the rest when fewer do (also controllers/sessionController.js line 37) |
| SessionTables.PaginasConsecutivas | routes/sessions.js:90 | two consecutive pages together are the page of the combined size |
| SessionController.Clean | controllers/sessionController.js:8 | the fallback exactly when the value is undefined (or already equals it); null, '' and 0 pass through |
| SessionController.CleanLaws | controllers/sessionController.js:8 | `clean` with a value fallback is the destructuring default, with the null fallback it binds undefined as NULL, and it is idempotent |
| SessionController.AlfabetoLegivel | controllers/sessionController.js:11 | the alphabet has 32 distinct symbols: the capitals and digits except 0, 1, I and O |
| SessionController.PinDe | controllers/sessionController.js:12-16 | one character per draw, each in the alphabet |
| SessionController.Posicao | controllers/sessionController.js:14 | the index of an alphabet character |
| SessionController.Posicoes | controllers/sessionController.js:14 | the draws that give a PIN |
| SessionController.PinBijection | controllers/sessionController.js:10-17 | draws and PINs correspond one to one, so all 32^6 PINs can occur |
| SessionController.GerarNovoPin | controllers/sessionController.js:10-17 | the loop builds exactly the 6-character PIN of the draws |
| SessionController.LinhaSessao | controllers/sessionController.js:58-73 | the row binds the sent fields, defaulting descricao to '', duracao to 2, the facilitator to the caller and tipo to 'presencial'; estado is 'agendada' and the PIN is stored |
| SessionController.LinhaAtividade | controllers/sessionController.js:80-87 | the row records the session only inside `criterios` and binds the sent activity and objective |
| SessionController.LinhasAtividade | controllers/sessionController.js:78-89 | one row per sent activity, in order |
| SessionController.Opcoes | controllers/sessionController.js:100 | missing options are stored as `{}`, null as `null`, a list as itself |
| SessionController.LinhaPergunta | controllers/sessionController.js:94-105 | the answer is lower-cased (default 'a'), with defaults 'Pergunta sem título', 'Geral' and 'medio' |
| SessionController.ToLowerIdempotent | controllers/sessionController.js:101 | lower-casing twice equals lower-casing once |
| SessionController.LinhasPergunta | controllers/sessionController.js:92-107 | one row per sent question, in order |
| SessionController.SessaoInserivelIndependente | controllers/sessionController.js:55-73 | whether the session insert is accepted does not depend on the PIN or the clock |
| SessionController.InserirAtividades | controllers/sessionController.js:78-89 | the loop succeeds exactly when every activity row is accepted, and then yields their rows |
| SessionController.InserirPerguntas | controllers/sessionController.js:92-107 | the loop succeeds exactly when every question passes, and then yields their rows |
| SessionController.CreateSession | controllers/sessionController.js:48-111 | succeeds exactly when every insert is accepted, returning the new id and the drawn PIN (never compared with other PINs) after appending the session, its activities and its questions; any failure is 500 and rolls all three tables back |
| SessionController.RegistoLinha | controllers/sessionController.js:133-140 | the score defaults to 0; `prioridade` and the comment are bound as sent, undefined as NULL |
| SessionController.Registos | controllers/sessionController.js:123-142 | one write per vote, keyed by its triple |
| SessionController.RegistarSucceeds | controllers/sessionController.js:123-142 | the loop goes through exactly when every vote has a key |
| SessionController.RegistarIsOverride | controllers/sessionController.js:123-142 | a completed loop leaves the table overridden by the batch, with no range check |
| SessionController.RegistarFailStays | controllers/sessionController.js:117 | once a vote fails, the whole batch fails (also utils/database.js lines 20-35) |
| SessionController.RegistarIdempotent | controllers/sessionController.js:128-132 | sending the same batch twice leaves the same table as once |
| SessionController.SubmitVotes | controllers/sessionController.js:116-145 | 400 for a missing array; otherwise the batch commits exactly when every vote has a key, with the session defaulting to 1; a failure leaves the table untouched; the status table is never written |
| SessionController.FiltrosControlador | controllers/sessionController.js:29-32 | a filter on a column exactly when its value is non-empty |
| SessionController.Numero | controllers/sessionController.js:24-25 | a query number is its default when absent, its value when numeric, and NaN otherwise |
| SessionController.ComNome | controllers/sessionController.js:35-36 | the `LEFT JOIN` name is present exactly when the facilitator id names a user |
| SessionController.PaginaOrdenada | controllers/sessionController.js:37 | the page at `offset` of the filtered sessions sorted by the listing order (also routes/sessions.js lines 89-90) |
| SessionController.ListSessions | controllers/sessionController.js:22-45 | 500 exactly when the limit or offset is not a non-negative number; otherwise the count of filtered sessions, the page echoed back (1 when absent), and the page at (page − 1) · limit of the filtered sessions by date descending, each with its facilitator's name |
| SessionRoutes.LimitNum | routes/sessions.js:41-45 | `parseInt(limit)`, or 10 when that is falsy: never 0, and 10 exactly for a missing, non-numeric, 0 or 10 limit |
| SessionRoutes.PageNum | routes/sessions.js:41-47 | `parseInt(page)`, or 1 when that is falsy: never 0, the sent page when it is a non-zero number |
| SessionRoutes.OffsetEscrito | routes/sessions.js:42-46 | the offset as written, computed from the raw strings: (page-1)·limit, or 0 when either is not a number |
| SessionRoutes.OffsetEscritoIgnoraPagina | routes/sessions.js:42-46 | with a non-numeric or zero limit the written offset is 0 for every page, and page 0 gives offset -10 |
| SessionRoutes.Offset | routes/sessions.js:41-47 | the corrected offset (pageNum-1)·limitNum is non-negative for positive page and limit |
| SessionRoutes.OffsetConsecutivo | routes/sessions.js:41-46 | page 1 starts at 0, each page starts `limitNum` after the previous one, and for a missing or non-zero numeric limit this agrees with the written offset (also routes/sessions.js lines 262-270) |
| SessionRoutes.Pages | routes/sessions.js:268 | `ceil(total/limit)`, and 1 for no rows: the pages are just enough to hold the rows |
| SessionRoutes.PagesCover | routes/sessions.js:262-270 | every row index of the total lies on exactly one numbered page between 1 and `pages` |
| SessionRoutes.Filtro | routes/sessions.js:68-86 | a filter on a column exactly for a present, non-empty value that is not its wildcard or 'all' |
| SessionRoutes.Filtros | routes/sessions.js:68-86 | each column is filtered exactly when its value is present and not its wildcard ('todas' for estado and provincia, 'todos' for tipo and distrito, 'all' for all) (also routes/sessions.js lines 142-160) |
| SessionRoutes.CuringaNaoFiltra | routes/sessions.js:68-72 | estado 'todas' keeps the same sessions as no estado filter |
| SessionRoutes.ColunaOr | routes/sessions.js:219-246 | the value, or the default when it is falsy: never 0 for a non-zero default, the value when non-zero |
| SessionRoutes.NomeFacilitador | routes/sessions.js:219-246 | the facilitator's name when it is known and non-empty, otherwise the placeholder; never empty |
| SessionRoutes.Enriquecida | routes/sessions.js:219-246 | each listed session carries its participant count, a non-empty facilitator name and non-zero defaults |
| SessionRoutes.Enriquecer | routes/sessions.js:219-246 | the loop enriches each row in place, in order |
| SessionRoutes.Linhas | routes/sessions.js:68-90 | the page at `offset` of the filtered sessions by date then creation descending; empty for a negative limit or offset |
| SessionRoutes.OffsetsConcordam | routes/sessions.js:42-46 | with a page other than 0 and a limit that is absent or non-zero numeric text, the offset as written equals the corrected one |
| SessionRoutes.ListarSessoes | routes/sessions.js:32-289 | 400 exactly when the limit exceeds 100; otherwise the enriched page at the corrected offset, the filtered total and the page count |
| SessionRoutes.ObterSessao | routes/sessions.js:292-366 | 400 for an id that is not a positive integer, 404 for an absent one, otherwise that session with its participant count and facilitator name |
| SessionRoutes.TrimOu | routes/sessions.js:425-436 | the trimmed value, or the default when it is blank or missing: the trimmed value when non-blank |
| SessionRoutes.IntFieldOr | routes/sessions.js:428-432 | the number, or the default when it is falsy: never 0 for a non-zero default |
| SessionRoutes.Validacao | routes/sessions.js:398-417 | no error exactly when the title is non-blank after trimming and date, district and province are present; the title is checked first |
| SessionRoutes.TipoFinal | routes/sessions.js:420-421 | tipo stays when it is one of the three allowed, otherwise becomes 'presencial' |
| SessionRoutes.LinhaRota | routes/sessions.js:423-438 | a valid body gives an insertable row: trimmed title and place, the caller as facilitator, estado 'agendada', non-zero defaults |
| SessionRoutes.LinhaAtividadeRota | routes/sessions.js:519-538 | each activity row links its session, fills the NOT NULL `atividade` and `objectivo_estrategico` columns, and has non-zero defaults |
| SessionRoutes.TodasRecusadas | routes/sessions.js:513-547 | when every activity insert is refused, no activity is written and the message does not mention activities (also routes/sessions.js line 589) |
| SessionRoutes.Inseridas | routes/sessions.js:513-547 | the inserted rows never outnumber the activities and all belong to the session |
| SessionRoutes.InseridasMaisFalhadas | routes/sessions.js:513-547 | inserted plus failed activities are exactly the activities sent |
| SessionRoutes.InserirAtividadesRota | routes/sessions.js:513-547 | the loop inserts exactly the activities whose insert does not fail, skipping the others |
| SessionRoutes.Mensagem | routes/sessions.js:589 | the message mentions the activity count exactly when some were inserted |
| SessionRoutes.ErroInsercao | routes/sessions.js:471-494 | a foreign-key or value error gives 400, anything else 500 (also routes/sessions.js lines 593-608) |
| SessionRoutes.CriarSessao | routes/sessions.js:369-609 | 400 for a failed validation, an insert error mapped by its code, otherwise the session appended with the next id and the activities that went through, with no rollback; a failure changes nothing |
| SessionRoutes.Adicionar | routes/sessions.js:1026-1157 | 400 for bad ids or status, 404 for a missing session or user, 409 when already enrolled; otherwise exactly one row is added with the status, default 'pendente' |
| SessionRoutes.AtualizarStatus | routes/sessions.js:868-960 | 400 for bad ids or a status outside the ENUM; otherwise the row is updated or inserted with that status |
| SessionRoutes.Remover | routes/sessions.js:963-1023 | 400 for bad ids, 404 when no row was deleted, otherwise exactly that row is removed |
| SessionRoutes.IntegridadePreservada | scripts/initDatabase.js:98-109 | adding, updating and removing keep every participant row tied to an existing session and user, with an ENUM status |
| SessionRoutes.AdicionarRemover | routes/sessions.js:1075-1094 | adding grows the table by one, a second add is refused with 409, removing afterwards restores the table, and removing first gives 404 (also routes/sessions.js lines 985-993) |
| SessionRoutes.AtualizarStatusUpsert | routes/sessions.js:907-930 | after an update the row exists with the new status, and the table grows by at most one row |
| SessionRoutes.AdicionarParticipante | routes/sessions.js:1026-1157 | the participant table becomes the add's result on success and is unchanged on failure; the other tables stay as they were |
| SessionRoutes.AtualizarStatusParticipante | routes/sessions.js:868-960 | the participant table becomes the upsert's result on success and is unchanged on failure |
| SessionRoutes.RemoverParticipante | routes/sessions.js:963-1023 | the participant table loses exactly the row on success and is unchanged on failure |
| Base.CountWherePositive | controllers/votingController.js:311 | a count is positive exactly when some element qualifies |
| Base.CountWherePermutation | routes/voting.js:123-141 | counting is unaffected by reordering |
| Numbers.CeilDiv | routes/sessions.js:268 | `Math.ceil` of an integer quotient: the least multiple bound |
| Numbers.FloorDiv | utils/helpers.js:35-50 | `Math.floor` of an integer quotient |
| Numbers.RoundPercent | controllers/learningController.js:226 | `Math.round(a/t*100)` over integers: the integer within half a unit of 100a/t, halves rounding up (also utils/helpers.js line 79; routes/usuario.js line 219) |
| Numbers.RoundPercentInRange | controllers/learningController.js:226 | for 0 ≤ a ≤ t the rounded percentage lies in [0, 100] |
| Numbers.RoundPercentMonotone | controllers/learningController.js:226 | more right answers never give a lower percentage |
| Numbers.RoundPercentWhole | controllers/learningController.js:226 | all right gives exactly 100 |
| Numbers.AvgAtLeastTransitive | routes/voting.js:140 | comparing (sum, count) means by cross-multiplication is transitive (also controllers/votingController.js line 268) |
| Numbers.AvgAtLeastTotal | routes/voting.js:140 | any two means are comparable, NULL ranking last (also controllers/votingController.js line 268) |
| Numbers.ReportedMean | routes/voting.js:147 | the mean reported as a fraction equal to sum/count, and 0 for NULL |
| Sorting.Insert | utils/helpers.js:111-128 | inserting adds exactly the element |
| Sorting.SortBy | utils/helpers.js:111-128 | a sort is a permutation of its input (also routes/voting.js line 14) |
| Sorting.InsertSorted | utils/helpers.js:111-128 | inserting into a sorted list keeps it sorted |
| Sorting.SortBySorted | utils/helpers.js:111-128 | under a total preorder the sort's output is sorted (also routes/voting.js line 14) |
| Text.ToLower | controllers/sessionController.js:101 | each character lower-cased, same length (also utils/helpers.js line 68) |
| Text.Trim | routes/sessions.js:397 | no leading or trailing white space, never longer (also routes/sessions.js lines 424-436) |
| Text.TrimEmptyIffAllSpace | routes/sessions.js:397 | a value trims to '' exactly when it is all white space |
| Text.NatToDecimal | utils/security.js:46-48 | a decimal numeral: non-empty, digits only |
| Text.DecimalRoundTrip | utils/security.js:46-48 | reading the numeral back gives the number |
| Text.DecimalNoLeadingZero | utils/security.js:46-48 | the numeral starts with '0' only for zero |
| Text.SixDigits | utils/security.js:46-48 | a number in [100000, 999999] has exactly 6 digits |
| Text.TextLeTotal | routes/voting.js:14 | text order compares any two strings |
| Text.TextLeTransitive | routes/voting.js:14 | text order is transitive |
| JsModel.Default | controllers/votingController.js:137 | a destructuring default replaces exactly an undefined value; null stays (also routes/voting.js line 42; controllers/sessionController.js line 24) |
| JsModel.Bound | controllers/votingController.js:194 | a value binds as itself; undefined and null bind as NULL (also controllers/sessionController.js line 8) |
| JsModel.ParseInt | routes/sessions.js:45-47 | `parseInt` gives a number exactly for numeric text (also routes/sessions.js line 297) |
| JsModel.IntOr | routes/sessions.js:45-47 | the number, or d when it is falsy: d exactly when x is not a number, 0 or d; otherwise the number |
| Validation.SessaoTitle | middleware/validation.js:60 | an accepted session body has a text `titulo` of 5 to 200 characters |
| Validation.SessaoClock | middleware/validation.js:63 | an accepted session body has an `horario` matching the HH:MM pattern |
| Validation.SessaoCounts | middleware/validation.js:64 | an accepted `duracao` is an integer in [1, 8] and `participantes_previstos` in [1, 1000] (also middleware/validation.js line 68) |
| Validation.SessaoTipo | middleware/validation.js:69 | an accepted `tipo` is presencial, virtual or hibrido |
| Validation.SessaoRequired | middleware/validation.js:62 | an accepted session body has `data`, `distrito` and `provincia` (also middleware/validation.js lines 65-66) |

## Left out

**Runtime and environment**
- HTTP and Express wiring (routers, `res.status().json`, CORS, rate limiting, app mounting). Each handler returns an outcome: a status with a message, or a value.
- Logging and console output. They have no effect on results.
- Clocks and timestamps (`NOW()`, `CURRENT_TIMESTAMP`, `toISOString`). Where a time is stored it is an `agora` parameter; elsewhere it is dropped.
- Randomness. `Math.random` in `gerarNovoPin`, `gerarCodigo` and `generateRecoveryCode` is passed in as draws. `ORDER BY RAND()` in routes/learning.js line 59 is passed in as a drawn order of the questions.
- `JSON.parse` is a parameter. It returns an optional value, or, for the answers of `submitTest`, a throw, `null` or a value. `JSON.stringify` is a datatype for the stored shape.
- `jwt.verify`, `bcrypt.compare` and `bcrypt.hash` are oracles or are not modelled. Their cryptography is outside the model.
- `NODE_ENV` is a boolean parameter of the error handler.
- Concurrency. Each request runs alone on the tables.

**Numbers and values**
- Floating point. Percentages and means are exact integers or ratios. At exact .5 boundaries JavaScript doubles can round differently from the integer formula.
- Query strings and numeric body fields are absent, integer text or non-numeric. Empty or blank text (`?page=`) is not modelled: `parseInt` reads it as NaN but arithmetic reads it as 0, so the offset as written for `page=` is `(0 - 1) * limit`, negative, and the listing comes back empty. This is one more input showing the defect under Findings. Decimal text, text such as "12abc" that `parseInt` reads partially, and `Joi.number()` conversions other than integer text are not modelled.
- Body fields have the types the handlers expect. A non-string title, for example, which would throw a TypeError on `trim`, is not modelled.
- Text is ASCII. The NFD accent stripping of `sanitizarTexto` (utils/helpers.js line 66) is not modelled.

**Database behaviour**
- The database engine itself: the driver, the pool, `SHOW TABLES` probing and the SQL text. Every statement is an operation on an abstract table.
- SQL dialect. The tables follow the MySQL semantics the statements are written for (`ON DUPLICATE KEY UPDATE`, `ER_*` error codes, undefined and null bound as NULL). config/database.js sends statements to PostgreSQL, where several of them would not run. The routes call `db.query`, which passes '?' through unrewritten (config/database.js line 40). The model assumes every placeholder binds as the statement intends.
- The unique key of `votos_usuario` is not among the schema files. The model takes it to be (usuario_id, atividade_id, sessao_id), the triple routes/voting.js selects by.
- Ties in `ORDER BY`. The model fixes one stable order of tied rows and proves sortedness and permutation, which hold for any order the database picks.
- The fallback queries and the data substituted when a query fails in the session listing and count are not modelled (routes/sessions.js lines 117-133 and 185-215). When the main query succeeds, a negative LIMIT or OFFSET, which MySQL refuses, is modelled as an empty page.
- The SQL filter and order of `getVotingActivities` (`prioridade IN ('Alta','Média')`, `ORDER BY FIELD(...)`, `LIMIT 10`) are taken as given: the query's rows are an input.
- From `getVotingResults`: the score distribution (`GROUP BY pontuacao`) and `MAX(created_at)`. Only the statistics and the top-ten ranking are modelled.
- DbHelpers.WithConnection: assumes a MySQL-style pool with `getConnection`. The object config/database.js exports (lines 17-43 and 55) has only `execute`, `query` and `pool`, so as shipped `pool.getConnection()` (utils/database.js line 6) throws a TypeError and every handler built on it answers 500 before its operation runs.
- DbHelpers.WithTransaction: the same assumption (utils/database.js line 21). The handlers of `LearningController`, `VotingController` and `SessionController` all run inside one of the two, so each is modelled as it would run over such a pool.
- SessionRoutes.LinhaAtividadeRota: the row has no `codigo`, which the route's INSERT (routes/sessions.js lines 519-523) does not name. scripts/initDatabase.js (line 80) declares `codigo` NOT NULL without a default, so on that schema every activity insert is refused; the model takes the refusals from the `falhas` parameter, and SessionRoutes.TodasRecusadas states the outcome when all of them are refused.
- SessionRoutes.CriarSessao: on that schema `atividadesInseridas` is always 0. The model gives this only when `falhas` covers every activity (SessionRoutes.TodasRecusadas).
- SessionController.CreateSession: restores the `sessions` AUTO_INCREMENT counter when the transaction rolls back. MySQL does not reuse an id consumed by a rolled-back insert, so later ids can skip.
- SessionController.CreateSession: assumes `sessions` has a `codigo_pin` column and that `atividades_classificadas` accepts rows without `sessao_id` and `codigo`. The schema in scripts/initDatabase.js (lines 19-37 and 77-90) has no `codigo_pin`, and declares the other two NOT NULL without default, so those inserts would be refused there.
- SessionController.CreateSession: does not check `facilitador_id` against `usuarios`, and does not check the date and time formats. Those refusals are not modelled.
- VotingRoutes.Votar: assumes START TRANSACTION, the statements, COMMIT and ROLLBACK all run on one connection. Issued through the shared pool they may run on different connections, so a rollback may not undo the writes of the request.
- SessionRoutes.CriarSessao: the date and foreign-key errors of the session insert arrive as an error code parameter rather than being derived from the row.
- SessionRoutes.AtualizarStatus: assumes `participantes_sessao` has `updated_at` and `created_at` columns, which its UPDATE (routes/sessions.js line 914) and INSERT (line 925) write. The schemas in scripts/initDatabase.js (lines 98-109) and scripts/fix-all-issues.js (lines 43-52) define neither column, so there both statements are refused and the route answers 500.
- SessionRoutes.AtualizarStatusParticipante: the same assumption as SessionRoutes.AtualizarStatus; on those schemas the participant table is never changed.
- SessionRoutes.Adicionar: assumes `participantes_sessao` has a `created_at` column, which its INSERT writes (routes/sessions.js line 1090). The same two schemas lack it, so there the insert is refused and the route answers 500.
- SessionRoutes.AdicionarParticipante: the same assumption as SessionRoutes.Adicionar; on those schemas the participant table is never changed.
- VotingRoutes.PrioridadeOrderPreorder: the collation of `atividade` folds ASCII letter case only. The accent-insensitivity of MySQL's default collation is not modelled.
- VotingRoutes.AtividadesOrdered: orders names by that ASCII case folding, with the same gap.
- LearningController.PerguntaOrderPreorder: orders `modulo` by that ASCII case folding, with the same gap.

**Routes and responses**
- Validation.Stripped: keeps a `data` value as the text sent. `Joi.date()` replaces it with a Date object, which the handlers bind as a timestamp; the model does not distinguish the two.
- LearningController.GetUserProgress: reports 0 completed modules when there are no active modules. There SQL `SUM` over no joined rows is NULL, and the source reports `concluidos: null` (controllers/learningController.js lines 327 and 354).
- LearningController.DesempenhoTable: lists modules in first-appearance order. `Object.entries` (controllers/learningController.js line 229) lists integer-like keys first, in ascending order, then the rest in insertion order; the two agree when no module name is a canonical array index.
- LearningController.DesempenhoOf: the same order as LearningController.DesempenhoTable.
- SessionRoutes.ListarSessoes: serves the page at the corrected offset (SessionRoutes.Offset), not the offset as written (SessionRoutes.OffsetEscrito). The two agree whenever the page is not 0 and the limit is absent or non-zero numeric text (SessionRoutes.OffsetsConcordam). The remaining inputs are the subject of the row under Findings.
- The session re-read after `POST /sessions`. It shapes only the response body; the model returns the new id and the count of activities inserted.
- The participant listing (`GET /sessions/:id/participantes`) and the health check route, with the response rows the participant add route reads back.
- `GET /learning/modulos`, and the `/usuario/profile` routes.
- The response shapes (`success`, `message` wording beyond the error cases), except where a property depends on them.

**Helpers and schemas**
- `formatarData`, `validarEmail`, `formatarPercentagem`, `debounce` and `delay` (utils/helpers.js). They are formatting and timing utilities outside the domain.
- `hashPassword` (utils/security.js). It is bcrypt.
- `validateParams`, and the `registro`, `login`, `recuperarSenha`, `atualizarPerfil` and `atualizarStatus` schemas (middleware/validation.js). Only `voto`, `sessao`, `verificarCodigo`, `redefinirSenha`, `alterarSenha` and `validateRequest` are modelled.
- The minimum password length read from an undefined constant (utils/security.js line 21) is a parameter.
- Helpers.OrdenarPor: covers a property whose values are all integers. Decimal values, and a property mixing numeric and non-numeric values, are not modelled. In the mixed case `<` and `>` compare a number with NaN and are always false, so the comparator is inconsistent and the result depends on the engine's sort.
- Helpers.OrdenarPorSorted: the same limits as Helpers.OrdenarPor.
- Helpers.OrdenarPorTexto: covers a text property none of whose values reads as a number. When some do, the source compares them as numbers (utils/helpers.js lines 117-120), so "9" comes before "10" there while text order puts "10" first; that case is not modelled.
- Helpers.OrdenarPorTextoSorted: the same restriction as Helpers.OrdenarPorTexto.

## Findings

| source | as written | input that shows it | evidently intended | confidence | as-written member | corrected member |
|---|---|---|---|---|---|---|
| routes/sessions.js:42-46 | the offset is computed from the raw `page` and `limit` strings before they are parsed; the result is then parsed with a fallback of 0 | `page=3` with a non-numeric `limit`: offset 0, so page 1's rows come back while the response reports page 3 and limit 10; `page=0`: offset -10 while the response reports page 1 | offset = (pageNum - 1) · limitNum from the parsed values | not executed | SessionRoutes.OffsetEscrito, SessionRoutes.OffsetEscritoIgnoraPagina | SessionRoutes.Offset, SessionRoutes.OffsetConsecutivo, SessionRoutes.PagesCover |
