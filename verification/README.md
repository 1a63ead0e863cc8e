# Busca-Optancia: a verified model of the CNPJ lookup pipeline

Busca-Optancia reads a spreadsheet of Brazilian company identifiers (CNPJ). It
looks each one up in a public registry service. It writes one row per company,
holding the name, the identifier, and whether the company opted into the
Simples Nacional regime and the MEI regime ("SIM", "NÃO" or empty). The same
pipeline exists twice: as a console script (`consulta-cnpj.py`) and as a
desktop window that runs it on a worker thread (`consulta-cnpj-tkinter.py`).
The two copies of the helpers are the same apart from the console's `print`
calls (consulta-cnpj.py:53, 61, 77), so one model covers both.

The model has seven modules:

- `Wrappers`: the `Option` type.
- `Response`: what one request to the registry can yield, as the client sees
  it after `requests.get` and `response.json()`. That is a network failure, or
  an HTTP status with a body. The body is unparsable, not an object, or an
  object with `status`, `nome`, `simples` and `simei`.
- `Normalizer`: `padronizar_cnpj`. A spreadsheet cell becomes a 14-digit
  identifier or is rejected.
- `Flags`: `bool_para_sim_nao`, the tri-state flag mapping.
- `Columns`: `encontrar_coluna_cnpj`. This is the first column whose stripped,
  lower-cased name contains "cnpj". `Lower` and `Strip` are the definitions of
  `str.lower()` and `str.strip()` on ASCII. What `strip()` promises is stated
  separately, in `StripMeans`.
- `Lookup`: `consultar_cnpj_com_backoff`. It is an imperative retry loop over
  a delay that starts at 3 seconds and grows by 2 up to 10. The service's
  successive answers are a parameter, a finite script. The method returns the
  outcome and the list of delays it slept, which are proved equal to a
  specification function.
- `Batch`: the row loop of `main` and of `processar`. It is an imperative loop
  over the cells of the identifier column. `CellsOf` is the definition of
  `row[coluna_cnpj]` taken over every row. It is proved against `ValidIds`, the
  filter-and-map of the rows that normalise, and against `Lookups`, the
  outcomes of looking those identifiers up in order.

Two behaviours of the code are easy to miss. The model follows the code in
both:

- The retry loop absorbs network errors, non-200 statuses and bodies whose
  "status" is not "OK", so a lookup looks as if it can only end with a record.
  It can also raise an uncaught `AttributeError`, in two cases. One is a 200
  response whose body parses to something other than an object. The other is
  `"simples"` or `"simei"` being present but not an object, for instance
  `null`: `dados.get("simples", {})` then returns `None`. The model calls this
  outcome `Crashed`. A crash stops the run, and no output file is written. In
  the console script the exception propagates. In `processar` it is caught by
  the top-level `except` and logged.
- The flag mapping gives "" not only for an absent or null "optante" but for
  every value that is not the boolean `True` or `False`. For example, the
  string "true" gives "".

A consequence of `str()` on a float cell is stated as lemmas. A numeric
identifier column that pandas reads as floats, for instance because one cell
is empty, gives texts ending in ".0". A 14-digit identifier is then rejected
(`Normalizer.FloatCellOfCnpjRejected`). A 13-digit one is accepted with a
trailing "0" instead of the leading zero the padding rule is meant to restore
(`Normalizer.FloatCellOfShortCnpj`).

## Model

| member | source | states |
|---|---|---|
| Normalizer.Digits | consulta-cnpj.py:18 | `re.sub(r"\D", "", s)` never lengthens the text |
| Normalizer.DigitsAreDigits | consulta-cnpj.py:18 | only digits survive the substitution |
| Normalizer.DigitsAppend | consulta-cnpj.py:18 | removing non-digits distributes over concatenation |
| Normalizer.DigitsFixesExactlyDigitStrings | consulta-cnpj.py:18 | a text is unchanged by the substitution if and only if it is all digits |
| Normalizer.Normalize | consulta-cnpj.py:14-26 | a missing cell (`pd.isna`) gives None; an accepted result has exactly 14 characters |
| Normalizer.NormalizeText | consulta-cnpj.py:18-26 | a text is accepted if and only if it holds 13 or 14 digits; the result is a 14-digit CNPJ made of the text's digits in order, preceded by zeros to fill 14 places |
| Normalizer.NormalizeGivesCnpj | consulta-cnpj-tkinter.py:18-30 | every accepted result is exactly 14 decimal digits |
| Normalizer.NormalizeIdempotent | consulta-cnpj.py:14-26 | normalising an accepted result again returns it unchanged |
| Normalizer.NormalizeAcceptsCnpj | consulta-cnpj-tkinter.py:22-30 | every 14-digit string passes through unchanged |
| Normalizer.NormalizeIgnoresNonDigit | consulta-cnpj.py:18 | inserting a non-digit character anywhere never changes the outcome ("11.222.333/0001-81" normalises like "11222333000181") |
| Normalizer.DigitsSkipNonDigit | consulta-cnpj.py:18 | the substitution drops an inserted non-digit character |
| Normalizer.NormalizeRestoresLeadingZero | consulta-cnpj.py:20-21 | a 13-digit text gets exactly one "0" in front |
| Normalizer.NormalizeRejects | consulta-cnpj.py:15-16 | "123" (too short after the padding rule) and a missing cell are both rejected |
| Normalizer.FloatSuffixDigits | consulta-cnpj.py:18 | the ".0" that `str()` appends to a float adds one digit "0" at the end |
| Normalizer.FloatCellOfCnpjRejected | consulta-cnpj.py:18-24 | a 14-digit identifier stored as a float is rejected |
| Normalizer.FloatCellOfShortCnpj | consulta-cnpj.py:18-26 | a 13-digit identifier stored as a float is accepted with a trailing "0", not the leading one |
| Flags.SimNao | consulta-cnpj.py:29-34 | `True` gives "SIM" and only it does; `False` gives "NÃO" and only it does; every other value gives ""; the result is always one of the three |
| Columns.LeadingSpaces | consulta-cnpj.py:39 | the whitespace run at the front of a name, as `strip()` removes it |
| Columns.TrailingSpacesStart | consulta-cnpj.py:39 | the whitespace run at the back of a name, as `strip()` removes it |
| Columns.StripMeans | consulta-cnpj.py:39 | `strip()` gives a slice of the name with only whitespace outside it, and the slice is empty or neither starts nor ends with whitespace; so an all-whitespace name strips to "" |
| Columns.IsCnpjColumn | consulta-cnpj.py:39 | the test `"cnpj" in col.strip().lower()` holds if and only if the lower-cased name, unstripped, contains "cnpj" |
| Columns.ContainsAt | consulta-cnpj.py:39 | `p in s` holds if and only if `p` occurs at some position of `s` |
| Columns.FirstMatch | consulta-cnpj.py:38-41 | the `for` loop with early return: None if and only if no element passes; otherwise the first element that passes |
| Columns.FindCnpjColumn | consulta-cnpj.py:37-41 | None if and only if no column qualifies; otherwise the first qualifying column, under its original untrimmed name |
| Columns.StripDoesNotAffectMatch | consulta-cnpj-tkinter.py:42 | stripping never changes the verdict: the stripped, lower-cased name contains "cnpj" if and only if the lower-cased name does |
| Columns.NoJNoMatch | consulta-cnpj.py:39 | a name without a 'j' or 'J' never qualifies |
| Columns.CnpjEmpresaMatches | consulta-cnpj.py:39 | "CNPJ Empresa" qualifies |
| Columns.RazaoSocialDoesNotMatch | consulta-cnpj.py:39 | "Razão Social" does not qualify |
| Columns.FirstQualifyingColumnWins | consulta-cnpj-tkinter.py:40-44 | in a three-column list whose first column does not qualify, a qualifying second column is returned whatever the third is |
| Columns.NoQualifyingColumn | consulta-cnpj-tkinter.py:40-44 | two columns that both fail the test resolve to None |
| Columns.ResolvesCnpjEmpresa | consulta-cnpj.py:37-41 | ["Razão Social", "CNPJ Empresa", "UF"] resolves to "CNPJ Empresa" |
| Columns.ResolvesNothing | consulta-cnpj.py:37-41 | ["A", "B"] resolves to None |
| Lookup.NextDelay | consulta-cnpj.py:55 | `min(delay_atual + 2, DELAY_MAX)` never exceeds 10; a delay below 10 strictly grows, and a delay of 10 stays 10 |
| Lookup.Optante | consulta-cnpj.py:66-67 | `dados.get("simples", {})` followed by `.get("optante")` fails if and only if the member is present but is not an object; a missing member reads "optante" as null; an object gives its own "optante" |
| Lookup.Schedule | consulta-cnpj.py:46-79 | a call that retried n times slept n times |
| Lookup.Decide | consulta-cnpj.py:50-79 | retries if and only if there is a network error, a status other than 200, an undecodable body, or a body whose "status" is not "OK"; crashes if and only if a 200 body is not an object, or it is OK but "simples" or "simei" has no `.get`; otherwise returns the record: the queried identifier, "nome", and both "optante" values mapped to flags |
| Lookup.Retries | consulta-cnpj.py:48-79 | counts the retryable answers before the first answer that is not retried |
| Lookup.Consult | consulta-cnpj.py:44-79 | a record carries the queried identifier and two well-formed flags; the call is still retrying if and only if every answer so far was retryable |
| Lookup.DelayAfterClosedForm | consulta-cnpj.py:46-79 | the delay after k retries is min(3 + 2k, 10) |
| Lookup.ScheduleAt | consulta-cnpj.py:54-55 | the i-th sleep of a call is the delay after i retries |
| Lookup.DelayAfterMonotone | consulta-cnpj.py:55 | the delay never decreases |
| Lookup.ScheduleBoundedAndGrowing | consulta-cnpj-tkinter.py:15-16 | every sleep lies in [3, 10] and the sleeps of one call never decrease |
| Lookup.ScheduleExample | consulta-cnpj.py:10-11 | the sleeps are 3, 5, 7, then 3, 5, 7, 9, 10, 10 |
| Lookup.RetriesThenSuccess | consulta-cnpj.py:48-74 | there is no retry cap: any number of retryable answers followed by a usable one gives that record, after one sleep per retryable answer |
| Lookup.ConsultWithBackoff | consulta-cnpj.py:44-79 | the loop returns the outcome `Consult` specifies, and the delays it slept are `Schedule` of the number of retries |
| Batch.NormalizeAll | consulta-cnpj.py:95-97 | one normalised value per row |
| Batch.NormalizeAllAt | consulta-cnpj.py:97 | each row is normalised on its own |
| Batch.Accepted | consulta-cnpj.py:101-103 | the kept values are never more than the rows |
| Batch.AcceptedRows | consulta-cnpj.py:101-103 | lists, in increasing order, exactly the indices of the rows that are not skipped |
| Batch.AcceptedFollowsRows | consulta-cnpj.py:101-106 | the k-th kept value belongs to the k-th row that is not skipped |
| Batch.AcceptedAppend | consulta-cnpj-tkinter.py:114-116 | values are kept one by one: earlier rows never change what later rows give |
| Batch.ValidIds | consulta-cnpj.py:95-104 | the rows that survive the skip give at most one identifier each |
| Batch.ValidIdsFollowValidRows | consulta-cnpj.py:95-106 | one identifier per row that normalises, in row order; a row is skipped if and only if it does not normalise |
| Batch.ValidIdsAreCnpjs | consulta-cnpj.py:97-105 | every identifier sent to the lookup is a 14-digit CNPJ |
| Batch.ValidIdsAppend | consulta-cnpj-tkinter.py:106-121 | a skipped row does not stop or change the processing of later rows |
| Batch.ValidIdsStep | consulta-cnpj.py:95-106 | one more row adds its identifier if it normalises, and nothing otherwise |
| Batch.PrefixOfValidIds | consulta-cnpj.py:95-106 | the identifiers of the first rows are a prefix of those of all rows |
| Batch.SkipsInvalidRow | consulta-cnpj-tkinter.py:106-121 | three rows whose second identifier is invalid give two identifiers, first and third, in order |
| Batch.Lookups | consulta-cnpj.py:105 | one lookup outcome per identifier |
| Batch.LookupsAt | consulta-cnpj.py:105 | the k-th outcome is the lookup of the k-th identifier against the k-th script of answers |
| Batch.LookupsPrefix | consulta-cnpj.py:105-106 | later lookups never change earlier outcomes |
| Batch.Founds | consulta-cnpj.py:106 | one successful outcome per collected record |
| Batch.FoundsAt | consulta-cnpj.py:106 | the k-th successful outcome holds the k-th record |
| Batch.AllFoundMeans | consulta-cnpj.py:105 | every lookup of the run returns a record if and only if each single call does |
| Batch.CompletedRecords | consulta-cnpj.py:69-74 | records that are the lookup outcomes carry the identifiers looked up, in order, with well-formed flags |
| Batch.LookupFailureBreaksAllFound | consulta-cnpj-tkinter.py:146-147 | one lookup that does not return a record is enough for the run not to complete |
| Batch.CollectedMeans | consulta-cnpj-tkinter.py:120-147 | the loop completes if and only if every lookup returns a record; then the k-th record carries the k-th identifier and well-formed flags; a halted run's lookups all returned records except the last, whose outcome it carries |
| Batch.HaltedAtFirstFailure | consulta-cnpj.py:105-106 | if every lookup but the last returned a record and the last did not, the run's outcomes end at their first failure |
| Batch.LookUp | consulta-cnpj.py:105 | the next call of `consultar_cnpj_com_backoff` extends the run's outcomes by exactly its own outcome |
| Batch.Collect | consulta-cnpj.py:95-106 | sends a prefix of the valid identifiers to the lookup, in order; on completion it sent all of them and the records are exactly the lookups' records, in order; otherwise every lookup before the last returned a record and the last did not, so it stopped at the first lookup that did not return a record |
| Batch.Run | consulta-cnpj.py:84-106 | no column gives NoColumn with the available names and no lookup; otherwise the run completes if and only if every lookup of the valid identifiers returns a record, and the records are then exactly those lookups' records, one per valid row in row order; a halted run's outcomes are records up to its last lookup, which did not return one, and the run carries that lookup's outcome: it stopped at its first lookup that did not return a record |

## Left out

- The network: `requests.get`, the URL, the 20-second timeout and `response.json()` are replaced by the `Attempt` datatype. The k-th lookup of a run sees the k-th script of answers.
- Lookup.ConsultWithBackoff: the source retries forever. The model reads a finite script of answers. When the script runs out and every answer was retryable, the outcome is `StillRetrying` and the run halts there.
- Whether an undecodable 200 body is retried depends on the installed `requests`. From version 2.27 its decoding error is a `RequestException` and is retried, which is what the model does. Older versions raise a `ValueError`, which escapes.
- `time.sleep` inside the lookup is modelled as the list of delays returned by `ConsultWithBackoff`. The 3-second pacing sleep after each lookup (consulta-cnpj.py:108, consulta-cnpj-tkinter.py:136) is left out because it affects timing only.
- `print` and `log`, the progress bar, the percent and the remaining-time estimate (consulta-cnpj-tkinter.py:123-135) are left out. They are user-interface output with floating-point and wall-clock arithmetic.
- The `messagebox`, the tkinter widgets, `root.after` and `threading.Thread` (consulta-cnpj-tkinter.py:80-87, 141-144, 149-225) are left out. They are user interface and concurrency.
- The display name `nome`/`exibicao` (consulta-cnpj-tkinter.py:108, 112) is left out because it is used only in a log line.
- `pd.read_excel`, `DataFrame`, `iterrows` and `to_excel` are file I/O. The model takes the sheet as column names plus one map per row, and the records it returns are what would be written.
- A cell's text is taken as already produced by `str()`. Only the effect of the float ".0" suffix is stated.
- Batch.Run: the console `raise` and the tkinter log-and-return share the one `NoColumn` result. The message text is left out.
- Batch.Run: the top-level `except Exception` of `processar` is modelled only for crashes in a lookup (`Halted`). Other exceptions come from pandas or the user interface, which are outside the model.
- `\D`, `strip()` and `lower()` are modelled on ASCII only. Python also treats other Unicode digits, spaces and capital letters this way.
- Column names are taken to be strings. `col.strip()` on a non-string column name fails in the source, and that case is left out.
