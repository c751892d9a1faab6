# Student–project allocation: entities and input ingestion

This project models the part of the student–project allocation program that
exists in `main.py`: the two entities, students (`Aluno`) and projects
(`Projeto`), and the ingestion step `parse_input_file`. That step reads
every line for a project `(Pn, seats, minimum score)` and then every line for
a student `(An):(Pa, Pb, Pc) (score)`. It collects the ids of the projects it
found. It gives each student a cleaned preference list: only ids of existing
projects, no repeats, first occurrences in their original order.

The model has four modules:

- `Wrappers` (`wrappers.dfy`): `Option`.
- `Entities` (`entities.dfy`): classes `Aluno` and `Projeto` with the
  source's mutable fields and initial state. A student's allocated project is
  a nullable reference. A project's allocated students are a sequence in
  allocation order, as the source's list is.
- `Preferences` (`preferences.dfy`): the cleaning loop as the method
  `CleanPreferences`. It is proved equal to the function `CleanPrefs`. The
  lemmas prove validity, completeness, no duplicates, order and first
  occurrence against an independent reference, `KeptPositions`, and
  idempotence.
- `Ingestion` (`ingestion.dfy`): each input line is given by the groups the
  two patterns captured on it (`LineMatch`: an optional project match and an
  optional student match). Captured groups are digit strings. `DigitsValue`
  is the integer conversion. The two reading loops are `ReadProjects` and
  `ReadStudents`, and `ParseInput` is the whole step. Each is proved against
  the functions `ProjectRecords`, `StudentRecords` and `ValidIds`.

## Model

| member | source | states |
|---|---|---|
| `Entities.Aluno.constructor` | main.py:7-13 | A new student keeps the given id, score and preferences, has no allocated project and its proposal cursor is 0 |
| `Entities.Projeto.constructor` | main.py:16-20 | A new project keeps the given id, seats and minimum score, and has no allocated students |
| `Preferences.CleanPrefs` | main.py:63-66 | The cleaned list is never longer than the raw list |
| `Preferences.CleanPreferences` | main.py:62-66 | The loop's result is the cleaned list; an id is in it exactly when it is in the raw list and is a valid id; it has no duplicates |
| `Preferences.CleanMembership` | main.py:64-66 | Every id in the cleaned list is valid and comes from the raw list, and every valid raw id is kept (both directions) |
| `Preferences.CleanNoDuplicates` | main.py:65 | No id appears twice in the cleaned list |
| `Preferences.KeptPositionsAreFirstValidOccurrences` | main.py:63-66 | The reference positions lie inside the raw list, strictly increase, and are exactly the positions holding the first occurrence of a valid id |
| `Preferences.CleanIsRawAtKeptPositions` | main.py:63-66 | The cleaned list is the raw list read at those positions, so it is an order-preserving subsequence that takes each id at its first occurrence |
| `Preferences.CleanKeepsCleanList` | main.py:63-66 | A list with no duplicates and only valid ids comes out of cleaning unchanged |
| `Preferences.CleanIdempotent` | main.py:62-66 | Cleaning an already cleaned list changes nothing |
| `Ingestion.DigitsValue` | main.py:48 | The integer denoted by n digits is below 10^n |
| `Ingestion.LeadingZeroIgnored` | main.py:48 | A leading zero does not change a captured number, so `P07` and `P7` name the same project |
| `Ingestion.ReadProjects` | main.py:45-49 | One new, distinct project object per line the project pattern matches, in line order, with the captured id, seats and minimum score and no students |
| `Ingestion.ValidIdsAreProjectLineIds` | main.py:51 | An id is valid exactly when some project line captured it |
| `Ingestion.ReadStudents` | main.py:54-68 | One new, distinct student object per line the student pattern matches, in line order, with the captured id and score, the preferences cleaned against the valid ids, unallocated, cursor 0 |
| `Ingestion.ParseInput` | main.py:37-71 | The projects as read by the first pass, and the students as read by the second pass against exactly the ids of those projects |
| `Ingestion.RecordsAppend` | main.py:45-68 | Records follow line order: the records of two blocks of lines are those of the first block followed by those of the second |
| `Ingestion.NonMatchingLineIgnored` | main.py:45-68 | A line that matches neither pattern adds no project and no student |
| `Ingestion.StudentRecordsShape` | main.py:57-60 | Every student has exactly three raw preferences and a score from 0 to 9, because the score is one captured digit |
| `Ingestion.PreferencesContract` | main.py:57-68 | Every student's cleaned preferences have at most three entries, name only parsed projects, repeat none and keep every valid raw preference, and the score is in 0..9 |

## Left out

- Reading the file: opening it, reading its lines, and returning `(None, None)` with an error message when it does not exist (main.py:30-35). The model starts from the lines' captured groups.
- The pattern search itself (main.py:41-42, 46, 55). A line is given by what each pattern captured on it. Which lines match, and where on the line, is not modelled.
- Ingestion.DigitsValue: handles ASCII digits only. In Python, `\d` and `int()` also accept other Unicode decimal digits.
- The progress message (main.py:70) and the demonstration block under `__main__` (main.py:76-93), which only print.
- The matching algorithm. `main.py` announces it as the next step (main.py:93) and does not contain it. The allocation fields (`projetoAlocado`, `proximaPropostaIdx`, `alunosAlocados`) are modelled only in their initial state.
