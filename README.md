# SDS roster generator — a verified model

`gerador_sds.py` builds the five School Data Sync files from three exports of a
school information system:

- the staff table (`NomeCargo`, `CodigoFuncionario`, `NomeFuncionario`);
- the student table (`NumeroMatricula`, `NomeCompleto`, `EscolaID`, `NomeSerie`,
  `NomeTurma`, `AnoLetivo`, `CodigoTurma`);
- the lesson schedule (`CodigoProfessor`, `EscolaID`, `NomeSerie`, `NomeTurma`,
  `CodigoTurma`).

The five output files are `users.csv`, `orgs.csv`, `roles.csv`, `classes.csv` and
`enrollments.csv`. This project models:

- the login-name normalisation: `normalizar_texto` and `preencher_email`;
- the script body that derives the five tables.

It proves what each stage guarantees.

Modules, in pipeline order:

- `Common`: optional cells, the decimal rendering used by `ENROLL_<n>`, and facts
  about prefixed identifiers.
- `Normalize`: slugs and usernames. The Unicode services (`str.lower`, NFD,
  category `Mn`, `isalnum`, `isspace`) are the fields of a `CharDb`. The
  properties hold for any character table that meets two conditions, which
  Python's own table meets:
  - `-` is not alphanumeric (needed by the no-stray-`-` clause of `SlugShape`);
  - `-`, `.` and `@` are not alphanumeric (`Punctuated`, needed by
    `UsernameParts`).
- `Tables`: the pandas operations the script is built from:
  - a filter / `dropna` (`Collect`, `Where`);
  - `drop_duplicates` keeping the first row (`Dedup`);
  - the inner `merge` (`Merge`);
  - `mode()` (`Mode`).

  The filter, `drop_duplicates`, `merge` and the value count are each a
  specification function with its properties, and a loop method proved equal to
  it. `Mode` is a loop method specified directly by its contract.
- `Sources`: cleaning the three tables, usernames and `PROF_`/`ALUNO_` ids.
- `Users`, `Roles`, `Classes`, `Enrollments`: one module per output file. Each has
  a method that follows the script's steps, a specification of the table, and
  lemmas that characterise it.
- `Pipeline`: the whole run (`Generate`) and the guarantees that span tables.

Tables are sequences of records, and a missing cell is `None`. The five output
tables are returned; they are not written.

## Model

| member | source | states |
|---|---|---|
| Common.ParseNatToString | gerador_sds.py:164 | reading the decimal rendering of a row index gives the index back |
| Common.NatToStringInjective | gerador_sds.py:164 | different row indices render to different strings |
| Common.PrefixCancel | gerador_sds.py:82-83 | two ids with the same prefix are equal only if what follows the prefix is equal |
| Common.PrefixesDiffer | gerador_sds.py:82-83 | ids whose prefixes differ at some position (`ALUNO_` vs `PROF_`) are different |
| Normalize.Keep | gerador_sds.py:37-38 | the filtered text is no longer than the input, and holds exactly the input characters that pass the test |
| Normalize.WordLength | gerador_sds.py:39 | a word starting at the front runs up to, and not including, the first separator |
| Normalize.WordsAreWords | gerador_sds.py:39 | every word of `split()` is non-empty, holds no whitespace, and is made of characters of the text |
| Normalize.WordsEmpty | gerador_sds.py:44-45 | `split()` gives no word exactly when the text is all whitespace |
| Normalize.StripThenSplit | gerador_sds.py:44 | `strip().split()` gives the same words as `split()` |
| Normalize.JoinWithChars | gerador_sds.py:39 | every character of the joined text is the separator or comes from a word |
| Normalize.JoinWithShape | gerador_sds.py:39 | joining non-empty separator-free words never gives a leading, trailing or doubled separator, and gives a non-empty text when there are words |
| Normalize.SlugShape | gerador_sds.py:34-40 | for the slug function `Slug` (`normalizar_texto`): the slug of a non-string is `""`; every slug character is alphanumeric or `-`; there is no leading, trailing or doubled `-` |
| Normalize.SplitAt | gerador_sds.py:88 | the split at the first occurrence of a character fails exactly when the character is absent; otherwise the text is head + character + rest, and the head is free of that character |
| Normalize.SplitAtFirst | gerador_sds.py:48 | a text built as head + character + rest, with the character not in head, splits back into head and rest |
| Normalize.UsernameParts | gerador_sds.py:42-48 | for the username function `Username` (`preencher_email`): no username exactly for a non-string or an all-whitespace name; otherwise the username reads back as slug(first word) `.` slug(last word) `@` domain, with the first word repeated for a one-word name |
| Tables.Collect | gerador_sds.py:69-72 | a filter keeps at most the input rows, and its values are exactly what the kept rows yield |
| Tables.Where | gerador_sds.py:68 | a boolean mask keeps exactly the input rows satisfying the predicate |
| Tables.CollectRows | gerador_sds.py:69-72 | the row-by-row filter loop computes `Collect` |
| Tables.KeySetAppend | gerador_sds.py:87 | appending a row adds exactly its key to the key set |
| Tables.DedupSpec | gerador_sds.py:87 | after `drop_duplicates(subset=key)` no two rows share a key, the key set is unchanged, and a row is kept exactly when it is the first row with its key |
| Tables.DropDuplicates | gerador_sds.py:87 | the loop with a seen-keys set computes `Dedup` |
| Tables.DedupCovers | gerador_sds.py:115 | every key of the input keeps a row after deduplication |
| Tables.Matches | gerador_sds.py:107 | the matches of one left row are exactly the right rows with its key, paired with it |
| Tables.Merge | gerador_sds.py:107 | the inner join holds exactly the (left, right) pairs of input rows with equal keys |
| Tables.MergeRows | gerador_sds.py:152 | the nested-loop join computes `Merge` |
| Tables.Count | gerador_sds.py:133 | a count is at most the column length, and zero exactly when the value is absent |
| Tables.CountRows | gerador_sds.py:133 | the counting loop computes `Count` |
| Tables.Mode | gerador_sds.py:133 | there is no mode exactly when every cell is missing; otherwise the mode is a present value at least as frequent as every other present value |
| Sources.TeachersFromAdmin | gerador_sds.py:68-82 | teachers are exactly the staff rows titled "Professor(a)" with a code, a name and a derivable username, each with sourcedId `PROF_<code>` |
| Sources.StudentsFromAlunos | gerador_sds.py:71-83 | students are exactly the rows with the five required columns and a derivable username, each with sourcedId `ALUNO_<number>` |
| Sources.LessonsFromAulas | gerador_sds.py:72 | lessons are exactly the rows with teacher code, school, grade and class name |
| Sources.CleanSources | gerador_sds.py:67-83 | the step-by-step cleaning computes the three cleaned tables |
| Users.SplitName | gerador_sds.py:88 | the given name holds no space; with no space it is the whole name and the family name is missing; otherwise name = given + " " + family |
| Users.UsersSpec | gerador_sds.py:85-88 | for the user table `UserTable`: usernames are unique; users are exactly the first person of each username, teachers before students; every kept teacher and student has a user with its username |
| Users.BuildUsers | gerador_sds.py:85-88 | the concatenation, deduplication and name split compute `UserTable` |
| Roles.MapOrg | gerador_sds.py:102 | only school codes "1" and "2" map to an organisation, and that organisation is in orgs.csv |
| Roles.ScheduledIn | gerador_sds.py:106 | every distinct (teacher code, school) pair comes from a lesson |
| Roles.ScheduledHas | gerador_sds.py:106 | every lesson's (teacher code, school) pair is among the distinct pairs |
| Roles.RoleCandidateSound | gerador_sds.py:102-114 | every role row names one of the two organisations, has sourcedId `ROLE_<user>_<org>` and isPrimary "true", and belongs to a student of that school or a teacher scheduled there |
| Roles.StudentRoleComplete | gerador_sds.py:103-105 | every student of a known school has a role row there |
| Roles.TeacherRoleComplete | gerador_sds.py:106-110 | every teacher with a lesson in a known school has a role row there |
| Roles.RolesSound | gerador_sds.py:115 | the deduplicated roles are all well formed and owned as above |
| Roles.RolesComplete | gerador_sds.py:115 | deduplication leaves every student and every scheduled teacher its role |
| Roles.RolesUnique | gerador_sds.py:111-115 | for the role table `RoleTable`: one role per (user, organisation), and it is the first candidate in students-then-teachers order |
| Roles.BuildRoles | gerador_sds.py:102-115 | the step-by-step role tables compute `RoleTable` |
| Classes.MasterFrom | gerador_sds.py:122-129 | every master row comes from a student or a lesson with a class code |
| Classes.StudentMaster | gerador_sds.py:122-129 | a student with a class code yields a master row |
| Classes.LessonMaster | gerador_sds.py:123-129 | a lesson with a class code yields a master row |
| Classes.ClassesSpec | gerador_sds.py:130-141 | for the class table `ClassTable`: no two classes share (school, class code); classes are exactly the first master row of each pair, titled `<class> - <grade> <year or default>`; sourcedId is the class code; the organisation is that of the school |
| Classes.ClassesComplete | gerador_sds.py:122-130 | every student and lesson with a class code has its class |
| Classes.SharedCodeSharedId | gerador_sds.py:130-141 | two schools using one class code give two classes with the same sourcedId |
| Classes.BuildClasses | gerador_sds.py:122-141 | the step-by-step master table computes `ClassTable` |
| Enrollments.EnrollCandidateSound | gerador_sds.py:152-159 | every joined enrollment links a student to its class, or a teacher to the class of one of its lessons |
| Enrollments.StudentEnrollComplete | gerador_sds.py:152-153 | every student in a class is joined to it |
| Enrollments.TeacherEnrollComplete | gerador_sds.py:156-159 | every teacher of a lesson of a class is joined to it |
| Enrollments.EnrollCandidatesSpec | gerador_sds.py:152-162 | joined enrollments are exactly the student-in-class and teacher-teaches-class links |
| Enrollments.Numbered | gerador_sds.py:163-164 | numbering keeps the rows in order, gives row i the sourcedId `ENROLL_<i>`, and makes the ids pairwise distinct |
| Enrollments.EnrollmentsSpec | gerador_sds.py:162-164 | for the enrollment table `EnrollmentTable`: every enrollment is a valid link, every valid link is enrolled, and no (user, class, role) appears twice |
| Enrollments.BuildEnrollments | gerador_sds.py:148-164 | the joins, concatenation, deduplication and numbering compute `EnrollmentTable` |
| Pipeline.ScheduledTeacherId | gerador_sds.py:72-107 | a teacher with a kept lesson is never behind the id `PROF_<code>` of a code no kept lesson names |
| Pipeline.StudentIdNotTeacherId | gerador_sds.py:82-83 | a student id is never a teacher id |
| Pipeline.RoleOwner | gerador_sds.py:103-110 | a role's user is a kept teacher or student, never a teacher without a kept lesson |
| Pipeline.EnrollmentOwner | gerador_sds.py:148-159 | an enrollment names a class of classes.csv and a kept teacher or student, never a teacher without a kept lesson |
| Pipeline.HomonymEnrolledWithoutUser | gerador_sds.py:87-152 | of two students with one username only the first gets a user, yet the second is enrolled |
| Pipeline.RolesOwned | gerador_sds.py:97-115 | every role of `RoleTable` names an organisation of orgs.csv and a kept person, and no teacher without a kept lesson has a role |
| Pipeline.EnrollmentsOwned | gerador_sds.py:148-164 | every enrollment names a listed class and a kept person, and no teacher without a kept lesson is enrolled |
| Pipeline.DefaultYear | gerador_sds.py:133 | the default year is a most frequent student year (`MostFrequentYear`); there is none exactly when no student has a year |
| Pipeline.Generate | gerador_sds.py:67-164 | the run computes users.csv as `UserTable`, orgs.csv as the two organisations, roles.csv as `RoleTable`, classes.csv as `ClassTable` under a most frequent student year, and enrollments.csv as `EnrollmentTable` over those classes; usernames are unique; roles name listed organisations and kept people; classes and enrollments are missing exactly when no student has a year; enrollments name listed classes and kept people with distinct ids; a teacher without a kept lesson has no role and no enrollment |

## Where the code does less than the design describes

The model follows the code:

- **Enrollment users need not be in users.csv.**
  - Roles and enrollments take student and teacher ids from the cleaned source tables, not from the username-deduplicated `users.csv` (gerador_sds.py:87, 103, 152, 156).
  - So the referential-integrity promise "every enrollment user is in users.csv" fails for homonymous students. `Pipeline.HomonymEnrolledWithoutUser` proves the failing case.
  - What does hold is weaker: every role and enrollment names a kept teacher or student (`Pipeline.Generate`).
- **Class ids are unique only if class codes are.** Classes are unique per (school, class code), but their sourcedId is the code alone (gerador_sds.py:130, 141). `Classes.SharedCodeSharedId` proves the collision.
- **Output is not all-or-nothing.** If no kept student has an academic year, `mode()[0]` fails at line 133. By then users.csv, orgs.csv and roles.csv are already written (lines 93, 97, 116). `Pipeline.Generate` returns the first three tables and no classes or enrollments.

## Left out

- Delimiter sniffing, UTF-8/latin-1 fallback and bad-line skipping when reading the inputs (gerador_sds.py:22-32, 54-64): file I/O. The tables are parameters whose cells are already `Some(text)` or `None`. Which strings `read_csv` treats as missing is part of that loading.
- Directory creation, `print` logging, `exit()` and the `to_csv` writes: I/O. The five tables are returned instead.
- The Unicode database. Case mapping, canonical decomposition, the `Mn` category, `isalnum` and `isspace` are parameters (`Normalize.CharDb`), so the slug examples of concrete accented names are not evaluated.
- Normalize.Slug: lower-cases and decomposes one character at a time. It does not model two context-dependent rules:
  - `str.lower`'s final-sigma rule;
  - NFD's canonical reordering of combining marks.
- Tables.Mode: promises a most frequent year. pandas returns the smallest of the tied values, and the model does not fix which tied value is chosen.
- Users.BuildUsers: does not model the failure of `str.split(' ', n=1, expand=True)` (gerador_sds.py:88) when no kept name contains a space. That call then yields one column where two are assigned. The model assumes the two-column case, with a missing family name for one-word names.
- Classes.ClassOf: fills a missing year with the default, as pandas 2.x does for the chained `fillna(..., inplace=True)` of gerador_sds.py:134. Under copy-on-write (the default from pandas 3.0) that call changes nothing, so lesson-only classes would get a missing year in their title. The model follows pandas 2.x.
- Tables.Merge: rows follow left-table order, then right-table order within a left row. The model does not claim that pandas numbers `ENROLL_<n>` in that order, only that the numbering is consecutive and distinct.
