/** The three source tables of the SDS roster generator and their cleaning,
    gerador_sds.py:67-83: rows with a missing required cell are dropped, and
    teachers and students get a username and a sourcedId. */
module Sources {
  import opened Common
  import opened Normalize
  import opened Tables

  // ---------------------------------------------------------------------
  // Configuration (gerador_sds.py:14-20)
  // ---------------------------------------------------------------------

  const OrgId1: string := "unidade1"
  const OrgName1: string := "Organização"
  const OrgId2: string := "unidade2"
  const OrgName2: string := "Organização 2"
  const DominioProf: string := "dominio"
  const DominioAluno: string := "dominio2"
  const CargoProfessor: string := "Professor(a)"

  // ---------------------------------------------------------------------
  // Source tables: one row per CSV line, None for a missing cell
  // ---------------------------------------------------------------------

  datatype AdminRow = AdminRow(
    nomeCargo: Option<string>,
    codigoFuncionario: Option<string>,
    nomeFuncionario: Option<string>)

  datatype AlunoRow = AlunoRow(
    numeroMatricula: Option<string>,
    nomeCompleto: Option<string>,
    escolaId: Option<string>,
    nomeSerie: Option<string>,
    nomeTurma: Option<string>,
    anoLetivo: Option<string>,
    codigoTurma: Option<string>)

  datatype AulaRow = AulaRow(
    codigoProfessor: Option<string>,
    escolaId: Option<string>,
    nomeSerie: Option<string>,
    nomeTurma: Option<string>,
    codigoTurma: Option<string>)

  // ---------------------------------------------------------------------
  // The cleaned tables (gerador_sds.py:67-83). A column that `dropna`
  // guarantees present is a plain string from here on.
  // ---------------------------------------------------------------------

  /** A row of `df_professores` after line 83. */
  datatype Teacher = Teacher(codigo: string, nome: string, username: string, sourcedId: string)

  /** A row of `df_aluno` after line 83. */
  datatype Student = Student(
    matricula: string, nome: string, escolaId: string, nomeSerie: string, nomeTurma: string,
    anoLetivo: Option<string>, codigoTurma: Option<string>, username: string, sourcedId: string)

  /** A row of `df_aula` after line 72. */
  datatype Lesson = Lesson(
    codigoProfessor: string, escolaId: string, nomeSerie: string, nomeTurma: string,
    codigoTurma: Option<string>)

  predicate IsProfessor(a: AdminRow) {
    a.nomeCargo == Some(CargoProfessor)
  }

  predicate HasCodeAndName(a: AdminRow) {
    a.codigoFuncionario.Some? && a.nomeFuncionario.Some?
  }

  predicate StudentComplete(a: AlunoRow) {
    && a.numeroMatricula.Some? && a.nomeCompleto.Some? && a.escolaId.Some?
    && a.nomeSerie.Some? && a.nomeTurma.Some?
  }

  /** Username (line 76), dropped when there is none (line 78), and
      sourcedId (line 82) of one staff row. */
  function TeacherOf(db: CharDb, a: AdminRow): Option<Teacher> {
    if !HasCodeAndName(a) then None
    else
      match Username(db, a.nomeFuncionario, DominioProf)
      case None => None
      case Some(u) =>
        Some(Teacher(a.codigoFuncionario.value, a.nomeFuncionario.value, u,
                     "PROF_" + a.codigoFuncionario.value))
  }

  function TeacherOfDb(db: CharDb): AdminRow -> Option<Teacher> {
    a => TeacherOf(db, a)
  }

  /** Username (line 77), dropped when there is none (line 79), and
      sourcedId (line 83) of one student row. */
  function StudentOf(db: CharDb, a: AlunoRow): Option<Student> {
    if !StudentComplete(a) then None
    else
      match Username(db, a.nomeCompleto, DominioAluno)
      case None => None
      case Some(u) =>
        Some(Student(a.numeroMatricula.value, a.nomeCompleto.value, a.escolaId.value,
                     a.nomeSerie.value, a.nomeTurma.value, a.anoLetivo, a.codigoTurma, u,
                     "ALUNO_" + a.numeroMatricula.value))
  }

  function StudentOfDb(db: CharDb): AlunoRow -> Option<Student> {
    a => StudentOf(db, a)
  }

  /** `dropna` of line 72 on one lesson row. */
  function LessonOf(a: AulaRow): Option<Lesson> {
    if a.codigoProfessor.Some? && a.escolaId.Some? && a.nomeSerie.Some? && a.nomeTurma.Some?
    then Some(Lesson(a.codigoProfessor.value, a.escolaId.value, a.nomeSerie.value,
                     a.nomeTurma.value, a.codigoTurma))
    else None
  }

  function Teachers(db: CharDb, admin: seq<AdminRow>): seq<Teacher> {
    Collect(Where(Where(admin, IsProfessor), HasCodeAndName), TeacherOfDb(db))
  }

  function Students(db: CharDb, alunos: seq<AlunoRow>): seq<Student> {
    Collect(Where(alunos, StudentComplete), StudentOfDb(db))
  }

  function Lessons(aulas: seq<AulaRow>): seq<Lesson> {
    Collect(aulas, LessonOf)
  }

  /** Staff row `a` is kept as teacher `t`. */
  predicate TeacherFrom(db: CharDb, a: AdminRow, t: Teacher) {
    && a.nomeCargo == Some(CargoProfessor)
    && a.codigoFuncionario == Some(t.codigo)
    && a.nomeFuncionario == Some(t.nome)
    && Username(db, Some(t.nome), DominioProf) == Some(t.username)
    && t.sourcedId == "PROF_" + t.codigo
  }

  /** Student row `a` is kept as student `s`. */
  predicate StudentFrom(db: CharDb, a: AlunoRow, s: Student) {
    && a.numeroMatricula == Some(s.matricula)
    && a.nomeCompleto == Some(s.nome)
    && a.escolaId == Some(s.escolaId)
    && a.nomeSerie == Some(s.nomeSerie)
    && a.nomeTurma == Some(s.nomeTurma)
    && a.anoLetivo == s.anoLetivo
    && a.codigoTurma == s.codigoTurma
    && Username(db, Some(s.nome), DominioAluno) == Some(s.username)
    && s.sourcedId == "ALUNO_" + s.matricula
  }

  /** Lesson row `a` is kept as lesson `l`. */
  predicate LessonFrom(a: AulaRow, l: Lesson) {
    && a.codigoProfessor == Some(l.codigoProfessor)
    && a.escolaId == Some(l.escolaId)
    && a.nomeSerie == Some(l.nomeSerie)
    && a.nomeTurma == Some(l.nomeTurma)
    && a.codigoTurma == l.codigoTurma
  }

  /** The teachers are exactly the staff rows whose job title is
      "Professor(a)", with a code and a name from which a username can be
      derived, each with sourcedId `PROF_<code>`. */
  lemma TeachersFromAdmin(db: CharDb, admin: seq<AdminRow>)
    ensures forall t :: t in Teachers(db, admin) <==> exists a :: a in admin && TeacherFrom(db, a, t)
  {
    var ps := Where(Where(admin, IsProfessor), HasCodeAndName);
    forall t ensures t in Teachers(db, admin) <==> exists a :: a in admin && TeacherFrom(db, a, t) {
      if t in Teachers(db, admin) {
        var i :| 0 <= i < |ps| && TeacherOfDb(db)(ps[i]) == Some(t);
        assert ps[i] in ps;
        assert TeacherFrom(db, ps[i], t);
      }
      if a :| a in admin && TeacherFrom(db, a, t) {
        assert a in ps;
        var i :| 0 <= i < |ps| && ps[i] == a;
        assert TeacherOfDb(db)(ps[i]) == Some(t);
      }
    }
  }

  /** The students are exactly the student rows with the five required
      columns and a derivable username, each with sourcedId
      `ALUNO_<enrollment number>`. */
  lemma StudentsFromAlunos(db: CharDb, alunos: seq<AlunoRow>)
    ensures forall s :: s in Students(db, alunos) <==> exists a :: a in alunos && StudentFrom(db, a, s)
  {
    var ps := Where(alunos, StudentComplete);
    forall s ensures s in Students(db, alunos) <==> exists a :: a in alunos && StudentFrom(db, a, s) {
      if s in Students(db, alunos) {
        var i :| 0 <= i < |ps| && StudentOfDb(db)(ps[i]) == Some(s);
        assert ps[i] in ps;
        assert StudentFrom(db, ps[i], s);
      }
      if a :| a in alunos && StudentFrom(db, a, s) {
        assert a in ps;
        var i :| 0 <= i < |ps| && ps[i] == a;
        assert StudentOfDb(db)(ps[i]) == Some(s);
      }
    }
  }

  /** The lessons are exactly the lesson rows with teacher code, school,
      grade and class name. */
  lemma LessonsFromAulas(aulas: seq<AulaRow>)
    ensures forall l :: l in Lessons(aulas) <==> exists a :: a in aulas && LessonFrom(a, l)
  {
    forall l ensures l in Lessons(aulas) <==> exists a :: a in aulas && LessonFrom(a, l) {
      if l in Lessons(aulas) {
        var i :| 0 <= i < |aulas| && LessonOf(aulas[i]) == Some(l);
        assert LessonFrom(aulas[i], l);
      }
      if a :| a in aulas && LessonFrom(a, l) {
        var i :| 0 <= i < |aulas| && aulas[i] == a;
        assert LessonOf(aulas[i]) == Some(l);
      }
    }
  }

  /** gerador_sds.py:67-83: the source tables cleaned, with usernames and
      sourcedIds. */
  method CleanSources(db: CharDb, admin: seq<AdminRow>, alunos: seq<AlunoRow>, aulas: seq<AulaRow>)
    returns (teachers: seq<Teacher>, students: seq<Student>, lessons: seq<Lesson>)
    ensures teachers == Teachers(db, admin)
    ensures students == Students(db, alunos)
    ensures lessons == Lessons(aulas)
  {
    var professores := CollectRows(admin, Only(IsProfessor));
    professores := CollectRows(professores, Only(HasCodeAndName));
    var aluno := CollectRows(alunos, Only(StudentComplete));
    lessons := CollectRows(aulas, LessonOf);
    teachers := CollectRows(professores, TeacherOfDb(db));
    students := CollectRows(aluno, StudentOfDb(db));
  }
}
