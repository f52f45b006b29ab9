/** The whole run of the SDS roster generator, gerador_sds.py:67-164: the
    sections of the script one after another, from the three source tables
    to the five output tables. Reading the input files and writing the CSV
    files are not part of this model: the inputs are parameters and the
    tables are the result. */
module Pipeline {
  import opened Common
  import opened Normalize
  import opened Tables
  import opened Sources
  import opened Users
  import opened Roles
  import opened Classes
  import opened Enrollments

  /** The five output tables. `classes` and `enrollments` are absent when
      the script stops at line 133 (no student has an academic year, so
      `mode()[0]` fails) after users.csv, orgs.csv and roles.csv are
      written. */
  datatype Output = Output(
    users: seq<UserRow>,
    orgs: seq<OrgRow>,
    roles: seq<RoleRow>,
    classes: Option<seq<ClassRow>>,
    enrollments: Option<seq<EnrollmentRow>>)

  function AnoLetivoOf(s: Student): Option<string> { s.anoLetivo }

  /** `id` is the sourcedId of a kept teacher or a kept student. */
  ghost predicate PersonId(db: CharDb, admin: seq<AdminRow>, alunos: seq<AlunoRow>, id: string) {
    || (exists a, t :: a in admin && TeacherFrom(db, a, t) && t.sourcedId == id)
    || (exists a, s :: a in alunos && StudentFrom(db, a, s) && s.sourcedId == id)
  }

  /** No kept lesson (a lesson row that survives the `dropna` of line 72)
      names staff code `code`. */
  predicate Unscheduled(lessons: seq<Lesson>, code: string) {
    forall l :: l in lessons ==> l.codigoProfessor != code
  }

  /** `ano` is a most frequent academic year among the kept students, the
      value `mode()[0]` picks at line 133. */
  predicate MostFrequentYear(students: seq<Student>, ano: string) {
    && (exists s :: s in students && s.anoLetivo == Some(ano))
    && forall s :: s in students && s.anoLetivo.Some? ==>
         Count(Project(students, AnoLetivoOf), s.anoLetivo) <= Count(Project(students, AnoLetivoOf), Some(ano))
  }

  /** A teacher id in roles or enrollments belongs to a teacher with a
      lesson, so no unscheduled staff code is behind it. */
  lemma ScheduledTeacherId(db: CharDb, admin: seq<AdminRow>, aulas: seq<AulaRow>, t: Teacher, l: Lesson)
    requires t in Teachers(db, admin) && l in Lessons(aulas) && l.codigoProfessor == t.codigo
    ensures forall code :: Unscheduled(Lessons(aulas), code) ==> t.sourcedId != "PROF_" + code
  {
    TeachersFromAdmin(db, admin);
    forall code | Unscheduled(Lessons(aulas), code) ensures t.sourcedId != "PROF_" + code {
      if t.sourcedId == "PROF_" + code {
        PrefixCancel("PROF_", t.codigo, code);
      }
    }
  }

  /** A student id (`ALUNO_...`) is never a teacher id (`PROF_...`). */
  lemma StudentIdNotTeacherId(db: CharDb, alunos: seq<AlunoRow>, s: Student)
    requires s in Students(db, alunos)
    ensures forall code :: s.sourcedId != "PROF_" + code
  {
    StudentsFromAlunos(db, alunos);
    forall code ensures s.sourcedId != "PROF_" + code {
      PrefixesDiffer("ALUNO_", "PROF_", s.matricula, code, 0);
    }
  }

  /** Every role belongs to a kept teacher or student, and never to a
      teacher without lessons. */
  lemma RoleOwner(db: CharDb, admin: seq<AdminRow>, alunos: seq<AlunoRow>, aulas: seq<AulaRow>, r: RoleRow)
    requires StudentRoleFrom(Students(db, alunos), r) || TeacherRoleFrom(Teachers(db, admin), Lessons(aulas), r)
    ensures PersonId(db, admin, alunos, r.userSourcedId)
    ensures forall code :: Unscheduled(Lessons(aulas), code) ==> r.userSourcedId != "PROF_" + code
  {
    TeachersFromAdmin(db, admin);
    StudentsFromAlunos(db, alunos);
    if StudentRoleFrom(Students(db, alunos), r) {
      var s :| s in Students(db, alunos) && s.sourcedId == r.userSourcedId && MapOrg(s.escolaId) == Some(r.orgSourcedId);
      StudentIdNotTeacherId(db, alunos, s);
    } else {
      var t, l :| t in Teachers(db, admin) && l in Lessons(aulas) && l.codigoProfessor == t.codigo
        && t.sourcedId == r.userSourcedId && MapOrg(l.escolaId) == Some(r.orgSourcedId);
      ScheduledTeacherId(db, admin, aulas, t, l);
    }
  }

  /** Every enrollment names a class of classes.csv and a kept teacher or
      student, and never a teacher without lessons. */
  lemma EnrollmentOwner(db: CharDb, admin: seq<AdminRow>, alunos: seq<AlunoRow>, aulas: seq<AulaRow>,
                        classes: seq<ClassRow>, e: EnrollCand)
    requires EnrollmentFrom(Students(db, alunos), Teachers(db, admin), Lessons(aulas), classes, e)
    ensures exists c :: c in classes && c.sourcedId == e.classSourcedId
    ensures PersonId(db, admin, alunos, e.userSourcedId)
    ensures forall code :: Unscheduled(Lessons(aulas), code) ==> e.userSourcedId != "PROF_" + code
  {
    TeachersFromAdmin(db, admin);
    StudentsFromAlunos(db, alunos);
    var students := Students(db, alunos);
    if e.role == "student" && exists s, c :: (s in students && c in classes && StudentIn(s, c)
         && e.userSourcedId == s.sourcedId && e.classSourcedId == c.sourcedId)
    {
      var s, c :| s in students && c in classes && StudentIn(s, c)
        && e.userSourcedId == s.sourcedId && e.classSourcedId == c.sourcedId;
      StudentIdNotTeacherId(db, alunos, s);
    } else {
      var t, l, c :| t in Teachers(db, admin) && l in Lessons(aulas) && c in classes && TeacherIn(t, l, c)
        && e.userSourcedId == t.sourcedId && e.classSourcedId == c.sourcedId;
      ScheduledTeacherId(db, admin, aulas, t, l);
    }
  }

  /** Every role of roles.csv names an organisation of orgs.csv and a kept
      person, and no teacher without a kept lesson has a role. */
  lemma RolesOwned(db: CharDb, admin: seq<AdminRow>, alunos: seq<AlunoRow>, aulas: seq<AulaRow>)
    ensures var roles := RoleTable(Teachers(db, admin), Students(db, alunos), Lessons(aulas));
      forall r :: r in roles ==>
        (exists o :: o in Orgs() && o.sourcedId == r.orgSourcedId) && PersonId(db, admin, alunos, r.userSourcedId)
    ensures var roles := RoleTable(Teachers(db, admin), Students(db, alunos), Lessons(aulas));
      forall code, r :: Unscheduled(Lessons(aulas), code) && r in roles ==> r.userSourcedId != "PROF_" + code
  {
    var teachers, students, lessons := Teachers(db, admin), Students(db, alunos), Lessons(aulas);
    RolesSound(teachers, students, lessons);
    assert Orgs()[0] in Orgs() && Orgs()[1] in Orgs();
    forall r | r in RoleTable(teachers, students, lessons)
      ensures (exists o :: o in Orgs() && o.sourcedId == r.orgSourcedId) && PersonId(db, admin, alunos, r.userSourcedId)
      ensures forall code :: Unscheduled(lessons, code) ==> r.userSourcedId != "PROF_" + code
    {
      RoleOwner(db, admin, alunos, aulas, r);
    }
  }

  /** The enrollments name classes of classes.csv and kept people, and
      never a teacher without lessons; their sourcedIds are distinct. */
  lemma EnrollmentsOwned(db: CharDb, admin: seq<AdminRow>, alunos: seq<AlunoRow>, aulas: seq<AulaRow>,
                         classes: seq<ClassRow>)
    ensures var es := EnrollmentTable(Students(db, alunos), Teachers(db, admin), Lessons(aulas), classes);
      forall e :: e in es ==>
        (exists c :: c in classes && c.sourcedId == e.classSourcedId) && PersonId(db, admin, alunos, e.userSourcedId)
    ensures var es := EnrollmentTable(Students(db, alunos), Teachers(db, admin), Lessons(aulas), classes);
      forall code, e :: Unscheduled(Lessons(aulas), code) && e in es ==> e.userSourcedId != "PROF_" + code
  {
    var students, teachers, lessons := Students(db, alunos), Teachers(db, admin), Lessons(aulas);
    EnrollmentsSpec(students, teachers, lessons, classes);
    forall e | e in EnrollmentTable(students, teachers, lessons, classes)
      ensures (exists c :: c in classes && c.sourcedId == e.classSourcedId) && PersonId(db, admin, alunos, e.userSourcedId)
      ensures forall code :: Unscheduled(Lessons(aulas), code) ==> e.userSourcedId != "PROF_" + code
    {
      EnrollmentOwner(db, admin, alunos, aulas, classes, EnrollmentCand(e));
    }
  }

  /** Roles and enrollments name the student of the source table, not the
      user row that survived the username deduplication: of two students
      with the same username only the first gets a user, yet the second is
      still enrolled in its class. */
  lemma HomonymEnrolledWithoutUser(s1: Student, s2: Student, c: ClassRow)
    requires s1.username == s2.username && s1.sourcedId != s2.sourcedId && StudentIn(s2, c)
    ensures forall u :: u in UserTable([], [s1, s2]) ==> u.sourcedId != s2.sourcedId
    ensures exists e :: e in EnrollmentTable([s1, s2], [], [], [c]) && e.userSourcedId == s2.sourcedId
  {
    UsersSpec([], [s1, s2]);
    var people := People([], [s1, s2]);
    assert people == [PersonOfStudent(s1), PersonOfStudent(s2)];
    assert !FirstOfKey(people, UsernameOf, 1) by {
      assert UsernameOf(people[0]) == UsernameOf(people[1]);
    }
    forall u | u in UserTable([], [s1, s2]) ensures u.sourcedId != s2.sourcedId {
      var i :| 0 <= i < |people| && FirstOfKey(people, UsernameOf, i) && u == UserOf(people[i]);
      assert people[i] == PersonOfStudent(s1);
    }
    EnrollmentsSpec([s1, s2], [], [], [c]);
    var e := EnrollCand(s2.sourcedId, c.sourcedId, "student");
    assert EnrollmentFrom([s1, s2], [], [], [c], e);
    var es := EnrollmentTable([s1, s2], [], [], [c]);
    var k :| 0 <= k < |es| && EnrollmentCand(es[k]) == e;
    assert es[k] in es;
  }

  /** The default year of line 133: a most frequent academic year of the
      kept students, which exists exactly when some student has one. */
  method DefaultYear(students: seq<Student>) returns (ano: Option<string>)
    ensures ano.None? <==> forall s :: s in students ==> s.anoLetivo.None?
    ensures ano.Some? ==> MostFrequentYear(students, ano.value)
  {
    var anos := Project(students, AnoLetivoOf);
    ano := Mode(anos);
    forall s | s in students ensures AnoLetivoOf(s) in anos {
      ProjectIn(students, AnoLetivoOf, s);
    }
    if ano.Some? {
      ProjectFrom(students, AnoLetivoOf, ano);
    }
  }

  /** gerador_sds.py:67-164. Each table is the one its section defines:
      users.csv is `UserTable` (so usernames are unique), roles.csv is `RoleTable`, classes.csv is
      `ClassTable` under a most frequent student year, and enrollments.csv
      is `EnrollmentTable` over those classes; the lemmas of each module
      characterise these. Across the tables: every role names an
      organisation of orgs.csv and a kept teacher or student; classes.csv
      and enrollments.csv are missing exactly when no student has an
      academic year; every enrollment names a class of classes.csv and a
      kept teacher or student, and enrollment sourcedIds are pairwise
      distinct; a teacher with no kept lesson has no role and no
      enrollment. */
  method Generate(db: CharDb, admin: seq<AdminRow>, alunos: seq<AlunoRow>, aulas: seq<AulaRow>)
    returns (out: Output)
    ensures out.users == UserTable(Teachers(db, admin), Students(db, alunos))
    ensures forall i, j :: 0 <= i < j < |out.users| ==> out.users[i].username != out.users[j].username
    ensures out.orgs == Orgs()
    ensures out.roles == RoleTable(Teachers(db, admin), Students(db, alunos), Lessons(aulas))
    ensures out.classes.Some? ==> exists ano ::
      MostFrequentYear(Students(db, alunos), ano)
      && out.classes.value == ClassTable(Students(db, alunos), Lessons(aulas), ano)
    ensures out.classes.Some? ==>
      out.enrollments == Some(EnrollmentTable(Students(db, alunos), Teachers(db, admin), Lessons(aulas), out.classes.value))
    ensures forall r :: r in out.roles ==>
      (exists o :: o in out.orgs && o.sourcedId == r.orgSourcedId)
      && PersonId(db, admin, alunos, r.userSourcedId)
    ensures out.classes.None? <==> out.enrollments.None?
    ensures out.classes.None? <==> forall s :: s in Students(db, alunos) ==> s.anoLetivo.None?
    ensures out.classes.Some? ==> forall e :: e in out.enrollments.value ==>
      (exists c :: c in out.classes.value && c.sourcedId == e.classSourcedId)
      && PersonId(db, admin, alunos, e.userSourcedId)
    ensures out.enrollments.Some? ==> forall i, j :: 0 <= i < j < |out.enrollments.value| ==>
      out.enrollments.value[i].sourcedId != out.enrollments.value[j].sourcedId
    ensures forall code :: Unscheduled(Lessons(aulas), code) ==>
      && (forall r :: r in out.roles ==> r.userSourcedId != "PROF_" + code)
      && (out.enrollments.Some? ==> forall e :: e in out.enrollments.value ==> e.userSourcedId != "PROF_" + code)
  {
    var teachers, students, lessons := CleanSources(db, admin, alunos, aulas);
    var users := BuildUsers(teachers, students);
    UsersSpec(teachers, students);
    var orgs := Orgs();
    var roles := BuildRoles(teachers, students, lessons);
    RolesOwned(db, admin, alunos, aulas);

    var anoLetivoPadrao := DefaultYear(students);
    if anoLetivoPadrao.None? {
      out := Output(users, orgs, roles, None, None);
      return;
    }

    var classes := BuildClasses(students, lessons, anoLetivoPadrao.value);
    var enrollments := BuildEnrollments(students, teachers, lessons, classes);
    EnrollmentsOwned(db, admin, alunos, aulas, classes);
    assert MostFrequentYear(students, anoLetivoPadrao.value) && classes == ClassTable(students, lessons, anoLetivoPadrao.value);
    out := Output(users, orgs, roles, Some(classes), Some(enrollments));
  }
}
