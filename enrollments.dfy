/** enrollments.csv, gerador_sds.py:148-164. */
module Enrollments {
  import opened Common
  import opened Tables
  import opened Sources
  import opened Roles
  import opened Classes

  /** A row of `enroll_alunos` / `enroll_profs`. */
  datatype EnrollCand = EnrollCand(userSourcedId: string, classSourcedId: string, role: string)

  datatype EnrollmentRow = EnrollmentRow(
    sourcedId: string, classSourcedId: string, userSourcedId: string, role: string)

  /** The composite join key (EscolaID, CodigoTurma). A missing class code
      never matches: the class side always has one. */
  function StudentClassKey(s: Student): (string, Option<string>) { (s.escolaId, s.codigoTurma) }
  function ClassKey(c: ClassRow): (string, Option<string>) { (c.escolaId, Some(c.codigoTurma)) }
  function LessonCode(l: Lesson): string { l.codigoProfessor }
  function ScheduledClassKey(p: (Lesson, Teacher)): (string, Option<string>) {
    (p.0.escolaId, p.0.codigoTurma)
  }

  function StudentEnrollment(p: (Student, ClassRow)): EnrollCand {
    EnrollCand(p.0.sourcedId, p.1.sourcedId, "student")
  }

  function TeacherEnrollment(q: ((Lesson, Teacher), ClassRow)): EnrollCand {
    EnrollCand(q.0.1.sourcedId, q.1.sourcedId, "teacher")
  }

  function SameRow(e: EnrollCand): EnrollCand { e }

  /** Enrollments of lines 152-162 before `drop_duplicates`: students
      joined to classes, then lessons joined to teachers and to classes. */
  function EnrollCandidates(students: seq<Student>, teachers: seq<Teacher>, lessons: seq<Lesson>,
                            classes: seq<ClassRow>): seq<EnrollCand>
  {
    var enrollAlunos := Project(Merge(students, classes, StudentClassKey, ClassKey), StudentEnrollment);
    var enrollProfs := Merge(lessons, teachers, LessonCode, TeacherCode);
    var enrollProfsTurmas := Merge(enrollProfs, classes, ScheduledClassKey, ClassKey);
    enrollAlunos + Project(enrollProfsTurmas, TeacherEnrollment)
  }

  /** Student `s` is in class `c`: same school and class code. */
  predicate StudentIn(s: Student, c: ClassRow) {
    s.escolaId == c.escolaId && s.codigoTurma == Some(c.codigoTurma)
  }

  /** Teacher `t` teaches lesson `l` of class `c`. */
  predicate TeacherIn(t: Teacher, l: Lesson, c: ClassRow) {
    l.codigoProfessor == t.codigo && l.escolaId == c.escolaId && l.codigoTurma == Some(c.codigoTurma)
  }

  /** `e` links a student to that student's class, or a teacher to a class
      of one of that teacher's lessons. */
  predicate EnrollmentFrom(students: seq<Student>, teachers: seq<Teacher>, lessons: seq<Lesson>,
                           classes: seq<ClassRow>, e: EnrollCand)
  {
    || (&& e.role == "student"
        && exists s, c :: s in students && c in classes && StudentIn(s, c)
             && e.userSourcedId == s.sourcedId && e.classSourcedId == c.sourcedId)
    || (&& e.role == "teacher"
        && exists t, l, c :: t in teachers && l in lessons && c in classes && TeacherIn(t, l, c)
             && e.userSourcedId == t.sourcedId && e.classSourcedId == c.sourcedId)
  }

  /** A candidate enrollment links a student to its class or a teacher to
      the class of one of its lessons. */
  lemma EnrollCandidateSound(students: seq<Student>, teachers: seq<Teacher>, lessons: seq<Lesson>,
                             classes: seq<ClassRow>, e: EnrollCand)
    requires e in EnrollCandidates(students, teachers, lessons, classes)
    ensures EnrollmentFrom(students, teachers, lessons, classes, e)
  {
    var sa := Merge(students, classes, StudentClassKey, ClassKey);
    var enrollProfs := Merge(lessons, teachers, LessonCode, TeacherCode);
    var pt := Merge(enrollProfs, classes, ScheduledClassKey, ClassKey);
    if e in Project(sa, StudentEnrollment) {
      ProjectFrom(sa, StudentEnrollment, e);
      var p :| p in sa && StudentEnrollment(p) == e;
      assert StudentIn(p.0, p.1);
    } else {
      ProjectFrom(pt, TeacherEnrollment, e);
      var q :| q in pt && TeacherEnrollment(q) == e;
      assert q.0 in enrollProfs;
      assert TeacherIn(q.0.1, q.0.0, q.1);
    }
  }

  /** Every student in a class has a candidate enrollment in it. */
  lemma StudentEnrollComplete(students: seq<Student>, teachers: seq<Teacher>, lessons: seq<Lesson>,
                              classes: seq<ClassRow>, s: Student, c: ClassRow)
    requires s in students && c in classes && StudentIn(s, c)
    ensures EnrollCand(s.sourcedId, c.sourcedId, "student") in EnrollCandidates(students, teachers, lessons, classes)
  {
    var sa := Merge(students, classes, StudentClassKey, ClassKey);
    assert (s, c) in sa;
    ProjectIn(sa, StudentEnrollment, (s, c));
  }

  /** Every teacher of a lesson of a class has a candidate enrollment in it. */
  lemma TeacherEnrollComplete(students: seq<Student>, teachers: seq<Teacher>, lessons: seq<Lesson>,
                              classes: seq<ClassRow>, t: Teacher, l: Lesson, c: ClassRow)
    requires t in teachers && l in lessons && c in classes && TeacherIn(t, l, c)
    ensures EnrollCand(t.sourcedId, c.sourcedId, "teacher") in EnrollCandidates(students, teachers, lessons, classes)
  {
    var enrollProfs := Merge(lessons, teachers, LessonCode, TeacherCode);
    assert (l, t) in enrollProfs;
    var pt := Merge(enrollProfs, classes, ScheduledClassKey, ClassKey);
    assert ((l, t), c) in pt;
    ProjectIn(pt, TeacherEnrollment, ((l, t), c));
    var sa := Merge(students, classes, StudentClassKey, ClassKey);
    assert EnrollCandidates(students, teachers, lessons, classes) ==
      Project(sa, StudentEnrollment) + Project(pt, TeacherEnrollment);
  }

  /** The candidate enrollments are exactly the student-in-class and
      teacher-teaches-class links. */
  lemma EnrollCandidatesSpec(students: seq<Student>, teachers: seq<Teacher>, lessons: seq<Lesson>,
                             classes: seq<ClassRow>)
    ensures forall e :: e in EnrollCandidates(students, teachers, lessons, classes) <==>
      EnrollmentFrom(students, teachers, lessons, classes, e)
  {
    forall e | e in EnrollCandidates(students, teachers, lessons, classes)
      ensures EnrollmentFrom(students, teachers, lessons, classes, e)
    {
      EnrollCandidateSound(students, teachers, lessons, classes, e);
    }
    forall e | EnrollmentFrom(students, teachers, lessons, classes, e)
      ensures e in EnrollCandidates(students, teachers, lessons, classes)
    {
      if e.role == "student" && exists s, c :: (s in students && c in classes && StudentIn(s, c)
           && e.userSourcedId == s.sourcedId && e.classSourcedId == c.sourcedId)
      {
        var s, c :| s in students && c in classes && StudentIn(s, c)
          && e.userSourcedId == s.sourcedId && e.classSourcedId == c.sourcedId;
        StudentEnrollComplete(students, teachers, lessons, classes, s, c);
      } else {
        var t, l, c :| t in teachers && l in lessons && c in classes && TeacherIn(t, l, c)
          && e.userSourcedId == t.sourcedId && e.classSourcedId == c.sourcedId;
        TeacherEnrollComplete(students, teachers, lessons, classes, t, l, c);
      }
    }
  }

  function EnrollmentCand(e: EnrollmentRow): EnrollCand {
    EnrollCand(e.userSourcedId, e.classSourcedId, e.role)
  }

  /** Lines 163-164: after `reset_index`, row `i` gets the surrogate key
      `ENROLL_<i>`; the keys are pairwise distinct and the rows keep their
      order and content. */
  function Numbered(rows: seq<EnrollCand>): (r: seq<EnrollmentRow>)
    ensures |r| == |rows|
    ensures forall i :: 0 <= i < |rows| ==> EnrollmentCand(r[i]) == rows[i]
    ensures forall i :: 0 <= i < |r| ==> r[i].sourcedId == "ENROLL_" + NatToString(i)
    ensures forall i, j :: 0 <= i < j < |r| ==> r[i].sourcedId != r[j].sourcedId
  {
    var r := seq(|rows|, i requires 0 <= i < |rows| =>
      EnrollmentRow("ENROLL_" + NatToString(i), rows[i].classSourcedId, rows[i].userSourcedId, rows[i].role));
    assert forall i, j :: 0 <= i < j < |r| ==> r[i].sourcedId != r[j].sourcedId by {
      forall i, j | 0 <= i < j < |r| ensures r[i].sourcedId != r[j].sourcedId {
        NatToStringInjective(i, j);
        if r[i].sourcedId == r[j].sourcedId {
          PrefixCancel("ENROLL_", NatToString(i), NatToString(j));
        }
      }
    }
    r
  }

  /** enrollments.csv: the distinct candidate enrollments, numbered. */
  function EnrollmentTable(students: seq<Student>, teachers: seq<Teacher>, lessons: seq<Lesson>,
                       classes: seq<ClassRow>): seq<EnrollmentRow>
  {
    Numbered(Dedup(EnrollCandidates(students, teachers, lessons, classes), SameRow))
  }

  /** Every enrollment links a student to the class of its (school, class
      code), or a teacher to the class of one of its lessons, and every such
      link is enrolled exactly once. */
  lemma EnrollmentsSpec(students: seq<Student>, teachers: seq<Teacher>, lessons: seq<Lesson>,
                        classes: seq<ClassRow>)
    ensures var es := EnrollmentTable(students, teachers, lessons, classes);
      forall e :: e in es ==> EnrollmentFrom(students, teachers, lessons, classes, EnrollmentCand(e))
    ensures var es := EnrollmentTable(students, teachers, lessons, classes);
      forall e :: EnrollmentFrom(students, teachers, lessons, classes, e) ==>
        exists k :: 0 <= k < |es| && EnrollmentCand(es[k]) == e
    ensures var es := EnrollmentTable(students, teachers, lessons, classes);
      forall i, j :: 0 <= i < j < |es| ==> EnrollmentCand(es[i]) != EnrollmentCand(es[j])
  {
    var all := EnrollCandidates(students, teachers, lessons, classes);
    var unique := Dedup(all, SameRow);
    var es := Numbered(unique);
    EnrollCandidatesSpec(students, teachers, lessons, classes);
    DedupSpec(all, SameRow);
    forall e | e in es
      ensures EnrollmentFrom(students, teachers, lessons, classes, EnrollmentCand(e))
    {
      var k :| 0 <= k < |es| && es[k] == e;
      DedupFrom(all, SameRow, unique[k]);
    }
    forall e | EnrollmentFrom(students, teachers, lessons, classes, e)
      ensures exists k :: 0 <= k < |es| && EnrollmentCand(es[k]) == e
    {
      assert e in all;
      DedupCovers(all, SameRow, e);
      var y :| y in unique && SameRow(y) == SameRow(e);
      var k :| 0 <= k < |unique| && unique[k] == y;
      assert EnrollmentCand(es[k]) == e;
    }
    assert es == EnrollmentTable(students, teachers, lessons, classes);
  }

  /** gerador_sds.py:148-164: students and teachers joined to the classes,
      concatenated, deduplicated and numbered. */
  method BuildEnrollments(students: seq<Student>, teachers: seq<Teacher>, lessons: seq<Lesson>,
                          classes: seq<ClassRow>)
    returns (enrollments: seq<EnrollmentRow>)
    ensures enrollments == EnrollmentTable(students, teachers, lessons, classes)
  {
    var mapTurmas := classes;
    var enrollAlunos := MergeRows(students, mapTurmas, StudentClassKey, ClassKey);
    var enrollProfs := MergeRows(lessons, teachers, LessonCode, TeacherCode);
    var enrollProfsTurmas := MergeRows(enrollProfs, mapTurmas, ScheduledClassKey, ClassKey);
    var all := Project(enrollAlunos, StudentEnrollment) + Project(enrollProfsTurmas, TeacherEnrollment);
    var unique := DropDuplicates(all, SameRow);
    enrollments := Numbered(unique);
  }
}
