/** classes.csv, gerador_sds.py:122-141. */
module Classes {
  import opened Common
  import opened Tables
  import opened Sources
  import opened Roles

  /** A row of `turmas_info_alunos` / `turmas_info_profs`. */
  datatype ClassInfo = ClassInfo(
    escolaId: string, nomeSerie: string, nomeTurma: string, anoLetivo: Option<string>,
    codigoTurma: Option<string>)

  /** A row of `df_turmas_mestra` after the `dropna` of line 129. */
  datatype MasterRow = MasterRow(
    escolaId: string, nomeSerie: string, nomeTurma: string, anoLetivo: Option<string>,
    codigoTurma: string)

  /** A row of `df_turmas_mestra` after line 141: the classes.csv columns
      (sourcedId, title, orgSourcedId) and the join key kept for
      `map_turmas`. */
  datatype ClassRow = ClassRow(
    sourcedId: string, title: string, orgSourcedId: Option<string>,
    escolaId: string, codigoTurma: string)

  function StudentClass(s: Student): ClassInfo {
    ClassInfo(s.escolaId, s.nomeSerie, s.nomeTurma, s.anoLetivo, s.codigoTurma)
  }

  function LessonClass(l: Lesson): ClassInfo {
    ClassInfo(l.escolaId, l.nomeSerie, l.nomeTurma, None, l.codigoTurma)
  }

  /** `dropna(subset=['EscolaID', 'CodigoTurma'])` on one row. */
  function MasterOf(c: ClassInfo): Option<MasterRow> {
    match c.codigoTurma
    case None => None
    case Some(code) => Some(MasterRow(c.escolaId, c.nomeSerie, c.nomeTurma, c.anoLetivo, code))
  }

  function MasterKey(m: MasterRow): (string, string) { (m.escolaId, m.codigoTurma) }

  /** Lines 134-141 on one row: the year filled with the default, the
      organisation, the title and the sourcedId. */
  function ClassOf(m: MasterRow, anoPadrao: string): ClassRow {
    var ano := m.anoLetivo.GetOr(anoPadrao);
    ClassRow(m.codigoTurma, m.nomeTurma + " - " + m.nomeSerie + " " + ano, MapOrg(m.escolaId),
             m.escolaId, m.codigoTurma)
  }

  function ClassOfYear(anoPadrao: string): MasterRow -> ClassRow {
    m => ClassOf(m, anoPadrao)
  }

  /** The master table of lines 122-129, before the deduplication of line
      130: student classes first, then scheduled classes. */
  function MasterCandidates(students: seq<Student>, lessons: seq<Lesson>): seq<MasterRow> {
    Collect(Project(students, StudentClass) + Project(lessons, LessonClass), MasterOf)
  }

  /** classes.csv for a given default year: the first master row of each
      (school, class code) pair, completed by `ClassOf`. */
  function ClassTable(students: seq<Student>, lessons: seq<Lesson>, anoPadrao: string): seq<ClassRow> {
    Project(Dedup(MasterCandidates(students, lessons), MasterKey), ClassOfYear(anoPadrao))
  }

  /** Every master row comes from a student or a lesson with a class code,
      and every such student and lesson yields one. */
  lemma MasterFrom(students: seq<Student>, lessons: seq<Lesson>, m: MasterRow)
    requires m in MasterCandidates(students, lessons)
    ensures (exists s :: s in students && MasterOf(StudentClass(s)) == Some(m))
         || (exists l :: l in lessons && MasterOf(LessonClass(l)) == Some(m))
  {
    var sc := Project(students, StudentClass);
    var lc := Project(lessons, LessonClass);
    CollectFrom(sc + lc, MasterOf, m);
    var c :| c in sc + lc && MasterOf(c) == Some(m);
    if c in sc {
      ProjectFrom(students, StudentClass, c);
    } else {
      ProjectFrom(lessons, LessonClass, c);
    }
  }

  lemma StudentMaster(students: seq<Student>, lessons: seq<Lesson>, s: Student)
    requires s in students && s.codigoTurma.Some?
    ensures MasterOf(StudentClass(s)).Some?
    ensures MasterOf(StudentClass(s)).value in MasterCandidates(students, lessons)
  {
    ProjectIn(students, StudentClass, s);
    CollectIn(Project(students, StudentClass) + Project(lessons, LessonClass), MasterOf, StudentClass(s));
  }

  lemma LessonMaster(students: seq<Student>, lessons: seq<Lesson>, l: Lesson)
    requires l in lessons && l.codigoTurma.Some?
    ensures MasterOf(LessonClass(l)).Some?
    ensures MasterOf(LessonClass(l)).value in MasterCandidates(students, lessons)
  {
    ProjectIn(lessons, LessonClass, l);
    CollectIn(Project(students, StudentClass) + Project(lessons, LessonClass), MasterOf, LessonClass(l));
  }

  /** No two classes share a (school, class code) pair; the classes are
      exactly the first master row of each pair, each with sourcedId = its
      class code and the organisation of its school. */
  lemma ClassesSpec(students: seq<Student>, lessons: seq<Lesson>, anoPadrao: string)
    ensures var cs := ClassTable(students, lessons, anoPadrao);
      forall i, j :: 0 <= i < j < |cs| ==>
        (cs[i].escolaId, cs[i].codigoTurma) != (cs[j].escolaId, cs[j].codigoTurma)
    ensures var cs := ClassTable(students, lessons, anoPadrao);
      var ms := MasterCandidates(students, lessons);
      forall c :: c in cs <==>
        exists i :: 0 <= i < |ms| && FirstOfKey(ms, MasterKey, i) && c == ClassOf(ms[i], anoPadrao)
    ensures forall c :: c in ClassTable(students, lessons, anoPadrao) ==>
      c.sourcedId == c.codigoTurma && c.orgSourcedId == MapOrg(c.escolaId)
  {
    var ms := MasterCandidates(students, lessons);
    var ds := Dedup(ms, MasterKey);
    var cs := ClassTable(students, lessons, anoPadrao);
    DedupSpec(ms, MasterKey);
    assert forall k :: 0 <= k < |cs| ==>
      cs[k] == ClassOf(ds[k], anoPadrao) && (cs[k].escolaId, cs[k].codigoTurma) == MasterKey(ds[k]);
    forall c ensures c in cs <==>
      exists i :: 0 <= i < |ms| && FirstOfKey(ms, MasterKey, i) && c == ClassOf(ms[i], anoPadrao)
    {
      if c in cs {
        var k :| 0 <= k < |cs| && cs[k] == c;
        assert ds[k] in ds;
      }
      if i :| 0 <= i < |ms| && FirstOfKey(ms, MasterKey, i) && c == ClassOf(ms[i], anoPadrao) {
        assert ms[i] in ds;
        var k :| 0 <= k < |ds| && ds[k] == ms[i];
        assert cs[k] == c;
      }
    }
  }

  /** Every student and every lesson with a class code has a class with
      its school and class code. */
  lemma ClassesComplete(students: seq<Student>, lessons: seq<Lesson>, anoPadrao: string)
    ensures forall s :: s in students && s.codigoTurma.Some? ==>
      exists c :: c in ClassTable(students, lessons, anoPadrao) && c.escolaId == s.escolaId && c.codigoTurma == s.codigoTurma.value
    ensures forall l :: l in lessons && l.codigoTurma.Some? ==>
      exists c :: c in ClassTable(students, lessons, anoPadrao) && c.escolaId == l.escolaId && c.codigoTurma == l.codigoTurma.value
  {
    var ms := MasterCandidates(students, lessons);
    var ds := Dedup(ms, MasterKey);
    forall s | s in students && s.codigoTurma.Some?
      ensures exists c :: c in ClassTable(students, lessons, anoPadrao) && c.escolaId == s.escolaId && c.codigoTurma == s.codigoTurma.value
    {
      StudentMaster(students, lessons, s);
      DedupCovers(ms, MasterKey, MasterOf(StudentClass(s)).value);
      var y :| y in ds && MasterKey(y) == (s.escolaId, s.codigoTurma.value);
      ProjectIn(ds, ClassOfYear(anoPadrao), y);
    }
    forall l | l in lessons && l.codigoTurma.Some?
      ensures exists c :: c in ClassTable(students, lessons, anoPadrao) && c.escolaId == l.escolaId && c.codigoTurma == l.codigoTurma.value
    {
      LessonMaster(students, lessons, l);
      DedupCovers(ms, MasterKey, MasterOf(LessonClass(l)).value);
      var y :| y in ds && MasterKey(y) == (l.escolaId, l.codigoTurma.value);
      ProjectIn(ds, ClassOfYear(anoPadrao), y);
    }
  }

  lemma TwoStudentMasters(s1: Student, s2: Student)
    requires s1.codigoTurma.Some? && s2.codigoTurma.Some?
    ensures MasterCandidates([s1, s2], []) ==
      [MasterOf(StudentClass(s1)).value, MasterOf(StudentClass(s2)).value]
  {
    var infos := Project([s1, s2], StudentClass) + Project([], LessonClass);
    assert infos == [StudentClass(s1), StudentClass(s2)];
    assert infos[..1] == [StudentClass(s1)];
    assert infos[..1][..0] == [];
    assert Collect(infos[..1], MasterOf) == [MasterOf(StudentClass(s1)).value];
  }

  lemma TwoDistinctKeys(m1: MasterRow, m2: MasterRow)
    requires MasterKey(m1) != MasterKey(m2)
    ensures Dedup([m1, m2], MasterKey) == [m1, m2]
  {
    assert [m1, m2][..1] == [m1];
    assert [m1][..0] == [];
    assert Dedup([m1], MasterKey) == [m1];
    assert MasterKey(m2) !in KeySet([m1], MasterKey);
  }

  /** The class sourcedId is the class code alone, while classes are told
      apart by (school, class code): two schools using the same class code
      yield two classes with one sourcedId. */
  lemma SharedCodeSharedId(s1: Student, s2: Student, anoPadrao: string)
    requires s1.escolaId != s2.escolaId && s1.codigoTurma == s2.codigoTurma && s1.codigoTurma.Some?
    ensures var cs := ClassTable([s1, s2], [], anoPadrao);
      |cs| == 2 && cs[0].sourcedId == cs[1].sourcedId
  {
    var m1 := MasterOf(StudentClass(s1)).value;
    var m2 := MasterOf(StudentClass(s2)).value;
    TwoStudentMasters(s1, s2);
    TwoDistinctKeys(m1, m2);
  }

  /** gerador_sds.py:122-141, given the default year of line 133: the
      master table of student and scheduled classes, deduplicated on
      (school, class code), with title, organisation and sourcedId. */
  method BuildClasses(students: seq<Student>, lessons: seq<Lesson>, anoPadrao: string)
    returns (classes: seq<ClassRow>)
    ensures classes == ClassTable(students, lessons, anoPadrao)
  {
    var turmasInfoAlunos := Project(students, StudentClass);
    var turmasInfoProfs := Project(lessons, LessonClass);
    var turmasMestra := CollectRows(turmasInfoAlunos + turmasInfoProfs, MasterOf);
    turmasMestra := DropDuplicates(turmasMestra, MasterKey);
    classes := Project(turmasMestra, ClassOfYear(anoPadrao));
  }
}
