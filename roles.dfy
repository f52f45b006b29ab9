/** orgs.csv and roles.csv, gerador_sds.py:97-115. */
module Roles {
  import opened Common
  import opened Tables
  import opened Sources

  datatype OrgRow = OrgRow(sourcedId: string, name: string, orgType: string)

  function Orgs(): seq<OrgRow> {
    [OrgRow(OrgId1, OrgName1, "school"), OrgRow(OrgId2, OrgName2, "school")]
  }

  /** `map_org`: school codes "1" and "2" are the two organisations; any
      other code has none, and every organisation it names is in orgs.csv. */
  function MapOrg(escolaId: string): (r: Option<string>)
    ensures r.None? <==> escolaId != "1" && escolaId != "2"
    ensures r.Some? ==> exists o :: o in Orgs() && o.sourcedId == r.value
  {
    if escolaId == "1" then assert Orgs()[0] in Orgs(); Some(OrgId1)
    else if escolaId == "2" then assert Orgs()[1] in Orgs(); Some(OrgId2)
    else None
  }

  // ---------------------------------------------------------------------
  // roles.csv (gerador_sds.py:102-115)
  // ---------------------------------------------------------------------

  /** A row of `roles_aluno` / `roles_prof` before line 112. */
  datatype RoleCand = RoleCand(userSourcedId: string, orgSourcedId: Option<string>, role: string)

  datatype RoleRow = RoleRow(
    sourcedId: string, userSourcedId: string, orgSourcedId: string, role: string, isPrimary: string)

  function StudentRole(s: Student): RoleCand {
    RoleCand(s.sourcedId, MapOrg(s.escolaId), "student")
  }

  function TeacherSchool(l: Lesson): (string, string) { (l.codigoProfessor, l.escolaId) }
  function Itself(p: (string, string)): (string, string) { p }
  function TeacherCode(t: Teacher): string { t.codigo }
  function ScheduleCode(p: (string, string)): string { p.0 }

  function TeacherRole(j: (Teacher, (string, string))): RoleCand {
    RoleCand(j.0.sourcedId, MapOrg(j.1.1), "teacher")
  }

  /** `dropna(subset=['orgSourcedId'])` and the two new columns, lines 112-114. */
  function RoleOf(c: RoleCand): Option<RoleRow> {
    match c.orgSourcedId
    case None => None
    case Some(o) => Some(RoleRow("ROLE_" + c.userSourcedId + "_" + o, c.userSourcedId, o, c.role, "true"))
  }

  function RoleKey(r: RoleRow): (string, string) { (r.userSourcedId, r.orgSourcedId) }

  /** `prof_escolas`, line 106: the distinct (teacher code, school) pairs. */
  function ProfEscolas(lessons: seq<Lesson>): seq<(string, string)> {
    Dedup(Project(lessons, TeacherSchool), Itself)
  }

  /** `roles_aluno`, line 103: one candidate per student. */
  function StudentRoles(students: seq<Student>): seq<RoleCand> {
    Project(students, StudentRole)
  }

  /** `roles_prof`, lines 106-110: one candidate per teacher and school the
      teacher has a lesson in. */
  function TeacherRoles(teachers: seq<Teacher>, lessons: seq<Lesson>): seq<RoleCand> {
    Project(Merge(teachers, ProfEscolas(lessons), TeacherCode, ScheduleCode), TeacherRole)
  }

  /** The role rows of lines 103-114, before the deduplication of line 115:
      students first, then scheduled teachers. */
  function RoleCandidates(teachers: seq<Teacher>, students: seq<Student>, lessons: seq<Lesson>): seq<RoleRow> {
    Collect(StudentRoles(students) + TeacherRoles(teachers, lessons), RoleOf)
  }

  /** The columns of lines 112-114: an organisation of orgs.csv, the
      composite sourcedId and isPrimary "true". */
  predicate WellFormedRole(r: RoleRow) {
    && (r.orgSourcedId == OrgId1 || r.orgSourcedId == OrgId2)
    && r.sourcedId == "ROLE_" + r.userSourcedId + "_" + r.orgSourcedId
    && r.isPrimary == "true"
  }

  /** Role row `r` belongs to a student of a known school. */
  predicate StudentRoleFrom(students: seq<Student>, r: RoleRow) {
    && r.role == "student"
    && exists s :: s in students && s.sourcedId == r.userSourcedId && MapOrg(s.escolaId) == Some(r.orgSourcedId)
  }

  /** Role row `r` belongs to a teacher scheduled in a known school. */
  predicate TeacherRoleFrom(teachers: seq<Teacher>, lessons: seq<Lesson>, r: RoleRow) {
    && r.role == "teacher"
    && exists t, l :: t in teachers && l in lessons && l.codigoProfessor == t.codigo
         && t.sourcedId == r.userSourcedId && MapOrg(l.escolaId) == Some(r.orgSourcedId)
  }

  /** The (teacher code, school) pairs are exactly those of the lessons. */
  lemma ScheduledIn(lessons: seq<Lesson>, p: (string, string))
    requires p in ProfEscolas(lessons)
    ensures exists l :: l in lessons && TeacherSchool(l) == p
  {
    DedupFrom(Project(lessons, TeacherSchool), Itself, p);
    ProjectFrom(lessons, TeacherSchool, p);
  }

  lemma ScheduledHas(lessons: seq<Lesson>, l: Lesson)
    requires l in lessons
    ensures TeacherSchool(l) in ProfEscolas(lessons)
  {
    ProjectIn(lessons, TeacherSchool, l);
    DedupCovers(Project(lessons, TeacherSchool), Itself, TeacherSchool(l));
  }

  /** Every candidate role is well formed and comes from a student of that
      school or a teacher with a lesson there. */
  lemma RoleCandidateSound(teachers: seq<Teacher>, students: seq<Student>, lessons: seq<Lesson>, r: RoleRow)
    requires r in RoleCandidates(teachers, students, lessons)
    ensures WellFormedRole(r)
    ensures StudentRoleFrom(students, r) || TeacherRoleFrom(teachers, lessons, r)
  {
    var sr := StudentRoles(students);
    var tr := TeacherRoles(teachers, lessons);
    CollectFrom(sr + tr, RoleOf, r);
    var c :| c in sr + tr && RoleOf(c) == Some(r);
    if c in sr {
      ProjectFrom(students, StudentRole, c);
      var s :| s in students && StudentRole(s) == c;
    } else {
      var joined := Merge(teachers, ProfEscolas(lessons), TeacherCode, ScheduleCode);
      ProjectFrom(joined, TeacherRole, c);
      var j :| j in joined && TeacherRole(j) == c;
      ScheduledIn(lessons, j.1);
      var l :| l in lessons && TeacherSchool(l) == j.1;
      assert j.0 in teachers && l.codigoProfessor == j.0.codigo;
    }
  }

  /** Every student of a known school has a candidate role there. */
  lemma StudentRoleComplete(teachers: seq<Teacher>, students: seq<Student>, lessons: seq<Lesson>, s: Student)
    requires s in students && MapOrg(s.escolaId).Some?
    ensures RoleOf(StudentRole(s)).Some?
    ensures RoleOf(StudentRole(s)).value in RoleCandidates(teachers, students, lessons)
  {
    ProjectIn(students, StudentRole, s);
    CollectIn(StudentRoles(students) + TeacherRoles(teachers, lessons), RoleOf, StudentRole(s));
  }

  /** Every teacher with a lesson in a known school has a candidate role
      there. */
  lemma TeacherRoleComplete(teachers: seq<Teacher>, students: seq<Student>, lessons: seq<Lesson>,
                            t: Teacher, l: Lesson)
    requires t in teachers && l in lessons && l.codigoProfessor == t.codigo && MapOrg(l.escolaId).Some?
    ensures RoleOf(TeacherRole((t, TeacherSchool(l)))).Some?
    ensures RoleOf(TeacherRole((t, TeacherSchool(l)))).value in RoleCandidates(teachers, students, lessons)
  {
    ScheduledHas(lessons, l);
    var joined := Merge(teachers, ProfEscolas(lessons), TeacherCode, ScheduleCode);
    assert (t, TeacherSchool(l)) in joined;
    ProjectIn(joined, TeacherRole, (t, TeacherSchool(l)));
    CollectIn(StudentRoles(students) + TeacherRoles(teachers, lessons), RoleOf, TeacherRole((t, TeacherSchool(l))));
  }

  /** roles.csv: the first candidate of each (user, organisation). */
  function RoleTable(teachers: seq<Teacher>, students: seq<Student>, lessons: seq<Lesson>): seq<RoleRow> {
    Dedup(RoleCandidates(teachers, students, lessons), RoleKey)
  }

  /** There is one role per (user, organisation), the first candidate in
      students-then-teachers order. */
  lemma RolesUnique(teachers: seq<Teacher>, students: seq<Student>, lessons: seq<Lesson>)
    ensures var roles := RoleTable(teachers, students, lessons);
      forall i, j :: 0 <= i < j < |roles| ==> RoleKey(roles[i]) != RoleKey(roles[j])
    ensures var roles := RoleTable(teachers, students, lessons);
      var cands := RoleCandidates(teachers, students, lessons);
      forall r :: r in roles <==> exists i :: 0 <= i < |cands| && cands[i] == r && FirstOfKey(cands, RoleKey, i)
  {
    DedupSpec(RoleCandidates(teachers, students, lessons), RoleKey);
  }

  /** After the deduplication of line 115 every role is well formed and
      owned by a student or a scheduled teacher. */
  lemma RolesSound(teachers: seq<Teacher>, students: seq<Student>, lessons: seq<Lesson>)
    ensures forall r :: r in RoleTable(teachers, students, lessons) ==>
      WellFormedRole(r) && (StudentRoleFrom(students, r) || TeacherRoleFrom(teachers, lessons, r))
  {
    var cands := RoleCandidates(teachers, students, lessons);
    forall r | r in Dedup(cands, RoleKey)
      ensures WellFormedRole(r) && (StudentRoleFrom(students, r) || TeacherRoleFrom(teachers, lessons, r))
    {
      DedupFrom(cands, RoleKey, r);
      RoleCandidateSound(teachers, students, lessons, r);
    }
  }

  /** After the deduplication of line 115 every student of a known school
      and every teacher with a lesson in a known school still has a role
      there. */
  lemma RolesComplete(teachers: seq<Teacher>, students: seq<Student>, lessons: seq<Lesson>)
    ensures var roles := RoleTable(teachers, students, lessons);
      forall s :: s in students && MapOrg(s.escolaId).Some? ==>
        exists r :: r in roles && r.userSourcedId == s.sourcedId && r.orgSourcedId == MapOrg(s.escolaId).value
    ensures var roles := RoleTable(teachers, students, lessons);
      forall t, l :: t in teachers && l in lessons && l.codigoProfessor == t.codigo && MapOrg(l.escolaId).Some? ==>
        exists r :: r in roles && r.userSourcedId == t.sourcedId && r.orgSourcedId == MapOrg(l.escolaId).value
  {
    var cands := RoleCandidates(teachers, students, lessons);
    forall s | s in students && MapOrg(s.escolaId).Some?
      ensures exists r :: r in Dedup(cands, RoleKey) && r.userSourcedId == s.sourcedId && r.orgSourcedId == MapOrg(s.escolaId).value
    {
      StudentRoleComplete(teachers, students, lessons, s);
      DedupCovers(cands, RoleKey, RoleOf(StudentRole(s)).value);
    }
    forall t, l | t in teachers && l in lessons && l.codigoProfessor == t.codigo && MapOrg(l.escolaId).Some?
      ensures exists r :: r in Dedup(cands, RoleKey) && r.userSourcedId == t.sourcedId && r.orgSourcedId == MapOrg(l.escolaId).value
    {
      TeacherRoleComplete(teachers, students, lessons, t, l);
      DedupCovers(cands, RoleKey, RoleOf(TeacherRole((t, TeacherSchool(l)))).value);
    }
  }

  /** gerador_sds.py:102-115: student roles and the roles of teachers
      joined to their distinct schools, concatenated, restricted to known
      organisations, completed with sourcedId and isPrimary, deduplicated
      on (user, organisation). */
  method BuildRoles(teachers: seq<Teacher>, students: seq<Student>, lessons: seq<Lesson>)
    returns (roles: seq<RoleRow>)
    ensures roles == RoleTable(teachers, students, lessons)
  {
    var rolesAluno := Project(students, StudentRole);
    var profEscolas := DropDuplicates(Project(lessons, TeacherSchool), Itself);
    var rolesProf := MergeRows(teachers, profEscolas, TeacherCode, ScheduleCode);
    var rolesProfCand := Project(rolesProf, TeacherRole);
    var rolesFinal := CollectRows(rolesAluno + rolesProfCand, RoleOf);
    roles := DropDuplicates(rolesFinal, RoleKey);
  }
}
