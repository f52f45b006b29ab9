/** users.csv, gerador_sds.py:85-88. */
module Users {
  import opened Common
  import opened Normalize
  import opened Tables
  import opened Sources

  /** A row of `users_prof_prov` / `users_aluno_prov`. */
  datatype Person = Person(sourcedId: string, nomeCompleto: string, username: string)

  datatype UserRow = UserRow(sourcedId: string, username: string, givenName: string, familyName: Option<string>)

  function PersonOfTeacher(t: Teacher): Person { Person(t.sourcedId, t.nome, t.username) }
  function PersonOfStudent(s: Student): Person { Person(s.sourcedId, s.nome, s.username) }
  function UsernameOf(p: Person): string { p.username }

  /** The concatenation of line 87: teachers first, then students. */
  function People(teachers: seq<Teacher>, students: seq<Student>): seq<Person> {
    Project(teachers, PersonOfTeacher) + Project(students, PersonOfStudent)
  }

  /** `str.split(' ', n=1)`: the text before the first space, and the rest
      when there is a space. */
  function SplitName(nome: string): (r: (string, Option<string>))
    ensures ' ' !in r.0
    ensures r.1.None? ==> r.0 == nome
    ensures r.1.Some? ==> nome == r.0 + " " + r.1.value
  {
    match SplitAt(nome, ' ')
    case None => (nome, None)
    case Some(p) => (p.0, Some(p.1))
  }

  function UserOf(p: Person): UserRow {
    var (given, family) := SplitName(p.nomeCompleto);
    UserRow(p.sourcedId, p.username, given, family)
  }

  /** users.csv: the first person of each username, with the name split. */
  function UserTable(teachers: seq<Teacher>, students: seq<Student>): seq<UserRow> {
    Project(Dedup(People(teachers, students), UsernameOf), UserOf)
  }

  /** No two users share a username; the users are exactly the first
      person of each username, teachers before students, with the name
      split into given and family name; every kept teacher and student has
      a user with its username. */
  lemma UsersSpec(teachers: seq<Teacher>, students: seq<Student>)
    ensures var users := UserTable(teachers, students);
      forall i, j :: 0 <= i < j < |users| ==> users[i].username != users[j].username
    ensures var users := UserTable(teachers, students);
      var people := People(teachers, students);
      forall u :: u in users <==>
        exists i :: 0 <= i < |people| && FirstOfKey(people, UsernameOf, i) && u == UserOf(people[i])
    ensures forall t :: t in teachers ==> exists u :: u in UserTable(teachers, students) && u.username == t.username
    ensures forall s :: s in students ==> exists u :: u in UserTable(teachers, students) && u.username == s.username
  {
    var people := People(teachers, students);
    var unique := Dedup(people, UsernameOf);
    var users := UserTable(teachers, students);
    DedupSpec(people, UsernameOf);
    assert forall k :: 0 <= k < |unique| ==> users[k].username == unique[k].username;
    forall u ensures u in users <==>
      exists i :: 0 <= i < |people| && FirstOfKey(people, UsernameOf, i) && u == UserOf(people[i])
    {
      if u in users {
        var k :| 0 <= k < |users| && users[k] == u;
        assert unique[k] in unique;
      }
      if i :| 0 <= i < |people| && FirstOfKey(people, UsernameOf, i) && u == UserOf(people[i]) {
        assert people[i] in unique;
        var k :| 0 <= k < |unique| && unique[k] == people[i];
        assert users[k] == u;
      }
    }
    forall name | name in KeySet(people, UsernameOf)
      ensures exists u :: u in users && u.username == name
    {
      assert name in KeySet(unique, UsernameOf);
      var k :| 0 <= k < |unique| && UsernameOf(unique[k]) == name;
      assert users[k] in users;
    }
    forall t | t in teachers ensures t.username in KeySet(people, UsernameOf) {
      var i :| 0 <= i < |teachers| && teachers[i] == t;
      assert people[i] == PersonOfTeacher(t);
    }
    forall s | s in students ensures s.username in KeySet(people, UsernameOf) {
      var i :| 0 <= i < |students| && students[i] == s;
      assert people[|teachers| + i] == PersonOfStudent(s);
    }
  }

  /** gerador_sds.py:85-88: teachers and students concatenated,
      deduplicated on username, names split. */
  method BuildUsers(teachers: seq<Teacher>, students: seq<Student>) returns (users: seq<UserRow>)
    ensures users == UserTable(teachers, students)
  {
    var usersProv := Project(teachers, PersonOfTeacher) + Project(students, PersonOfStudent);
    var usersFinal := DropDuplicates(usersProv, UsernameOf);
    users := Project(usersFinal, UserOf);
  }
}
