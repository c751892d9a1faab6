/**
 * The ingestion step: from what the two line patterns capture to the lists
 * of projects and students. Projects are read from every line first, their
 * ids form the set of valid ids, and then students are read with their
 * preference lists cleaned against that set.
 *
 * A project line captures three digit strings (id, seats, minimum score). A
 * student line captures an id, three preferred project ids and a score that
 * is a single digit. The pattern search itself is not modelled: each input
 * line is given by the groups each pattern captured on it, if any.
 */
module Ingestion {
  import opened Wrappers
  import opened Entities
  import opened Preferences

  predicate IsDigit(c: char) { '0' <= c <= '9' }

  predicate AllDigits(s: seq<char>) { forall i :: 0 <= i < |s| ==> IsDigit(s[i]) }

  /** A group captured by one or more digits. */
  type Digits = s: seq<char> | |s| > 0 && AllDigits(s) witness "0"

  /** A group captured by exactly one digit. */
  type OneDigit = s: seq<char> | |s| == 1 && AllDigits(s) witness "0"

  datatype ProjectGroups = ProjectGroups(id: Digits, vagas: Digits, notaMin: Digits)

  datatype StudentGroups = StudentGroups(id: Digits, p1: Digits, p2: Digits, p3: Digits, nota: OneDigit)

  /** What the project pattern and the student pattern found on one line. */
  datatype LineMatch = LineMatch(project: Option<ProjectGroups>, student: Option<StudentGroups>)

  datatype ProjectRecord = ProjectRecord(id: nat, vagas: nat, notaMin: nat)

  /** A student as captured, with the raw, uncleaned preference list. */
  datatype StudentRecord = StudentRecord(id: nat, rawPrefs: seq<nat>, nota: nat)

  function Pow10(n: nat): (r: nat)
    ensures r >= 1
  {
    if n == 0 then 1 else 10 * Pow10(n - 1)
  }

  /** The integer a string of decimal digits denotes. */
  function DigitsValue(s: seq<char>): (r: nat)
    requires AllDigits(s)
    ensures r < Pow10(|s|)
    decreases |s|
  {
    if s == [] then 0
    else
      var n := |s| - 1;
      var d := (s[n] as int) - ('0' as int);
      assert 0 <= d <= 9;
      var v := DigitsValue(s[..n]);
      assert v <= Pow10(n) - 1;
      10 * v + d
  }

  /** Leading zeros do not change the value: P07 and P7 name one project. */
  lemma {:induction false} LeadingZeroIgnored(s: seq<char>)
    requires AllDigits(s)
    ensures DigitsValue(['0'] + s) == DigitsValue(s)
    decreases |s|
  {
    if s != [] {
      var n := |s| - 1;
      LeadingZeroIgnored(s[..n]);
      assert (['0'] + s)[..n + 1] == ['0'] + s[..n];
    }
  }

  function ToProjectRecord(g: ProjectGroups): ProjectRecord
  {
    ProjectRecord(DigitsValue(g.id), DigitsValue(g.vagas), DigitsValue(g.notaMin))
  }

  function ToStudentRecord(g: StudentGroups): StudentRecord
  {
    StudentRecord(DigitsValue(g.id), [DigitsValue(g.p1), DigitsValue(g.p2), DigitsValue(g.p3)], DigitsValue(g.nota))
  }

  /** The projects of the input, one per line the project pattern matches, in line order. */
  function ProjectRecords(lines: seq<LineMatch>): seq<ProjectRecord>
    decreases |lines|
  {
    if lines == [] then []
    else
      var n := |lines| - 1;
      ProjectRecords(lines[..n])
        + (if lines[n].project.Some? then [ToProjectRecord(lines[n].project.value)] else [])
  }

  /** The students of the input, one per line the student pattern matches, in line order. */
  function StudentRecords(lines: seq<LineMatch>): seq<StudentRecord>
    decreases |lines|
  {
    if lines == [] then []
    else
      var n := |lines| - 1;
      StudentRecords(lines[..n])
        + (if lines[n].student.Some? then [ToStudentRecord(lines[n].student.value)] else [])
  }

  /** The ids of the parsed projects. */
  function ValidIds(lines: seq<LineMatch>): set<int>
  {
    set r | r in ProjectRecords(lines) :: r.id as int
  }

  /** p is a project freshly built from r. */
  predicate BuiltFromProject(p: Projeto, r: ProjectRecord)
    reads p
  {
    p.id == r.id && p.vMax == r.vagas && p.rMin == r.notaMin && p.alunosAlocados == []
  }

  /** a is a student freshly built from r, with preferences cleaned against valid. */
  predicate BuiltFromStudent(a: Aluno, r: StudentRecord, valid: set<int>)
    reads a
  {
    a.id == r.id && a.nota == r.nota && a.preferencias == CleanPrefs(r.rawPrefs, valid)
    && a.projetoAlocado == null && a.proximaPropostaIdx == 0
  }

  /** The first pass over the lines: one new project per project line. */
  method ReadProjects(lines: seq<LineMatch>) returns (projetos: seq<Projeto>)
    ensures |projetos| == |ProjectRecords(lines)|
    ensures forall i :: 0 <= i < |projetos| ==>
              fresh(projetos[i]) && BuiltFromProject(projetos[i], ProjectRecords(lines)[i])
    ensures forall i, j :: 0 <= i < j < |projetos| ==> projetos[i] != projetos[j]
  {
    projetos := [];
    var i := 0;
    while i < |lines|
      invariant 0 <= i <= |lines|
      invariant |projetos| == |ProjectRecords(lines[..i])|
      invariant forall k :: 0 <= k < |projetos| ==>
                  fresh(projetos[k]) && BuiltFromProject(projetos[k], ProjectRecords(lines[..i])[k])
      invariant forall k, l :: 0 <= k < l < |projetos| ==> projetos[k] != projetos[l]
    {
      assert lines[..i + 1][..i] == lines[..i];
      match lines[i].project {
        case Some(g) =>
          var p := new Projeto(DigitsValue(g.id), DigitsValue(g.vagas), DigitsValue(g.notaMin));
          projetos := projetos + [p];
        case None =>
      }
      i := i + 1;
    }
    assert lines[..i] == lines;
  }

  /** The second pass over the lines: one new student per student line,
      its preferences cleaned against validIds. */
  method ReadStudents(lines: seq<LineMatch>, validIds: set<int>) returns (alunos: seq<Aluno>)
    ensures |alunos| == |StudentRecords(lines)|
    ensures forall i :: 0 <= i < |alunos| ==>
              fresh(alunos[i]) && BuiltFromStudent(alunos[i], StudentRecords(lines)[i], validIds)
    ensures forall i, j :: 0 <= i < j < |alunos| ==> alunos[i] != alunos[j]
  {
    alunos := [];
    var i := 0;
    while i < |lines|
      invariant 0 <= i <= |lines|
      invariant |alunos| == |StudentRecords(lines[..i])|
      invariant forall k :: 0 <= k < |alunos| ==>
                  fresh(alunos[k]) && BuiltFromStudent(alunos[k], StudentRecords(lines[..i])[k], validIds)
      invariant forall k, l :: 0 <= k < l < |alunos| ==> alunos[k] != alunos[l]
    {
      assert lines[..i + 1][..i] == lines[..i];
      match lines[i].student {
        case Some(g) =>
          var alunoId := DigitsValue(g.id);
          var rawPrefs := [DigitsValue(g.p1), DigitsValue(g.p2), DigitsValue(g.p3)];
          var nota := DigitsValue(g.nota);
          var cleanPrefs := CleanPreferences(rawPrefs, validIds);
          var a := new Aluno(alunoId, nota, cleanPrefs);
          alunos := alunos + [a];
        case None =>
      }
      i := i + 1;
    }
    assert lines[..i] == lines;
  }

  /** The whole ingestion step: projects, then the valid ids, then students. */
  method ParseInput(lines: seq<LineMatch>) returns (projetos: seq<Projeto>, alunos: seq<Aluno>)
    ensures |projetos| == |ProjectRecords(lines)|
    ensures forall i :: 0 <= i < |projetos| ==>
              fresh(projetos[i]) && BuiltFromProject(projetos[i], ProjectRecords(lines)[i])
    ensures forall i, j :: 0 <= i < j < |projetos| ==> projetos[i] != projetos[j]
    ensures |alunos| == |StudentRecords(lines)|
    ensures forall i :: 0 <= i < |alunos| ==>
              fresh(alunos[i]) && BuiltFromStudent(alunos[i], StudentRecords(lines)[i], ValidIds(lines))
    ensures forall i, j :: 0 <= i < j < |alunos| ==> alunos[i] != alunos[j]
  {
    projetos := ReadProjects(lines);
    var validIds := set p | p in projetos :: p.id;
    assert validIds == ValidIds(lines) by {
      var recs := ProjectRecords(lines);
      forall x | x in validIds ensures x in ValidIds(lines) {
        var p :| p in projetos && p.id == x;
        var i :| 0 <= i < |projetos| && projetos[i] == p;
        assert recs[i] in recs;
      }
      forall x | x in ValidIds(lines) ensures x in validIds {
        var r :| r in recs && r.id == x;
        var i :| 0 <= i < |recs| && recs[i] == r;
        assert projetos[i] in projetos;
      }
    }
    alunos := ReadStudents(lines, validIds);
  }

  /** The valid ids are exactly the ids captured on project lines. */
  lemma {:induction false} ValidIdsAreProjectLineIds(lines: seq<LineMatch>)
    ensures forall x :: x in ValidIds(lines) <==>
              exists i :: 0 <= i < |lines| && lines[i].project.Some? && DigitsValue(lines[i].project.value.id) == x
    decreases |lines|
  {
    if lines != [] {
      var n := |lines| - 1;
      var p := lines[..n];
      ValidIdsAreProjectLineIds(p);
      assert ProjectRecords(lines) == ProjectRecords(p)
        + (if lines[n].project.Some? then [ToProjectRecord(lines[n].project.value)] else []);
      forall x
        ensures x in ValidIds(lines) <==>
          exists i :: 0 <= i < |lines| && lines[i].project.Some? && DigitsValue(lines[i].project.value.id) == x
      {
        if x in ValidIds(lines) {
          var r :| r in ProjectRecords(lines) && r.id == x;
          if r in ProjectRecords(p) {
            assert x in ValidIds(p);
            var i :| 0 <= i < |p| && p[i].project.Some? && DigitsValue(p[i].project.value.id) == x;
            assert lines[i] == p[i];
          } else {
            assert lines[n].project.Some? && DigitsValue(lines[n].project.value.id) == x;
          }
        }
        if exists i :: 0 <= i < |lines| && lines[i].project.Some? && DigitsValue(lines[i].project.value.id) == x {
          var i :| 0 <= i < |lines| && lines[i].project.Some? && DigitsValue(lines[i].project.value.id) == x;
          if i < n {
            assert p[i] == lines[i];
            assert x in ValidIds(p);
            var r :| r in ProjectRecords(p) && r.id == x;
            assert r in ProjectRecords(lines);
          } else {
            assert ToProjectRecord(lines[n].project.value) in ProjectRecords(lines);
          }
        }
      }
    }
  }

  /** Records are produced in line order: the records of a concatenation of
      lines are the records of the first part followed by those of the second. */
  lemma {:induction false} RecordsAppend(a: seq<LineMatch>, b: seq<LineMatch>)
    ensures ProjectRecords(a + b) == ProjectRecords(a) + ProjectRecords(b)
    ensures StudentRecords(a + b) == StudentRecords(a) + StudentRecords(b)
    decreases |b|
  {
    if b == [] {
      assert a + b == a;
    } else {
      var n := |b| - 1;
      RecordsAppend(a, b[..n]);
      assert (a + b)[..|a| + n] == a + b[..n];
    }
  }

  /** A line that matches neither pattern contributes nothing. */
  lemma {:induction false} NonMatchingLineIgnored(a: seq<LineMatch>, b: seq<LineMatch>)
    ensures ProjectRecords(a + [LineMatch(None, None)] + b) == ProjectRecords(a + b)
    ensures StudentRecords(a + [LineMatch(None, None)] + b) == StudentRecords(a + b)
  {
    var blank := [LineMatch(None, None)];
    RecordsAppend(a, blank);
    RecordsAppend(a + blank, b);
    RecordsAppend(a, b);
    assert ProjectRecords(blank) == ProjectRecords(blank[..0]);
    assert StudentRecords(blank) == StudentRecords(blank[..0]);
  }

  /** Every student record has exactly three raw preferences and a score in 0..9. */
  lemma {:induction false} StudentRecordsShape(lines: seq<LineMatch>)
    ensures forall r :: r in StudentRecords(lines) ==> |r.rawPrefs| == 3 && 0 <= r.nota <= 9
    decreases |lines|
  {
    if lines != [] {
      var n := |lines| - 1;
      StudentRecordsShape(lines[..n]);
      if lines[n].student.Some? {
        var g := lines[n].student.value;
        assert g.nota == g.nota[..0] + [g.nota[0]];
        assert DigitsValue(g.nota) < Pow10(1);
      }
    }
  }

  /** What the ingestion step guarantees to the matching step about every
      student's cleaned preferences: at most three entries, each the id of a
      parsed project, none repeated, and every valid raw preference kept. */
  lemma {:induction false} PreferencesContract(lines: seq<LineMatch>, i: nat)
    requires i < |StudentRecords(lines)|
    ensures var r := StudentRecords(lines)[i];
            var c := CleanPrefs(r.rawPrefs, ValidIds(lines));
            |c| <= 3 && NoDuplicates(c) && 0 <= r.nota <= 9 &&
            (forall x :: x in c ==> x in ValidIds(lines)) &&
            (forall x :: x in r.rawPrefs && x in ValidIds(lines) ==> x in c)
  {
    var r := StudentRecords(lines)[i];
    StudentRecordsShape(lines);
    assert r in StudentRecords(lines);
    CleanMembership(r.rawPrefs, ValidIds(lines));
    CleanNoDuplicates(r.rawPrefs, ValidIds(lines));
  }
}
