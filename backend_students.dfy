/** The student views of the Django back end (backend/students/views.py):
    which students and remarks each role may reach, who a new remark is
    written by, which serializer a request uses, and the status statistics. */
module BackendStudents {
  import opened JsValues
  import opened Seqs
  import opened BackendAccounts

  /** A student row: the user id of its assigned counselor, if any. */
  datatype Student = Student(id: int, status: string, assignedCounselor: Option<int>)

  datatype Remark = Remark(id: int, student: int, counselor: int, content: string)

  /** A remark as posted, with whatever counselor the client sent. */
  datatype RemarkDraft = RemarkDraft(id: int, student: int, counselor: Option<int>, content: string)

  predicate AssignedTo(s: Student, user: User)
  {
    s.assignedCounselor == Some(user.id)
  }

  /** `get_queryset` of the student list and detail views. */
  function StudentQueryset(user: User, students: seq<Student>): (visible: seq<Student>)
    ensures user.role == "admin" ==> visible == students
    ensures user.role in ["counselor", "employee"] ==>
      forall s :: s in visible <==> s in students && AssignedTo(s, user)
    ensures user.role !in ["admin", "counselor", "employee"] ==> visible == []
  {
    if user.role == "admin" then students
    else if user.role in ["counselor", "employee"] then
      var keep := (s: Student) => AssignedTo(s, user);
      assert forall s :: s in Filter(students, keep) <==> s in students && AssignedTo(s, user) by {
        forall s ensures s in Filter(students, keep) <==> s in students && AssignedTo(s, user) {
          FilterMembership(students, keep, s);
        }
      }
      Filter(students, keep)
    else []
  }

  /** `get_queryset` of the remark list and detail views: everyone but an
      administrator sees only the remarks they wrote. */
  function RemarkQueryset(user: User, remarks: seq<Remark>): (visible: seq<Remark>)
    ensures user.role == "admin" ==> visible == remarks
    ensures user.role != "admin" ==> forall r :: r in visible <==> r in remarks && r.counselor == user.id
  {
    if user.role == "admin" then remarks
    else
      var keep := (r: Remark) => r.counselor == user.id;
      assert forall r :: r in Filter(remarks, keep) <==> r in remarks && r.counselor == user.id by {
        forall r ensures r in Filter(remarks, keep) <==> r in remarks && r.counselor == user.id {
          FilterMembership(remarks, keep, r);
        }
      }
      Filter(remarks, keep)
  }

  /** `perform_create`: the remark is saved with the requesting user as its
      counselor, whatever the request said. */
  function PerformCreate(user: User, draft: RemarkDraft): (r: Remark)
    ensures r.counselor == user.id
    ensures r.id == draft.id && r.student == draft.student && r.content == draft.content
  {
    Remark(draft.id, draft.student, user.id, draft.content)
  }

  /** A remark one writes is among the remarks one may then see. */
  lemma CreatedRemarkVisible(user: User, draft: RemarkDraft, remarks: seq<Remark>)
    ensures PerformCreate(user, draft) in RemarkQueryset(user, remarks + [PerformCreate(user, draft)])
  {
    var r := PerformCreate(user, draft);
    assert r in remarks + [r];
  }

  datatype View = StudentList | StudentDetail

  datatype Serializer = StudentSerializer | StudentCreateSerializer

  /** `get_serializer_class`: the list view writes with the create serializer
      on POST, the detail view on PUT and PATCH. */
  function SerializerClass(view: View, httpMethod: string): (s: Serializer)
    ensures s == StudentCreateSerializer <==>
      (view == StudentList && httpMethod == "POST") ||
      (view == StudentDetail && httpMethod in ["PUT", "PATCH"])
  {
    match view
    case StudentList => if httpMethod == "POST" then StudentCreateSerializer else StudentSerializer
    case StudentDetail => if httpMethod in ["PUT", "PATCH"] then StudentCreateSerializer else StudentSerializer
  }

  datatype Stats = Stats(totalStudents: nat, inquiry: nat, documentReview: nat, applied: nat,
                         visaApproved: nat, enrolled: nat)

  /** The students `student_stats` counts: all for an administrator, the
      assigned ones for every other role, known or not. */
  function StatsScope(user: User, students: seq<Student>): seq<Student>
  {
    if user.role == "admin" then students else Filter(students, (s: Student) => AssignedTo(s, user))
  }

  function CountStatus(students: seq<Student>, status: string): nat
  {
    Count(students, (s: Student) => s.status == status)
  }

  /** `student_stats`. */
  function StudentStats(user: User, students: seq<Student>): Stats
  {
    var q := StatsScope(user, students);
    Stats(|q|, CountStatus(q, "inquiry"), CountStatus(q, "document_review"), CountStatus(q, "applied"),
          CountStatus(q, "visa_approved"), CountStatus(q, "enrolled"))
  }

  /** The five status counts are of different students, so together they
      never exceed the total. */
  lemma StudentStatsBounded(user: User, students: seq<Student>)
    ensures var st := StudentStats(user, students);
      st.inquiry + st.documentReview + st.applied + st.visaApproved + st.enrolled <= st.totalStudents
  {
    var q := StatsScope(user, students);
    var a := (s: Student) => s.status == "inquiry";
    var b := (s: Student) => s.status == "document_review";
    var c := (s: Student) => s.status == "applied";
    var d := (s: Student) => s.status == "visa_approved";
    var e := (s: Student) => s.status == "enrolled";
    var ab := (s: Student) => a(s) || b(s);
    var abc := (s: Student) => ab(s) || c(s);
    var abcd := (s: Student) => abc(s) || d(s);
    var all := (s: Student) => abcd(s) || e(s);
    CountDisjoint(q, a, b, ab);
    CountDisjoint(q, ab, c, abc);
    CountDisjoint(q, abc, d, abcd);
    CountDisjoint(q, abcd, e, all);
  }

  /** The statistics cover exactly the students the list shows for the
      three known roles; a user with any other role is shown no students
      but is still counted their assigned ones. */
  lemma StatsScopeMatchesList(user: User, students: seq<Student>)
    ensures user.role in ["admin", "counselor", "employee"] ==>
      StatsScope(user, students) == StudentQueryset(user, students)
    ensures user.role !in ["admin", "counselor", "employee"] ==>
      StudentQueryset(user, students) == [] &&
      forall s :: s in StatsScope(user, students) <==> s in students && AssignedTo(s, user)
  {
    forall s {
      FilterMembership(students, (t: Student) => AssignedTo(t, user), s);
    }
  }
}
