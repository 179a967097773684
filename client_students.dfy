/** The students page of the server-backed front end
    (client/pages/Students.jsx): scoping by counselor name, the search and
    status filter, the status colours and counts, and the add action. */
module ClientStudents {
  import opened JsValues
  import opened Seqs

  /** A student as this page lists it: the counselor is a name. */
  datatype Student = Student(
    id: int, name: string, email: string, status: string,
    destination: string, program: string, counselor: string)

  /** `user?.name`. */
  function UserName(user: Option<Record>): Field
  {
    if user.Some? then Prop(user.value, "name") else Undefined
  }

  /** The reference scope: an administrator sees everyone, anyone else the
      students whose counselor carries their name. */
  predicate VisibleTo(user: Option<Record>, s: Student)
  {
    (user.Some? && Prop(user.value, "role") == Str("admin")) || Str(s.counselor) == UserName(user)
  }

  /** The role filter of the fetch effect. */
  function ScopeStudents(all: seq<Student>, user: Option<Record>): (students: seq<Student>)
    ensures students == Filter(all, (s: Student) => VisibleTo(user, s))
  {
    if user.Some? && Prop(user.value, "role") == Str("admin") then
      FilterKeepsAll(all, (s: Student) => VisibleTo(user, s));
      all
    else
      var mine := (s: Student) => Str(s.counselor) == UserName(user);
      FilterAgree(all, mine, (s: Student) => VisibleTo(user, s));
      Filter(all, mine)
  }

  /** Who sees which student: all of them for an administrator; for anyone
      else exactly those counselled under their name, and none without a
      user or without a string name. */
  lemma ScopeSpec(all: seq<Student>, user: Option<Record>, s: Student)
    ensures user.Some? && Prop(user.value, "role") == Str("admin") ==> ScopeStudents(all, user) == all
    ensures !(user.Some? && Prop(user.value, "role") == Str("admin")) ==>
      (s in ScopeStudents(all, user) <==> s in all && UserName(user) == Str(s.counselor))
    ensures !UserName(user).Str? && !(user.Some? && Prop(user.value, "role") == Str("admin")) ==>
      ScopeStudents(all, user) == []
  {
    FilterMembership(all, (t: Student) => VisibleTo(user, t), s);
    if !UserName(user).Str? && !(user.Some? && Prop(user.value, "role") == Str("admin")) {
      FilterNone(all, (t: Student) => VisibleTo(user, t));
    }
  }

  predicate MatchesSearch(s: Student, searchText: string)
  {
    MatchesText(s.name, searchText) || MatchesText(s.email, searchText) ||
    MatchesText(s.destination, searchText) || MatchesText(s.program, searchText)
  }

  predicate Shown(s: Student, searchText: string, statusFilter: string)
  {
    (searchText == "" || MatchesSearch(s, searchText)) &&
    (statusFilter == "all" || s.status == statusFilter)
  }

  /** The filter effect: search first, then status, each only when set. */
  method FilterStudents(students: seq<Student>, searchText: string, statusFilter: string)
    returns (filtered: seq<Student>)
    ensures filtered == Filter(students, (s: Student) => Shown(s, searchText, statusFilter))
  {
    filtered := students;
    if searchText != "" {
      filtered := Filter(filtered, (s: Student) => MatchesSearch(s, searchText));
    }
    if statusFilter != "all" {
      filtered := Filter(filtered, (s: Student) => s.status == statusFilter);
    }
    FilterIfTwice(students, searchText != "", (s: Student) => MatchesSearch(s, searchText),
                  statusFilter != "all", (s: Student) => s.status == statusFilter,
                  (s: Student) => Shown(s, searchText, statusFilter));
  }

  /** A student is listed exactly when it is loaded and passes both tests,
      in loaded order. */
  lemma FilterStudentsSpec(students: seq<Student>, searchText: string, statusFilter: string, s: Student)
    ensures var shown := Filter(students, (t: Student) => Shown(t, searchText, statusFilter));
      (s in shown <==>
         (s in students &&
          (searchText == "" || MatchesText(s.name, searchText) || MatchesText(s.email, searchText) ||
           MatchesText(s.destination, searchText) || MatchesText(s.program, searchText)) &&
          (statusFilter == "all" || s.status == statusFilter))) &&
      IsSubsequence(shown, students)
  {
    var keep := (t: Student) => Shown(t, searchText, statusFilter);
    FilterMembership(students, keep, s);
    FilterIsSubsequence(students, keep);
  }

  /** The colour table of this page's `getStatusColor`: five statuses. */
  const STATUS_COLORS: map<string, string> := map[
    "Inquiry" := "default", "Document Review" := "orange", "Applied" := "blue",
    "Visa Approved" := "green", "Enrolled" := "success"]

  function StatusColor(status: string): (color: string)
    ensures status !in {"Inquiry", "Document Review", "Applied", "Visa Approved", "Enrolled"} ==> color == "default"
    ensures color in {"default", "orange", "blue", "green", "success"}
  {
    if status in STATUS_COLORS then STATUS_COLORS[status] else "default"
  }

  datatype StatusCounts = StatusCounts(total: nat, inquiry: nat, applied: nat, approved: nat, enrolled: nat)

  function CountStatus(students: seq<Student>, status: string): nat
  {
    Count(students, (s: Student) => s.status == status)
  }

  /** `statusCounts`. */
  function CountStatuses(filtered: seq<Student>): StatusCounts
  {
    StatusCounts(|filtered|, CountStatus(filtered, "Inquiry"), CountStatus(filtered, "Applied"),
                 CountStatus(filtered, "Visa Approved"), CountStatus(filtered, "Enrolled"))
  }

  /** The four counts are of different students, so each, and their sum, is
      at most the total. */
  lemma StatusCountsBounded(filtered: seq<Student>)
    ensures var c := CountStatuses(filtered);
      c.total == |filtered| && c.inquiry + c.applied + c.approved + c.enrolled <= c.total
  {
    var inquiry := (s: Student) => s.status == "Inquiry";
    var applied := (s: Student) => s.status == "Applied";
    var approved := (s: Student) => s.status == "Visa Approved";
    var enrolled := (s: Student) => s.status == "Enrolled";
    var two := (s: Student) => inquiry(s) || applied(s);
    var three := (s: Student) => two(s) || approved(s);
    var four := (s: Student) => three(s) || enrolled(s);
    CountDisjoint(filtered, inquiry, applied, two);
    CountDisjoint(filtered, two, approved, three);
    CountDisjoint(filtered, three, enrolled, four);
  }

  /** The page's state: the loaded students and whether the add dialog is
      open. */
  class StudentsPage {
    var students: seq<Student>
    var addModalVisible: bool

    constructor(students: seq<Student>)
      ensures this.students == students && !addModalVisible
    {
      this.students := students;
      addModalVisible := false;
    }

    /** `handleAddStudent`: the dialog closes and the list stays as it was. */
    method HandleAddStudent(studentData: Record)
      modifies this
      ensures !addModalVisible
      ensures students == old(students)
    {
      addModalVisible := false;
    }
  }
}
