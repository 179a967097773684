/** The students page of the local-storage front end
    (radiusf/src/pages/Students.jsx): role scoping, the search and status
    filters, the status colours and counts, and the records the add and edit
    forms write to the store. */
module RadiusfStudents {
  import opened JsValues
  import opened Seqs
  import opened Entities
  import opened LocalStorage

  /** The reference scope: counselor and employee see the students assigned
      to them, every other role sees all. */
  predicate VisibleTo(user: Record, s: Student)
  {
    !CounselorOrEmployee(user) || AssignedTo(s.counselorId, user)
  }

  /** `loadStudents`: the role branches reassign the loaded list. */
  method LoadStudents(all: seq<Student>, user: Record) returns (students: seq<Student>)
    ensures students == Filter(all, (s: Student) => VisibleTo(user, s))
  {
    students := all;
    if Prop(user, "role") == Str("counselor") {
      students := Filter(students, (s: Student) => s.counselorId == Prop(user, "id"));
    } else if Prop(user, "role") == Str("employee") {
      students := Filter(students, (s: Student) => s.counselorId == Prop(user, "id"));
    }
    FilterIfOnce(all, CounselorOrEmployee(user), (s: Student) => s.counselorId == Prop(user, "id"),
                 (s: Student) => VisibleTo(user, s));
  }

  /** The four texts the search looks in. */
  predicate MatchesSearch(s: Student, searchText: string)
  {
    MatchesText(s.fullName, searchText) || MatchesText(s.email, searchText) ||
    MatchesText(s.destination, searchText) || MatchesText(s.preferredProgram, searchText)
  }

  /** The reference filter: an empty search and the status "all" let
      everything through. */
  predicate Shown(s: Student, searchText: string, statusFilter: string)
  {
    (searchText == "" || MatchesSearch(s, searchText)) &&
    (statusFilter == "all" || s.status == statusFilter)
  }

  /** `filterStudents`: search first, then status, each only when set. */
  method FilterStudents(students: seq<Student>, searchText: string, statusFilter: string)
    returns (filtered: seq<Student>)
    ensures filtered == Filter(students, (s: Student) => Shown(s, searchText, statusFilter))
  {
    filtered := students;
    if searchText != "" {
      filtered := Filter(filtered, (s: Student) => MatchesSearch(s, searchText));
    }
    if statusFilter != "all" {
      filtered := Filter(filtered, (s: Student) => s.status == statusFilter);
    }
    FilterIfTwice(students, searchText != "", (s: Student) => MatchesSearch(s, searchText),
                  statusFilter != "all", (s: Student) => s.status == statusFilter,
                  (s: Student) => Shown(s, searchText, statusFilter));
  }

  /** What the filters promise: a student is listed exactly when it is loaded
      and passes both tests, the loaded order is kept, and with no search and
      status "all" the list is the loaded one. */
  lemma FilterStudentsSpec(students: seq<Student>, searchText: string, statusFilter: string, s: Student)
    ensures var shown := Filter(students, (t: Student) => Shown(t, searchText, statusFilter));
      (s in shown <==>
         (s in students &&
          (searchText == "" || MatchesText(s.fullName, searchText) || MatchesText(s.email, searchText) ||
           MatchesText(s.destination, searchText) || MatchesText(s.preferredProgram, searchText)) &&
          (statusFilter == "all" || s.status == statusFilter))) &&
      IsSubsequence(shown, students) &&
      (searchText == "" && statusFilter == "all" ==> shown == students)
  {
    var keep := (t: Student) => Shown(t, searchText, statusFilter);
    FilterMembership(students, keep, s);
    FilterIsSubsequence(students, keep);
    if searchText == "" && statusFilter == "all" {
      FilterKeepsAll(students, keep);
    }
  }

  /** The scope keeps exactly a counselor's or employee's own students and
      everything for other roles. */
  lemma LoadStudentsSpec(all: seq<Student>, user: Record, s: Student)
    ensures var students := Filter(all, (t: Student) => VisibleTo(user, t));
      (CounselorOrEmployee(user) ==> (s in students <==> s in all && s.counselorId == Prop(user, "id"))) &&
      (!CounselorOrEmployee(user) ==> students == all)
  {
    var keep := (t: Student) => VisibleTo(user, t);
    FilterMembership(all, keep, s);
    if !CounselorOrEmployee(user) {
      FilterKeepsAll(all, keep);
    }
  }

  function CountStatus(students: seq<Student>, status: string): nat
  {
    Count(students, (s: Student) => s.status == status)
  }

  /** `statusCounts`. */
  datatype StatusCounts = StatusCounts(total: nat, inquiry: nat, applied: nat, approved: nat, enrolled: nat)

  function CountStatuses(filtered: seq<Student>): StatusCounts
  {
    StatusCounts(|filtered|, CountStatus(filtered, "Inquiry"), CountStatus(filtered, "Applied"),
                 CountStatus(filtered, "Visa Approved"), CountStatus(filtered, "Enrolled"))
  }

  /** The four status counts count different students, so together they
      never exceed the total. */
  lemma StatusCountsBounded(filtered: seq<Student>)
    ensures var c := CountStatuses(filtered);
      c.total == |filtered| &&
      c.inquiry + c.applied + c.approved + c.enrolled <= c.total
  {
    var inquiry := (s: Student) => s.status == "Inquiry";
    var applied := (s: Student) => s.status == "Applied";
    var approved := (s: Student) => s.status == "Visa Approved";
    var enrolled := (s: Student) => s.status == "Enrolled";
    var two := (s: Student) => s.status == "Inquiry" || s.status == "Applied";
    var three := (s: Student) => two(s) || s.status == "Visa Approved";
    var four := (s: Student) => three(s) || s.status == "Enrolled";
    CountDisjoint(filtered, inquiry, applied, two);
    CountDisjoint(filtered, two, approved, three);
    CountDisjoint(filtered, three, enrolled, four);
  }

  /** `counselors.find(c => c.name === name)` over the users whose role is
      "counselor". */
  function FindCounselor(users: seq<Record>, name: Field): (found: Option<Record>)
    ensures found.Some? ==> Prop(found.value, "role") == Str("counselor") && Prop(found.value, "name") == name
    ensures found.Some? ==>
      exists k :: 0 <= k < |users| && users[k] == found.value &&
                  forall j :: 0 <= j < k ==> !(Prop(users[j], "role") == Str("counselor") && Prop(users[j], "name") == name)
    ensures found.None? ==> forall j :: 0 <= j < |users| ==>
      Prop(users[j], "role") != Str("counselor") || Prop(users[j], "name") != name
  {
    var isCounselor := (u: Record) => Prop(u, "role") == Str("counselor");
    var named := (c: Record) => Prop(c, "name") == name;
    var counselors := Filter(users, isCounselor);
    var k := FirstWhere(counselors, named);
    FirstWhereOfFilter(users, isCounselor, named);
    if k == -1 then None else Some(counselors[k])
  }

  /** `assignedCounselor?.id || fallback`. */
  function CounselorIdOr(found: Option<Record>, fallback: Field): (id: Field)
    ensures found.None? ==> id == fallback
    ensures found.Some? && Truthy(Prop(found.value, "id")) ==> id == Prop(found.value, "id")
    ensures found.Some? && !Truthy(Prop(found.value, "id")) ==> id == fallback
  {
    if found.Some? && Truthy(Prop(found.value, "id")) then Prop(found.value, "id") else fallback
  }

  /** `${first} ${last}`. */
  function FullName(values: Record): string
  {
    FieldToString(Prop(values, "firstName")) + " " + FieldToString(Prop(values, "lastName"))
  }

  /** The object literal of `handleAddStudent`: the form values overlaid
      with the name, the counselor, the formatted dates, today's date as join
      date and last activity, medium priority and the inquiry status. */
  function StudentData(values: Record, counselorId: Field, dateOfBirth: Field, graduationYear: Field,
                       today: string): (r: Record)
    ensures Prop(r, "status") == Str("Inquiry") && Prop(r, "priority") == Str("Medium")
    ensures Prop(r, "fullName") == Str(FullName(values)) && Prop(r, "counselorId") == counselorId
    ensures Prop(r, "joinDate") == Str(today) && Prop(r, "lastActivity") == Str(today)
    ensures forall k :: (k in values && k !in {"fullName", "counselorId", "dateOfBirth", "graduationYear",
                                                "joinDate", "lastActivity", "priority", "status"}) ==> k in r && r[k] == values[k]
  {
    values + map[
      "fullName" := Str(FullName(values)), "counselorId" := counselorId,
      "dateOfBirth" := dateOfBirth, "graduationYear" := graduationYear,
      "joinDate" := Str(today), "lastActivity" := Str(today),
      "priority" := Str("Medium"), "status" := Str("Inquiry")]
  }

  /** The record `handleAddStudent` gives to `addStudent`; `dateOfBirth` and
      `graduationYear` arrive already formatted, `today` is the date part of
      the clock's ISO string. The counselor is the one named in the form,
      else the current user. */
  function NewStudentRecord(values: Record, users: seq<Record>, user: Record,
                            dateOfBirth: Field, graduationYear: Field, today: string): (r: Record)
    ensures Prop(r, "status") == Str("Inquiry") && Prop(r, "priority") == Str("Medium")
    ensures Prop(r, "fullName") == Str(FullName(values))
    ensures Prop(r, "counselorId") == CounselorIdOr(FindCounselor(users, Prop(values, "assignedCounselor")), Prop(user, "id"))
    ensures Prop(r, "joinDate") == Str(today) && Prop(r, "lastActivity") == Str(today)
    ensures forall k :: (k in values && k !in {"fullName", "counselorId", "dateOfBirth", "graduationYear",
                                                "joinDate", "lastActivity", "priority", "status"}) ==> k in r && r[k] == values[k]
  {
    var counselorId := CounselorIdOr(FindCounselor(users, Prop(values, "assignedCounselor")), Prop(user, "id"));
    StudentData(values, counselorId, dateOfBirth, graduationYear, today)
  }

  /** The patch `handleEditStudent` gives to `updateStudent`: when no
      counselor carries the chosen name, the student keeps its counselor. */
  function EditedStudentRecord(values: Record, users: seq<Record>, editing: Record,
                               dateOfBirth: Field, graduationYear: Field): (r: Record)
    ensures Prop(r, "fullName") == Str(FullName(values))
    ensures FindCounselor(users, Prop(values, "assignedCounselor")).None? ==>
      Prop(r, "counselorId") == Prop(editing, "counselorId")
    ensures forall k :: k in values && k !in {"fullName", "counselorId", "dateOfBirth", "graduationYear"} ==>
      k in r && r[k] == values[k]
  {
    var counselorId := CounselorIdOr(FindCounselor(users, Prop(values, "assignedCounselor")), Prop(editing, "counselorId"));
    UpdatedData(values, counselorId, dateOfBirth, graduationYear)
  }

  /** The object literal of `handleEditStudent`: the form values overlaid
      with the name, the counselor and the formatted dates. */
  function UpdatedData(values: Record, counselorId: Field, dateOfBirth: Field, graduationYear: Field): (r: Record)
    ensures Prop(r, "fullName") == Str(FullName(values)) && Prop(r, "counselorId") == counselorId
    ensures forall k :: k in values && k !in {"fullName", "counselorId", "dateOfBirth", "graduationYear"} ==>
      k in r && r[k] == values[k]
  {
    values + map[
      "fullName" := Str(FullName(values)), "counselorId" := counselorId,
      "dateOfBirth" := dateOfBirth, "graduationYear" := graduationYear]
  }

  /** `handleAddStudent`: the new record, stamped, is appended to the stored
      students. */
  method HandleAddStudent(store: LocalStore, user: Record, values: Record, dateOfBirth: Field,
                          graduationYear: Field, today: string, millis: nat, iso: string)
    returns (ok: bool)
    modifies store
    ensures ok
    ensures store.entries == old(store.entries)[STUDENTS_KEY := List(old(store.Students()) +
      [Stamp(NewStudentRecord(values, old(store.Users()), user, dateOfBirth, graduationYear, today), millis, iso)])]
  {
    var users := store.Users();
    var studentData := NewStudentRecord(values, users, user, dateOfBirth, graduationYear, today);
    var stamped;
    ok, stamped := store.AddStudent(studentData, millis, iso);
  }

  /** `handleEditStudent`: the edited fields overlay the stored student with
      the editing student's id. */
  method HandleEditStudent(store: LocalStore, editing: Record, values: Record, dateOfBirth: Field,
                           graduationYear: Field, iso: string)
    returns (ok: bool)
    modifies store
    ensures var patch := EditedStudentRecord(values, old(store.Users()), editing, dateOfBirth, graduationYear);
      var id := Prop(editing, "id");
      (ok <==> FindIndex(old(store.Students()), id) != -1) &&
      (ok ==> store.entries == old(store.entries)[STUDENTS_KEY :=
         List(UpdateFirst(old(store.Students()), id, patch["updatedAt" := Str(iso)]))]) &&
      (!ok ==> store.entries == old(store.entries))
  {
    var users := store.Users();
    var updatedData := EditedStudentRecord(values, users, editing, dateOfBirth, graduationYear);
    ok := store.UpdateStudent(Prop(editing, "id"), updatedData, iso);
  }

  /** `handleDeleteStudent` once the confirmation is accepted. */
  method HandleDeleteStudent(store: LocalStore, studentId: Field) returns (ok: bool)
    modifies store
    ensures ok
    ensures store.entries == old(store.entries)[STUDENTS_KEY := List(RemoveAll(old(store.Students()), studentId))]
  {
    ok := store.DeleteStudent(studentId);
  }

  /** A student added through the form is stored as an inquiry with medium
      priority, under the clock's id, with equal creation and update times. */
  lemma AddedStudentShape(values: Record, users: seq<Record>, user: Record, dateOfBirth: Field,
                          graduationYear: Field, today: string, millis: nat, iso: string)
    ensures var r := Stamp(NewStudentRecord(values, users, user, dateOfBirth, graduationYear, today), millis, iso);
      Prop(r, "status") == Str("Inquiry") && Prop(r, "priority") == Str("Medium") &&
      Prop(r, "id") == Str(NatToString(millis)) && Prop(r, "createdAt") == Prop(r, "updatedAt") &&
      Prop(r, "fullName") == Str(FieldToString(Prop(values, "firstName")) + " " + FieldToString(Prop(values, "lastName")))
  {
    var n := NewStudentRecord(values, users, user, dateOfBirth, graduationYear, today);
    assert "status" in n && "priority" in n && "fullName" in n;
  }
}
