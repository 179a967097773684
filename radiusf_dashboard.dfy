/** The dashboard of the local-storage front end
    (radiusf/src/pages/Dashboard.jsx): the role-scoped statistics, the five
    most recently updated applications and students, the status colours and
    the success rate. */
module RadiusfDashboard {
  import opened JsValues
  import opened Seqs
  import opened Entities
  import RadiusfStudents
  import RadiusfApplications

  datatype DashboardStats = DashboardStats(
    totalStudents: nat, totalApplications: nat, totalUniversities: nat, totalEmployees: nat,
    newInquiries: nat, activeApplications: nat, enrolledStudents: nat, visaApproved: nat)

  /** An application not yet enrolled, rejected or withdrawn. */
  predicate Active(a: Application)
  {
    a.status !in ["Enrolled", "Rejected", "Withdrawn"]
  }

  function StudentTime(s: Student): int { s.updatedAt }

  function ApplicationTime(a: Application): int { a.updatedAt }

  /** The students the dashboard counts: those of the students page. */
  function ScopedStudents(students: seq<Student>, user: Record): seq<Student>
  {
    Filter(students, (s: Student) => RadiusfStudents.VisibleTo(user, s))
  }

  /** The applications the dashboard counts: those of the applications page. */
  function ScopedApplications(applications: seq<Application>, user: Record): seq<Application>
  {
    Filter(applications, (a: Application) => RadiusfApplications.VisibleTo(user, a))
  }

  /** `loadDashboardData`: scope by role, count, then sort newest first and
      keep five of each. Universities and employees are never scoped. */
  method LoadDashboardData(students: seq<Student>, applications: seq<Application>,
                           universities: seq<University>, employees: seq<Employee>, user: Record)
    returns (stats: DashboardStats, recentApplications: seq<Application>, recentStudents: seq<Student>)
    ensures var ss := ScopedStudents(students, user);
      var apps := ScopedApplications(applications, user);
      stats == DashboardStats(|ss|, |apps|, |universities|, |employees|,
        Count(ss, (s: Student) => s.status == "Inquiry"), Count(apps, Active),
        Count(ss, (s: Student) => s.status == "Enrolled"), Count(ss, (s: Student) => s.status == "Visa Approved")) &&
      recentApplications == TopBy(apps, ApplicationTime, 5) &&
      recentStudents == TopBy(ss, StudentTime, 5)
  {
    var filteredStudents := students;
    var filteredApplications := applications;
    var mine := Prop(user, "id");
    if Prop(user, "role") == Str("counselor") {
      filteredStudents := Filter(students, (s: Student) => s.counselorId == mine);
      filteredApplications := Filter(applications, (a: Application) => a.counselorId == mine);
    } else if Prop(user, "role") == Str("employee") {
      filteredStudents := Filter(students, (s: Student) => s.counselorId == mine);
      filteredApplications := Filter(applications, (a: Application) => a.counselorId == mine);
    }
    FilterIfOnce(students, CounselorOrEmployee(user), (s: Student) => s.counselorId == mine,
                 (s: Student) => RadiusfStudents.VisibleTo(user, s));
    FilterIfOnce(applications, CounselorOrEmployee(user), (a: Application) => a.counselorId == mine,
                 (a: Application) => RadiusfApplications.VisibleTo(user, a));

    stats := DashboardStats(
      |filteredStudents|, |filteredApplications|, |universities|, |employees|,
      Count(filteredStudents, (s: Student) => s.status == "Inquiry"),
      Count(filteredApplications, Active),
      Count(filteredStudents, (s: Student) => s.status == "Enrolled"),
      Count(filteredStudents, (s: Student) => s.status == "Visa Approved"));
    recentApplications := Take(SortDesc(filteredApplications, ApplicationTime), 5);
    recentStudents := Take(SortDesc(filteredStudents, StudentTime), 5);
  }

  /** The statistics: the three student counts are of different students,
      active applications are among the scoped ones, and an administrator's
      totals are the whole store's. */
  lemma StatsBounded(students: seq<Student>, applications: seq<Application>, user: Record)
    ensures var ss := ScopedStudents(students, user);
      var apps := ScopedApplications(applications, user);
      Count(ss, (s: Student) => s.status == "Inquiry") + Count(ss, (s: Student) => s.status == "Enrolled") +
        Count(ss, (s: Student) => s.status == "Visa Approved") <= |ss| &&
      Count(apps, Active) <= |apps| &&
      (!CounselorOrEmployee(user) ==> ss == students && apps == applications)
  {
    var ss := ScopedStudents(students, user);
    var inquiry := (s: Student) => s.status == "Inquiry";
    var enrolled := (s: Student) => s.status == "Enrolled";
    var approved := (s: Student) => s.status == "Visa Approved";
    var two := (s: Student) => inquiry(s) || enrolled(s);
    var three := (s: Student) => two(s) || approved(s);
    CountDisjoint(ss, inquiry, enrolled, two);
    CountDisjoint(ss, two, approved, three);
    if !CounselorOrEmployee(user) {
      FilterKeepsAll(students, (s: Student) => RadiusfStudents.VisibleTo(user, s));
      FilterKeepsAll(applications, (a: Application) => RadiusfApplications.VisibleTo(user, a));
    }
  }

  /** The recent students: at most five, newest first, taken from the
      scoped students, and no scoped student left out is newer than one shown. */
  lemma RecentStudentsAreNewest(students: seq<Student>, user: Record)
    ensures var ss := ScopedStudents(students, user);
      var recent := TopBy(ss, StudentTime, 5);
      |recent| == (if |ss| < 5 then |ss| else 5) &&
      DescendingBy(recent, StudentTime) &&
      multiset(recent) <= multiset(ss) &&
      (forall x, y :: x in ss && x !in recent && y in recent ==> StudentTime(x) <= StudentTime(y))
  {
    TopByProperties(ScopedStudents(students, user), StudentTime, 5);
  }

  /** The recent applications, likewise. */
  lemma RecentApplicationsAreNewest(applications: seq<Application>, user: Record)
    ensures var apps := ScopedApplications(applications, user);
      var recent := TopBy(apps, ApplicationTime, 5);
      |recent| == (if |apps| < 5 then |apps| else 5) &&
      DescendingBy(recent, ApplicationTime) &&
      multiset(recent) <= multiset(apps) &&
      (forall x, y :: x in apps && x !in recent && y in recent ==> ApplicationTime(x) <= ApplicationTime(y))
  {
    TopByProperties(ScopedApplications(applications, user), ApplicationTime, 5);
  }

  /** `calculateSuccessRate`: enrolled students over applications. */
  function CalculateSuccessRate(stats: DashboardStats): (rate: nat)
    ensures stats.totalApplications == 0 ==> rate == 0
    ensures stats.enrolledStudents <= stats.totalApplications ==> rate <= 100
  {
    SuccessRateRange(stats.enrolledStudents, stats.totalApplications);
    SuccessRate(stats.enrolledStudents, stats.totalApplications)
  }

  /** A counselor with three enrolled students and a single application sees
      a success rate of 300. */
  lemma SuccessRateAboveHundred()
    ensures CalculateSuccessRate(DashboardStats(3, 1, 0, 0, 0, 0, 3, 0)) == 300
  {
    SuccessRateRange(3, 1);
  }

  /** The dashboard colours application statuses with the students' table,
      so "Inquiry Received", the first application stage, gets the default
      colour only because the table lacks it. */
  lemma ApplicationStagesColoured(status: string)
    ensures status in RadiusfApplications.STATUS_COLORS && status != "Inquiry Received" ==>
      StudentStatusColor(status) == RadiusfApplications.StatusColor(status)
    ensures StudentStatusColor("Inquiry Received") == "default"
  {
  }
}
