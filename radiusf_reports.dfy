/** The reports page of the local-storage front end
    (radiusf/src/pages/Reports.jsx): the counselor-only scoping, the
    headline counts, the per-country, per-program and per-status tallies and
    their top-five lists. */
module RadiusfReports {
  import opened JsValues
  import opened Seqs
  import opened Entities
  import RadiusfUniversities

  /** Only a counselor's report is scoped to their own records; an employee
      sees every record here. */
  predicate InScope(user: Record, counselorId: Field)
  {
    Prop(user, "role") != Str("counselor") || AssignedTo(counselorId, user)
  }

  /** One entry of a tally object, as `Object.entries` yields it. */
  datatype Tally = Tally(key: string, count: nat)

  function Keys(h: seq<Tally>): seq<string>
  {
    Map(h, (e: Tally) => e.key)
  }

  function Occurrences(keys: seq<string>, k: string): nat
  {
    Count(keys, (x: string) => x == k)
  }

  /** `stats[k] = (stats[k] || 0) + 1`: an existing key keeps its place, a
      new one goes last. */
  function Bump(h: seq<Tally>, k: string): (r: seq<Tally>)
    ensures Keys(r) == if k in Keys(h) then Keys(h) else Keys(h) + [k]
  {
    if k in Keys(h) then
      var j := FirstIndex(Keys(h), k);
      var r := h[j := Tally(k, h[j].count + 1)];
      assert Keys(r) == Keys(h);
      r
    else
      var r := h + [Tally(k, 1)];
      assert Keys(r) == Keys(h) + [k];
      r
  }

  /** The tally the `forEach` loop leaves after the given keys. */
  function TallyOf(keys: seq<string>): seq<Tally>
  {
    if keys == [] then [] else Bump(TallyOf(keys[..|keys| - 1]), keys[|keys| - 1])
  }

  function Sum(h: seq<Tally>): nat
  {
    if h == [] then 0 else Sum(h[..|h| - 1]) + h[|h| - 1].count
  }

  lemma {:induction false} SumUpdate(h: seq<Tally>, j: nat, e: Tally)
    requires j < |h|
    ensures Sum(h[j := e]) + h[j].count == Sum(h) + e.count
    decreases |h|
  {
    var r := h[j := e];
    if j < |h| - 1 {
      assert r[..|r| - 1] == h[..|h| - 1][j := e];
      SumUpdate(h[..|h| - 1], j, e);
    } else {
      assert r[..|r| - 1] == h[..|h| - 1];
    }
  }

  lemma OccurrencesSnoc(keys: seq<string>, k: string, x: string)
    ensures Occurrences(keys + [k], x) == Occurrences(keys, x) + (if k == x then 1 else 0)
  {
    FilterConcat(keys, [k], (y: string) => y == x);
  }

  lemma {:induction false} OccurrencesAbsent(keys: seq<string>, x: string)
    requires x !in keys
    ensures Occurrences(keys, x) == 0
    decreases |keys|
  {
    if keys != [] {
      assert keys[0] != x;
      OccurrencesAbsent(keys[1..], x);
    }
  }

  /** The keys of a tally are the distinct keys, in order of first occurrence. */
  lemma {:induction false} TallyKeys(keys: seq<string>)
    ensures Keys(TallyOf(keys)) == Distinct(keys)
    decreases |keys|
  {
    if keys != [] {
      TallyKeys(keys[..|keys| - 1]);
    }
  }

  /** Each entry of a tally counts the occurrences of its key. */
  lemma {:induction false} TallyCounts(keys: seq<string>)
    ensures forall j :: 0 <= j < |TallyOf(keys)| ==>
      TallyOf(keys)[j].count == Occurrences(keys, TallyOf(keys)[j].key) > 0
    decreases |keys|
  {
    if keys != [] {
      var init, k := keys[..|keys| - 1], keys[|keys| - 1];
      assert keys == init + [k];
      TallyCounts(init);
      TallyKeys(init);
      var h := TallyOf(init);
      var r := TallyOf(keys);
      assert r == Bump(h, k);
      assert NoDuplicates(Keys(h));
      forall j | 0 <= j < |r| ensures r[j].count == Occurrences(keys, r[j].key) > 0 {
        OccurrencesSnoc(init, k, r[j].key);
        if k in Keys(h) {
          var m := FirstIndex(Keys(h), k);
          if j != m {
            assert Keys(h)[j] != Keys(h)[m];
          }
        } else {
          if j == |h| {
            OccurrencesAbsent(init, k);
          } else {
            assert Keys(h)[j] == h[j].key;
          }
        }
      }
    }
  }

  /** Counting one more key adds one to the total. */
  lemma BumpSum(h: seq<Tally>, k: string)
    ensures Sum(Bump(h, k)) == Sum(h) + 1
  {
    if k in Keys(h) {
      var j := FirstIndex(Keys(h), k);
      SumUpdate(h, j, Tally(k, h[j].count + 1));
    } else {
      var r := Bump(h, k);
      assert r[..|r| - 1] == h;
    }
  }

  /** The counts of a tally add up to the number of keys. */
  lemma {:induction false} TallySum(keys: seq<string>)
    ensures Sum(TallyOf(keys)) == |keys|
    decreases |keys|
  {
    if keys != [] {
      TallySum(keys[..|keys| - 1]);
      BumpSum(TallyOf(keys[..|keys| - 1]), keys[|keys| - 1]);
    }
  }

  /** The tally lists each key once, in order of first occurrence, with the
      number of times it occurs, and its counts add up to the number of keys. */
  lemma TallyOfSpec(keys: seq<string>)
    ensures Keys(TallyOf(keys)) == Distinct(keys)
    ensures forall j :: 0 <= j < |TallyOf(keys)| ==>
      TallyOf(keys)[j].count == Occurrences(keys, TallyOf(keys)[j].key) > 0
    ensures Sum(TallyOf(keys)) == |keys|
  {
    TallyKeys(keys);
    TallyCounts(keys);
    TallySum(keys);
  }

  /** The `forEach` loop of `generateReportData` over the chosen keys. */
  method CountBy(keys: seq<string>) returns (stats: seq<Tally>)
    ensures stats == TallyOf(keys)
  {
    stats := [];
    var i := 0;
    while i < |keys|
      invariant 0 <= i <= |keys|
      invariant stats == TallyOf(keys[..i])
    {
      var k := keys[i];
      if k in Keys(stats) {
        var j := FirstIndex(Keys(stats), k);
        stats := stats[j := Tally(k, stats[j].count + 1)];
      } else {
        stats := stats + [Tally(k, 1)];
      }
      assert keys[..i + 1][..i] == keys[..i];
      i := i + 1;
    }
    assert keys[..i] == keys;
  }

  function Destinations(students: seq<Student>): seq<string>
  {
    Map(students, (s: Student) => s.destination)
  }

  function Programs(students: seq<Student>): seq<string>
  {
    Map(students, (s: Student) => s.preferredProgram)
  }

  function Statuses(students: seq<Student>): seq<string>
  {
    Map(students, (s: Student) => s.status)
  }

  datatype ReportData = ReportData(
    totalStudents: nat, totalApplications: nat, enrolledStudents: nat, visaApprovedStudents: nat,
    successRate: nat, countryStats: seq<Tally>, programStats: seq<Tally>, statusStats: seq<Tally>,
    partnerUniversities: nat)

  function ScopedStudents(students: seq<Student>, user: Record): seq<Student>
  {
    Filter(students, (s: Student) => InScope(user, s.counselorId))
  }

  function ScopedApplications(applications: seq<Application>, user: Record): seq<Application>
  {
    Filter(applications, (a: Application) => InScope(user, a.counselorId))
  }

  /** `generateReportData`, without the random monthly trend. */
  method GenerateReportData(students: seq<Student>, applications: seq<Application>,
                            universities: seq<University>, user: Record)
    returns (report: ReportData)
    ensures var ss := ScopedStudents(students, user);
      var apps := ScopedApplications(applications, user);
      report.totalStudents == |ss| && report.totalApplications == |apps| &&
      report.enrolledStudents == Count(ss, (s: Student) => s.status == "Enrolled") &&
      report.visaApprovedStudents == Count(ss, (s: Student) => s.status == "Visa Approved") &&
      report.successRate == SuccessRate(report.enrolledStudents, report.totalApplications) &&
      report.countryStats == TallyOf(Destinations(ss)) &&
      report.programStats == TallyOf(Programs(ss)) &&
      report.statusStats == TallyOf(Statuses(ss)) &&
      report.partnerUniversities == RadiusfUniversities.PartnerCount(universities)
  {
    var filteredStudents := students;
    var filteredApplications := applications;
    var mine := Prop(user, "id");
    if Prop(user, "role") == Str("counselor") {
      filteredStudents := Filter(students, (s: Student) => s.counselorId == mine);
      filteredApplications := Filter(applications, (a: Application) => a.counselorId == mine);
    }
    FilterIfOnce(students, Prop(user, "role") == Str("counselor"), (s: Student) => s.counselorId == mine,
                 (s: Student) => InScope(user, s.counselorId));
    FilterIfOnce(applications, Prop(user, "role") == Str("counselor"), (a: Application) => a.counselorId == mine,
                 (a: Application) => InScope(user, a.counselorId));

    var enrolled := Count(filteredStudents, (s: Student) => s.status == "Enrolled");
    var countryStats := CountBy(Destinations(filteredStudents));
    var programStats := CountBy(Programs(filteredStudents));
    var statusStats := CountBy(Statuses(filteredStudents));
    var successRate := if |filteredApplications| > 0 then RoundedPercent(enrolled, |filteredApplications|) else 0;
    report := ReportData(
      |filteredStudents|, |filteredApplications|, enrolled,
      Count(filteredStudents, (s: Student) => s.status == "Visa Approved"),
      successRate, countryStats, programStats, statusStats,
      RadiusfUniversities.PartnerCount(universities));
  }

  /** Each tally names every scoped student's value once and counts it
      exactly, so each one's counts add up to the scoped student total. */
  lemma TalliesAddUp(students: seq<Student>, user: Record)
    ensures var ss := ScopedStudents(students, user);
      Sum(TallyOf(Destinations(ss))) == |ss| && Keys(TallyOf(Destinations(ss))) == Distinct(Destinations(ss)) &&
      Sum(TallyOf(Programs(ss))) == |ss| && Keys(TallyOf(Programs(ss))) == Distinct(Programs(ss)) &&
      Sum(TallyOf(Statuses(ss))) == |ss| && Keys(TallyOf(Statuses(ss))) == Distinct(Statuses(ss))
  {
    var ss := ScopedStudents(students, user);
    TallyOfSpec(Destinations(ss));
    TallyOfSpec(Programs(ss));
    TallyOfSpec(Statuses(ss));
  }

  /** An employee's report covers every student and application, and any
      role but counselor's does too. */
  lemma OnlyCounselorsAreScoped(students: seq<Student>, applications: seq<Application>, user: Record)
    ensures Prop(user, "role") != Str("counselor") ==>
      ScopedStudents(students, user) == students && ScopedApplications(applications, user) == applications
    ensures Prop(user, "role") == Str("counselor") ==>
      forall s :: s in ScopedStudents(students, user) <==> s in students && s.counselorId == Prop(user, "id")
  {
    if Prop(user, "role") != Str("counselor") {
      FilterKeepsAll(students, (s: Student) => InScope(user, s.counselorId));
      FilterKeepsAll(applications, (a: Application) => InScope(user, a.counselorId));
    } else {
      forall s ensures s in ScopedStudents(students, user) <==> s in students && s.counselorId == Prop(user, "id") {
        FilterMembership(students, (t: Student) => InScope(user, t.counselorId), s);
      }
    }
  }

  function TallyCount(e: Tally): int { e.count }

  /** `getTopCountries` and `getTopPrograms`: the entries sorted by count,
      largest first, and the first five kept. */
  function TopFive(stats: seq<Tally>): seq<Tally>
  {
    TopBy(stats, TallyCount, 5)
  }

  /** At most five entries, in decreasing count, drawn from the tally, and
      none left out has a larger count than one kept. */
  lemma TopFiveSpec(stats: seq<Tally>)
    ensures |TopFive(stats)| == if |stats| < 5 then |stats| else 5
    ensures DescendingBy(TopFive(stats), TallyCount)
    ensures multiset(TopFive(stats)) <= multiset(stats)
    ensures forall x, y :: x in stats && x !in TopFive(stats) && y in TopFive(stats) ==> TallyCount(x) <= TallyCount(y)
  {
    TopByProperties(stats, TallyCount, 5);
  }
}
