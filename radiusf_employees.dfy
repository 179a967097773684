/** The employees page of the local-storage front end
    (radiusf/src/pages/Employees.jsx): the search, the active-counselor count
    and the department count. */
module RadiusfEmployees {
  import opened JsValues
  import opened Seqs
  import opened Entities

  predicate MatchesSearch(e: Employee, searchText: string)
  {
    MatchesText(e.name, searchText) || MatchesText(e.email, searchText) || MatchesText(e.role, searchText)
  }

  /** `filterEmployees`: the search applies only when it is not empty. */
  method FilterEmployees(employees: seq<Employee>, searchText: string) returns (filtered: seq<Employee>)
    ensures filtered == Filter(employees, (e: Employee) => searchText == "" || MatchesSearch(e, searchText))
  {
    filtered := employees;
    if searchText != "" {
      filtered := Filter(filtered, (e: Employee) => MatchesSearch(e, searchText));
    }
    FilterIfOnce(employees, searchText != "", (e: Employee) => MatchesSearch(e, searchText),
                 (e: Employee) => searchText == "" || MatchesSearch(e, searchText));
  }

  /** An employee is listed exactly when the search finds its name, e-mail or
      role, in stored order; an empty search lists everyone. */
  lemma FilterEmployeesSpec(employees: seq<Employee>, searchText: string, e: Employee)
    ensures var shown := Filter(employees, (f: Employee) => searchText == "" || MatchesSearch(f, searchText));
      (e in shown <==>
         (e in employees &&
          (searchText == "" || MatchesText(e.name, searchText) || MatchesText(e.email, searchText) ||
           MatchesText(e.role, searchText)))) &&
      IsSubsequence(shown, employees) &&
      (searchText == "" ==> shown == employees)
  {
    var keep := (f: Employee) => searchText == "" || MatchesSearch(f, searchText);
    FilterMembership(employees, keep, e);
    FilterIsSubsequence(employees, keep);
    if searchText == "" {
      FilterKeepsAll(employees, keep);
    }
  }

  /** An active employee whose role contains "Counselor", with that case. */
  predicate ActiveCounselor(e: Employee)
  {
    Includes(e.role, "Counselor") && e.status == "Active"
  }

  /** `activeCounselors`. */
  function ActiveCounselors(employees: seq<Employee>): nat
  {
    Count(employees, ActiveCounselor)
  }

  /** The count is at most the number of active employees; the role match is
      case-sensitive, so a role spelled "counselor" is not counted. */
  lemma ActiveCounselorsSpec(employees: seq<Employee>)
    ensures ActiveCounselors(employees) <= Count(employees, (e: Employee) => e.status == "Active")
    ensures !ActiveCounselor(Employee("A", "a@b", "counselor", "Admissions", "Active"))
    ensures ActiveCounselor(Employee("A", "a@b", "Senior Counselor", "Admissions", "Active"))
  {
    CountMonotone(employees, ActiveCounselor, (e: Employee) => e.status == "Active");
    var lower := "counselor";
    IncludesNeedsLength(lower[1..], "Counselor");
    assert !IsPrefix("Counselor", lower) by {
      assert lower[..9][0] != "Counselor"[0];
    }
    var senior := "Senior Counselor";
    assert senior[7..][..9] == "Counselor";
    assert Includes(senior[7..], "Counselor");
    assert Includes(senior, "Counselor") by {
      assert Includes(senior[6..], "Counselor");
      assert Includes(senior[5..], "Counselor");
      assert Includes(senior[4..], "Counselor");
      assert Includes(senior[3..], "Counselor");
      assert Includes(senior[2..], "Counselor");
      assert Includes(senior[1..], "Counselor");
    }
  }

  /** `[...new Set(employees.map(emp => emp.department))].length`. */
  function DepartmentCount(employees: seq<Employee>): nat
  {
    |Distinct(Map(employees, (e: Employee) => e.department))|
  }

  /** The count is the number of different departments, never more than the
      number of employees, and at least one when there is an employee. */
  lemma DepartmentCountSpec(employees: seq<Employee>)
    ensures DepartmentCount(employees) == |set e | e in employees :: e.department|
    ensures DepartmentCount(employees) <= |employees|
    ensures |employees| > 0 ==> DepartmentCount(employees) > 0
  {
    var names := Map(employees, (e: Employee) => e.department);
    DistinctCount(names);
    assert (set x | x in names) == (set e | e in employees :: e.department) by {
      forall x | x in names ensures x in (set e | e in employees :: e.department) {
        var i :| 0 <= i < |names| && names[i] == x;
        assert employees[i] in employees;
      }
      forall e | e in employees ensures e.department in names {
        var i :| 0 <= i < |employees| && employees[i] == e;
        assert names[i] == e.department;
      }
    }
    if |employees| > 0 {
      assert names[0] in Distinct(names);
    }
  }
}
