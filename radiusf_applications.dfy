/** The applications page of the local-storage front end
    (radiusf/src/pages/Applications.jsx): role scoping, the search and status
    filters, the status colours and the summary counts. */
module RadiusfApplications {
  import opened JsValues
  import opened Seqs
  import opened Entities

  /** The reference scope: counselor and employee see the applications
      assigned to them, every other role sees all. */
  predicate VisibleTo(user: Record, a: Application)
  {
    !CounselorOrEmployee(user) || AssignedTo(a.counselorId, user)
  }

  /** `loadApplications`: the role branches reassign the loaded list. */
  method LoadApplications(all: seq<Application>, user: Record) returns (applications: seq<Application>)
    ensures applications == Filter(all, (a: Application) => VisibleTo(user, a))
  {
    applications := all;
    if Prop(user, "role") == Str("counselor") {
      applications := Filter(applications, (a: Application) => a.counselorId == Prop(user, "id"));
    } else if Prop(user, "role") == Str("employee") {
      applications := Filter(applications, (a: Application) => a.counselorId == Prop(user, "id"));
    }
    FilterIfOnce(all, CounselorOrEmployee(user), (a: Application) => a.counselorId == Prop(user, "id"),
                 (a: Application) => VisibleTo(user, a));
  }

  /** The four texts the search looks in, the application id among them. */
  predicate MatchesSearch(a: Application, searchText: string)
  {
    MatchesText(a.studentName, searchText) || MatchesText(a.university, searchText) ||
    MatchesText(a.program, searchText) || MatchesText(a.id, searchText)
  }

  predicate Shown(a: Application, searchText: string, statusFilter: string)
  {
    (searchText == "" || MatchesSearch(a, searchText)) &&
    (statusFilter == "all" || a.status == statusFilter)
  }

  /** `filterApplications`: search first, then status, each only when set. */
  method FilterApplications(applications: seq<Application>, searchText: string, statusFilter: string)
    returns (filtered: seq<Application>)
    ensures filtered == Filter(applications, (a: Application) => Shown(a, searchText, statusFilter))
  {
    filtered := applications;
    if searchText != "" {
      filtered := Filter(filtered, (a: Application) => MatchesSearch(a, searchText));
    }
    if statusFilter != "all" {
      filtered := Filter(filtered, (a: Application) => a.status == statusFilter);
    }
    FilterIfTwice(applications, searchText != "", (a: Application) => MatchesSearch(a, searchText),
                  statusFilter != "all", (a: Application) => a.status == statusFilter,
                  (a: Application) => Shown(a, searchText, statusFilter));
  }

  /** An application is listed exactly when it is loaded and passes both
      tests, in loaded order; a search for part of its id finds it. */
  lemma FilterApplicationsSpec(applications: seq<Application>, searchText: string, statusFilter: string, a: Application)
    ensures var shown := Filter(applications, (b: Application) => Shown(b, searchText, statusFilter));
      (a in shown <==>
         (a in applications &&
          (searchText == "" || MatchesText(a.studentName, searchText) || MatchesText(a.university, searchText) ||
           MatchesText(a.program, searchText) || MatchesText(a.id, searchText)) &&
          (statusFilter == "all" || a.status == statusFilter))) &&
      IsSubsequence(shown, applications) &&
      (searchText == "" && statusFilter == "all" ==> shown == applications)
  {
    var keep := (b: Application) => Shown(b, searchText, statusFilter);
    FilterMembership(applications, keep, a);
    FilterIsSubsequence(applications, keep);
    if searchText == "" && statusFilter == "all" {
      FilterKeepsAll(applications, keep);
    }
  }

  /** The scope keeps exactly a counselor's or employee's own applications
      and everything for other roles. */
  lemma LoadApplicationsSpec(all: seq<Application>, user: Record, a: Application)
    ensures var applications := Filter(all, (b: Application) => VisibleTo(user, b));
      (CounselorOrEmployee(user) ==> (a in applications <==> a in all && a.counselorId == Prop(user, "id"))) &&
      (!CounselorOrEmployee(user) ==> applications == all)
  {
    var keep := (b: Application) => VisibleTo(user, b);
    FilterMembership(all, keep, a);
    if !CounselorOrEmployee(user) {
      FilterKeepsAll(all, keep);
    }
  }

  /** The colour table of `getStatusColor`: the application pipeline's
      stages, starting at "Inquiry Received". */
  const STATUS_COLORS: map<string, string> := map[
    "Inquiry Received" := "default", "Document Review" := "orange", "Application Submitted" := "blue",
    "University Review" := "purple", "Decision Received" := "cyan", "Visa Processing" := "gold",
    "Visa Approved" := "green", "Enrolled" := "success"]

  /** `getStatusColor`: the table's colour, "default" for a status it lacks. */
  function StatusColor(status: string): (color: string)
    ensures status in STATUS_COLORS ==> color == STATUS_COLORS[status]
    ensures status !in STATUS_COLORS ==> color == "default"
    ensures color in {"default", "orange", "blue", "purple", "cyan", "gold", "green", "success"}
  {
    if status in STATUS_COLORS then STATUS_COLORS[status] else "default"
  }

  /** `statusCounts`. */
  datatype StatusCounts = StatusCounts(total: nat, inProgress: nat, completed: nat)

  predicate InProgress(a: Application)
  {
    a.status !in ["Enrolled", "Rejected"]
  }

  function CountStatuses(filtered: seq<Application>): StatusCounts
  {
    StatusCounts(|filtered|, Count(filtered, InProgress), Count(filtered, (a: Application) => a.status == "Enrolled"))
  }

  /** Every listed application is in progress, completed or rejected, and in
      only one of these. */
  lemma StatusCountsPartition(filtered: seq<Application>)
    ensures var c := CountStatuses(filtered);
      c.total == |filtered| &&
      c.inProgress + c.completed + Count(filtered, (a: Application) => a.status == "Rejected") == c.total
  {
    var completed := (a: Application) => a.status == "Enrolled";
    var rejected := (a: Application) => a.status == "Rejected";
    var closed := (a: Application) => a.status == "Enrolled" || a.status == "Rejected";
    var any := (a: Application) => InProgress(a) || closed(a);
    CountDisjoint(filtered, completed, rejected, closed);
    CountDisjoint(filtered, InProgress, closed, any);
    FilterKeepsAll(filtered, any);
  }
}
