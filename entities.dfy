/** The records the local-storage front end's pages list, as the pages read
    them: only the properties a page uses, with the types the stored data
    gives them. `updatedAt` is the time stamp as a millisecond count. */
module Entities {
  import opened JsValues

  datatype Student = Student(
    id: Field, fullName: string, email: string, destination: string,
    preferredProgram: string, status: string, counselorId: Field, updatedAt: int)

  datatype Application = Application(
    id: string, studentName: string, university: string, program: string,
    status: string, counselorId: Field, updatedAt: int)

  datatype University = University(name: string, city: string, country: string, isPartner: Field)

  datatype Employee = Employee(name: string, email: string, role: string, department: string, status: string)

  /** `user.role === 'counselor'` or `user.role === 'employee'`: the roles the
      student, application and dashboard pages scope to their own records. */
  predicate CounselorOrEmployee(user: Record)
  {
    Prop(user, "role") == Str("counselor") || Prop(user, "role") == Str("employee")
  }

  /** `x.counselorId === user.id`. */
  predicate AssignedTo(counselorId: Field, user: Record)
  {
    counselorId == Prop(user, "id")
  }

  /** `Math.round(part / whole * 100)` for a non-zero whole, in integers:
      the nearest whole percentage, halves rounded up, so that `r` lies within
      half a percent of `100 * part / whole`. */
  function RoundedPercent(part: nat, whole: nat): (r: nat)
    requires whole > 0
    ensures 2 * r * whole <= 200 * part + whole < 2 * r * whole + 2 * whole
  {
    (200 * part + whole) / (2 * whole)
  }

  /** A product with a positive factor has the sign of the other factor. */
  lemma SignOfFactor(x: int, w: int)
    requires w > 0
    ensures x * w <= 0 ==> x <= 0
    ensures x * w >= 0 ==> x >= 0
  {
  }

  /** A part no larger than the whole is at most 100 percent, all of it is
      exactly 100, and none of it is 0. */
  lemma RoundedPercentBounds(part: nat, whole: nat)
    requires whole > 0
    ensures part <= whole ==> RoundedPercent(part, whole) <= 100
    ensures RoundedPercent(whole, whole) == 100
    ensures RoundedPercent(0, whole) == 0
  {
    var r := RoundedPercent(part, whole);
    assert (2 * r - 201) * whole == 2 * r * whole - 201 * whole;
    SignOfFactor(2 * r - 201, whole);
    var full := RoundedPercent(whole, whole);
    assert (2 * full - 201) * whole == 2 * full * whole - 201 * whole;
    assert (2 * full - 199) * whole == 2 * full * whole - 199 * whole;
    SignOfFactor(2 * full - 201, whole);
    SignOfFactor(2 * full - 199, whole);
    var none := RoundedPercent(0, whole);
    assert (2 * none - 1) * whole == 2 * none * whole - whole;
    SignOfFactor(2 * none - 1, whole);
  }

  /** The success rate of the dashboard and the reports: enrolled students
      over applications, as a rounded percentage, and 0 without applications.
      The numerator counts students and the denominator applications, so
      nothing keeps it at or below 100. */
  function SuccessRate(enrolled: nat, applications: nat): (r: nat)
    ensures applications == 0 ==> r == 0
    ensures applications > 0 ==> 2 * r * applications <= 200 * enrolled + applications < 2 * r * applications + 2 * applications
  {
    if applications == 0 then 0 else RoundedPercent(enrolled, applications)
  }

  /** Up to 100 when there are no more enrolled students than applications,
      100 when the two are equal, and above 100 otherwise: three enrolled
      students with one application give 300. */
  lemma SuccessRateRange(enrolled: nat, applications: nat)
    ensures enrolled <= applications ==> SuccessRate(enrolled, applications) <= 100
    ensures applications > 0 ==> SuccessRate(applications, applications) == 100
    ensures SuccessRate(3, 1) == 300
  {
    if applications > 0 {
      RoundedPercentBounds(enrolled, applications);
    }
  }

  /** The colour table of the `getStatusColor` that the students page and
      the dashboard each declare with the same nine entries. */
  const STUDENT_STATUS_COLORS: map<string, string> := map[
    "Inquiry" := "default", "Document Review" := "orange", "Applied" := "blue",
    "Application Submitted" := "blue", "University Review" := "purple", "Decision Received" := "cyan",
    "Visa Processing" := "gold", "Visa Approved" := "green", "Enrolled" := "success"]

  /** `getStatusColor`: the table's colour, "default" for a status it lacks. */
  function StudentStatusColor(status: string): (color: string)
    ensures status in STUDENT_STATUS_COLORS ==> color == STUDENT_STATUS_COLORS[status]
    ensures status !in STUDENT_STATUS_COLORS ==> color == "default"
    ensures color in {"default", "orange", "blue", "purple", "cyan", "gold", "green", "success"}
  {
    if status in STUDENT_STATUS_COLORS then STUDENT_STATUS_COLORS[status] else "default"
  }
}
