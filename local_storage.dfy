/** The browser-storage layer of the local-storage front end
    (radiusf/src/utils/localStorage.js): a key-value store holding, per entity
    kind, a list of records keyed by their `id` property. */
module LocalStorage {
  import opened JsValues
  import opened Seqs

  const USERS_KEY := "radiusf_users"
  const STUDENTS_KEY := "radiusf_students"
  const UNIVERSITIES_KEY := "radiusf_universities"
  const APPLICATIONS_KEY := "radiusf_applications"
  const EMPLOYEES_KEY := "radiusf_employees"
  const CURRENT_USER_KEY := "radiusf_current_user"
  const APP_INITIALIZED_KEY := "radiusf_initialized"

  /** A value as it is kept under a key: a list of records, one record (the
      session user) or a flag (the initialised marker). JSON encoding is
      abstracted away. */
  datatype Stored = List(items: seq<Record>) | Single(rec: Record) | Flag(on: bool)

  /** `storage.get(key) || []`: the list kept under a key; a missing key reads
      as the empty list. */
  function ListAt(entries: map<string, Stored>, key: string): (r: seq<Record>)
    ensures key !in entries ==> r == []
    ensures key in entries && entries[key].List? ==> r == entries[key].items
  {
    if key in entries && entries[key].List? then entries[key].items else []
  }

  /** `r.id === id`. */
  predicate HasId(r: Record, id: Field)
  {
    Prop(r, "id") == id
  }

  /** `xs.findIndex(r => r.id === id)`: the first position holding `id`, or -1. */
  function FindIndex(xs: seq<Record>, id: Field): (k: int)
    ensures -1 <= k < |xs|
    ensures k >= 0 ==> HasId(xs[k], id) && forall j :: 0 <= j < k ==> !HasId(xs[j], id)
    ensures k == -1 <==> forall j :: 0 <= j < |xs| ==> !HasId(xs[j], id)
  {
    FirstWhere(xs, (r: Record) => HasId(r, id))
  }

  /** `xs.find(r => r.id === id)`. */
  function FindById(xs: seq<Record>, id: Field): Option<Record>
  {
    var k := FindIndex(xs, id);
    if k == -1 then None else Some(xs[k])
  }

  /** The read-modify-write of every `updateX`: the first record with `id`
      becomes `{...old, ...patch}`; a list without `id` is left as it is. */
  function UpdateFirst(xs: seq<Record>, id: Field, patch: Record): seq<Record>
  {
    var k := FindIndex(xs, id);
    if k == -1 then xs else xs[k := xs[k] + patch]
  }

  /** `xs.filter(r => r.id !== id)`. */
  function RemoveAll(xs: seq<Record>, id: Field): seq<Record>
  {
    Filter(xs, (r: Record) => !HasId(r, id))
  }

  /** The fields `addStudent`, `addUniversity`, `addApplication` and
      `addEmployee` write onto the record before storing it: an id made of
      the clock's millisecond count and equal creation and update times. */
  function Stamp(rec: Record, millis: nat, iso: string): (r: Record)
    ensures Prop(r, "id") == Str(NatToString(millis))
    ensures Prop(r, "createdAt") == Prop(r, "updatedAt") == Str(iso)
    ensures r.Keys == rec.Keys + {"id", "createdAt", "updatedAt"}
    ensures forall k :: k in rec && k !in {"id", "createdAt", "updatedAt"} ==> r[k] == rec[k]
  {
    rec["id" := Str(NatToString(millis))]["createdAt" := Str(iso)]["updatedAt" := Str(iso)]
  }

  /** What an update touches: only the first record carrying `id`, which
      becomes the old record overlaid with the patch; the length and every
      other record stay as they were, and without a match nothing changes. */
  lemma UpdateFirstSpec(xs: seq<Record>, id: Field, patch: Record, k: nat)
    requires k < |xs| && HasId(xs[k], id)
    requires forall j :: 0 <= j < k ==> !HasId(xs[j], id)
    ensures |UpdateFirst(xs, id, patch)| == |xs|
    ensures UpdateFirst(xs, id, patch)[k] == xs[k] + patch
    ensures forall j :: 0 <= j < |xs| && j != k ==> UpdateFirst(xs, id, patch)[j] == xs[j]
  {
  }

  lemma UpdateFirstAbsent(xs: seq<Record>, id: Field, patch: Record)
    requires forall j :: 0 <= j < |xs| ==> !HasId(xs[j], id)
    ensures UpdateFirst(xs, id, patch) == xs
  {
  }

  /** After an update that leaves `id` alone, finding `id` gives the patched record. */
  lemma UpdateThenFind(xs: seq<Record>, id: Field, patch: Record)
    requires "id" !in patch
    ensures FindById(UpdateFirst(xs, id, patch), id) ==
      match FindById(xs, id)
      case None => None
      case Some(r) => Some(r + patch)
  {
    var k := FindIndex(xs, id);
    if k != -1 {
      var ys := UpdateFirst(xs, id, patch);
      assert HasId(ys[k], id);
      assert forall j :: 0 <= j < k ==> ys[j] == xs[j];
      assert FindIndex(ys, id) == k;
    }
  }

  /** A delete removes every record carrying `id`, keeps the others in their
      order, and finding `id` afterwards gives nothing. */
  lemma {:induction false} RemoveAllSpec(xs: seq<Record>, id: Field)
    ensures forall r :: r in RemoveAll(xs, id) ==> !HasId(r, id)
    ensures forall r :: r in xs && !HasId(r, id) ==> r in RemoveAll(xs, id)
    ensures IsSubsequence(RemoveAll(xs, id), xs)
    ensures FindById(RemoveAll(xs, id), id) == None
  {
    FilterIsSubsequence(xs, (r: Record) => !HasId(r, id));
    var ys := RemoveAll(xs, id);
    assert forall j :: 0 <= j < |ys| ==> !HasId(ys[j], id);
  }

  /** Deleting an id that no record carries leaves the list equal. */
  lemma RemoveAllAbsent(xs: seq<Record>, id: Field)
    requires forall j :: 0 <= j < |xs| ==> !HasId(xs[j], id)
    ensures RemoveAll(xs, id) == xs
  {
    FilterKeepsAll(xs, (r: Record) => !HasId(r, id));
  }

  /** Deleting twice is deleting once. */
  lemma RemoveAllIdempotent(xs: seq<Record>, id: Field)
    ensures RemoveAll(RemoveAll(xs, id), id) == RemoveAll(xs, id)
  {
    RemoveAllSpec(xs, id);
    var ys := RemoveAll(xs, id);
    assert forall j :: 0 <= j < |ys| ==> ys[j] in ys;
    RemoveAllAbsent(ys, id);
  }

  /** A record appended under a fresh id is what finding that id returns. */
  lemma AppendThenFind(xs: seq<Record>, rec: Record, id: Field)
    requires HasId(rec, id)
    requires forall j :: 0 <= j < |xs| ==> !HasId(xs[j], id)
    ensures FindById(xs + [rec], id) == Some(rec)
  {
    var ys := xs + [rec];
    assert forall j :: 0 <= j < |xs| ==> ys[j] == xs[j] && !HasId(ys[j], id);
    assert HasId(ys[|xs|], id);
    var k := FindIndex(ys, id);
    assert k != -1;
    assert FindIndex(ys, id) == |xs|;
  }

  /** The browser's storage for one origin, as `storage`, `userStorage`,
      `studentStorage`, `universityStorage`, `applicationStorage`,
      `employeeStorage` and `appStorage` use it. */
  class LocalStore {
    var entries: map<string, Stored>

    constructor()
      ensures entries == map[]
    {
      entries := map[];
    }

    /** `storage.get`: a missing key reads as null. */
    function Get(key: string): (v: Option<Stored>)
      reads this
      ensures v.None? <==> key !in entries
      ensures key in entries ==> v == Some(entries[key])
    {
      if key in entries then Some(entries[key]) else None
    }

    /** `storage.set`. */
    method Set(key: string, value: Stored) returns (ok: bool)
      modifies this
      ensures entries == old(entries)[key := value]
      ensures ok
    {
      entries := entries[key := value];
      ok := true;
    }

    /** `storage.remove`. */
    method Remove(key: string) returns (ok: bool)
      modifies this
      ensures entries == old(entries) - {key}
      ensures ok
    {
      entries := entries - {key};
      ok := true;
    }

    /** `storage.clear`. */
    method Clear() returns (ok: bool)
      modifies this
      ensures entries == map[]
      ensures ok
    {
      entries := map[];
      ok := true;
    }

    /** get, `push`, set: one record appended at the end of a list. */
    method Append(key: string, rec: Record) returns (ok: bool)
      modifies this
      ensures entries == old(entries)[key := List(ListAt(old(entries), key) + [rec])]
      ensures ok
    {
      var items := ListAt(entries, key);
      items := items + [rec];
      ok := Set(key, List(items));
    }

    /** get, `findIndex`, overlay, set: false, with nothing written, when no
        record carries the id. */
    method UpdateIn(key: string, id: Field, patch: Record) returns (ok: bool)
      modifies this
      ensures ok <==> FindIndex(ListAt(old(entries), key), id) != -1
      ensures ok ==> entries == old(entries)[key := List(UpdateFirst(ListAt(old(entries), key), id, patch))]
      ensures !ok ==> entries == old(entries)
    {
      var items := ListAt(entries, key);
      var index := FindIndex(items, id);
      if index != -1 {
        items := items[index := items[index] + patch];
        ok := Set(key, List(items));
      } else {
        ok := false;
      }
    }

    /** get, `filter`, set: the list is written back even when nothing matched. */
    method DeleteIn(key: string, id: Field) returns (ok: bool)
      modifies this
      ensures entries == old(entries)[key := List(RemoveAll(ListAt(old(entries), key), id))]
      ensures ok
    {
      var items := ListAt(entries, key);
      ok := Set(key, List(RemoveAll(items, id)));
    }

    function Users(): seq<Record>
      reads this
    {
      ListAt(entries, USERS_KEY)
    }

    method SetUsers(users: seq<Record>) returns (ok: bool)
      modifies this
      ensures entries == old(entries)[USERS_KEY := List(users)]
      ensures Users() == users && ok
    {
      ok := Set(USERS_KEY, List(users));
    }

    method AddUser(user: Record) returns (ok: bool)
      modifies this
      ensures entries == old(entries)[USERS_KEY := List(old(Users()) + [user])]
      ensures Users() == old(Users()) + [user] && ok
    {
      ok := Append(USERS_KEY, user);
    }

    /** `updateUser` overlays the patch and does not stamp `updatedAt`. */
    method UpdateUser(id: Field, patch: Record) returns (ok: bool)
      modifies this
      ensures ok <==> FindIndex(old(Users()), id) != -1
      ensures ok ==> entries == old(entries)[USERS_KEY := List(UpdateFirst(old(Users()), id, patch))]
      ensures !ok ==> entries == old(entries)
    {
      ok := UpdateIn(USERS_KEY, id, patch);
    }

    method DeleteUser(id: Field) returns (ok: bool)
      modifies this
      ensures entries == old(entries)[USERS_KEY := List(RemoveAll(old(Users()), id))]
      ensures ok
    {
      ok := DeleteIn(USERS_KEY, id);
    }

    /** `getCurrentUser`: the stored session user, or null. */
    function CurrentUser(): (u: Option<Record>)
      reads this
      ensures CURRENT_USER_KEY !in entries ==> u == None
    {
      if CURRENT_USER_KEY in entries && entries[CURRENT_USER_KEY].Single? then
        Some(entries[CURRENT_USER_KEY].rec)
      else None
    }

    method SetCurrentUser(user: Record) returns (ok: bool)
      modifies this
      ensures entries == old(entries)[CURRENT_USER_KEY := Single(user)]
      ensures CurrentUser() == Some(user) && ok
    {
      ok := Set(CURRENT_USER_KEY, Single(user));
    }

    method ClearCurrentUser() returns (ok: bool)
      modifies this
      ensures entries == old(entries) - {CURRENT_USER_KEY}
      ensures CurrentUser() == None && ok
    {
      ok := Remove(CURRENT_USER_KEY);
    }

    function Students(): seq<Record>
      reads this
    {
      ListAt(entries, STUDENTS_KEY)
    }

    /** `addStudent`: the record is stamped and appended; the stamped record
        is returned too, as the source stamps the caller's own object. */
    method AddStudent(student: Record, millis: nat, iso: string) returns (ok: bool, stamped: Record)
      modifies this
      ensures stamped == Stamp(student, millis, iso)
      ensures entries == old(entries)[STUDENTS_KEY := List(old(Students()) + [stamped])]
      ensures ok
    {
      stamped := Stamp(student, millis, iso);
      ok := Append(STUDENTS_KEY, stamped);
    }

    /** `updateStudent`: `{...old, ...patch, updatedAt}`. */
    method UpdateStudent(id: Field, patch: Record, iso: string) returns (ok: bool)
      modifies this
      ensures ok <==> FindIndex(old(Students()), id) != -1
      ensures ok ==> entries == old(entries)[STUDENTS_KEY :=
        List(UpdateFirst(old(Students()), id, patch["updatedAt" := Str(iso)]))]
      ensures !ok ==> entries == old(entries)
    {
      ok := UpdateIn(STUDENTS_KEY, id, patch["updatedAt" := Str(iso)]);
    }

    method DeleteStudent(id: Field) returns (ok: bool)
      modifies this
      ensures entries == old(entries)[STUDENTS_KEY := List(RemoveAll(old(Students()), id))]
      ensures ok
    {
      ok := DeleteIn(STUDENTS_KEY, id);
    }

    /** `getStudentById`. */
    function StudentById(id: Field): (r: Option<Record>)
      reads this
      ensures r.Some? ==> exists k :: 0 <= k < |Students()| && Students()[k] == r.value && HasId(r.value, id) &&
                                      forall j :: 0 <= j < k ==> !HasId(Students()[j], id)
      ensures r.None? <==> forall j :: 0 <= j < |Students()| ==> !HasId(Students()[j], id)
    {
      FindById(Students(), id)
    }

    function Universities(): seq<Record>
      reads this
    {
      ListAt(entries, UNIVERSITIES_KEY)
    }

    method AddUniversity(university: Record, millis: nat, iso: string) returns (ok: bool, stamped: Record)
      modifies this
      ensures stamped == Stamp(university, millis, iso)
      ensures entries == old(entries)[UNIVERSITIES_KEY := List(old(Universities()) + [stamped])]
      ensures ok
    {
      stamped := Stamp(university, millis, iso);
      ok := Append(UNIVERSITIES_KEY, stamped);
    }

    method UpdateUniversity(id: Field, patch: Record, iso: string) returns (ok: bool)
      modifies this
      ensures ok <==> FindIndex(old(Universities()), id) != -1
      ensures ok ==> entries == old(entries)[UNIVERSITIES_KEY :=
        List(UpdateFirst(old(Universities()), id, patch["updatedAt" := Str(iso)]))]
      ensures !ok ==> entries == old(entries)
    {
      ok := UpdateIn(UNIVERSITIES_KEY, id, patch["updatedAt" := Str(iso)]);
    }

    method DeleteUniversity(id: Field) returns (ok: bool)
      modifies this
      ensures entries == old(entries)[UNIVERSITIES_KEY := List(RemoveAll(old(Universities()), id))]
      ensures ok
    {
      ok := DeleteIn(UNIVERSITIES_KEY, id);
    }

    function Applications(): seq<Record>
      reads this
    {
      ListAt(entries, APPLICATIONS_KEY)
    }

    method AddApplication(application: Record, millis: nat, iso: string) returns (ok: bool, stamped: Record)
      modifies this
      ensures stamped == Stamp(application, millis, iso)
      ensures entries == old(entries)[APPLICATIONS_KEY := List(old(Applications()) + [stamped])]
      ensures ok
    {
      stamped := Stamp(application, millis, iso);
      ok := Append(APPLICATIONS_KEY, stamped);
    }

    method UpdateApplication(id: Field, patch: Record, iso: string) returns (ok: bool)
      modifies this
      ensures ok <==> FindIndex(old(Applications()), id) != -1
      ensures ok ==> entries == old(entries)[APPLICATIONS_KEY :=
        List(UpdateFirst(old(Applications()), id, patch["updatedAt" := Str(iso)]))]
      ensures !ok ==> entries == old(entries)
    {
      ok := UpdateIn(APPLICATIONS_KEY, id, patch["updatedAt" := Str(iso)]);
    }

    method DeleteApplication(id: Field) returns (ok: bool)
      modifies this
      ensures entries == old(entries)[APPLICATIONS_KEY := List(RemoveAll(old(Applications()), id))]
      ensures ok
    {
      ok := DeleteIn(APPLICATIONS_KEY, id);
    }

    function Employees(): seq<Record>
      reads this
    {
      ListAt(entries, EMPLOYEES_KEY)
    }

    method AddEmployee(employee: Record, millis: nat, iso: string) returns (ok: bool, stamped: Record)
      modifies this
      ensures stamped == Stamp(employee, millis, iso)
      ensures entries == old(entries)[EMPLOYEES_KEY := List(old(Employees()) + [stamped])]
      ensures ok
    {
      stamped := Stamp(employee, millis, iso);
      ok := Append(EMPLOYEES_KEY, stamped);
    }

    method UpdateEmployee(id: Field, patch: Record, iso: string) returns (ok: bool)
      modifies this
      ensures ok <==> FindIndex(old(Employees()), id) != -1
      ensures ok ==> entries == old(entries)[EMPLOYEES_KEY :=
        List(UpdateFirst(old(Employees()), id, patch["updatedAt" := Str(iso)]))]
      ensures !ok ==> entries == old(entries)
    {
      ok := UpdateIn(EMPLOYEES_KEY, id, patch["updatedAt" := Str(iso)]);
    }

    method DeleteEmployee(id: Field) returns (ok: bool)
      modifies this
      ensures entries == old(entries)[EMPLOYEES_KEY := List(RemoveAll(old(Employees()), id))]
      ensures ok
    {
      ok := DeleteIn(EMPLOYEES_KEY, id);
    }

    /** `appStorage.isInitialized`: the truthiness of the stored marker; false
        while nothing is stored. */
    predicate IsInitialized()
      reads this
    {
      match Get(APP_INITIALIZED_KEY)
      case None => false
      case Some(Flag(on)) => on
      case Some(_) => true
    }

    method SetInitialized() returns (ok: bool)
      modifies this
      ensures entries == old(entries)[APP_INITIALIZED_KEY := Flag(true)]
      ensures IsInitialized() && ok
    {
      ok := Set(APP_INITIALIZED_KEY, Flag(true));
    }

    /** `appStorage.reset`: everything is cleared, so the app reads as not
        initialised and every list as empty. */
    method Reset() returns (ok: bool)
      modifies this
      ensures entries == map[]
      ensures !IsInitialized() && Users() == [] && Students() == [] && ok
    {
      ok := Clear();
      ok := true;
    }
  }

  /** On a fresh store nothing is initialised and every list reads as empty. */
  lemma FreshStoreIsEmpty(entries: map<string, Stored>)
    requires entries == map[]
    ensures ListAt(entries, USERS_KEY) == [] && ListAt(entries, STUDENTS_KEY) == []
    ensures ListAt(entries, UNIVERSITIES_KEY) == [] && ListAt(entries, APPLICATIONS_KEY) == []
    ensures ListAt(entries, EMPLOYEES_KEY) == []
  {
  }
}
