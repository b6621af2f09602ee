/**
 * The values a portability job is made of, as far as the start-copy controller reads them:
 * the closed set of data types a job may copy, the credentials obtained for each side, and the
 * job record. The Java declarations of PortableDataType, AuthData and PortabilityJob are not
 * part of this model; only the accessors the controller calls are.
 */
module PortableData {
  import opened Wrappers

  /** A Java String reference: None stands for null. */
  type JavaString = Option<string>

  /** Guava's Strings.isNullOrEmpty. */
  predicate IsNullOrEmpty(s: JavaString) {
    s.None? || s.value == ""
  }

  /** The enum of data categories a job may copy. */
  datatype PortableDataType = Calendar | Contacts | Mail | Photos | Tasks

  /** Every constant of the enum, in declaration order (Java's values()). */
  const AllDataTypes: seq<PortableDataType> := [Calendar, Contacts, Mail, Photos, Tasks]

  /** The name of a constant, as Java's Enum.name() gives it. */
  function Name(t: PortableDataType): string {
    match t
    case Calendar => "CALENDAR"
    case Contacts => "CONTACTS"
    case Mail => "MAIL"
    case Photos => "PHOTOS"
    case Tasks => "TASKS"
  }

  /**
   * The name-to-constant directory Java builds for an enum class, filled constant by constant:
   * every constant of ts is keyed by its own name.
   */
  function Directory(ts: seq<PortableDataType>): (m: map<string, PortableDataType>)
    ensures forall name :: name in m ==> Name(m[name]) == name && m[name] in ts
    ensures forall t :: t in ts ==> Name(t) in m
  {
    if ts == [] then map[]
    else
      var last := ts[|ts| - 1];
      Directory(ts[..|ts| - 1])[Name(last) := last]
  }

  /**
   * Enum lookup by constant name, as Guava's Enums.getIfPresent does it for a non-null name:
   * present exactly when the name is the name of a constant, and then that constant.
   */
  function IfPresent(name: string): (r: Option<PortableDataType>)
    ensures r.Some? ==> Name(r.value) == name
    ensures r.None? ==> forall t :: Name(t) != name
  {
    var directory := Directory(AllDataTypes);
    if name in directory then Some(directory[name]) else None
  }

  /** Opaque credentials obtained by an authorization handshake; the controller only passes them on. */
  datatype AuthData = AuthData(credential: string)

  /** The job record the controller reads; None in an Option field stands for a null accessor result. */
  datatype PortabilityJob = PortabilityJob(
    id: string,
    dataType: JavaString,
    exportService: JavaString,
    exportAuthData: Option<AuthData>,
    importService: JavaString,
    importAuthData: Option<AuthData>)
}
