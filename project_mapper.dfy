/**
 * The hand-written conversions of the project mapper: the status enum to and
 * from its string form (with an ACTIVE fallback), and the constant defaults of
 * the create and update mappings. Topics and tags are stored comma-joined and
 * use the `CommaLists` conversions.
 */
module ProjectMapper {
  import opened Wrappers
  import opened Text
  import opened CommaLists

  type Uuid = nat
  type Timestamp = int

  datatype ProjectStatus = ACTIVE | PAUSED | COMPLETED | ARCHIVED {

    /** `name()`: the constant's identifier. */
    function Name(): string {
      match this
      case ACTIVE => "ACTIVE"
      case PAUSED => "PAUSED"
      case COMPLETED => "COMPLETED"
      case ARCHIVED => "ARCHIVED"
    }
  }

  /** The project entity; every column may be null. */
  datatype Project = Project(
    id: Option<Uuid>,
    name: Option<string>,
    description: Option<string>,
    domain: Option<string>,
    topics: Option<string>,
    tags: Option<string>,
    userId: Option<Uuid>,
    status: Option<ProjectStatus>,
    progress: Option<int>,
    totalPapers: Option<int>,
    activeTasks: Option<int>,
    lastActivity: Option<string>,
    isStarred: Option<bool>,
    createdAt: Option<Timestamp>,
    updatedAt: Option<Timestamp>)

  /** The fields a client sends to create a project. */
  datatype CreateProjectDto = CreateProjectDto(
    name: Option<string>,
    description: Option<string>,
    domain: Option<string>,
    topics: Option<seq<string>>,
    tags: Option<seq<string>>)

  /** The fields a client sends to update a project. */
  datatype UpdateProjectDto = UpdateProjectDto(
    name: Option<string>,
    description: Option<string>,
    domain: Option<string>,
    topics: Option<seq<string>>,
    tags: Option<seq<string>>,
    status: Option<string>,
    progress: Option<int>,
    lastActivity: Option<string>,
    isStarred: Option<bool>)

  /** `statusEnumToString`: the constant's name, null for null. */
  function StatusEnumToString(status: Option<ProjectStatus>): (r: Option<string>)
    ensures r.None? <==> status.None?
    ensures r.Some? ==> NoLowerCase(r.value) && !IsBlank(r.value)
    ensures r.Some? ==> r.value == status.value.Name() && ValueOf(r.value) == status
  {
    match status
    case None => None
    case Some(s) =>
      assert !Trimmable(s.Name()[0]);
      Some(s.Name())
  }

  /** `Project.Status.valueOf(name)`: exact, case-sensitive lookup. */
  function ValueOf(name: string): (r: Option<ProjectStatus>)
    ensures r.Some? ==> r.value.Name() == name
    ensures r.None? ==> forall s: ProjectStatus :: s.Name() != name
  {
    if name == "ACTIVE" then Some(ACTIVE)
    else if name == "PAUSED" then Some(PAUSED)
    else if name == "COMPLETED" then Some(COMPLETED)
    else if name == "ARCHIVED" then Some(ARCHIVED)
    else None
  }

  /** `stringToStatusEnum`: ACTIVE for null, blank or unknown input, otherwise
      the constant named by the upper-cased string. */
  function StringToStatusEnum(status: Option<string>): (r: ProjectStatus)
    ensures status.None? || IsBlank(status.value) ==> r == ACTIVE
    ensures status.Some? && ValueOf(Upper(status.value)).None? ==> r == ACTIVE
  {
    if status.None? || IsBlank(status.value) then ACTIVE
    else
      match ValueOf(Upper(status.value))
      case Some(s) => s
      case None => ACTIVE
  }

  /** A string equal to a constant's name up to case is not blank. */
  lemma NameMatchNotBlank(s: ProjectStatus, v: string)
    requires EqualsIgnoreCase(s.Name(), v)
    ensures !IsBlank(v)
  {
    assert Lower(s.Name())[0] == Lower(v)[0];
  }

  /** A string equal to a constant's name up to case parses to that constant. */
  lemma StringToStatusMatches(v: string, s: ProjectStatus)
    requires EqualsIgnoreCase(s.Name(), v)
    ensures StringToStatusEnum(Some(v)) == s
  {
    NameMatchNotBlank(s, v);
    UpperMatchesIgnoringCase(s.Name(), v);
  }

  /** A string matching no name up to case falls back to ACTIVE. */
  lemma StringToStatusFallback(v: string)
    requires forall s: ProjectStatus :: !EqualsIgnoreCase(s.Name(), v)
    ensures StringToStatusEnum(Some(v)) == ACTIVE
  {
    if !IsBlank(v) {
      var u := ValueOf(Upper(v));
      if u.Some? {
        UpperMatchesIgnoringCase(u.value.Name(), v);
        assert false;
      }
    }
  }

  /** Parsing the printed name gives the status back. */
  lemma StatusRoundTrip(s: ProjectStatus)
    ensures StringToStatusEnum(StatusEnumToString(Some(s))) == s
  {
    StringToStatusMatches(s.Name(), s);
  }

  /** `fromCreateDto`: a new, active, unstarred project with zero counters,
      owned by `userId`. The ignored columns (id, timestamps, last activity)
      keep the values of a newly constructed entity, `blank`. */
  function FromCreateDto(dto: CreateProjectDto, userId: Uuid, blank: Project): (r: Project)
    ensures r.status == Some(ACTIVE) && r.isStarred == Some(false)
    ensures r.progress == Some(0) && r.totalPapers == Some(0) && r.activeTasks == Some(0)
    ensures r.userId == Some(userId)
    ensures r.id == blank.id && r.createdAt == blank.createdAt
    ensures r.updatedAt == blank.updatedAt && r.lastActivity == blank.lastActivity
    ensures r.name == dto.name && r.description == dto.description && r.domain == dto.domain
    ensures r.topics == ListToString(dto.topics) && r.tags == ListToString(dto.tags)
  {
    Project(
      id := blank.id,
      name := dto.name,
      description := dto.description,
      domain := dto.domain,
      topics := ListToString(dto.topics),
      tags := ListToString(dto.tags),
      userId := Some(userId),
      status := Some(ACTIVE),
      progress := Some(0),
      totalPapers := Some(0),
      activeTasks := Some(0),
      lastActivity := blank.lastActivity,
      isStarred := Some(false),
      createdAt := blank.createdAt,
      updatedAt := blank.updatedAt)
  }

  /** `fromUpdateDto`: the client-editable columns from the DTO; id, owner,
      counters and timestamps are left as in a newly constructed entity. */
  function FromUpdateDto(dto: UpdateProjectDto, blank: Project): (r: Project)
    ensures r.name == dto.name && r.description == dto.description && r.domain == dto.domain
    ensures r.topics == ListToString(dto.topics) && r.tags == ListToString(dto.tags)
    ensures r.status == Some(StringToStatusEnum(dto.status))
    ensures r.progress == dto.progress && r.lastActivity == dto.lastActivity
    ensures r.isStarred == dto.isStarred
  {
    Project(
      id := blank.id,
      name := dto.name,
      description := dto.description,
      domain := dto.domain,
      topics := ListToString(dto.topics),
      tags := ListToString(dto.tags),
      userId := blank.userId,
      status := Some(StringToStatusEnum(dto.status)),
      progress := dto.progress,
      totalPapers := blank.totalPapers,
      activeTasks := blank.activeTasks,
      lastActivity := dto.lastActivity,
      isStarred := dto.isStarred,
      createdAt := blank.createdAt,
      updatedAt := blank.updatedAt)
  }

  /** The columns the system manages and no client mapping may set. */
  predicate SameSystemFields(a: Project, b: Project) {
    a.id == b.id && a.userId == b.userId && a.totalPapers == b.totalPapers &&
    a.activeTasks == b.activeTasks && a.createdAt == b.createdAt && a.updatedAt == b.updatedAt
  }

  /** No update DTO can set id, owner, counters or timestamps: whatever the
      DTO, those columns are the ones of the fresh entity. */
  lemma UpdateLeavesSystemFields(d1: UpdateProjectDto, d2: UpdateProjectDto, blank: Project)
    ensures SameSystemFields(FromUpdateDto(d1, blank), blank)
    ensures SameSystemFields(FromUpdateDto(d1, blank), FromUpdateDto(d2, blank))
  {
  }

  /** An updated project always has a status, and a DTO without one makes it ACTIVE. */
  lemma UpdateStatusDefaultsToActive(dto: UpdateProjectDto, blank: Project)
    requires dto.status.None? || IsBlank(dto.status.value)
    ensures FromUpdateDto(dto, blank).status == Some(ACTIVE)
  {
  }

  /** The topics stored by `fromCreateDto` read back, through `stringToList`,
      as the list the client sent, when that list survives the comma join. */
  lemma CreatedTopicsReadBack(dto: CreateProjectDto, userId: Uuid, blank: Project)
    requires dto.topics.Some? && |dto.topics.value| >= 1
    requires forall k :: 0 <= k < |dto.topics.value| ==> ',' !in dto.topics.value[k]
    requires dto.topics.value[|dto.topics.value| - 1] != []
    requires !IsBlank(Join(dto.topics.value))
    ensures StringToList(FromCreateDto(dto, userId, blank).topics) == dto.topics
  {
    ListRoundTrip(dto.topics.value);
  }
}
