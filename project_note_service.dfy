/**
 * The note service of a project over a note store: lookups scoped to the
 * project, partial updates, the favourite toggle, and creation and deletion
 * that go through whatever the image and mention services report.
 */
module ProjectNoteService {
  import opened Wrappers

  type NoteId = nat
  type ProjectId = nat

  datatype ProjectNote = ProjectNote(
    id: NoteId,
    projectId: ProjectId,
    title: Option<string>,
    content: Option<string>,
    tags: Option<seq<string>>,
    isFavorite: Option<bool>)

  /** The fields a client may change; null means "leave as is". */
  datatype UpdateNoteDto = UpdateNoteDto(
    title: Option<string>,
    content: Option<string>,
    tags: Option<seq<string>>)

  /** The fields a client sends to create a note. */
  datatype CreateNoteDto = CreateNoteDto(
    title: Option<string>,
    content: Option<string>,
    tags: Option<seq<string>>)

  datatype NoteError =
    | NotFound(message: string)   // the `RuntimeException` of a failed lookup
    | NullPointer                 // unboxing a null `isFavorite`

  const NoteNotFoundMessage := "Note not found"

  /** The partial update: each field the DTO carries replaces the note's,
      every other field is kept. */
  function ApplyUpdate(note: ProjectNote, dto: UpdateNoteDto): (r: ProjectNote)
    ensures r.title == (if dto.title.Some? then dto.title else note.title)
    ensures r.content == (if dto.content.Some? then dto.content else note.content)
    ensures r.tags == (if dto.tags.Some? then dto.tags else note.tags)
    ensures r.id == note.id && r.projectId == note.projectId && r.isFavorite == note.isFavorite
  {
    var n1 := if dto.title.Some? then note.(title := dto.title) else note;
    var n2 := if dto.content.Some? then n1.(content := dto.content) else n1;
    if dto.tags.Some? then n2.(tags := dto.tags) else n2
  }

  /** An update without fields changes nothing. */
  lemma EmptyUpdateIsIdentity(note: ProjectNote)
    ensures ApplyUpdate(note, UpdateNoteDto(None, None, None)) == note
  {
  }

  /** Applying the same update twice is applying it once. */
  lemma UpdateIdempotent(note: ProjectNote, dto: UpdateNoteDto)
    ensures ApplyUpdate(ApplyUpdate(note, dto), dto) == ApplyUpdate(note, dto)
  {
  }

  /** `note.setIsFavorite(!note.getIsFavorite())`: a null flag cannot be unboxed. */
  function Toggled(note: ProjectNote): (r: Result<ProjectNote, NoteError>)
    ensures r.Failure? <==> note.isFavorite.None?
    ensures r.Success? ==> r.value.isFavorite == Some(!note.isFavorite.value)
    ensures r.Success? ==> r.value.(isFavorite := note.isFavorite) == note
  {
    match note.isFavorite
    case None => Failure(NullPointer)
    case Some(b) => Success(note.(isFavorite := Some(!b)))
  }

  /** `fromCreateDto`: the DTO's fields under the project, with the favourite
      flag fixed to false; `newId` is the id the repository assigns on save. */
  function FromCreateDto(dto: CreateNoteDto, projectId: ProjectId, newId: NoteId): (r: ProjectNote)
    ensures r.id == newId && r.projectId == projectId
    ensures r.title == dto.title && r.content == dto.content && r.tags == dto.tags
    ensures r.isFavorite == Some(false)
  {
    ProjectNote(newId, projectId, dto.title, dto.content, dto.tags, Some(false))
  }

  /** A created note can always be toggled, and the toggle marks it a favourite. */
  lemma CreatedNoteCanBeToggled(dto: CreateNoteDto, projectId: ProjectId, newId: NoteId)
    ensures Toggled(FromCreateDto(dto, projectId, newId)).Success?
    ensures Toggled(FromCreateDto(dto, projectId, newId)).value.isFavorite == Some(true)
  {
  }

  /** Toggling twice restores the note. */
  lemma ToggleTwiceRestores(note: ProjectNote)
    requires note.isFavorite.Some?
    ensures Toggled(note).Success? && Toggled(Toggled(note).value) == Success(note)
  {
  }

  class NoteService {
    /** The note repository, by note id. */
    var notes: map<NoteId, ProjectNote>

    /** Every stored note carries the id it is stored under. */
    predicate Valid()
      reads this
    {
      forall k :: k in notes ==> notes[k].id == k
    }

    constructor()
      ensures Valid() && notes == map[]
    {
      notes := map[];
    }

    /** `findByIdAndProjectId`: the note with that id, only if it belongs to the project. */
    function Find(projectId: ProjectId, noteId: NoteId): (r: Option<ProjectNote>)
      reads this
      ensures r.Some? <==> noteId in notes && notes[noteId].projectId == projectId
      ensures r.Some? ==> r.value == notes[noteId]
    {
      if noteId in notes && notes[noteId].projectId == projectId then Some(notes[noteId]) else None
    }

    /** `getNoteById`. */
    method GetNoteById(projectId: ProjectId, noteId: NoteId) returns (r: Result<ProjectNote, NoteError>)
      ensures r.Success? <==> noteId in notes && notes[noteId].projectId == projectId
      ensures r.Success? ==> r.value == notes[noteId]
      ensures r.Failure? ==> r.error == NotFound(NoteNotFoundMessage)
    {
      var found := Find(projectId, noteId);
      if found.None? {
        return Failure(NotFound(NoteNotFoundMessage));
      }
      r := Success(found.value);
    }

    /**
     * `createNote`: `newId` is the id the store assigns. The outcomes of
     * associating orphaned images and extracting mentions are logged and
     * otherwise ignored.
     */
    method CreateNote(projectId: ProjectId, dto: CreateNoteDto, newId: NoteId,
                      imageAssociation: Outcome<string>, mentionExtraction: Outcome<string>)
      returns (r: ProjectNote)
      requires newId !in notes
      requires Valid()
      modifies this
      ensures Valid()
      ensures r == FromCreateDto(dto, projectId, newId)
      ensures notes == old(notes)[newId := r]
    {
      r := FromCreateDto(dto, projectId, newId);
      notes := notes[newId := r];
      if imageAssociation.Fail? {
        // logged and ignored
      }
      if mentionExtraction.Fail? {
        // logged and ignored
      }
    }

    /** `updateNote`: a partial update of a note of the project. */
    method UpdateNote(projectId: ProjectId, noteId: NoteId, dto: UpdateNoteDto,
                      imageAssociation: Outcome<string>, mentionExtraction: Outcome<string>)
      returns (r: Result<ProjectNote, NoteError>)
      requires Valid()
      modifies this
      ensures Valid()
      ensures old(Find(projectId, noteId)).None? ==> r == Failure(NotFound(NoteNotFoundMessage)) && notes == old(notes)
      ensures old(Find(projectId, noteId)).Some? ==>
        r == Success(ApplyUpdate(old(notes)[noteId], dto)) && notes == old(notes)[noteId := r.value]
    {
      var found := Find(projectId, noteId);
      if found.None? {
        return Failure(NotFound(NoteNotFoundMessage));
      }
      var note := found.value;
      if dto.title.Some? {
        note := note.(title := dto.title);
      }
      if dto.content.Some? {
        note := note.(content := dto.content);
      }
      if dto.tags.Some? {
        note := note.(tags := dto.tags);
      }
      notes := notes[noteId := note];
      r := Success(note);
    }

    /** `deleteNote`: the note goes even when image or mention cleanup fails. */
    method DeleteNote(projectId: ProjectId, noteId: NoteId,
                      imageCleanup: Outcome<string>, mentionCleanup: Outcome<string>)
      returns (r: Outcome<NoteError>)
      requires Valid()
      modifies this
      ensures Valid()
      ensures old(Find(projectId, noteId)).None? ==> r == Fail(NotFound(NoteNotFoundMessage)) && notes == old(notes)
      ensures old(Find(projectId, noteId)).Some? ==> r == Pass && notes == old(notes) - {noteId}
    {
      var found := Find(projectId, noteId);
      if found.None? {
        return Fail(NotFound(NoteNotFoundMessage));
      }
      if imageCleanup.Fail? {
        // logged and ignored
      }
      if mentionCleanup.Fail? {
        // logged and ignored
      }
      notes := notes - {noteId};
      r := Pass;
    }

    /** `toggleNoteFavorite`: flips the flag; a null flag throws and nothing is saved. */
    method ToggleNoteFavorite(projectId: ProjectId, noteId: NoteId) returns (r: Result<ProjectNote, NoteError>)
      requires Valid()
      modifies this
      ensures Valid()
      ensures old(Find(projectId, noteId)).None? ==> r == Failure(NotFound(NoteNotFoundMessage)) && notes == old(notes)
      ensures old(Find(projectId, noteId)).Some? ==> r == Toggled(old(notes)[noteId])
      ensures r.Success? ==> notes == old(notes)[noteId := r.value]
      ensures r.Failure? ==> notes == old(notes)
    {
      var found := Find(projectId, noteId);
      if found.None? {
        return Failure(NotFound(NoteNotFoundMessage));
      }
      var note := found.value;
      if note.isFavorite.None? {
        return Failure(NullPointer);
      }
      note := note.(isFavorite := Some(!note.isFavorite.value));
      notes := notes[noteId := note];
      r := Success(note);
    }
  }
}
