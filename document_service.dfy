/**
 * The LaTeX document store of a project: lookups, partial updates that
 * snapshot the old content and bump the version, auto-saves that do neither,
 * deletion, and creation under a file name that is made unique within the
 * project by numbering it "name (1).tex", "name (2).tex", ...
 */
module DocumentService {
  import opened Wrappers
  import opened Text

  type DocId = nat
  type ProjectId = nat
  type Timestamp = int

  datatype DocumentType = LATEX

  datatype Document = Document(
    id: DocId,
    projectId: ProjectId,
    title: string,
    content: string,
    documentType: DocumentType,
    fileExtension: string,
    fileSize: int,
    version: int,
    isAutoSaved: bool,
    lastAccessed: Option<Timestamp>)

  /** The record `createVersion` keeps of a document's content before a change. */
  datatype Snapshot = Snapshot(documentId: DocId, content: string, commitMessage: string)

  /** The `RuntimeException` of an unknown document id. */
  datatype DocumentError = NotFound(documentId: DocId)

  datatype UpdateDocumentRequest = UpdateDocumentRequest(
    documentId: DocId,
    title: Option<string>,
    content: Option<string>)

  const TexExtension := ".tex"
  const ContentUpdatedMessage := "Content updated"

  /** The file name with ".tex" appended unless it already ends so. */
  function TexName(fileName: string): string {
    if EndsWith(fileName, TexExtension) then fileName else fileName + TexExtension
  }

  /** The name always ends in ".tex", and a name that does is kept as it is. */
  lemma TexNameEnds(fileName: string)
    ensures EndsWith(TexName(fileName), TexExtension)
    ensures EndsWith(fileName, TexExtension) <==> TexName(fileName) == fileName
    ensures !EndsWith(fileName, TexExtension) ==> TexName(fileName) == fileName + TexExtension
  {
    var s := fileName + TexExtension;
    assert s[|s| - 4..] == TexExtension;
  }

  /** Forcing the extension twice is forcing it once. */
  lemma TexNameIdempotent(fileName: string)
    ensures TexName(TexName(fileName)) == TexName(fileName)
  {
    TexNameEnds(fileName);
  }

  /** The numbered variant of a name: `base + " (" + n + ")" + ".tex"`. */
  function Numbered(base: string, n: nat): string {
    base + " (" + NatToString(n) + ")" + TexExtension
  }

  /** Different numbers give different names. */
  lemma NumberedInjective(base: string, m: nat, n: nat)
    requires Numbered(base, m) == Numbered(base, n)
    ensures m == n
  {
    var p, q := base + " (", ")" + TexExtension;
    assert Numbered(base, m) == p + NatToString(m) + q;
    assert Numbered(base, n) == p + NatToString(n) + q;
    Cancel(p, NatToString(m), NatToString(n), q);
    NatToStringInjective(m, n);
  }

  /** A numbered name never equals the plain name it was made from. */
  lemma NumberedDiffersFromPlain(base: string, n: nat)
    ensures Numbered(base, n) != base + TexExtension
  {
    assert |Numbered(base, n)| > |base + TexExtension|;
  }

  /**
   * The title `createDocumentWithName` picks for `name` among the titles in
   * `used`: the name itself when it is free, otherwise the numbered variant
   * with the smallest n >= 1 that is free.
   */
  ghost predicate IsChosenTitle(used: set<string>, base: string, title: string) {
    var name := base + TexExtension;
    (name !in used && title == name) ||
    (name in used &&
     exists n: nat :: 1 <= n && title == Numbered(base, n) && title !in used &&
       forall k: nat :: 1 <= k < n ==> Numbered(base, k) in used)
  }

  /** At most one title is the chosen one. */
  lemma ChosenTitleUnique(used: set<string>, base: string, t1: string, t2: string)
    requires IsChosenTitle(used, base, t1) && IsChosenTitle(used, base, t2)
    ensures t1 == t2
  {
    var name := base + TexExtension;
    if name in used {
      var n1: nat :| 1 <= n1 && t1 == Numbered(base, n1) && t1 !in used &&
        forall k: nat :: 1 <= k < n1 ==> Numbered(base, k) in used;
      var n2: nat :| 1 <= n2 && t2 == Numbered(base, n2) && t2 !in used &&
        forall k: nat :: 1 <= k < n2 ==> Numbered(base, k) in used;
    }
  }

  /** The chosen title is never one in use, and always ends in ".tex". */
  lemma ChosenTitleFree(used: set<string>, base: string, title: string)
    requires IsChosenTitle(used, base, title)
    ensures title !in used
    ensures EndsWith(title, TexExtension)
  {
    if base + TexExtension !in used {
      var s := base + TexExtension;
      assert s[|s| - 4..] == TexExtension;
    } else {
      var n: nat :| 1 <= n && title == Numbered(base, n) && title !in used;
      var s := base + " (" + NatToString(n) + ")";
      assert title == s + TexExtension;
      assert (s + TexExtension)[|s| + 4 - 4..] == TexExtension;
    }
  }

  /** What follows the title comment in a new document: an empty article. */
  const TemplateBody := "\n\\documentclass{article}\n\\begin{document}\n\n% Start writing your LaTeX document here...\n\n\\end{document}"

  /** The content of a new document: a comment naming it, then an empty article. */
  function Template(title: string): (r: string)
    ensures ("% " + title) <= r
  {
    "% " + title + TemplateBody
  }

  /** The document after `updateDocument`'s field changes. */
  function Updated(d: Document, request: UpdateDocumentRequest): (r: Document)
    ensures r.title == (if request.title.Some? then request.title.value else d.title)
    ensures request.content.Some? ==>
      r.content == request.content.value && r.fileSize == |r.content| && r.version == d.version + 1
    ensures request.content.None? ==>
      r.content == d.content && r.fileSize == d.fileSize && r.version == d.version
    ensures r.(title := d.title, content := d.content, fileSize := d.fileSize, version := d.version) == d
  {
    var d1 := if request.title.Some? then d.(title := request.title.value) else d;
    if request.content.Some? then
      d1.(content := request.content.value, fileSize := |request.content.value|, version := d1.version + 1)
    else d1
  }

  /** The document after `autoSaveDocument`. */
  function AutoSaved(d: Document, content: string, now: Timestamp): (r: Document)
    ensures r.content == content && r.fileSize == |content| && r.isAutoSaved
    ensures r.lastAccessed == Some(now)
    ensures r.version == d.version && r.title == d.title && r.id == d.id && r.projectId == d.projectId
  {
    d.(content := content, fileSize := |content|, isAutoSaved := true, lastAccessed := Some(now))
  }

  /** How many snapshots `versions` holds of document `id`. */
  function SnapshotCount(versions: seq<Snapshot>, id: DocId): nat {
    if versions == [] then 0
    else SnapshotCount(versions[..|versions| - 1], id) + (if versions[|versions| - 1].documentId == id then 1 else 0)
  }

  /** A new snapshot counts for its own document only. */
  lemma SnapshotCountAppend(versions: seq<Snapshot>, s: Snapshot, id: DocId)
    ensures SnapshotCount(versions + [s], id) == SnapshotCount(versions, id) + (if s.documentId == id then 1 else 0)
  {
    assert (versions + [s])[..|versions|] == versions;
  }

  /** A name ending in ".tex" has its last dot four characters from the end. */
  /**
   * The version bookkeeping `updateDocument` keeps: every stored document is
   * at version 1 plus the number of snapshots kept of it, since a document is
   * created at version 1 and each content change both snapshots and bumps it.
   */
  predicate VersionsCounted(documents: map<DocId, Document>, versions: seq<Snapshot>) {
    forall id :: id in documents ==> documents[id].version == 1 + SnapshotCount(versions, id)
  }

  /** A manual version of a stored document snapshots it without bumping its
      version, so the bookkeeping no longer holds afterwards. */
  lemma ManualVersionBreaksCount(documents: map<DocId, Document>, versions: seq<Snapshot>, s: Snapshot)
    requires VersionsCounted(documents, versions) && s.documentId in documents
    ensures !VersionsCounted(documents, versions + [s])
  {
    SnapshotCountAppend(versions, s, s.documentId);
  }

  lemma TexSuffix(name: string)
    requires EndsWith(name, TexExtension)
    ensures |name| >= 4 && name[|name| - 4] == '.' && '.' !in name[|name| - 3..]
    ensures name[..|name| - 4] + TexExtension == name
  {
    var e := name[|name| - 4..];
    assert e[0] == '.';
    assert name[|name| - 3..] == e[1..];
    assert e[1..] == "tex";
  }

  /** In a name ending in ".tex", `lastIndexOf(".")` finds that extension,
      and the part before it is the base the numbered names are made from. */
  lemma TexNameParts(name: string)
    requires EndsWith(name, TexExtension)
    ensures |name| >= 4 && LastIndexOf(name, '.') == |name| - 4
    ensures name[|name| - 4..] == TexExtension && name[..|name| - 4] + TexExtension == name
  {
    TexSuffix(name);
    LastIndexOfAt(name, '.', |name| - 4);
  }

  /**
   * Where the search stands after checking the candidates before number
   * `counter`: `title` is the current candidate, every earlier one was in
   * use, and `tried`, the candidates found taken, holds no later candidate.
   */
  ghost predicate SearchState(used: set<string>, base: string, tried: set<string>, counter: nat, title: string) {
    counter >= 1 &&
    (counter == 1 ==> title == base + TexExtension) &&
    (counter > 1 ==> title == Numbered(base, counter - 1) && base + TexExtension in used) &&
    (forall k: nat :: 1 <= k < counter - 1 ==> Numbered(base, k) in used) &&
    tried <= used && title !in tried &&
    (forall k: nat :: k >= counter ==> Numbered(base, k) !in tried)
  }

  /** A taken candidate moves the search on to the next number, and fewer
      titles in use are left untried. */
  lemma SearchStep(used: set<string>, base: string, tried: set<string>, counter: nat, title: string)
    requires SearchState(used, base, tried, counter, title) && title in used
    ensures SearchState(used, base, tried + {title}, counter + 1, Numbered(base, counter))
    ensures |used - (tried + {title})| < |used - tried|
  {
    forall k: nat | k >= counter
      ensures Numbered(base, k) != title
    {
      NumberedDiffersFromPlain(base, k);
      if counter > 1 && Numbered(base, k) == title {
        NumberedInjective(base, k, counter - 1);
      }
    }
    forall k: nat | 1 <= k < counter
      ensures Numbered(base, k) in used
    {
      if k == counter - 1 {
        assert Numbered(base, k) == title;
      }
    }
    assert used - (tried + {title}) < used - tried;
  }

  /** A free candidate is the chosen title. */
  lemma SearchDone(used: set<string>, base: string, tried: set<string>, counter: nat, title: string)
    requires SearchState(used, base, tried, counter, title) && title !in used
    ensures IsChosenTitle(used, base, title)
  {
    if counter > 1 {
      assert forall k: nat :: 1 <= k < counter - 1 ==> Numbered(base, k) in used;
    }
  }

  /**
   * The search loop of `createDocumentWithName` for a name that already
   * ends in ".tex", where `used` holds the titles of the project's documents
   * (each `findByProjectIdAndTitle` is a membership test in it): the name
   * itself, or "base (n).tex" for the first n whose title is free. It ends
   * because `used` is finite and the candidates are pairwise distinct.
   */
  method FreeTitle(used: set<string>, name: string) returns (title: string)
    requires EndsWith(name, TexExtension)
    ensures IsChosenTitle(used, name[..|name| - 4], title)
  {
    TexNameParts(name);
    var dot := LastIndexOf(name, '.');
    var base := name[..dot];
    var extension := name[dot..];
    assert extension == TexExtension && base + TexExtension == name;

    ghost var tried: set<string> := {};
    title := name;
    var counter: nat := 1;
    while title in used
      invariant SearchState(used, base, tried, counter, title)
      decreases |used - tried|
    {
      SearchStep(used, base, tried, counter, title);
      tried := tried + {title};
      title := base + " (" + NatToString(counter) + ")" + extension;
      counter := counter + 1;
    }
    SearchDone(used, base, tried, counter, title);
  }

  class DocumentStore {
    /** The document repository, by id. */
    var documents: map<DocId, Document>
    /** The snapshots `DocumentVersionService` has been asked to keep, in order. */
    var versions: seq<Snapshot>

    /** Every stored document carries the id it is stored under. */
    predicate Valid()
      reads this
    {
      forall id :: id in documents ==> documents[id].id == id
    }

    /**
     * The version bookkeeping of this service, where it holds: see
     * `VersionsCounted`. A manual version or a document saved through the
     * mapper can break it, so the methods below keep it without demanding it.
     */
    predicate Counted()
      reads this
    {
      VersionsCounted(documents, versions)
    }

    constructor()
      ensures Valid() && documents == map[] && versions == []
    {
      documents := map[];
      versions := [];
    }

    /** The titles the documents of a project use. */
    function Titles(projectId: ProjectId): set<string>
      reads this
    {
      set id | id in documents && documents[id].projectId == projectId :: documents[id].title
    }

    /** `getDocumentById`. */
    method GetDocumentById(documentId: DocId) returns (r: Result<Document, DocumentError>)
      ensures r.Success? <==> documentId in documents
      ensures r.Success? ==> r.value == documents[documentId]
      ensures r.Failure? ==> r.error == NotFound(documentId)
    {
      if documentId !in documents {
        return Failure(NotFound(documentId));
      }
      r := Success(documents[documentId]);
    }

    /** `updateDocument`: a new content is snapshotted before it replaces the old one. */
    method UpdateDocument(request: UpdateDocumentRequest) returns (r: Result<Document, DocumentError>)
      requires Valid()
      modifies this
      ensures Valid()
      ensures request.documentId !in old(documents) ==>
        r == Failure(NotFound(request.documentId)) && documents == old(documents) && versions == old(versions)
      ensures request.documentId in old(documents) ==>
        r == Success(Updated(old(documents)[request.documentId], request)) &&
        documents == old(documents)[request.documentId := r.value]
      ensures request.documentId in old(documents) && request.content.Some? ==>
        versions == old(versions) + [Snapshot(request.documentId, old(documents)[request.documentId].content, ContentUpdatedMessage)]
      ensures request.content.None? ==> versions == old(versions)
      ensures old(Counted()) ==> Counted()
    {
      var id := request.documentId;
      if id !in documents {
        return Failure(NotFound(id));
      }
      var document := documents[id];
      if request.title.Some? {
        document := document.(title := request.title.value);
      }
      if request.content.Some? {
        var snapshot := Snapshot(id, document.content, ContentUpdatedMessage);
        forall k | k in documents
          ensures SnapshotCount(versions + [snapshot], k) == SnapshotCount(versions, k) + (if k == id then 1 else 0)
        {
          SnapshotCountAppend(versions, snapshot, k);
        }
        versions := versions + [snapshot];
        var content := request.content.value;
        document := document.(content := content, fileSize := |content|, version := document.version + 1);
      }
      documents := documents[id := document];
      r := Success(document);
    }

    /** `autoSaveDocument`: no snapshot and no new version; `now` is the clock's reading. */
    method AutoSaveDocument(documentId: DocId, content: string, now: Timestamp) returns (r: Result<Document, DocumentError>)
      requires Valid()
      modifies this
      ensures Valid()
      ensures versions == old(versions)
      ensures documentId !in old(documents) ==> r == Failure(NotFound(documentId)) && documents == old(documents)
      ensures documentId in old(documents) ==>
        r == Success(AutoSaved(old(documents)[documentId], content, now)) &&
        documents == old(documents)[documentId := r.value]
      ensures old(Counted()) ==> Counted()
    {
      if documentId !in documents {
        return Failure(NotFound(documentId));
      }
      var document := documents[documentId];
      document := document.(content := content, fileSize := |content|, isAutoSaved := true, lastAccessed := Some(now));
      documents := documents[documentId := document];
      r := Success(document);
    }

    /** `deleteDocument`: exactly that document goes; its snapshots stay. */
    method DeleteDocument(documentId: DocId) returns (r: Outcome<DocumentError>)
      requires Valid()
      modifies this
      ensures Valid()
      ensures versions == old(versions)
      ensures documentId !in old(documents) ==> r == Fail(NotFound(documentId)) && documents == old(documents)
      ensures documentId in old(documents) ==> r == Pass && documents == old(documents) - {documentId}
      ensures old(Counted()) ==> Counted()
    {
      if documentId !in documents {
        return Fail(NotFound(documentId));
      }
      documents := documents - {documentId};
      r := Pass;
    }

    /**
     * `createDocumentWithName`: the name gets ".tex" if it lacks it, and is
     * numbered until no document of the project uses it. `newId` is the id
     * the repository assigns, one it has never handed out.
     */
    method CreateDocumentWithName(projectId: ProjectId, fileName: string, newId: DocId) returns (r: Document)
      requires Valid()
      requires newId !in documents
      modifies this
      ensures Valid()
      ensures versions == old(versions)
      ensures documents == old(documents)[newId := r]
      ensures IsChosenTitle(old(Titles(projectId)), TexName(fileName)[..|TexName(fileName)| - 4], r.title)
      ensures r.id == newId && r.projectId == projectId
      ensures r.content == Template(r.title) && r.documentType == LATEX && r.fileExtension == "tex"
      ensures r.fileSize == 0 && r.version == 1 && !r.isAutoSaved && r.lastAccessed.None?
      ensures old(Counted()) && old(SnapshotCount(versions, newId)) == 0 ==> Counted()
    {
      var name := TexName(fileName);
      TexNameEnds(fileName);
      var title := FreeTitle(Titles(projectId), name);
      r := Document(newId, projectId, title, Template(title), LATEX, "tex", 0, 1, false, None);
      documents := documents[newId := r];
    }

    /**
     * `createManualVersion`: a snapshot of the given content under the given
     * message; the document itself, and so its version, is left alone.
     */
    method CreateManualVersion(documentId: DocId, content: string, commitMessage: string) returns (r: Snapshot)
      modifies this
      ensures r == Snapshot(documentId, content, commitMessage)
      ensures versions == old(versions) + [r] && documents == old(documents)
    {
      r := Snapshot(documentId, content, commitMessage);
      versions := versions + [r];
    }
  }
}
