# ScholarAI project service: a verified model of its hand-written core

This project models, in Dafny, the parts of the ScholarAI project service whose behaviour can be stated without its web, database, messaging and language-model plumbing:

- the batch trigger of paper extraction for the LaTeX editor, with its tally;
- the LaTeX document store: lookups, partial updates with version snapshots, auto-saves, deletion, and creation under a unique `.tex` title;
- the mapper helpers:
  - comma-joined lists;
  - the project status with its ACTIVE fallback;
  - the venue and metrics builders;
  - external ids as a map and as a list;
  - author lists;
  - the display text of a mentioned paper;
- the JSON string forms of todo status, priority and category;
- the command parser's JSON-span extraction and its field defaulting and fallback;
- the todo entity's child lists and identity;
- the project note service over a note store;
- the response envelope.

Java `null` is `Option`, strings are `seq<char>`, thrown exceptions are the `Failure` or `Fail` side of a `Result` or `Outcome`. Repositories are `map` fields of classes whose methods change them. Foreign services (the extraction service, the language model, the JSON parser, the image and mention services) are inputs: functions or outcomes passed in.

One module per source file:

- `latex_extraction.dfy`
- `document_service.dfy`
- `paper_mapper.dfy`
- `project_mapper.dfy`
- `todo_status.dfy`
- `todo_priority.dfy`
- `todo_category.dfy`
- `paper_mention_mapper.dfy`
- `command_parser.dfy`
- `todo.dfy`
- `project_note_service.dfy`
- `response_wrapper.dfy`

Shared support modules:

- `wrappers.dfy`: Option, Result and Outcome.
- `text.dfy`: Java's case folding, `trim`, `indexOf`, `lastIndexOf`, `replace` and decimal printing.
- `comma_lists.dfy`: the `split(",")` and `String.join(",")` pair that both mappers define.
- `streams.dfy`: `filter(...).findFirst()`.

Imperative source code keeps its form:

- The batch loop and the tally loop are methods with loop invariants. They are proved equal to the specification functions `Process` and `Tally`.
- The document title search is a `while` loop. Its termination measure is the number of used titles not yet tried.
- The document store and the note service are classes over `map` fields. Every method states the whole new state.
- The todo entity is a class whose children hold a back-reference.

## Model

| member | source | states |
|---|---|---|
| LatexExtraction.SkippedAlreadyExtractedItem | src/main/java/org/solace/scholar_ai/project_service/controller/latex/LatexExtractionController.java:118-121 | the item is SKIPPED_ALREADY_EXTRACTED with status COMPLETED, no job id and message "Already extracted" |
| LatexExtraction.SkippedInProgressItem | src/main/java/org/solace/scholar_ai/project_service/controller/latex/LatexExtractionController.java:123-126 | the item is SKIPPED_IN_PROGRESS, keeps the status the service reported, has no job id and says the extraction is already in progress |
| LatexExtraction.TriggeredItem | src/main/java/org/solace/scholar_ai/project_service/controller/latex/LatexExtractionController.java:128-130 | the item is TRIGGERED and carries the job id, status and message of the service's answer |
| LatexExtraction.ErrorItem | src/main/java/org/solace/scholar_ai/project_service/controller/latex/LatexExtractionController.java:132-134 | the item is ERROR with status FAILED, no job id and the exception's message |
| LatexExtraction.ClassifyPaper | src/main/java/org/solace/scholar_ai/project_service/controller/latex/LatexExtractionController.java:65-86 | one paper gives one item with its id and a known action. The calls made are `isPaperExtracted`, then the status query, then the trigger with the batch's async flag, stopping early. The paper is skipped as extracted iff the service answers TRUE, and then nothing else is called. It is skipped as in progress iff the status query succeeds with PROCESSING or PENDING in any case, and then no trigger happens. The trigger happens iff neither holds and both queries succeeded. A failing call gives the ERROR/FAILED item with that exception's message. The in-progress item carries the status observed. After the trigger, the item is TRIGGERED with the answer's job id, status and message, or ERROR when the trigger threw |
| LatexExtraction.ProcessItems | src/main/java/org/solace/scholar_ai/project_service/controller/latex/LatexExtractionController.java:64-87 | the loop adds exactly one item per paper id, in input order, each with the paper's id and one of the four actions |
| LatexExtraction.ProcessPrefix | src/main/java/org/solace/scholar_ai/project_service/controller/latex/LatexExtractionController.java:64-87 | a failure on one paper does not undo or stop the rest: the items and calls of any prefix of the batch are a prefix of the whole batch's |
| LatexExtraction.TallySums | src/main/java/org/solace/scholar_ai/project_service/controller/latex/LatexExtractionController.java:151-168 | when every item carries one of the four actions, the four counters add up to the total |
| LatexExtraction.BatchCountersAddUp | src/main/java/org/solace/scholar_ai/project_service/controller/latex/LatexExtractionController.java:64-99 | for the batch's own items the total is the number of paper ids and the four counters add up to it |
| LatexExtraction.From | src/main/java/org/solace/scholar_ai/project_service/controller/latex/LatexExtractionController.java:151-168 | the one-pass loop with four counters computes the list size and, for each action, the number of items carrying it |
| LatexExtraction.AsyncFlag | src/main/java/org/solace/scholar_ai/project_service/controller/latex/LatexExtractionController.java:62 | the async flag is true when the request leaves it null, and the request's value otherwise |
| LatexExtraction.HandlePaper | src/main/java/org/solace/scholar_ai/project_service/controller/latex/LatexExtractionController.java:65-86 | the loop body with its early `continue`s adds the item `ClassifyPaper` specifies and makes exactly its calls |
| LatexExtraction.TriggerBatchExtraction | src/main/java/org/solace/scholar_ai/project_service/controller/latex/LatexExtractionController.java:58-100 | the answer is always 200. Its results and the service calls are those of `Process` over the paper ids with the defaulted async flag. Its counters are the tally of those results, and its message is the summary line of the counters |
| DocumentService.TexNameEnds | src/main/java/org/solace/scholar_ai/project_service/service/latex/DocumentService.java:147-150 | the name always ends in ".tex"; it is kept iff it already did, and otherwise ".tex" is appended |
| DocumentService.TexNameIdempotent | src/main/java/org/solace/scholar_ai/project_service/service/latex/DocumentService.java:147-150 | forcing the extension twice is forcing it once |
| DocumentService.NumberedInjective | src/main/java/org/solace/scholar_ai/project_service/service/latex/DocumentService.java:159-161 | different counters give different candidate names, so the search never revisits a candidate |
| DocumentService.NumberedDiffersFromPlain | src/main/java/org/solace/scholar_ai/project_service/service/latex/DocumentService.java:153-161 | no numbered candidate equals the plain name |
| DocumentService.ChosenTitleUnique | src/main/java/org/solace/scholar_ai/project_service/service/latex/DocumentService.java:153-163 | the title rule (the plain name if free, else the smallest free "base (n).tex" with n >= 1) determines a single title |
| DocumentService.ChosenTitleFree | src/main/java/org/solace/scholar_ai/project_service/service/latex/DocumentService.java:156-163 | the chosen title is used by no document of the project and ends in ".tex" |
| DocumentService.Template | src/main/java/org/solace/scholar_ai/project_service/service/latex/DocumentService.java:168-170 | the content of a new document begins with "% " and its title |
| DocumentService.Updated | src/main/java/org/solace/scholar_ai/project_service/service/latex/DocumentService.java:83-97 | the title changes only for a non-null request title. A non-null content replaces the content, sets the size to its length and adds 1 to the version. A null content leaves content, size and version as they were. No other field changes |
| DocumentService.AutoSaved | src/main/java/org/solace/scholar_ai/project_service/service/latex/DocumentService.java:118-122 | an auto-save sets the content, the size to its length, the auto-saved flag and the access time, and keeps version, title, id and project |
| DocumentService.SnapshotCountAppend | src/main/java/org/solace/scholar_ai/project_service/service/latex/DocumentService.java:88-90 | a new snapshot counts for its own document only |
| DocumentService.FreeTitle | src/main/java/org/solace/scholar_ai/project_service/service/latex/DocumentService.java:153-163 | the search loop ends, and its title is the one the title rule picks among the project's titles |
| DocumentService.DocumentStore.GetDocumentById | src/main/java/org/solace/scholar_ai/project_service/service/latex/DocumentService.java:63-68 | succeeds iff the id is stored, with that document; otherwise it fails with not-found for that id |
| DocumentService.DocumentStore.UpdateDocument | src/main/java/org/solace/scholar_ai/project_service/service/latex/DocumentService.java:78-101 | an unknown id fails and changes nothing. Otherwise the stored document becomes `Updated`, and a new content first records a snapshot of the old content with "Content updated". When every version was 1 plus the number of its snapshots, that still holds |
| DocumentService.DocumentStore.AutoSaveDocument | src/main/java/org/solace/scholar_ai/project_service/service/latex/DocumentService.java:113-126 | an unknown id fails and changes nothing; otherwise the document becomes `AutoSaved` and no snapshot is taken, so the version bookkeeping is kept where it held |
| DocumentService.DocumentStore.DeleteDocument | src/main/java/org/solace/scholar_ai/project_service/service/latex/DocumentService.java:276-281 | an unknown id fails and changes nothing; otherwise exactly that document is removed and the snapshots stay |
| DocumentService.DocumentStore.CreateDocumentWithName | src/main/java/org/solace/scholar_ai/project_service/service/latex/DocumentService.java:146-180 | adds one document under the new id. Its title is the one the title rule picks for the ".tex"-forced name among the project's titles. It has the template content, type LATEX, extension "tex", size 0, version 1, is not auto-saved and has no access time. The version bookkeeping is kept where it held, when the new id has no snapshots |
| DocumentService.DocumentStore.CreateManualVersion | src/main/java/org/solace/scholar_ai/project_service/service/latex/DocumentService.java:264-266 | records a snapshot with the given content and message and leaves every document, its version included, as it is |
| DocumentService.ManualVersionBreaksCount | src/main/java/org/solace/scholar_ai/project_service/service/latex/DocumentService.java:86-97 | a manual version of a stored document breaks the rule that its version is 1 plus its snapshot count, which `updateDocument` alone would keep |
| CommaLists.StringToList | src/main/java/org/solace/scholar_ai/project_service/mapping/paper/PaperMapper.java:139-142 | null iff the input is null or blank (every character at most U+0020); otherwise Java's `split(",")` of it |
| CommaLists.ListToString | src/main/java/org/solace/scholar_ai/project_service/mapping/paper/PaperMapper.java:151-154 | null iff the list is null or empty; otherwise the elements joined with "," |
| CommaLists.JoinSplitAll | src/main/java/org/solace/scholar_ai/project_service/mapping/paper/PaperMapper.java:139-154 | joining all comma-separated pieces of a string gives the string back |
| CommaLists.SplitAllJoin | src/main/java/org/solace/scholar_ai/project_service/mapping/paper/PaperMapper.java:139-154 | splitting a join of comma-free elements gives the elements back |
| CommaLists.ListRoundTrip | src/main/java/org/solace/scholar_ai/project_service/mapping/paper/PaperMapper.java:139-154 | `stringToList(listToString(l)) == l` for a non-empty list of comma-free elements whose last element is non-empty and whose join is not blank |
| CommaLists.TrailingEmptyElementIsLost | src/main/java/org/solace/scholar_ai/project_service/mapping/paper/PaperMapper.java:139-154 | without the non-empty-last-element condition the round trip fails: ["a", ""] comes back as ["a"] |
| CommaLists.StringRoundTrip | src/main/java/org/solace/scholar_ai/project_service/mapping/paper/PaperMapper.java:139-154 | `listToString(stringToList(s)) == s` for a non-blank s that does not end with a comma |
| PaperMapper.MapVenue | src/main/java/org/solace/scholar_ai/project_service/mapping/paper/PaperMapper.java:236-251 | null iff all five venue fields are null; otherwise a venue carrying all five |
| PaperMapper.MapMetrics | src/main/java/org/solace/scholar_ai/project_service/mapping/paper/PaperMapper.java:261-270 | null iff all three counts are null; otherwise metrics carrying all three |
| PaperMapper.VenueAndMetricsRoundTrip | src/main/java/org/solace/scholar_ai/project_service/mapping/paper/PaperMapper.java:42-65 | storing venue and metrics and reading them back gives the eight fields unchanged |
| PaperMapper.ExternalIdsMapToEntities | src/main/java/org/solace/scholar_ai/project_service/mapping/paper/PaperMapper.java:200-209 | null for null. Otherwise it fails (with a `NullPointerException`) iff some value is null, and succeeds with one entity per map entry |
| PaperMapper.ToMapSucceeds | src/main/java/org/solace/scholar_ai/project_service/mapping/paper/PaperMapper.java:219-226 | `toMap` succeeds iff no value is null and no source occurs twice |
| PaperMapper.ToMapValues | src/main/java/org/solace/scholar_ai/project_service/mapping/paper/PaperMapper.java:219-226 | the map `toMap` builds sends each entity's source to its value |
| PaperMapper.ExternalIdsToMap | src/main/java/org/solace/scholar_ai/project_service/mapping/paper/PaperMapper.java:219-226 | null for null, otherwise a map whose keys are the sources of the entities |
| PaperMapper.EntitiesHaveDistinctSources | src/main/java/org/solace/scholar_ai/project_service/mapping/paper/PaperMapper.java:200-209 | the entities made from a map carry pairwise distinct sources |
| PaperMapper.EntitiesMapBack | src/main/java/org/solace/scholar_ai/project_service/mapping/paper/PaperMapper.java:200-226 | the map rebuilt from those entities has exactly the original keys, each with its value's string form |
| PaperMapper.ExternalIdsRoundTrip | src/main/java/org/solace/scholar_ai/project_service/mapping/paper/PaperMapper.java:200-226 | map to entities and back gives the map of string forms, whatever the iteration order |
| PaperMapper.TextIdsRoundTrip | src/main/java/org/solace/scholar_ai/project_service/mapping/paper/PaperMapper.java:200-226 | for a map of string ids the round trip is the identity |
| PaperMapper.AuthorsToPaperAuthors | src/main/java/org/solace/scholar_ai/project_service/mapping/paper/PaperMapper.java:164-174 | null iff null; otherwise one join entity per author, in order, without a paper |
| PaperMapper.PaperAuthorsToAuthorDtos | src/main/java/org/solace/scholar_ai/project_service/mapping/paper/PaperMapper.java:184-190 | null iff null; otherwise one DTO per join entity, in order |
| PaperMapper.AuthorsRoundTrip | src/main/java/org/solace/scholar_ai/project_service/mapping/paper/PaperMapper.java:164-190 | with inverse author converters, an author list survives storing and reading back, length and order included |
| ProjectMapper.StatusEnumToString | src/main/java/org/solace/scholar_ai/project_service/mapping/project/ProjectMapper.java:84-86 | null iff null; otherwise the constant's name, which is non-blank and upper-case, and which `valueOf` maps back to the same constant |
| ProjectMapper.ValueOf | src/main/java/org/solace/scholar_ai/project_service/controller/project/ProjectController.java:120 | `Status.valueOf` finds exactly the constant with that name, and nothing for any other string |
| ProjectMapper.StringToStatusEnum | src/main/java/org/solace/scholar_ai/project_service/mapping/project/ProjectMapper.java:96-105 | null, blank or unknown input gives ACTIVE |
| ProjectMapper.StringToStatusMatches | src/main/java/org/solace/scholar_ai/project_service/mapping/project/ProjectMapper.java:96-105 | a string equal to a status name up to case parses to that status |
| ProjectMapper.StringToStatusFallback | src/main/java/org/solace/scholar_ai/project_service/mapping/project/ProjectMapper.java:100-104 | a string matching no name up to case falls back to ACTIVE |
| ProjectMapper.StatusRoundTrip | src/main/java/org/solace/scholar_ai/project_service/mapping/project/ProjectMapper.java:84-105 | parsing the printed name gives the status back |
| ProjectMapper.FromCreateDto | src/main/java/org/solace/scholar_ai/project_service/mapping/project/ProjectMapper.java:139-154 | a created project is ACTIVE, unstarred, with progress, paper and task counts 0. It is owned by the given user, has the DTO's text fields and comma-joined lists, and keeps the ignored columns |
| ProjectMapper.FromUpdateDto | src/main/java/org/solace/scholar_ai/project_service/mapping/project/ProjectMapper.java:163-172 | the editable columns come from the DTO, with the status parsed by `stringToStatusEnum` |
| ProjectMapper.UpdateLeavesSystemFields | src/main/java/org/solace/scholar_ai/project_service/mapping/project/ProjectMapper.java:163-168 | no update DTO can set id, owner, paper or task counts, or timestamps |
| ProjectMapper.UpdateStatusDefaultsToActive | src/main/java/org/solace/scholar_ai/project_service/mapping/project/ProjectMapper.java:97-99 | an update without a status makes the project ACTIVE |
| ProjectMapper.CreatedTopicsReadBack | src/main/java/org/solace/scholar_ai/project_service/mapping/project/ProjectMapper.java:113-129 | topics stored on creation read back as sent, under the round-trip conditions of the comma join |
| TodoStatusEnum.ToValueIsLowerCaseName | src/main/java/org/solace/scholar_ai/project_service/constant/todo/TodoStatus.java:27-29 | `toValue` is the constant's name in lower case, character by character |
| TodoStatusEnum.FromNull | src/main/java/org/solace/scholar_ai/project_service/constant/todo/TodoStatus.java:41-43 | `fromValue(null)` is null |
| TodoStatusEnum.MatchesUnique | src/main/java/org/solace/scholar_ai/project_service/constant/todo/TodoStatus.java:44-46 | no string matches two statuses once underscores are removed and case is ignored |
| Streams.FindFirstIsFirst | src/main/java/org/solace/scholar_ai/project_service/constant/todo/TodoStatus.java:44-46 | `filter(...).findFirst()` yields the first element that passes the filter |
| TodoStatusEnum.FromValueFinds | src/main/java/org/solace/scholar_ai/project_service/constant/todo/TodoStatus.java:44-46 | a string parses to a status iff it equals that status's name, ignoring case and underscores |
| TodoStatusEnum.FromValueFails | src/main/java/org/solace/scholar_ai/project_service/constant/todo/TodoStatus.java:44-48 | `IllegalArgumentException` is thrown iff the string matches no status |
| TodoStatusEnum.RoundTrip | src/main/java/org/solace/scholar_ai/project_service/constant/todo/TodoStatus.java:27-46 | `fromValue(toValue(s)) == s` for every status |
| TodoStatusEnum.UnderscoresIgnored | src/main/java/org/solace/scholar_ai/project_service/constant/todo/TodoStatus.java:44-46 | "inprogress" and "In_Progress" both give IN_PROGRESS |
| TodoPriorityEnum.ToValueIsLowerCaseName | src/main/java/org/solace/scholar_ai/project_service/constant/todo/TodoPriority.java:27-29 | `toValue` is the constant's name in lower case |
| TodoPriorityEnum.FromNull | src/main/java/org/solace/scholar_ai/project_service/constant/todo/TodoPriority.java:41-43 | `fromValue(null)` is null |
| TodoPriorityEnum.FromValueFinds | src/main/java/org/solace/scholar_ai/project_service/constant/todo/TodoPriority.java:44-46 | a string parses to a priority iff it spells its name in any case |
| TodoPriorityEnum.FromValueFails | src/main/java/org/solace/scholar_ai/project_service/constant/todo/TodoPriority.java:44-48 | `IllegalArgumentException` is thrown iff the string matches no priority |
| TodoPriorityEnum.RoundTrip | src/main/java/org/solace/scholar_ai/project_service/constant/todo/TodoPriority.java:27-46 | `fromValue(toValue(p)) == p` for every priority |
| TodoPriorityEnum.CaseIgnoredUnderscoresKept | src/main/java/org/solace/scholar_ai/project_service/constant/todo/TodoPriority.java:44-48 | "High" gives HIGH, while "hi_gh" is rejected because underscores count |
| TodoCategoryEnum.ToValueIsLowerCaseName | src/main/java/org/solace/scholar_ai/project_service/constant/todo/TodoCategory.java:54-56 | `toValue` is the constant's name in lower case |
| TodoCategoryEnum.FromNull | src/main/java/org/solace/scholar_ai/project_service/constant/todo/TodoCategory.java:67-70 | `fromValue(null)` is null |
| TodoCategoryEnum.MatchesUnique | src/main/java/org/solace/scholar_ai/project_service/constant/todo/TodoCategory.java:71-73 | no string matches two of the 16 categories |
| TodoCategoryEnum.FromValueFinds | src/main/java/org/solace/scholar_ai/project_service/constant/todo/TodoCategory.java:71-73 | a string parses to a category iff it spells its name in any case |
| TodoCategoryEnum.FromValueFails | src/main/java/org/solace/scholar_ai/project_service/constant/todo/TodoCategory.java:71-75 | `IllegalArgumentException` is thrown iff the string matches no category |
| TodoCategoryEnum.RoundTrip | src/main/java/org/solace/scholar_ai/project_service/constant/todo/TodoCategory.java:53-73 | `fromValue(toValue(c)) == c` for all 16 categories |
| TodoCategoryEnum.UnderscoresSignificant | src/main/java/org/solace/scholar_ai/project_service/constant/todo/TodoCategory.java:71-75 | "Literature_Review" gives LITERATURE_REVIEW, while "literaturereview" is rejected |
| PaperMentionMapper.ShortTitle | src/main/java/org/solace/scholar_ai/project_service/mapping/note/PaperMentionMapper.java:45-49 | a title of at most 50 characters is kept. A longer one keeps its first 47 characters and ends in "...", exactly 50 characters in all |
| PaperMentionMapper.YearSuffix | src/main/java/org/solace/scholar_ai/project_service/mapping/note/PaperMentionMapper.java:53-55 | the year part is empty iff there is no publication date |
| PaperMentionMapper.GenerateDisplayText | src/main/java/org/solace/scholar_ai/project_service/mapping/note/PaperMentionMapper.java:40-58 | the text starts with the shortened title when there is one. It ends with " (YYYY)" when a date is present and is only the title part otherwise. It is empty for a null title and no date, and never longer than 50 plus the year part. Its length is exactly the title part's plus the year part's, so nothing stands between them |
| PaperMentionMapper.DisplayTextDeterminesYear | src/main/java/org/solace/scholar_ai/project_service/mapping/note/PaperMentionMapper.java:40-58 | the same title with different years never gives the same text |
| PaperMentionMapper.DisplayTextDeterminesShortTitle | src/main/java/org/solace/scholar_ai/project_service/mapping/note/PaperMentionMapper.java:45-50 | titles of at most 50 characters are told apart by their display text |
| PaperMentionMapper.LongTitlesSharingPrefixCollide | src/main/java/org/solace/scholar_ai/project_service/mapping/note/PaperMentionMapper.java:46-48 | long titles that agree on their first 47 characters share a display text |
| PaperMentionMapper.MapAuthors | src/main/java/org/solace/scholar_ai/project_service/mapping/note/PaperMentionMapper.java:67-72 | null iff null; otherwise each author's name, length and order preserved |
| PaperMentionMapper.MapAuthorsAppend | src/main/java/org/solace/scholar_ai/project_service/mapping/note/PaperMentionMapper.java:67-72 | mapping a concatenation is concatenating the mappings |
| CommandParser.CommandValueOf | src/main/java/org/solace/scholar_ai/project_service/constant/CommandType.java:8-25 | `CommandType.valueOf` finds exactly the constant with that name, case-sensitively, and nothing otherwise |
| CommandParser.CommandValueOfName | src/main/java/org/solace/scholar_ai/project_service/constant/CommandType.java:8-25 | every command type is found by its own name |
| CommandParser.ExtractJson | src/main/java/org/solace/scholar_ai/project_service/service/ai/CommandParserService.java:163-171 | every result starts with "{" and ends with "}" |
| CommandParser.ExtractJsonSpan | src/main/java/org/solace/scholar_ai/project_service/service/ai/CommandParserService.java:165-169 | when the last "}" comes after the first "{", the result is the text from the first "{" through the last "}" |
| CommandParser.ExtractJsonEmpty | src/main/java/org/solace/scholar_ai/project_service/service/ai/CommandParserService.java:165-170 | without a "}" after some "{", the result is "{}" |
| CommandParser.ExtractJsonCases | src/main/java/org/solace/scholar_ai/project_service/service/ai/CommandParserService.java:165-170 | the two cases are exhaustive: a "}" after a "{" means the first "{" and last "}" delimit an outermost span |
| CommandParser.ExtractJsonIdempotent | src/main/java/org/solace/scholar_ai/project_service/service/ai/CommandParserService.java:163-171 | extracting from an extracted object changes nothing |
| CommandParser.ParseCommand | src/main/java/org/solace/scholar_ai/project_service/service/ai/CommandParserService.java:33-89 | a successful answer keeps the user input as its original query. One model call is made iff the reply parses with a non-empty, known, case-exact command type and well-typed fields, and then null parameters become an empty map and a null or empty response becomes "I'll help you with that.". Otherwise a second call is made and its answer is returned as a GENERAL_QUESTION, or its failure propagates |
| CommandParser.LowerCaseNameFallsBack | src/main/java/org/solace/scholar_ai/project_service/service/ai/CommandParserService.java:70 | a command name in the wrong case is not accepted, so it takes the fallback path |
| CommandParser.MissingTypeFallsBack | src/main/java/org/solace/scholar_ai/project_service/service/ai/CommandParserService.java:57-59 | a missing or empty command type takes the fallback path |
| TodoEntity.Todo.constructor | src/main/java/org/solace/scholar_ai/project_service/model/todo/Todo.java:71-82 | tags, subtasks and reminders start empty |
| TodoEntity.Todo.AddSubtask | src/main/java/org/solace/scholar_ai/project_service/model/todo/Todo.java:89-92 | the subtask is appended and points back at this todo. Reminders, tags and id are unchanged, and the back-reference invariant is kept |
| TodoEntity.Todo.RemoveSubtask | src/main/java/org/solace/scholar_ai/project_service/model/todo/Todo.java:99-102 | the first occurrence is dropped and its back-reference cleared. Reminders, tags and id are unchanged, and the invariant is kept when the subtask was listed at most once |
| TodoEntity.Todo.AddReminder | src/main/java/org/solace/scholar_ai/project_service/model/todo/Todo.java:109-112 | the reminder is appended and points back at this todo; subtasks, tags and id are unchanged |
| TodoEntity.Todo.RemoveReminder | src/main/java/org/solace/scholar_ai/project_service/model/todo/Todo.java:119-122 | the first occurrence is dropped and its back-reference cleared; subtasks, tags and id are unchanged |
| TodoEntity.RemoveFirstCounts | src/main/java/org/solace/scholar_ai/project_service/model/todo/Todo.java:100 | `List.remove` takes away one occurrence and keeps every other element |
| TodoEntity.RemoveFirstMembers | src/main/java/org/solace/scholar_ai/project_service/model/todo/Todo.java:100 | removal brings in nothing new, and an element listed once is gone afterwards |
| TodoEntity.AppendThenRemove | src/main/java/org/solace/scholar_ai/project_service/model/todo/Todo.java:89-102 | removing a child just added, when it was not listed before, restores the list |
| TodoEntity.AppendTwiceRemoveOnce | src/main/java/org/solace/scholar_ai/project_service/model/todo/Todo.java:89-102 | a child added twice and removed once stays listed once |
| TodoEntity.EqualsIsEquivalence | src/main/java/org/solace/scholar_ai/project_service/model/todo/Todo.java:124-135 | `equals` is reflexive, symmetric and transitive, and equal todos have equal hash codes |
| TodoEntity.UnsavedTodosDiffer | src/main/java/org/solace/scholar_ai/project_service/model/todo/Todo.java:125-130 | two distinct todos without an id are never equal |
| ProjectNoteService.ApplyUpdate | src/main/java/org/solace/scholar_ai/project_service/service/note/ProjectNoteService.java:124-132 | title, content and tags are replaced only where the update carries a value, and every other field is kept |
| ProjectNoteService.EmptyUpdateIsIdentity | src/main/java/org/solace/scholar_ai/project_service/service/note/ProjectNoteService.java:124-132 | an update without fields changes nothing |
| ProjectNoteService.UpdateIdempotent | src/main/java/org/solace/scholar_ai/project_service/service/note/ProjectNoteService.java:124-132 | applying the same update twice is applying it once |
| ProjectNoteService.FromCreateDto | src/main/java/org/solace/scholar_ai/project_service/mapping/note/ProjectNoteMapper.java:38-42 | a new note carries the DTO's title, content and tags under its project and new id, and is not a favourite |
| ProjectNoteService.CreatedNoteCanBeToggled | src/main/java/org/solace/scholar_ai/project_service/mapping/note/ProjectNoteMapper.java:41 | a newly created note never hits the null-flag failure of the toggle, and toggling it makes it a favourite |
| ProjectNoteService.Toggled | src/main/java/org/solace/scholar_ai/project_service/service/note/ProjectNoteService.java:207 | a null flag cannot be unboxed; otherwise the flag is negated and nothing else changes |
| ProjectNoteService.ToggleTwiceRestores | src/main/java/org/solace/scholar_ai/project_service/service/note/ProjectNoteService.java:207 | toggling twice restores the note |
| ProjectNoteService.NoteService.Find | src/main/java/org/solace/scholar_ai/project_service/service/note/ProjectNoteService.java:63-65 | a note is found iff it is stored under that id and belongs to the project |
| ProjectNoteService.NoteService.GetNoteById | src/main/java/org/solace/scholar_ai/project_service/service/note/ProjectNoteService.java:60-68 | returns the project's note, or fails with "Note not found" |
| ProjectNoteService.NoteService.CreateNote | src/main/java/org/solace/scholar_ai/project_service/service/note/ProjectNoteService.java:79-103 | the note `fromCreateDto` builds is stored under its new id and project, whatever the image and mention services report |
| ProjectNoteService.NoteService.UpdateNote | src/main/java/org/solace/scholar_ai/project_service/service/note/ProjectNoteService.java:116-155 | an unknown or foreign note fails with "Note not found" and changes nothing. Otherwise the stored note becomes `ApplyUpdate` of it, whatever the image and mention services report |
| ProjectNoteService.NoteService.DeleteNote | src/main/java/org/solace/scholar_ai/project_service/service/note/ProjectNoteService.java:166-195 | an unknown or foreign note fails and changes nothing; otherwise exactly that note is removed even when cleanup fails |
| ProjectNoteService.NoteService.ToggleNoteFavorite | src/main/java/org/solace/scholar_ai/project_service/service/note/ProjectNoteService.java:200-212 | an unknown or foreign note fails with "Note not found". A null flag fails and saves nothing. Otherwise the stored note becomes `Toggled` |
| ResponseWrapper.SuccessWith | src/main/java/org/solace/scholar_ai/project_service/util/response/ResponseWrapper.java:42-44 | success is true, data is the argument and error is null |
| ResponseWrapper.ErrorWith | src/main/java/org/solace/scholar_ai/project_service/util/response/ResponseWrapper.java:53-55 | success is false, data is null and error is the argument |
| ResponseWrapper.ValidIsFactoryMade | src/main/java/org/solace/scholar_ai/project_service/util/response/ResponseWrapper.java:16-55 | the wrappers with a null error on success and null data on failure are exactly those the two factories build |
| ResponseWrapper.FactoriesDisjoint | src/main/java/org/solace/scholar_ai/project_service/util/response/ResponseWrapper.java:42-55 | a success wrapper is never an error wrapper |

## Left out

- I/O, transport and foreign code:
  - HTTP routing, JPA, transactions and logging are not modelled.
  - The language model, the JSON parser, the extraction service, and the image and mention services are inputs. The language model and the JSON parser are Gemini and Jackson.
  - The extraction service's answers may depend on the calls made before.
- Case folding (`toLowerCase`, `toUpperCase`, `equalsIgnoreCase`) is modelled on ASCII letters only. Java's Unicode tables and locale rules are not modelled. `String.length()` is the number of characters, not of UTF-16 code units.
- Identifiers:
  - UUIDs are natural numbers. A paper id is the string the loop would get from `UUID.toString()`, so its format is not modelled.
  - The ids a repository assigns are parameters. `CreateDocumentWithName` and `CreateNote` require an id that is not in use.
- Exception messages are not modelled:
  - The "Document not found with id: ..." text is `NotFound(id)`.
  - The "Unknown enum type ..." text is `IllegalArgument(value)`.
- The iteration order of the external-id map is a parameter, because a `HashMap` does not fix it. `toMap` is folded over the list in order. A null source key, which `toMap` would accept, is not modelled.
- Wall-clock time: `autoSaveDocument`'s `Instant.now()` is the parameter `now`.
- `DocumentVersionService.createVersion` is not part of this model. Its call is modelled as appending a snapshot record.
- DocumentService.DocumentStore: the rule that a version is 1 plus the document's snapshot count is stated as preserved, not as an invariant. `createManualVersion` breaks it (`ManualVersionBreaksCount`). `createDocument`, which saves whatever version the generated mapper builds, is not modelled.
- DocumentService.FreeTitle: a project's titles are a set. If two documents of a project share a candidate title, for instance after `updateDocument` renamed one, the repository's `Optional` finder would likely throw. The model does not capture that case, because the repository is not part of this model.
- `DocumentType` keeps only the LATEX constant used here.
- `Document`, `ProjectNote` and `Project` carry only the fields these operations read or write.
- DocumentService.DocumentStore.CreateDocumentWithName: the Java `int` counter of the title search is unbounded here, and its wrap-around after 2^31 - 1 collisions is not modelled. A null file name, which throws `NullPointerException` in `endsWith`, cannot be passed.
- DocumentService.DocumentStore.CreateDocumentWithName: the new document's file size is 0 although its content is the non-empty template. The source does this and the model keeps it.
- LatexExtraction.TriggerBatchExtraction:
  - The `@NotEmpty` validation of the request is not modelled, and an empty batch gives an empty result.
  - A null answer object from `triggerExtraction`, which would throw and become an error item, is not modelled. The answer is always a record.
  - `%d` prints with `IntToString`.
- CommaLists.ListToString and PaperMapper.AuthorsToPaperAuthors: list elements are never null here. A null element would join as "null", or make the author converter throw.
- ProjectMapper:
  - `Project.Status` is not part of this model, so its four constants come from the status list in `ProjectController.java`.
  - The generated `toDto`, `toEntity` and `toEntityForUpdate` mappings are not modelled.
  - `CreateProjectDto` and `UpdateProjectDto` are not part of this model. Their field sets are assumed from what the mapper reads, including `progress`, `lastActivity` and `isStarred` on the update DTO.
  - The ignored columns of `fromCreateDto` and `fromUpdateDto` take the values of a newly built entity, passed in as `blank`.
- PaperMapper:
  - The generated `fromMetadataDto` and `toMetadataDto` are modelled only for venue and metrics (`ReadBack`) and the lists.
  - The author converters take `AuthorMapper`'s `toEntity` and `toDto` as parameters.
  - PaperMapper.ExternalIdsMapToEntities: the source takes a `Map<String, Object>`, and its values may be of any class. The model restricts a value to a string or an integer (`IdValue`), with its `toString`. Other classes are not modelled.
- TodoEntity:
  - `TodoSubtask` and `TodoReminder` carry only their back-reference.
  - `List.remove` uses their `equals`, which here is object identity.
  - `equals` with an object of another class (always false) is not modelled, because its argument is a `Todo`.
  - The todo's other columns are not modelled.
- ProjectNoteService: `CreateNoteDto` is not part of this model, so its field set (title, content, tags) is assumed. `FromCreateDto` models only the mapping's declared constants and ignored fields.
- CommandParser: building the prompt is not modelled. JSON values other than strings and objects where those are expected fail as a `ClassCastException` would.
