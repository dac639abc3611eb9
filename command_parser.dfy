/**
 * Turning a chat message into a command: the JSON object is cut out of the
 * language model's reply, its fields are read and defaulted, and any failure
 * falls back to a general question answered by a second model call. The model
 * and the JSON parser are foreign code, so their answers are inputs here.
 */
module CommandParser {
  import opened Wrappers
  import opened Text

  datatype CommandType =
    | CREATE_TODO | UPDATE_TODO | DELETE_TODO | SEARCH_TODO
    | SUMMARIZE_TODOS | SEARCH_PAPERS | GENERAL_QUESTION | UNKNOWN
  {
    /** `name()`: the constant's identifier. */
    function Name(): string {
      match this
      case CREATE_TODO => "CREATE_TODO"
      case UPDATE_TODO => "UPDATE_TODO"
      case DELETE_TODO => "DELETE_TODO"
      case SEARCH_TODO => "SEARCH_TODO"
      case SUMMARIZE_TODOS => "SUMMARIZE_TODOS"
      case SEARCH_PAPERS => "SEARCH_PAPERS"
      case GENERAL_QUESTION => "GENERAL_QUESTION"
      case UNKNOWN => "UNKNOWN"
    }
  }

  /** `CommandType.valueOf`: exact, case-sensitive lookup of a constant's name. */
  function CommandValueOf(name: string): (r: Option<CommandType>)
    ensures r.Some? ==> r.value.Name() == name
    ensures r.None? ==> forall c: CommandType :: c.Name() != name
  {
    match name
    case "CREATE_TODO" => Some(CREATE_TODO)
    case "UPDATE_TODO" => Some(UPDATE_TODO)
    case "DELETE_TODO" => Some(DELETE_TODO)
    case "SEARCH_TODO" => Some(SEARCH_TODO)
    case "SUMMARIZE_TODOS" => Some(SUMMARIZE_TODOS)
    case "SEARCH_PAPERS" => Some(SEARCH_PAPERS)
    case "GENERAL_QUESTION" => Some(GENERAL_QUESTION)
    case "UNKNOWN" => Some(UNKNOWN)
    case _ => None
  }

  /** Every constant is found by its own name. */
  lemma CommandValueOfName(c: CommandType)
    ensures CommandValueOf(c.Name()) == Some(c)
  {
  }

  /** The position one past the last `}`, as `lastIndexOf("}") + 1` computes it. */
  function JsonEnd(s: string): int {
    LastIndexOf(s, '}') + 1
  }

  /** `extractJsonFromResponse`: from the first `{` through the last `}`, or
      "{}" when there is no `{` or no `}` after it. */
  function ExtractJson(s: string): (r: string)
    ensures |r| >= 2 && r[0] == '{' && r[|r| - 1] == '}'
  {
    var start := IndexOf(s, '{');
    var end := JsonEnd(s);
    if start != -1 && end > start then s[start..end] else "{}"
  }

  /** `s[i..j]` runs from the first `{` of `s` to its last `}`. */
  predicate IsOutermostSpan(s: string, i: int, j: int) {
    0 <= i < j <= |s| && s[i] == '{' && '{' !in s[..i] && s[j - 1] == '}' && '}' !in s[j..]
  }

  /** When the text has a `{` followed somewhere by a `}`, the result is the
      span from the first `{` through the last `}`. */
  lemma ExtractJsonSpan(s: string, i: int, j: int)
    requires IsOutermostSpan(s, i, j)
    ensures ExtractJson(s) == s[i..j]
  {
    IndexOfAt(s, '{', i);
    LastIndexOfAt(s, '}', j - 1);
  }

  /** Without a `}` after some `{`, the result is "{}". */
  lemma ExtractJsonEmpty(s: string)
    requires forall i, j :: 0 <= i < j < |s| && s[i] == '{' ==> s[j] != '}'
    ensures ExtractJson(s) == "{}"
  {
  }

  /** The two cases are exhaustive: a text with a `}` after a `{` has an outermost span. */
  lemma ExtractJsonCases(s: string, i: int, j: int)
    requires 0 <= i < j < |s| && s[i] == '{' && s[j] == '}'
    ensures IsOutermostSpan(s, IndexOf(s, '{'), JsonEnd(s))
  {
    assert s[i] in s;
    assert s[j] in s;
  }

  /** Extracting from an extracted object changes nothing. */
  lemma ExtractJsonIdempotent(s: string)
    ensures ExtractJson(ExtractJson(s)) == ExtractJson(s)
  {
    var r := ExtractJson(s);
    assert '{' !in r[..0];
    assert r[|r|..] == [];
    ExtractJsonSpan(r, 0, |r|);
    assert r[0..|r|] == r;
  }

  /** A JSON value as the parser returns it for `Map<String, Object>`. */
  datatype Json =
    | JNull
    | JString(text: string)
    | JNumber(number: int)
    | JBool(flag: bool)
    | JArray(items: seq<Json>)
    | JObject(fields: map<string, Json>)

  /** `map.get(key)`: null for a missing key. */
  function Get(fields: map<string, Json>, key: string): Json {
    if key in fields then fields[key] else JNull
  }

  /** `(String) value`: null stays null, a non-string throws `ClassCastException`. */
  function AsString(v: Json): Result<Option<string>, string> {
    match v
    case JNull => Success(None)
    case JString(s) => Success(Some(s))
    case _ => Failure("ClassCastException")
  }

  /** `(Map<String, Object>) value`, likewise. */
  function AsObject(v: Json): Result<Option<map<string, Json>>, string> {
    match v
    case JNull => Success(None)
    case JObject(m) => Success(Some(m))
    case _ => Failure("ClassCastException")
  }

  /** The reply used when the model gives none. */
  const DefaultResponse := "I'll help you with that."

  datatype ParsedCommand = ParsedCommand(
    commandType: CommandType,
    parameters: Option<map<string, Json>>,
    originalQuery: string,
    naturalResponse: Option<string>)

  /** The failure of a model call, which `parseCommand` does not catch on its
      fallback path. */
  datatype ModelError = ModelError(message: string)

  /** The fields of the object the first reply carries, when the reply exists
      and parses; the parser is `readJson`. */
  function ReplyFields(reply: Result<Option<string>, ModelError>, readJson: string -> Option<map<string, Json>>): Option<map<string, Json>> {
    if reply.Success? && reply.value.Some? then readJson(ExtractJson(reply.value.value)) else None
  }

  /** The first reply yields a command: it parses, its three fields have the
      right types, and `commandType` is the exact name of a constant. */
  predicate Accepted(fields: map<string, Json>) {
    var ct := Get(fields, "commandType");
    ct.JString? && CommandValueOf(ct.text).Some? &&
    AsObject(Get(fields, "parameters")).Success? && AsString(Get(fields, "response")).Success?
  }

  /** The command of the fallback path, for the second reply. */
  function Fallback(userInput: string, second: Result<Option<string>, ModelError>): Result<ParsedCommand, ModelError> {
    match second
    case Failure(e) => Failure(e)
    case Success(text) => Success(ParsedCommand(GENERAL_QUESTION, None, userInput, text))
  }

  /**
   * `parseCommand`. `first` is the model's answer to the parsing prompt and
   * `second` its answer to the bare user input, which is asked for only on the
   * fallback path; `modelCalls` counts the calls made.
   */
  method ParseCommand(
    userInput: string,
    first: Result<Option<string>, ModelError>,
    readJson: string -> Option<map<string, Json>>,
    second: Result<Option<string>, ModelError>)
    returns (r: Result<ParsedCommand, ModelError>, modelCalls: nat)
    ensures r.Success? ==> r.value.originalQuery == userInput
    ensures modelCalls == 1 <==> ReplyFields(first, readJson).Some? && Accepted(ReplyFields(first, readJson).value)
    ensures modelCalls != 1 ==> modelCalls == 2 && r == Fallback(userInput, second)
    ensures modelCalls == 1 ==>
      var fields := ReplyFields(first, readJson).value;
      r.Success? &&
      Get(fields, "commandType") == JString(r.value.commandType.Name()) &&
      r.value.parameters.Some? &&
      (Get(fields, "parameters").JObject? ==> r.value.parameters.value == Get(fields, "parameters").fields) &&
      (Get(fields, "parameters").JNull? ==> r.value.parameters.value == map[]) &&
      r.value.naturalResponse.Some? && r.value.naturalResponse.value != [] &&
      (Get(fields, "response").JString? && Get(fields, "response").text != [] ==>
        r.value.naturalResponse.value == Get(fields, "response").text) &&
      (!(Get(fields, "response").JString? && Get(fields, "response").text != []) ==>
        r.value.naturalResponse.value == DefaultResponse)
  {
    modelCalls := 1;
    var parsed: Option<ParsedCommand> := None;
    var decoded := ReplyFields(first, readJson);
    if decoded.Some? {
      var fields := decoded.value;
      var commandTypeStr := AsString(Get(fields, "commandType"));
      var parameters := AsObject(Get(fields, "parameters"));
      var response := AsString(Get(fields, "response"));
      if commandTypeStr.Success? && parameters.Success? && response.Success? {
        var name := commandTypeStr.value;
        if name.Some? && name.value != [] {
          var params := parameters.value;
          if params.None? {
            params := Some(map[]);
          }
          var text := response.value;
          if text.None? || text.value == [] {
            text := Some(DefaultResponse);
          }
          var kind := CommandValueOf(name.value);
          if kind.Some? {
            parsed := Some(ParsedCommand(kind.value, params, userInput, text));
          }
        }
      }
    }
    if parsed.Some? {
      r := Success(parsed.value);
    } else {
      modelCalls := 2;
      r := Fallback(userInput, second);
    }
  }

  /** A command name in the wrong case is not a command: `valueOf` is
      case-sensitive, so such a reply takes the fallback path. */
  lemma LowerCaseNameFallsBack(fields: map<string, Json>)
    requires Get(fields, "commandType") == JString("create_todo")
    ensures !Accepted(fields)
  {
  }

  /** A reply without `commandType` takes the fallback path. */
  lemma MissingTypeFallsBack(fields: map<string, Json>)
    requires "commandType" !in fields || fields["commandType"] == JString([])
    ensures !Accepted(fields)
  {
  }
}
