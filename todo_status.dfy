/** The lifecycle state of a todo item and its JSON string form. */
module TodoStatusEnum {
  import opened Wrappers
  import opened Text
  import opened Streams

  datatype TodoStatus = PENDING | IN_PROGRESS | COMPLETED | CANCELLED {

    /** `name()`: the constant's identifier. */
    function Name(): string {
      match this
      case PENDING => "PENDING"
      case IN_PROGRESS => "IN_PROGRESS"
      case COMPLETED => "COMPLETED"
      case CANCELLED => "CANCELLED"
    }

    /** `toValue()`: the JSON form. */
    function ToValue(): string {
      Lower(Name())
    }
  }

  /** `values()`, in declaration order. */
  const Values: seq<TodoStatus> := [PENDING, IN_PROGRESS, COMPLETED, CANCELLED]

  /** The error `fromValue` throws for an unknown string. */
  datatype ParseError = IllegalArgument(value: string)

  /** The filter of `fromValue`: equal ignoring case once every underscore is removed. */
  predicate Matches(s: TodoStatus, value: string) {
    EqualsIgnoreCase(RemoveAll(s.Name(), '_'), RemoveAll(value, '_'))
  }

  /** `fromValue`: null for null, the first constant that matches, or an
      `IllegalArgumentException` when none does. */
  function FromValue(value: Option<string>): Result<Option<TodoStatus>, ParseError> {
    match value
    case None => Success(None)
    case Some(v) =>
      match FindFirst(Values, s => Matches(s, v))
      case Some(s) => Success(Some(s))
      case None => Failure(IllegalArgument(v))
  }

  /** The folded form of every name: lower case, no underscore. */
  function Key(s: TodoStatus): string {
    match s
    case PENDING => "pending"
    case IN_PROGRESS => "inprogress"
    case COMPLETED => "completed"
    case CANCELLED => "cancelled"
  }

  lemma KeyOfName(s: TodoStatus)
    ensures Lower(RemoveAll(s.Name(), '_')) == Key(s)
    ensures Lower(RemoveAll(s.ToValue(), '_')) == Key(s)
  {
    match s
    case IN_PROGRESS => KeyOfInProgress();
    case PENDING => KeyOfPlainName("PENDING", "pending");
    case COMPLETED => KeyOfPlainName("COMPLETED", "completed");
    case CANCELLED => KeyOfPlainName("CANCELLED", "cancelled");
  }

  /** A name without underscore folds to its lower-case form. */
  lemma KeyOfPlainName(name: string, key: string)
    requires '_' !in name && Lower(name) == key
    ensures Lower(RemoveAll(name, '_')) == key
    ensures Lower(RemoveAll(Lower(name), '_')) == key
  {
    LowerWithoutUnderscore(name);
  }

  lemma KeyOfInProgress()
    ensures Lower(RemoveAll("IN_PROGRESS", '_')) == "inprogress"
    ensures Lower(RemoveAll(Lower("IN_PROGRESS"), '_')) == "inprogress"
  {
    InProgressWithoutUnderscore();
    InProgressLowered();
    InProgressLoweredWithoutUnderscore();
    assert Lower("INPROGRESS") == "inprogress";
  }

  lemma InProgressWithoutUnderscore() ensures RemoveAll("IN_PROGRESS", '_') == "INPROGRESS" {}
  lemma InProgressLowered() ensures Lower("IN_PROGRESS") == "in_progress" {}
  lemma InProgressLoweredWithoutUnderscore() ensures RemoveAll("in_progress", '_') == "inprogress" {}

  lemma ValuesComplete(s: TodoStatus)
    ensures s in Values
  {
  }

  /** A string matches at most one constant. */
  lemma OnlyMatch(v: string, s: TodoStatus)
    requires Matches(s, v)
    ensures forall t :: Matches(t, v) ==> t == s
  {
    forall t | Matches(t, v) ensures t == s {
      MatchesUnique(s, t, v);
    }
  }

  /** Two constants never match the same string. */
  lemma MatchesUnique(s: TodoStatus, t: TodoStatus, v: string)
    requires Matches(s, v) && Matches(t, v)
    ensures s == t
  {
    KeyOfName(s);
    KeyOfName(t);
  }

  /** `toValue` is the constant's name in lower case. */
  lemma ToValueIsLowerCaseName(s: TodoStatus)
    ensures |s.ToValue()| == |s.Name()|
    ensures forall i :: 0 <= i < |s.Name()| ==> s.ToValue()[i] == LowerChar(s.Name()[i])
    ensures NoUpperCase(s.ToValue())
  {
  }

  /** `fromValue(null)` is null. */
  lemma FromNull()
    ensures FromValue(None) == Success(None)
  {
  }

  /** A string parses to a constant exactly when it matches that constant. */
  lemma FromValueFinds(v: string, s: TodoStatus)
    ensures FromValue(Some(v)) == Success(Some(s)) <==> Matches(s, v)
  {
    if Matches(s, v) {
      MatchIsFound(v, s);
    }
  }

  /** The only constant a string matches is the one `fromValue` finds. */
  lemma MatchIsFound(v: string, s: TodoStatus)
    requires Matches(s, v)
    ensures FromValue(Some(v)) == Success(Some(s))
  {
    ValuesComplete(s);
    OnlyMatch(v, s);
    FindFirstUnique(Values, t => Matches(t, v), s);
  }

  /** A string that matches no constant raises `IllegalArgumentException`. */
  lemma FromValueFails(v: string)
    ensures FromValue(Some(v)) == Failure(IllegalArgument(v)) <==> forall s: TodoStatus :: !Matches(s, v)
  {
    if FromValue(Some(v)).Failure? {
      forall s: TodoStatus ensures !Matches(s, v) {
        ValuesComplete(s);
      }
    }
  }

  /** `fromValue(toValue(s)) == s` for every status. */
  lemma RoundTrip(s: TodoStatus)
    ensures FromValue(Some(s.ToValue())) == Success(Some(s))
  {
    KeyOfName(s);
    FromValueFinds(s.ToValue(), s);
  }

  /** A string whose folded form is a constant's key parses to that constant. */
  lemma ParsesAs(v: string, s: TodoStatus)
    requires Lower(RemoveAll(v, '_')) == Key(s)
    ensures FromValue(Some(v)) == Success(Some(s))
  {
    KeyOfName(s);
    FromValueFinds(v, s);
  }

  /** Case and underscores do not matter: "inprogress" and "In_Progress" both give IN_PROGRESS. */
  lemma UnderscoresIgnored()
    ensures FromValue(Some("inprogress")) == Success(Some(IN_PROGRESS))
    ensures FromValue(Some("In_Progress")) == Success(Some(IN_PROGRESS))
  {
    FoldedInProgressSamples();
    ParsesAs("inprogress", IN_PROGRESS);
    ParsesAs("In_Progress", IN_PROGRESS);
  }

  lemma FoldedInProgressSamples()
    ensures Lower(RemoveAll("inprogress", '_')) == "inprogress"
    ensures Lower(RemoveAll("In_Progress", '_')) == "inprogress"
  {
    KeyOfPlainName("inprogress", "inprogress");
    MixedCaseWithoutUnderscore();
    MixedCaseLowered();
  }

  lemma MixedCaseWithoutUnderscore() ensures RemoveAll("In_Progress", '_') == "InProgress" {}
  lemma MixedCaseLowered() ensures Lower("InProgress") == "inprogress" {}
}
