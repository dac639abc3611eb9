/** The category of a todo item and its JSON string form. */
module TodoCategoryEnum {
  import opened Wrappers
  import opened Text
  import opened Streams

  datatype TodoCategory =
    | LITERATURE_REVIEW
    | EXPERIMENT
    | DATA_COLLECTION
    | DATA_ANALYSIS
    | MODELING
    | WRITING
    | REVIEW
    | SUBMISSION
    | PRESENTATION
    | COLLABORATION
    | MEETING
    | DEADLINE
    | FUNDING
    | ADMINISTRATIVE
    | PERSONAL
    | MISC
  {

    /** `name()`: the constant's identifier. */
    function Name(): string {
      match this
      case LITERATURE_REVIEW => "LITERATURE_REVIEW"
      case EXPERIMENT => "EXPERIMENT"
      case DATA_COLLECTION => "DATA_COLLECTION"
      case DATA_ANALYSIS => "DATA_ANALYSIS"
      case MODELING => "MODELING"
      case WRITING => "WRITING"
      case REVIEW => "REVIEW"
      case SUBMISSION => "SUBMISSION"
      case PRESENTATION => "PRESENTATION"
      case COLLABORATION => "COLLABORATION"
      case MEETING => "MEETING"
      case DEADLINE => "DEADLINE"
      case FUNDING => "FUNDING"
      case ADMINISTRATIVE => "ADMINISTRATIVE"
      case PERSONAL => "PERSONAL"
      case MISC => "MISC"
    }

    /** `toValue()`: the JSON form. */
    function ToValue(): string {
      Lower(Name())
    }
  }

  /** `values()`, in declaration order. */
  const Values: seq<TodoCategory> := [
    LITERATURE_REVIEW, EXPERIMENT, DATA_COLLECTION, DATA_ANALYSIS,
    MODELING, WRITING, REVIEW, SUBMISSION,
    PRESENTATION, COLLABORATION, MEETING, DEADLINE,
    FUNDING, ADMINISTRATIVE, PERSONAL, MISC
  ]

  /** The error `fromValue` throws for an unknown string. */
  datatype ParseError = IllegalArgument(value: string)

  /** The filter of `fromValue`: the exact name, ignoring case. */
  predicate Matches(c: TodoCategory, value: string) {
    EqualsIgnoreCase(c.Name(), value)
  }

  /** `fromValue`: null for null, the first constant that matches, or an
      `IllegalArgumentException` when none does. */
  function FromValue(value: Option<string>): Result<Option<TodoCategory>, ParseError> {
    match value
    case None => Success(None)
    case Some(v) =>
      match FindFirst(Values, c => Matches(c, v))
      case Some(c) => Success(Some(c))
      case None => Failure(IllegalArgument(v))
  }

  /** Every name in lower case. */
  function Key(c: TodoCategory): string {
    match c
    case LITERATURE_REVIEW => "literature_review"
    case EXPERIMENT => "experiment"
    case DATA_COLLECTION => "data_collection"
    case DATA_ANALYSIS => "data_analysis"
    case MODELING => "modeling"
    case WRITING => "writing"
    case REVIEW => "review"
    case SUBMISSION => "submission"
    case PRESENTATION => "presentation"
    case COLLABORATION => "collaboration"
    case MEETING => "meeting"
    case DEADLINE => "deadline"
    case FUNDING => "funding"
    case ADMINISTRATIVE => "administrative"
    case PERSONAL => "personal"
    case MISC => "misc"
  }

  /** Lowering each name gives its key; checked two constants at a time. */
  lemma KeyOfName(c: TodoCategory)
    ensures Lower(c.Name()) == Key(c)
  {
    if c.LITERATURE_REVIEW? || c.EXPERIMENT? {
      KeyOfNamePair1(c);
    } else if c.DATA_COLLECTION? || c.DATA_ANALYSIS? {
      KeyOfNamePair2(c);
    } else if c.MODELING? || c.WRITING? {
      KeyOfNamePair3(c);
    } else if c.REVIEW? || c.SUBMISSION? {
      KeyOfNamePair4(c);
    } else if c.PRESENTATION? || c.COLLABORATION? {
      KeyOfNamePair5(c);
    } else if c.MEETING? || c.DEADLINE? {
      KeyOfNamePair6(c);
    } else if c.FUNDING? || c.ADMINISTRATIVE? {
      KeyOfNamePair7(c);
    } else if c.PERSONAL? || c.MISC? {
      KeyOfNamePair8(c);
    }
  }

  lemma KeyOfNamePair1(c: TodoCategory)
    requires c.LITERATURE_REVIEW? || c.EXPERIMENT?
    ensures Lower(c.Name()) == Key(c)
  {
  }

  lemma KeyOfNamePair2(c: TodoCategory)
    requires c.DATA_COLLECTION? || c.DATA_ANALYSIS?
    ensures Lower(c.Name()) == Key(c)
  {
  }

  lemma KeyOfNamePair3(c: TodoCategory)
    requires c.MODELING? || c.WRITING?
    ensures Lower(c.Name()) == Key(c)
  {
  }

  lemma KeyOfNamePair4(c: TodoCategory)
    requires c.REVIEW? || c.SUBMISSION?
    ensures Lower(c.Name()) == Key(c)
  {
  }

  lemma KeyOfNamePair5(c: TodoCategory)
    requires c.PRESENTATION? || c.COLLABORATION?
    ensures Lower(c.Name()) == Key(c)
  {
  }

  lemma KeyOfNamePair6(c: TodoCategory)
    requires c.MEETING? || c.DEADLINE?
    ensures Lower(c.Name()) == Key(c)
  {
  }

  lemma KeyOfNamePair7(c: TodoCategory)
    requires c.FUNDING? || c.ADMINISTRATIVE?
    ensures Lower(c.Name()) == Key(c)
  {
  }

  lemma KeyOfNamePair8(c: TodoCategory)
    requires c.PERSONAL? || c.MISC?
    ensures Lower(c.Name()) == Key(c)
  {
  }

  lemma ValuesComplete(c: TodoCategory)
    ensures c in Values
  {
  }

  /** A string matches at most one constant. */
  lemma OnlyMatch(v: string, c: TodoCategory)
    requires Matches(c, v)
    ensures forall d :: Matches(d, v) ==> d == c
  {
    forall d | Matches(d, v) ensures d == c {
      MatchesUnique(c, d, v);
    }
  }

  /** Two constants never match the same string. */
  lemma MatchesUnique(c: TodoCategory, d: TodoCategory, v: string)
    requires Matches(c, v) && Matches(d, v)
    ensures c == d
  {
    KeyOfName(c);
    KeyOfName(d);
  }

  /** `toValue` is the constant's name in lower case. */
  lemma ToValueIsLowerCaseName(c: TodoCategory)
    ensures |c.ToValue()| == |c.Name()|
    ensures forall i :: 0 <= i < |c.Name()| ==> c.ToValue()[i] == LowerChar(c.Name()[i])
    ensures NoUpperCase(c.ToValue())
  {
  }

  /** `fromValue(null)` is null. */
  lemma FromNull()
    ensures FromValue(None) == Success(None)
  {
  }

  /** A string parses to a constant exactly when it spells its name in any case. */
  lemma FromValueFinds(v: string, c: TodoCategory)
    ensures FromValue(Some(v)) == Success(Some(c)) <==> Matches(c, v)
  {
    if Matches(c, v) {
      MatchIsFound(v, c);
    }
  }

  /** The only constant a string matches is the one `fromValue` finds. */
  lemma MatchIsFound(v: string, c: TodoCategory)
    requires Matches(c, v)
    ensures FromValue(Some(v)) == Success(Some(c))
  {
    ValuesComplete(c);
    OnlyMatch(v, c);
    FindFirstUnique(Values, d => Matches(d, v), c);
  }

  /** A string that matches no constant raises `IllegalArgumentException`. */
  lemma FromValueFails(v: string)
    ensures FromValue(Some(v)) == Failure(IllegalArgument(v)) <==> forall c: TodoCategory :: !Matches(c, v)
  {
    if FromValue(Some(v)).Failure? {
      forall c: TodoCategory ensures !Matches(c, v) {
        ValuesComplete(c);
      }
    }
  }

  /** `fromValue(toValue(c)) == c` for every category. */
  lemma RoundTrip(c: TodoCategory)
    ensures FromValue(Some(c.ToValue())) == Success(Some(c))
  {
    LowerIdempotent(c.Name());
    FromValueFinds(c.ToValue(), c);
  }

  /** Every key, in declaration order. */
  const Keys: seq<string> := [
    "literature_review", "experiment", "data_collection", "data_analysis",
    "modeling", "writing", "review", "submission",
    "presentation", "collaboration", "meeting", "deadline",
    "funding", "administrative", "personal", "misc"
  ]

  lemma KeyListed(c: TodoCategory)
    ensures Key(c) in Keys
  {
  }

  /** A string parses to the constant whose key is its lower-case form. */
  lemma ParsesAs(v: string, c: TodoCategory)
    requires Lower(v) == Key(c)
    ensures FromValue(Some(v)) == Success(Some(c))
  {
    KeyOfName(c);
    FromValueFinds(v, c);
  }

  /** A string whose lower-case form is no key is rejected. */
  lemma Rejects(v: string)
    requires Lower(v) !in Keys
    ensures FromValue(Some(v)) == Failure(IllegalArgument(v))
  {
    forall c: TodoCategory ensures !Matches(c, v) {
      KeyOfName(c);
      KeyListed(c);
    }
    FromValueFails(v);
  }

  /** Case does not matter but underscores do: "Literature_Review" gives
      LITERATURE_REVIEW while "literaturereview" is rejected. */
  lemma UnderscoresSignificant()
    ensures FromValue(Some("Literature_Review")) == Success(Some(LITERATURE_REVIEW))
    ensures FromValue(Some("literaturereview")) == Failure(IllegalArgument("literaturereview"))
  {
    MixedCaseSampleLowered();
    ParsesAs("Literature_Review", LITERATURE_REVIEW);
    JoinedSampleLowered();
    JoinedSampleIsNoKey();
    Rejects("literaturereview");
  }

  lemma MixedCaseSampleLowered() ensures Lower("Literature_Review") == "literature_review" {}
  lemma JoinedSampleLowered() ensures Lower("literaturereview") == "literaturereview" {}
  lemma JoinedSampleIsNoKey() ensures "literaturereview" !in Keys {}
}
