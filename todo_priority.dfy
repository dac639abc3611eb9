/** The priority level of a todo item and its JSON string form. */
module TodoPriorityEnum {
  import opened Wrappers
  import opened Text
  import opened Streams

  datatype TodoPriority = LOW | MEDIUM | HIGH | URGENT {

    /** `name()`: the constant's identifier. */
    function Name(): string {
      match this
      case LOW => "LOW"
      case MEDIUM => "MEDIUM"
      case HIGH => "HIGH"
      case URGENT => "URGENT"
    }

    /** `toValue()`: the JSON form. */
    function ToValue(): string {
      Lower(Name())
    }
  }

  /** `values()`, in declaration order. */
  const Values: seq<TodoPriority> := [LOW, MEDIUM, HIGH, URGENT]

  /** The error `fromValue` throws for an unknown string. */
  datatype ParseError = IllegalArgument(value: string)

  /** The filter of `fromValue`: the exact name, ignoring case. */
  predicate Matches(p: TodoPriority, value: string) {
    EqualsIgnoreCase(p.Name(), value)
  }

  /** `fromValue`: null for null, the first constant that matches, or an
      `IllegalArgumentException` when none does. */
  function FromValue(value: Option<string>): Result<Option<TodoPriority>, ParseError> {
    match value
    case None => Success(None)
    case Some(v) =>
      match FindFirst(Values, p => Matches(p, v))
      case Some(p) => Success(Some(p))
      case None => Failure(IllegalArgument(v))
  }

  /** Every name in lower case. */
  function Key(p: TodoPriority): string {
    match p
    case LOW => "low"
    case MEDIUM => "medium"
    case HIGH => "high"
    case URGENT => "urgent"
  }

  lemma KeyOfName(p: TodoPriority)
    ensures Lower(p.Name()) == Key(p)
  {
  }

  lemma ValuesComplete(p: TodoPriority)
    ensures p in Values
  {
  }

  /** A string matches at most one constant. */
  lemma OnlyMatch(v: string, p: TodoPriority)
    requires Matches(p, v)
    ensures forall q :: Matches(q, v) ==> q == p
  {
    forall q | Matches(q, v) ensures q == p {
      MatchesUnique(p, q, v);
    }
  }

  /** Two constants never match the same string. */
  lemma MatchesUnique(p: TodoPriority, q: TodoPriority, v: string)
    requires Matches(p, v) && Matches(q, v)
    ensures p == q
  {
    KeyOfName(p);
    KeyOfName(q);
  }

  /** `toValue` is the constant's name in lower case. */
  lemma ToValueIsLowerCaseName(p: TodoPriority)
    ensures |p.ToValue()| == |p.Name()|
    ensures forall i :: 0 <= i < |p.Name()| ==> p.ToValue()[i] == LowerChar(p.Name()[i])
    ensures NoUpperCase(p.ToValue())
  {
  }

  /** `fromValue(null)` is null. */
  lemma FromNull()
    ensures FromValue(None) == Success(None)
  {
  }

  /** A string parses to a constant exactly when it spells its name in any case. */
  lemma FromValueFinds(v: string, p: TodoPriority)
    ensures FromValue(Some(v)) == Success(Some(p)) <==> Matches(p, v)
  {
    if Matches(p, v) {
      MatchIsFound(v, p);
    }
  }

  /** The only constant a string matches is the one `fromValue` finds. */
  lemma MatchIsFound(v: string, p: TodoPriority)
    requires Matches(p, v)
    ensures FromValue(Some(v)) == Success(Some(p))
  {
    ValuesComplete(p);
    OnlyMatch(v, p);
    FindFirstUnique(Values, q => Matches(q, v), p);
  }

  /** A string that matches no constant raises `IllegalArgumentException`. */
  lemma FromValueFails(v: string)
    ensures FromValue(Some(v)) == Failure(IllegalArgument(v)) <==> forall p: TodoPriority :: !Matches(p, v)
  {
    if FromValue(Some(v)).Failure? {
      forall p: TodoPriority ensures !Matches(p, v) {
        ValuesComplete(p);
      }
    }
  }

  /** `fromValue(toValue(p)) == p` for every priority. */
  lemma RoundTrip(p: TodoPriority)
    ensures FromValue(Some(p.ToValue())) == Success(Some(p))
  {
    LowerIdempotent(p.Name());
    FromValueFinds(p.ToValue(), p);
  }

  /** Every key, in declaration order. */
  const Keys: seq<string> := [
    "low", "medium", "high", "urgent"
  ]

  lemma KeyListed(p: TodoPriority)
    ensures Key(p) in Keys
  {
  }

  /** A string parses to the constant whose key is its lower-case form. */
  lemma ParsesAs(v: string, p: TodoPriority)
    requires Lower(v) == Key(p)
    ensures FromValue(Some(v)) == Success(Some(p))
  {
    KeyOfName(p);
    FromValueFinds(v, p);
  }

  /** A string whose lower-case form is no key is rejected. */
  lemma Rejects(v: string)
    requires Lower(v) !in Keys
    ensures FromValue(Some(v)) == Failure(IllegalArgument(v))
  {
    forall p: TodoPriority ensures !Matches(p, v) {
      KeyOfName(p);
      KeyListed(p);
    }
    FromValueFails(v);
  }

  /** Case does not matter but underscores do: "High" gives HIGH while "hi_gh" is rejected. */
  lemma CaseIgnoredUnderscoresKept()
    ensures FromValue(Some("High")) == Success(Some(HIGH))
    ensures FromValue(Some("hi_gh")) == Failure(IllegalArgument("hi_gh"))
  {
    CapitalizedSampleLowered();
    ParsesAs("High", HIGH);
    UnderscoredSampleLowered();
    Rejects("hi_gh");
  }

  lemma CapitalizedSampleLowered() ensures Lower("High") == "high" {}
  lemma UnderscoredSampleLowered() ensures Lower("hi_gh") == "hi_gh" {}
}
