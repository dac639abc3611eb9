/**
 * The text shown for a paper when it is mentioned in a note: the title cut to
 * at most 50 characters, then the publication year in parentheses; and the
 * author names of a suggestion.
 */
module PaperMentionMapper {
  import opened Wrappers
  import opened Text

  /** Titles longer than this are cut. */
  const MaxTitle := 50
  /** How much of a long title is kept before the ellipsis. */
  const KeptPrefix := 47

  /** The title part of the display text: a long title keeps its first 47
      characters and gains "...", so it is exactly 50 characters long. */
  function ShortTitle(title: string): (r: string)
    ensures |r| <= MaxTitle
    ensures |title| <= MaxTitle ==> r == title
    ensures |title| > MaxTitle ==> |r| == MaxTitle && r[..KeptPrefix] == title[..KeptPrefix] && EndsWith(r, "...")
  {
    if |title| > MaxTitle then title[..KeptPrefix] + "..." else title
  }

  /** The year part: " (YYYY)" when a publication date is known, else nothing. */
  function YearSuffix(year: Option<int>): (r: string)
    ensures r == [] <==> year.None?
  {
    match year
    case None => []
    case Some(y) => " (" + IntToString(y) + ")"
  }

  /** `generateDisplayText`, given the title and the year of the publication date. */
  function GenerateDisplayText(title: Option<string>, year: Option<int>): (r: string)
    ensures title.None? && year.None? ==> r == []
    ensures title.Some? ==> ShortTitle(title.value) <= r
    ensures year.Some? ==> EndsWith(r, " (" + IntToString(year.value) + ")")
    ensures year.None? ==> r == (if title.Some? then ShortTitle(title.value) else [])
    ensures |r| <= MaxTitle + |YearSuffix(year)|
    // nothing stands between the title part and the year part
    ensures |r| == (if title.Some? then |ShortTitle(title.value)| else 0) + |YearSuffix(year)|
  {
    (if title.Some? then ShortTitle(title.value) else []) + YearSuffix(year)
  }

  /** The display text tells the year apart: the same title with two
      different years never gives the same text. */
  lemma DisplayTextDeterminesYear(title: Option<string>, y1: int, y2: int)
    requires GenerateDisplayText(title, Some(y1)) == GenerateDisplayText(title, Some(y2))
    ensures y1 == y2
  {
    var t := if title.Some? then ShortTitle(title.value) else [];
    Cancel(t, YearSuffix(Some(y1)), YearSuffix(Some(y2)), []);
    YearSuffixInjective(y1, y2);
  }

  lemma YearSuffixInjective(y1: int, y2: int)
    requires YearSuffix(Some(y1)) == YearSuffix(Some(y2))
    ensures y1 == y2
  {
    Cancel(" (", IntToString(y1), IntToString(y2), ")");
    IntToStringInjective(y1, y2);
  }

  /** Titles of at most 50 characters are told apart by their display text. */
  lemma DisplayTextDeterminesShortTitle(t1: string, t2: string, year: Option<int>)
    requires |t1| <= MaxTitle && |t2| <= MaxTitle
    requires GenerateDisplayText(Some(t1), year) == GenerateDisplayText(Some(t2), year)
    ensures t1 == t2
  {
    var s := YearSuffix(year);
    assert |t1| == |t2|;
    assert t1 == (t1 + s)[..|t1|];
    assert t2 == (t2 + s)[..|t2|];
  }

  /** Long titles that agree on their first 47 characters share a display text. */
  lemma LongTitlesSharingPrefixCollide(t1: string, t2: string, year: Option<int>)
    requires |t1| > MaxTitle && |t2| > MaxTitle
    requires t1[..KeptPrefix] == t2[..KeptPrefix]
    ensures GenerateDisplayText(Some(t1), year) == GenerateDisplayText(Some(t2), year)
  {
  }

  /** `mapAuthors`: null for null, otherwise the name of each author, in order. */
  function MapAuthors<D>(authors: Option<seq<D>>, name: D -> Option<string>): (r: Option<seq<Option<string>>>)
    ensures r.None? <==> authors.None?
    ensures r.Some? ==> |r.value| == |authors.value|
    ensures r.Some? ==> forall i :: 0 <= i < |r.value| ==> r.value[i] == name(authors.value[i])
  {
    match authors
    case None => None
    case Some(l) => Some(seq(|l|, i requires 0 <= i < |l| => name(l[i])))
  }

  /** Mapping the names of two author lists one after the other is mapping
      the names of the joined list. */
  lemma MapAuthorsAppend<D>(a: seq<D>, b: seq<D>, name: D -> Option<string>)
    ensures MapAuthors(Some(a + b), name) == Some(MapAuthors(Some(a), name).value + MapAuthors(Some(b), name).value)
  {
    var l := MapAuthors(Some(a + b), name).value;
    var r := MapAuthors(Some(a), name).value + MapAuthors(Some(b), name).value;
    assert |l| == |r|;
    forall i | 0 <= i < |l| ensures l[i] == r[i] {
      if i < |a| {
        assert (a + b)[i] == a[i];
      } else {
        assert (a + b)[i] == b[i - |a|];
      }
    }
    assert l == r;
  }
}
