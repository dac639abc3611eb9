/**
 * The hand-written helpers of the paper mapper: venue and metrics builders
 * that yield null when every input field is null, the external-id map to and
 * from a list of entities, and the author list converters. The comma-joined
 * publication types and fields of study use the `CommaLists` conversions.
 */
module PaperMapper {
  import opened Wrappers
  import opened Text

  /** The venue and metrics columns of a paper's metadata. */
  datatype PaperMetadataDto = PaperMetadataDto(
    venueName: Option<string>,
    publisher: Option<string>,
    volume: Option<string>,
    issue: Option<string>,
    pages: Option<string>,
    citationCount: Option<int>,
    referenceCount: Option<int>,
    influentialCitationCount: Option<int>)

  datatype PublicationVenue = PublicationVenue(
    venueName: Option<string>,
    publisher: Option<string>,
    volume: Option<string>,
    issue: Option<string>,
    pages: Option<string>)

  datatype PaperMetrics = PaperMetrics(
    citationCount: Option<int>,
    referenceCount: Option<int>,
    influentialCitationCount: Option<int>)

  /** `mapVenue`: null when all five venue fields are null, otherwise a venue
      carrying all five. */
  function MapVenue(dto: PaperMetadataDto): (r: Option<PublicationVenue>)
    ensures r.None? <==>
      (dto.venueName.None? && dto.publisher.None? && dto.volume.None? &&
       dto.issue.None? && dto.pages.None?)
    ensures r.Some? ==>
      r.value.venueName == dto.venueName && r.value.publisher == dto.publisher &&
      r.value.volume == dto.volume && r.value.issue == dto.issue && r.value.pages == dto.pages
  {
    if dto.venueName.None? && dto.publisher.None? && dto.volume.None? &&
       dto.issue.None? && dto.pages.None? then None
    else Some(PublicationVenue(dto.venueName, dto.publisher, dto.volume, dto.issue, dto.pages))
  }

  /** `mapMetrics`: null when all three counts are null, otherwise metrics
      carrying all three. */
  function MapMetrics(dto: PaperMetadataDto): (r: Option<PaperMetrics>)
    ensures r.None? <==>
      (dto.citationCount.None? && dto.referenceCount.None? && dto.influentialCitationCount.None?)
    ensures r.Some? ==>
      r.value.citationCount == dto.citationCount && r.value.referenceCount == dto.referenceCount &&
      r.value.influentialCitationCount == dto.influentialCitationCount
  {
    if dto.citationCount.None? && dto.referenceCount.None? && dto.influentialCitationCount.None? then None
    else Some(PaperMetrics(dto.citationCount, dto.referenceCount, dto.influentialCitationCount))
  }

  /** The null-safe `venue.x` and `metrics.x` reads of `toMetadataDto`. */
  function ReadBack(venue: Option<PublicationVenue>, metrics: Option<PaperMetrics>, dto: PaperMetadataDto): PaperMetadataDto {
    dto.(
      venueName := if venue.Some? then venue.value.venueName else None,
      publisher := if venue.Some? then venue.value.publisher else None,
      volume := if venue.Some? then venue.value.volume else None,
      issue := if venue.Some? then venue.value.issue else None,
      pages := if venue.Some? then venue.value.pages else None,
      citationCount := if metrics.Some? then metrics.value.citationCount else None,
      referenceCount := if metrics.Some? then metrics.value.referenceCount else None,
      influentialCitationCount := if metrics.Some? then metrics.value.influentialCitationCount else None)
  }

  /** Storing the venue and metrics and reading them back loses nothing: a
      null venue or metrics object stands exactly for all-null fields. */
  lemma VenueAndMetricsRoundTrip(dto: PaperMetadataDto, other: PaperMetadataDto)
    ensures ReadBack(MapVenue(dto), MapMetrics(dto), other) ==
      other.(venueName := dto.venueName, publisher := dto.publisher, volume := dto.volume,
             issue := dto.issue, pages := dto.pages, citationCount := dto.citationCount,
             referenceCount := dto.referenceCount,
             influentialCitationCount := dto.influentialCitationCount)
  {
  }

  /** An external id as deserialised from JSON: a string or an integer. */
  datatype IdValue = Text(text: string) | Number(number: int) {

    /** `Object.toString()`. */
    function ToString(): string {
      match this
      case Text(s) => s
      case Number(n) => IntToString(n)
    }
  }

  /** The external-id entity: where the id comes from and the id itself. */
  datatype ExternalId = ExternalId(source: string, value: Option<string>)

  /** The exceptions the two conversions can throw. */
  datatype MappingError =
    | NullPointer                  // `toString()` on, or `toMap` of, a null value
    | DuplicateKey(source: string) // `toMap` meets a source a second time

  /** `order` lists every key of a map exactly once: the iteration order of
      `entrySet()`, which the map does not determine. */
  predicate IsEnumeration(order: seq<string>, keys: set<string>) {
    (forall i, j :: 0 <= i < j < |order| ==> order[i] != order[j]) &&
    (forall k :: k in order ==> k in keys) && (forall k :: k in keys ==> k in order)
  }

  /** The entities for the entries listed by `order`, or the exception of the
      first null value. */
  function EntitiesOf(m: map<string, Option<IdValue>>, order: seq<string>): (r: Result<seq<ExternalId>, MappingError>)
    requires forall k :: k in order ==> k in m
    ensures r.Failure? <==> exists k :: k in order && m[k].None?
    ensures r.Failure? ==> r.error == NullPointer
    ensures r.Success? ==> |r.value| == |order|
    ensures r.Success? ==> forall i :: 0 <= i < |order| ==>
      m[order[i]].Some? && r.value[i] == ExternalId(order[i], Some(m[order[i]].value.ToString()))
  {
    if order == [] then Success([])
    else
      match m[order[0]]
      case None => Failure(NullPointer)
      case Some(v) =>
        match EntitiesOf(m, order[1..])
        case Failure(e) => Failure(e)
        case Success(rest) => Success([ExternalId(order[0], Some(v.ToString()))] + rest)
  }

  /** `externalIdsMapToEntities`: null for null, one entity per entry in
      iteration order, or a `NullPointerException` when a value is null. */
  function ExternalIdsMapToEntities(m: Option<map<string, Option<IdValue>>>, order: seq<string>): (r: Result<Option<seq<ExternalId>>, MappingError>)
    requires m.Some? ==> IsEnumeration(order, m.value.Keys)
    ensures m.None? ==> r == Success(None)
    ensures m.Some? ==> (r.Failure? <==> exists k :: k in m.value && m.value[k].None?)
    ensures r.Success? && m.Some? ==> r.value.Some? && |r.value.value| == |m.value|
  {
    match m
    case None => Success(None)
    case Some(mm) =>
      OrderCoversMap(order, mm.Keys);
      match EntitiesOf(mm, order)
      case Failure(e) => Failure(e)
      case Success(ids) => Success(Some(ids))
  }

  lemma OrderCoversMap(order: seq<string>, keys: set<string>)
    requires IsEnumeration(order, keys)
    ensures |order| == |keys|
  {
    var s := set k | k in order;
    assert s == keys;
    DistinctCardinality(order);
  }

  lemma {:induction false} DistinctCardinality(order: seq<string>)
    requires forall i, j :: 0 <= i < j < |order| ==> order[i] != order[j]
    ensures |set k | k in order| == |order|
  {
    if order != [] {
      var tail := order[1..];
      DistinctCardinality(tail);
      assert (set k | k in order) == (set k | k in tail) + {order[0]};
      assert order[0] !in tail by {
        forall i | 0 <= i < |tail| ensures tail[i] != order[0] {
          assert tail[i] == order[i + 1];
        }
      }
    }
  }

  /** The sources of `ids` are pairwise distinct. */
  predicate DistinctSources(ids: seq<ExternalId>) {
    forall i, j :: 0 <= i < j < |ids| ==> ids[i].source != ids[j].source
  }

  /** The sources of `ids`. */
  function Sources(ids: seq<ExternalId>): set<string> {
    set i | 0 <= i < |ids| :: ids[i].source
  }

  lemma SourcesOfPrefix(ids: seq<ExternalId>)
    requires ids != []
    ensures Sources(ids) == Sources(ids[..|ids| - 1]) + {ids[|ids| - 1].source}
  {
    var init := ids[..|ids| - 1];
    forall k | k in Sources(ids) ensures k in Sources(init) + {ids[|ids| - 1].source} {
      var i :| 0 <= i < |ids| && ids[i].source == k;
      if i < |init| {
        assert init[i].source == k;
      }
    }
    forall k | k in Sources(init) ensures k in Sources(ids) {
      var i :| 0 <= i < |init| && init[i].source == k;
      assert ids[i].source == k;
    }
  }

  /** Every value of `ids` is non-null. */
  predicate AllValued(ids: seq<ExternalId>) {
    forall i :: 0 <= i < |ids| ==> ids[i].value.Some?
  }

  /** `Collectors.toMap(getSource, getValue)` over `ids`, element by element:
      a null value throws, a source met twice throws. */
  function ToMap(ids: seq<ExternalId>): (r: Result<map<string, string>, MappingError>)
    ensures r.Success? ==> r.value.Keys == Sources(ids)
  {
    if ids == [] then Success(map[])
    else
      var last := ids[|ids| - 1];
      match ToMap(ids[..|ids| - 1])
      case Failure(e) => Failure(e)
      case Success(m) =>
        SourcesOfPrefix(ids);
        if last.value.None? then Failure(NullPointer)
        else if last.source in m then Failure(DuplicateKey(last.source))
        else Success(m[last.source := last.value.value])
  }

  /** `toMap` succeeds exactly when no value is null and no source repeats. */
  lemma {:induction false} ToMapSucceeds(ids: seq<ExternalId>)
    ensures ToMap(ids).Success? <==> AllValued(ids) && DistinctSources(ids)
  {
    if ids != [] {
      ToMapSucceeds(ids[..|ids| - 1]);
      LastConditions(ids);
    }
  }

  /** Both conditions of `toMap`, split into the prefix and the last element. */
  lemma LastConditions(ids: seq<ExternalId>)
    requires ids != []
    ensures var init, last := ids[..|ids| - 1], ids[|ids| - 1];
      (AllValued(ids) <==> AllValued(init) && last.value.Some?) &&
      (DistinctSources(ids) <==> DistinctSources(init) && last.source !in Sources(init))
  {
    var init, last := ids[..|ids| - 1], ids[|ids| - 1];
    assert forall i :: 0 <= i < |init| ==> ids[i] == init[i];
    if last.source in Sources(init) {
      var i :| 0 <= i < |init| && init[i].source == last.source;
      assert ids[i].source == ids[|ids| - 1].source;
    }
  }

  /** The map `toMap` builds sends each source to its value. */
  lemma {:induction false} ToMapValues(ids: seq<ExternalId>)
    requires ToMap(ids).Success?
    ensures forall i :: 0 <= i < |ids| ==> ids[i].value.Some? && ToMap(ids).value[ids[i].source] == ids[i].value.value
  {
    if ids != [] {
      var init := ids[..|ids| - 1];
      ToMapValues(init);
      forall i | 0 <= i < |ids| - 1
        ensures ids[i].value.Some? && ToMap(ids).value[ids[i].source] == ids[i].value.value
      {
        assert ids[i] == init[i];
        assert ids[i].source in Sources(init);
      }
    }
  }

  /** `externalIdsToMap`: null for null, otherwise the source-to-value map. */
  function ExternalIdsToMap(ids: Option<seq<ExternalId>>): (r: Result<Option<map<string, string>>, MappingError>)
    ensures ids.None? ==> r == Success(None)
    ensures ids.Some? ==> r.Success? ==> r.value.Some? && r.value.value.Keys == Sources(ids.value)
  {
    match ids
    case None => Success(None)
    case Some(l) =>
      match ToMap(l)
      case Failure(e) => Failure(e)
      case Success(m) => Success(Some(m))
  }

  /** The string form of every value of a map without null values. */
  function Stringified(m: map<string, Option<IdValue>>): map<string, string>
    requires forall k :: k in m ==> m[k].Some?
  {
    map k | k in m :: m[k].value.ToString()
  }

  /** Entities built from an enumeration carry pairwise distinct sources. */
  lemma EntitiesHaveDistinctSources(m: map<string, Option<IdValue>>, order: seq<string>)
    requires IsEnumeration(order, m.Keys)
    requires EntitiesOf(m, order).Success?
    ensures DistinctSources(EntitiesOf(m, order).value)
  {
    var ids := EntitiesOf(m, order).value;
    forall i, j | 0 <= i < j < |ids| ensures ids[i].source != ids[j].source {
      assert ids[i].source == order[i] && ids[j].source == order[j];
    }
  }

  /** The map built from such entities has exactly the keys of `m`, each with
      the string form of its value. */
  lemma EntitiesMapBack(m: map<string, Option<IdValue>>, order: seq<string>, r: map<string, string>)
    requires IsEnumeration(order, m.Keys)
    requires forall k :: k in m ==> m[k].Some?
    requires EntitiesOf(m, order).Success?
    requires ToMap(EntitiesOf(m, order).value) == Success(r)
    ensures r == Stringified(m)
  {
    var strings := Stringified(m);
    EntitySources(m, order);
    assert r.Keys == m.Keys;
    forall k | k in r ensures r[k] == strings[k] {
      EntityValue(m, order, r, k);
    }
    SameEntries(r, strings);
  }

  lemma SameEntries(a: map<string, string>, b: map<string, string>)
    requires a.Keys == b.Keys
    requires forall k :: k in a ==> a[k] == b[k]
    ensures a == b
  {
  }

  /** The value `toMap` keeps for a key is the string form of the map's value. */
  lemma EntityValue(m: map<string, Option<IdValue>>, order: seq<string>, r: map<string, string>, k: string)
    requires IsEnumeration(order, m.Keys)
    requires EntitiesOf(m, order).Success?
    requires ToMap(EntitiesOf(m, order).value) == Success(r)
    requires k in m
    ensures m[k].Some? && k in r && r[k] == m[k].value.ToString()
  {
    var ids := EntitiesOf(m, order).value;
    var i :| 0 <= i < |order| && order[i] == k;
    assert ids[i] == ExternalId(k, Some(m[k].value.ToString()));
    ToMapValues(ids);
  }

  /** The entities of an enumeration have exactly the map's keys as sources. */
  lemma EntitySources(m: map<string, Option<IdValue>>, order: seq<string>)
    requires IsEnumeration(order, m.Keys)
    requires EntitiesOf(m, order).Success?
    ensures Sources(EntitiesOf(m, order).value) == m.Keys
  {
    var ids := EntitiesOf(m, order).value;
    forall k | k in m ensures k in Sources(ids) {
      var i :| 0 <= i < |order| && order[i] == k;
      assert ids[i].source == k;
    }
    forall k | k in Sources(ids) ensures k in m {
      var i :| 0 <= i < |ids| && ids[i].source == k;
      assert order[i] == k;
    }
  }

  /** Converting a map without null values to entities and back gives the map
      of the values' string forms, whatever the iteration order. */
  lemma ExternalIdsRoundTrip(m: map<string, Option<IdValue>>, order: seq<string>)
    requires IsEnumeration(order, m.Keys)
    requires forall k :: k in m ==> m[k].Some?
    ensures ExternalIdsMapToEntities(Some(m), order).Success?
    ensures var ids := ExternalIdsMapToEntities(Some(m), order).value;
      ExternalIdsToMap(ids) == Success(Some(Stringified(m)))
  {
    var e := EntitiesOf(m, order);
    assert e.Success?;
    EntitiesHaveDistinctSources(m, order);
    ToMapSucceeds(e.value);
    var t := ToMap(e.value);
    EntitiesMapBack(m, order, t.value);
  }

  /** For a map of string ids the round trip is the identity. */
  lemma TextIdsRoundTrip(m: map<string, Option<IdValue>>, order: seq<string>)
    requires IsEnumeration(order, m.Keys)
    requires forall k :: k in m ==> m[k].Some? && m[k].value.Text?
    ensures ExternalIdsMapToEntities(Some(m), order).Success?
    ensures var ids := ExternalIdsMapToEntities(Some(m), order).value;
      ExternalIdsToMap(ids) == Success(Some(map k | k in m :: m[k].value.text))
  {
    ExternalIdsRoundTrip(m, order);
    StringifiedTexts(m);
  }

  /** A map of string ids is its own string form. */
  lemma StringifiedTexts(m: map<string, Option<IdValue>>)
    requires forall k :: k in m ==> m[k].Some? && m[k].value.Text?
    ensures Stringified(m) == map k | k in m :: m[k].value.text
  {
    var texts := map k | k in m :: m[k].value.text;
    forall k | k in m ensures Stringified(m)[k] == texts[k] {
      assert m[k].value.ToString() == m[k].value.text;
    }
  }

  /** The join entity between a paper and an author; the paper is set later. */
  datatype PaperAuthor<A> = PaperAuthor(paper: Option<nat>, author: A)

  /** `authorsToPaperAuthors`: null for null, otherwise each author converted
      by `toEntity` and wrapped without a paper, in order. */
  function AuthorsToPaperAuthors<D, A>(authors: Option<seq<D>>, toEntity: D -> A): (r: Option<seq<PaperAuthor<A>>>)
    ensures r.None? <==> authors.None?
    ensures r.Some? ==> |r.value| == |authors.value|
    ensures r.Some? ==> forall i :: 0 <= i < |r.value| ==>
      r.value[i].paper.None? && r.value[i].author == toEntity(authors.value[i])
  {
    match authors
    case None => None
    case Some(l) => Some(seq(|l|, i requires 0 <= i < |l| => PaperAuthor(None, toEntity(l[i]))))
  }

  /** `paperAuthorsToAuthorDtos`: null for null, otherwise each wrapped author
      converted by `toDto`, in order. */
  function PaperAuthorsToAuthorDtos<D, A>(paperAuthors: Option<seq<PaperAuthor<A>>>, toDto: A -> D): (r: Option<seq<D>>)
    ensures r.None? <==> paperAuthors.None?
    ensures r.Some? ==> |r.value| == |paperAuthors.value|
    ensures r.Some? ==> forall i :: 0 <= i < |r.value| ==> r.value[i] == toDto(paperAuthors.value[i].author)
  {
    match paperAuthors
    case None => None
    case Some(l) => Some(seq(|l|, i requires 0 <= i < |l| => toDto(l[i].author)))
  }

  /** When the author converters are inverse, a paper's author list survives
      being stored and read back, length and order included. */
  lemma AuthorsRoundTrip<D, A>(authors: Option<seq<D>>, toEntity: D -> A, toDto: A -> D)
    requires forall d :: toDto(toEntity(d)) == d
    ensures PaperAuthorsToAuthorDtos(AuthorsToPaperAuthors(authors, toEntity), toDto) == authors
  {
    if authors.Some? {
      var r := PaperAuthorsToAuthorDtos(AuthorsToPaperAuthors(authors, toEntity), toDto);
      assert r.value == authors.value;
    }
  }
}
