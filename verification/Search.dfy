/** Searching the index: filters, visibility, weighted ranking and paging. */
module Search {
  import opened Ordering
  import opened Registry
  import opened Versions
  import opened IndexStore
  import opened Sharing

  const WEIGHT_EXACT_ID := 1.0
  const WEIGHT_NAME := 0.6
  const WEIGHT_OWNER := 0.5
  const WEIGHT_TAG := 0.4
  const WEIGHT_CATEGORY := 0.3
  const WEIGHT_DESCRIPTION := 0.2
  const WEIGHT_USAGE := 0.3

  /** The library functions search relies on: string methods, version ranges,
      runtime matching, and the scaling of a usage count. */
  datatype Environment = Environment(
    lib: Library,
    strip: string -> string,
    lower: string -> string,
    words: string -> seq<string>,
    runtimeMatches: (Record, string) -> bool,
    usageScore: int -> real)

  /** Usage is scaled into [0, 1], and no usage scores nothing. */
  ghost predicate Bounded(env: Environment) {
    forall n :: 0.0 <= env.usageScore(n) <= 1.0 && (n <= 0 ==> env.usageScore(n) == 0.0)
  }

  /** Empty strings and lists stand for absent filters. */
  datatype Request = Request(
    query: string,
    tags: seq<string>,
    category: string,
    runtime: string,
    constraint: Option<string>,
    page: int,
    pageSize: int)

  datatype ScoredEntry = ScoredEntry(entry: Entry, score: real)

  datatype SearchPage = SearchPage(items: seq<ScoredEntry>, total: nat, nextPage: Option<int>)

  datatype SearchResult = Answered(page: SearchPage) | InvalidConstraint

  predicate Contains(text: string, part: string) {
    exists i :: 0 <= i <= |text| - |part| && StartsAt(text, part, i)
  }

  predicate StartsAt(text: string, part: string, i: nat)
    requires i <= |text| - |part|
  {
    text[i..i + |part|] == part
  }

  predicate AnyIn(items: seq<string>, among: seq<string>) {
    exists i :: 0 <= i < |items| && items[i] in among
  }

  function LowerAll(env: Environment, texts: seq<string>): seq<string> {
    seq(|texts|, i requires 0 <= i < |texts| => env.lower(texts[i]))
  }

  function Weighed(hit: bool, weight: real): real {
    if hit then weight else 0.0
  }

  /** The sum of the weights of the fields a query hits. */
  function TextScore(env: Environment, r: Record, query: string): (score: real)
    ensures 0.0 <= score <= 3.0
  {
    var q := env.lower(env.strip(query));
    if q == "" then 0.0
    else
      var tokens := env.words(q);
      var name := env.lower(r.name);
      Weighed(q == env.lower(r.id), WEIGHT_EXACT_ID)
      + Weighed(Contains(name, q) || AnyIn(tokens, env.words(name)), WEIGHT_NAME)
      + Weighed(Contains(env.lower(r.ownerTeam), q), WEIGHT_OWNER)
      + Weighed(AnyIn(tokens, LowerAll(env, r.tags)), WEIGHT_TAG)
      + Weighed(Contains(env.lower(r.category), q), WEIGHT_CATEGORY)
      + Weighed(Contains(env.lower(r.description), q), WEIGHT_DESCRIPTION)
  }

  // What a query hits, field by field.

  datatype Field = ExactId | Name | Owner | Tags | Category | Description

  ghost predicate Occurs(text: string, part: string) {
    exists before, after :: text == before + part + after
  }

  ghost predicate HitsField(env: Environment, r: Record, query: string, field: Field) {
    var q := env.lower(env.strip(query));
    q != "" &&
    match field
    case ExactId => env.lower(r.id) == q
    case Name => Occurs(env.lower(r.name), q) || exists t :: t in env.words(q) && t in env.words(env.lower(r.name))
    case Owner => Occurs(env.lower(r.ownerTeam), q)
    case Tags => exists tag :: tag in r.tags && env.lower(tag) in env.words(q)
    case Category => Occurs(env.lower(r.category), q)
    case Description => Occurs(env.lower(r.description), q)
  }

  function WeightOf(field: Field): real {
    match field
    case ExactId => 1.0
    case Name => 0.6
    case Owner => 0.5
    case Tags => 0.4
    case Category => 0.3
    case Description => 0.2
  }

  /** What one field adds to the score of a record. */
  ghost function Share(env: Environment, r: Record, query: string, field: Field): real {
    if HitsField(env, r, query, field) then WeightOf(field) else 0.0
  }

  lemma ContainsIff(text: string, part: string)
    ensures Contains(text, part) <==> Occurs(text, part)
  {
    if i :| 0 <= i <= |text| - |part| && StartsAt(text, part, i) {
      assert text == text[..i] + part + text[i + |part|..];
    }
    if before, after :| text == before + part + after {
      assert StartsAt(text, part, |before|);
    }
  }

  lemma AnyInIff(items: seq<string>, among: seq<string>)
    ensures AnyIn(items, among) <==> exists t :: t in items && t in among
  {
    if t :| t in items && t in among {
      var i :| 0 <= i < |items| && items[i] == t;
    }
  }

  /** The score is the sum of the shares of the six fields. */
  lemma TextScoreIsSum(env: Environment, r: Record, query: string)
    ensures TextScore(env, r, query)
            == Share(env, r, query, ExactId) + Share(env, r, query, Name) + Share(env, r, query, Owner)
               + Share(env, r, query, Tags) + Share(env, r, query, Category) + Share(env, r, query, Description)
  {
    hide Contains, AnyIn, Occurs;
    var q := env.lower(env.strip(query));
    ContainsIff(env.lower(r.name), q);
    AnyInIff(env.words(q), env.words(env.lower(r.name)));
    ContainsIff(env.lower(r.ownerTeam), q);
    AnyInIff(env.words(q), LowerAll(env, r.tags));
    ContainsIff(env.lower(r.category), q);
    ContainsIff(env.lower(r.description), q);
    var lowered := LowerAll(env, r.tags);
    if tag :| tag in r.tags && env.lower(tag) in env.words(q) {
      var i :| 0 <= i < |r.tags| && r.tags[i] == tag;
      assert lowered[i] == env.lower(tag);
    }
    if t :| t in env.words(q) && t in lowered {
      var i :| 0 <= i < |lowered| && lowered[i] == t;
      assert r.tags[i] in r.tags && env.lower(r.tags[i]) == t;
    }
  }

  /** One more field hit, all others as before, raises the score by that field's weight. */
  lemma OneMoreField(env: Environment, a: Record, b: Record, query: string, field: Field)
    requires !HitsField(env, a, query, field) && HitsField(env, b, query, field)
    requires forall f :: f != field ==> (HitsField(env, a, query, f) <==> HitsField(env, b, query, f))
    ensures TextScore(env, b, query) == TextScore(env, a, query) + WeightOf(field)
  {
    hide TextScore, HitsField;
    TextScoreIsSum(env, a, query);
    TextScoreIsSum(env, b, query);
  }

  /** A record scores zero, and a query then passes it over, exactly when no field is hit. */
  lemma ZeroScoreIff(env: Environment, r: Record, query: string)
    ensures TextScore(env, r, query) == 0.0 <==> forall f :: !HitsField(env, r, query, f)
  {
    hide TextScore, HitsField;
    TextScoreIsSum(env, r, query);
    if f :| HitsField(env, r, query, f) {
      assert Share(env, r, query, f) > 0.0;
    }
  }

  /** A field hit alone scores exactly its weight. */
  lemma LoneFieldScores(env: Environment, r: Record, query: string, field: Field)
    requires forall f :: HitsField(env, r, query, f) <==> f == field
    ensures TextScore(env, r, query) == WeightOf(field)
  {
    hide TextScore, HitsField;
    TextScoreIsSum(env, r, query);
  }

  method ScoreEntry(env: Environment, r: Record, query: string) returns (score: real)
    ensures score == TextScore(env, r, query)
    ensures score == Share(env, r, query, ExactId) + Share(env, r, query, Name) + Share(env, r, query, Owner)
                     + Share(env, r, query, Tags) + Share(env, r, query, Category) + Share(env, r, query, Description)
    ensures score == 0.0 <==> forall f :: !HitsField(env, r, query, f)
  {
    TextScoreIsSum(env, r, query);
    ZeroScoreIff(env, r, query);
    hide HitsField;
    var q := env.lower(env.strip(query));
    score := 0.0;
    if q == "" {
      return;
    }
    var tokens := env.words(q);
    if q == env.lower(r.id) {
      score := score + WEIGHT_EXACT_ID;
    }
    if Contains(env.lower(r.name), q) || AnyIn(tokens, env.words(env.lower(r.name))) {
      score := score + WEIGHT_NAME;
    }
    if Contains(env.lower(r.ownerTeam), q) {
      score := score + WEIGHT_OWNER;
    }
    if AnyIn(tokens, LowerAll(env, r.tags)) {
      score := score + WEIGHT_TAG;
    }
    if Contains(env.lower(r.category), q) {
      score := score + WEIGHT_CATEGORY;
    }
    if Contains(env.lower(r.description), q) {
      score := score + WEIGHT_DESCRIPTION;
    }
  }

  /** A record passes every filter that was given. */
  predicate PassesFilters(env: Environment, request: Request, r: Record) {
    && (request.runtime != "" ==> env.runtimeMatches(r, request.runtime))
    && (request.category != "" ==> r.category == request.category)
    && forall i :: 0 <= i < |request.tags| ==> request.tags[i] in r.tags
  }

  function UsageBonus(env: Environment, usage: Option<map<string, int>>, id: string): real {
    if usage.None? then 0.0
    else WEIGHT_USAGE * env.usageScore(if id in usage.value then usage.value[id] else 0)
  }

  function Score(env: Environment, request: Request, usage: Option<map<string, int>>, r: Record): real {
    (if request.query == "" then 0.0 else TextScore(env, r, request.query)) + UsageBonus(env, usage, r.id)
  }

  ghost function Resolve(env: Environment, index: Index, request: Request, id: string): Lookup {
    ResolveAmong(env.lib, VersionsOf(index, id), request.constraint)
  }

  /** The naive specification of one search hit. */
  ghost predicate Hit(env: Environment, index: Index, request: Request, caller: Caller, grants: set<ShareGrant>, id: string) {
    id in IdsOf(index) &&
    match Resolve(env, index, request, id)
    case Found(e) =>
      && PassesFilters(env, request, e.record)
      && MayView(e.record, caller, grants)
      && (request.query != "" ==> TextScore(env, e.record, request.query) != 0.0)
    case _ => false
  }

  ghost function ScoredHit(env: Environment, index: Index, request: Request, usage: Option<map<string, int>>, id: string): ScoredEntry
    requires Resolve(env, index, request, id).Found?
  {
    var e := Resolve(env, index, request, id).entry;
    ScoredEntry(e, Score(env, request, usage, e.record))
  }

  ghost function Matches(env: Environment, index: Index, request: Request, caller: Caller, grants: set<ShareGrant>,
                         usage: Option<map<string, int>>): set<ScoredEntry>
  {
    set id | id in IdsOf(index) && Hit(env, index, request, caller, grants, id) :: ScoredHit(env, index, request, usage, id)
  }

  /** Higher scores first, then ids in ascending order. */
  predicate RanksBefore(a: ScoredEntry, b: ScoredEntry) {
    a.score > b.score || (a.score == b.score && StringLess(a.entry.record.id, b.entry.record.id))
  }

  lemma RankingIsStrictOrder()
    ensures StrictOrder(RanksBefore)
  {
    StringLessIsStrictOrder();
  }

  /** Python's slice of a list: negative bounds count from the end, and all are clamped. */
  function Slice<T>(xs: seq<T>, start: int, stop: int): seq<T> {
    var lo := Clamp(start, |xs|);
    var hi := Clamp(stop, |xs|);
    if lo < hi then xs[lo..hi] else []
  }

  function Clamp(i: int, n: nat): nat {
    if i < 0 then (if i + n < 0 then 0 else i + n) else if i > n then n else i
  }

  function PageOf(ranking: seq<ScoredEntry>, page: int, pageSize: int): SearchPage {
    var start := (page - 1) * pageSize;
    SearchPage(Slice(ranking, start, start + pageSize), |ranking|,
               if start + pageSize < |ranking| then Some(page + 1) else None)
  }

  /** `page` is the requested page of the one ranking of the naive matches. */
  ghost predicate IsPageOfMatches(page: SearchPage, request: Request, matches: set<ScoredEntry>) {
    forall ranking :: Lists(RanksBefore, ranking, matches) ==> page == PageOf(ranking, request.page, request.pageSize)
  }

  ghost predicate Filed(index: Index) {
    forall k :: k in index ==> index[k].Coordinates() == k
  }

  lemma ResolvedHasId(env: Environment, index: Index, request: Request, id: string)
    requires Filed(index)
    ensures match Resolve(env, index, request, id) case Found(e) => e.record.id == id case _ => true
  {
  }

  /** What makes the entry of an id an answer, spelled out. */
  ghost predicate Qualifies(env: Environment, index: Index, request: Request, caller: Caller, grants: set<ShareGrant>, id: string) {
    && Resolve(env, index, request, id).Found?
    && var r := Resolve(env, index, request, id).entry.record;
       && (request.runtime == "" || env.runtimeMatches(r, request.runtime))
       && (request.category == "" || r.category == request.category)
       && (forall tag :: tag in request.tags ==> tag in r.tags)
       && MayView(r, caller, grants)
       && (request.query == "" || exists f :: HitsField(env, r, request.query, f))
  }

  /** The count a search adds for a skill, and by how much it may move it. */
  function CountedUse(usage: Option<map<string, int>>, id: string): int {
    if usage.Some? && id in usage.value then usage.value[id] else 0
  }

  ghost predicate IsAnswer(env: Environment, index: Index, request: Request, caller: Caller, grants: set<ShareGrant>,
                           usage: Option<map<string, int>>, c: ScoredEntry)
  {
    var id, r := c.entry.record.id, c.entry.record;
    && id in IdsOf(index) && Qualifies(env, index, request, caller, grants, id)
    && c.entry == Resolve(env, index, request, id).entry
    && c.score ==
         (if request.query == "" then 0.0
          else Share(env, r, request.query, ExactId) + Share(env, r, request.query, Name) + Share(env, r, request.query, Owner)
               + Share(env, r, request.query, Tags) + Share(env, r, request.query, Category) + Share(env, r, request.query, Description))
         + (if usage.None? then 0.0 else 0.3 * env.usageScore(CountedUse(usage, id)))
  }

  lemma HitIff(env: Environment, index: Index, request: Request, caller: Caller, grants: set<ShareGrant>, id: string)
    requires id in IdsOf(index)
    ensures Hit(env, index, request, caller, grants, id) <==> Qualifies(env, index, request, caller, grants, id)
  {
    hide Resolve, MayView, TextScore, HitsField;
    HitMeans(env, index, request, caller, grants, id);
    hide Hit;
    var found := Resolve(env, index, request, id);
    if found.Found? {
      ZeroScoreIff(env, found.entry.record, request.query);
      TagsPass(request, found.entry.record);
    }
  }

  lemma TagsPass(request: Request, r: Record)
    ensures (forall tag :: tag in request.tags ==> tag in r.tags) <==> forall i :: 0 <= i < |request.tags| ==> request.tags[i] in r.tags
  {
  }

  lemma MatchIsAnswer(env: Environment, index: Index, request: Request, caller: Caller, grants: set<ShareGrant>,
                      usage: Option<map<string, int>>, c: ScoredEntry)
    requires Filed(index) && c in Matches(env, index, request, caller, grants, usage)
    ensures IsAnswer(env, index, request, caller, grants, usage, c)
  {
    hide Resolve, TextScore, HitsField, Qualifies, MayView, IdsOf;
    var id :| id in IdsOf(index) && Hit(env, index, request, caller, grants, id) && c == ScoredHit(env, index, request, usage, id);
    ResolvedHasId(env, index, request, id);
    HitIff(env, index, request, caller, grants, id);
    TextScoreIsSum(env, c.entry.record, request.query);
  }

  function IdsIn(xs: seq<ScoredEntry>): (ids: seq<string>)
    ensures |ids| == |xs|
  {
    seq(|xs|, i requires 0 <= i < |xs| => xs[i].entry.record.id)
  }

  /** A ranking holds exactly one item for each id that qualifies. */
  lemma RankingCounts(env: Environment, index: Index, request: Request, caller: Caller, grants: set<ShareGrant>,
                      usage: Option<map<string, int>>, ranking: seq<ScoredEntry>)
    requires Filed(index) && Lists(RanksBefore, ranking, Matches(env, index, request, caller, grants, usage))
    requires forall i, j :: 0 <= i < j < |ranking| ==> ranking[i].entry.record.id != ranking[j].entry.record.id
    ensures |ranking| == |set id | id in IdsOf(index) && Qualifies(env, index, request, caller, grants, id)|
  {
    hide Resolve, Score, Qualifies, IdsOf, Hit;
    DistinctCount(IdsIn(ranking));
    var ids := set id | id in IdsIn(ranking);
    forall id
      ensures id in ids <==> id in IdsOf(index) && Qualifies(env, index, request, caller, grants, id)
    {
      if id in ids {
        var i :| 0 <= i < |ranking| && IdsIn(ranking)[i] == id;
        assert ranking[i] in ranking;
        MatchIsAnswer(env, index, request, caller, grants, usage, ranking[i]);
      }
      if id in IdsOf(index) && Qualifies(env, index, request, caller, grants, id) {
        HitIff(env, index, request, caller, grants, id);
        HitResolves(env, index, request, caller, grants, id);
        ResolvedHasId(env, index, request, id);
        var c := ScoredHit(env, index, request, usage, id);
        assert c in Matches(env, index, request, caller, grants, usage);
        var i :| 0 <= i < |ranking| && ranking[i] == c;
        assert IdsIn(ranking)[i] == id;
      }
    }
    assert ids == set id | id in IdsOf(index) && Qualifies(env, index, request, caller, grants, id);
  }

  lemma HitResolves(env: Environment, index: Index, request: Request, caller: Caller, grants: set<ShareGrant>, id: string)
    requires Hit(env, index, request, caller, grants, id)
    ensures Resolve(env, index, request, id).Found?
  {
  }

  lemma RankingIdsDiffer(env: Environment, index: Index, request: Request, caller: Caller, grants: set<ShareGrant>,
                         usage: Option<map<string, int>>, ranking: seq<ScoredEntry>)
    requires Filed(index) && Lists(RanksBefore, ranking, Matches(env, index, request, caller, grants, usage))
    ensures forall i, j :: 0 <= i < j < |ranking| ==> ranking[i].entry.record.id != ranking[j].entry.record.id
  {
    hide Resolve, Score, Hit, IdsOf;
    RankingIsStrictOrder();
    forall i, j | 0 <= i < j < |ranking|
      ensures ranking[i].entry.record.id != ranking[j].entry.record.id
    {
      assert ranking[i] in ranking && ranking[j] in ranking;
      SameIdSameMatch(env, index, request, caller, grants, usage, ranking[i], ranking[j]);
      assert RanksBefore(ranking[i], ranking[j]);
    }
  }

  lemma SameIdSameMatch(env: Environment, index: Index, request: Request, caller: Caller, grants: set<ShareGrant>,
                        usage: Option<map<string, int>>, c: ScoredEntry, d: ScoredEntry)
    requires Filed(index)
    requires c in Matches(env, index, request, caller, grants, usage) && d in Matches(env, index, request, caller, grants, usage)
    ensures c.entry.record.id == d.entry.record.id ==> c == d
  {
    hide Resolve, Score, IdsOf;
    var x :| x in IdsOf(index) && Hit(env, index, request, caller, grants, x) && c == ScoredHit(env, index, request, usage, x);
    var y :| y in IdsOf(index) && Hit(env, index, request, caller, grants, y) && d == ScoredHit(env, index, request, usage, y);
    ResolvedHasId(env, index, request, x);
    ResolvedHasId(env, index, request, y);
  }

  /** How many items a page holds, and when another page follows it. */
  lemma PageSizes(ranking: seq<ScoredEntry>, page: int, pageSize: int)
    requires page >= 1 && pageSize >= 0
    ensures var answer := PageOf(ranking, page, pageSize);
            var left := |ranking| - (page - 1) * pageSize;
            && answer.total == |ranking|
            && |answer.items| == (if left <= 0 then 0 else if left < pageSize then left else pageSize)
            && answer.nextPage == if left > pageSize then Some(page + 1) else None
  {
    TimesMonotone(0, page - 1, pageSize);
  }

  /** A page is a run of neighbours of the ranking. */
  lemma PageIsPart(ranking: seq<ScoredEntry>, page: int, pageSize: int) returns (lo: nat)
    ensures var items := PageOf(ranking, page, pageSize).items;
            && lo + |items| <= |ranking|
            && forall i :: 0 <= i < |items| ==> items[i] == ranking[lo + i]
  {
    lo := SliceIsPart(ranking, (page - 1) * pageSize, (page - 1) * pageSize + pageSize);
  }

  /** The page itself: how many matches there are, what each item is, in which order
      they come, how many the page holds and when another page follows. */
  ghost predicate IsAnswerPage(env: Environment, index: Index, request: Request, caller: Caller, grants: set<ShareGrant>,
                               usage: Option<map<string, int>>, page: SearchPage)
  {
    var items, left := page.items, page.total - (request.page - 1) * request.pageSize;
    && page.total == |set id | id in IdsOf(index) && Qualifies(env, index, request, caller, grants, id)|
    && (forall i :: 0 <= i < |items| ==> IsAnswer(env, index, request, caller, grants, usage, items[i]))
    && (forall i, j :: 0 <= i < j < |items| ==>
          || items[i].score > items[j].score
          || (items[i].score == items[j].score && StringLess(items[i].entry.record.id, items[j].entry.record.id)))
    && (request.page >= 1 && request.pageSize >= 0 ==>
          && |items| == (if left <= 0 then 0 else if left < request.pageSize then left else request.pageSize)
          && page.nextPage == if left > request.pageSize then Some(request.page + 1) else None)
  }

  lemma PageMeans(env: Environment, index: Index, request: Request, caller: Caller, grants: set<ShareGrant>,
                  usage: Option<map<string, int>>, ranking: seq<ScoredEntry>)
    requires Filed(index) && Lists(RanksBefore, ranking, Matches(env, index, request, caller, grants, usage))
    ensures IsAnswerPage(env, index, request, caller, grants, usage, PageOf(ranking, request.page, request.pageSize))
  {
    hide Resolve, Matches, IsAnswer, Qualifies, IdsOf;
    RankingIdsDiffer(env, index, request, caller, grants, usage, ranking);
    RankingCounts(env, index, request, caller, grants, usage, ranking);
    var lo := PageIsPart(ranking, request.page, request.pageSize);
    var page := PageOf(ranking, request.page, request.pageSize);
    assert page.total == |ranking|;
    hide PageOf;
    if request.page >= 1 && request.pageSize >= 0 {
      PageSizes(ranking, request.page, request.pageSize);
    }
    forall i | 0 <= i < |page.items|
      ensures IsAnswer(env, index, request, caller, grants, usage, page.items[i])
    {
      assert ranking[lo + i] in ranking;
      MatchIsAnswer(env, index, request, caller, grants, usage, page.items[i]);
    }
    forall i, j | 0 <= i < j < |page.items|
      ensures RanksBefore(page.items[i], page.items[j])
    {
      assert RanksBefore(ranking[lo + i], ranking[lo + j]);
    }
  }

  lemma SliceIsPart<T>(xs: seq<T>, start: int, stop: int) returns (lo: nat)
    ensures lo + |Slice(xs, start, stop)| <= |xs|
    ensures forall i :: 0 <= i < |Slice(xs, start, stop)| ==> Slice(xs, start, stop)[i] == xs[lo + i]
  {
    lo := if Clamp(start, |xs|) < Clamp(stop, |xs|) then Clamp(start, |xs|) else 0;
  }

  method Search(env: Environment, index: InMemoryIndex, request: Request, caller: Caller, grants: GrantStore?,
                usage: Option<map<string, int>>) returns (result: SearchResult)
    requires index.Valid() && (grants != null ==> grants.Valid())
    modifies index`sortedIds
    ensures index.Valid()
    ensures result.InvalidConstraint? <==>
              exists id :: id in IdsOf(index.Contents) && Resolve(env, index.Contents, request, id).Malformed?
    ensures result.Answered? ==>
              && IsPageOfMatches(result.page, request,
                                 Matches(env, index.Contents, request, caller, GrantsOf(grants), usage))
              && exists ranking :: Lists(RanksBefore, ranking, Matches(env, index.Contents, request, caller, GrantsOf(grants), usage))
    ensures result.Answered? ==>
              IsAnswerPage(env, index.Contents, request, caller, GrantsOf(grants), usage, result.page)
  {
    hide IsAnswerPage, HitsField, Qualifies, IsAnswer, Share;
    hide InMemoryIndex.Valid, ListsStrings, IdsOf, VersionsOf, ResolveAmong, CanView, MayView, GrantedIds, PassesFilters,
         GrantStore.All, GrantStore.Valid, TextScore, Score, Hit, Lists, Matches, PageOf, Sort;
    var listed := index.AllIds();
    var ids := listed[..];
    ghost var shown := index.Contents;
    ghost var granted := GrantsOf(grants);
    index.FiledContents();
    ListingHolds(ids, IdsOf(shown));
    var candidates: seq<ScoredEntry> := [];
    var visible: Option<set<string>> := None;
    for i := 0 to |ids|
      invariant index.Valid() && index.Contents == shown
      invariant GrantsOf(grants) == granted && (grants != null ==> grants.Valid())
      invariant visible.Some? ==> GrantedIds(visible.value, caller, granted)
      invariant forall j :: 0 <= j < i ==> !Resolve(env, shown, request, ids[j]).Malformed?
      invariant candidates == HitsIn(env, shown, request, caller, granted, usage, ids[..i])
    {
      var id := ids[i];
      var lookup := index.GetResolved(env.lib, id, request.constraint);
      assert lookup == Resolve(env, shown, request, id);
      assert id in IdsOf(shown);
      if lookup.Malformed? {
        return InvalidConstraint;
      }
      var admitted := false;
      if lookup.Found? && PassesFilters(env, request, lookup.entry.record) {
        var record := lookup.entry.record;
        if record.visibility != Public && visible.None? && grants != null {
          var visibleIds := VisibleSkillIdsViaGrants(caller, grants);
          visible := Some(visibleIds);
        }
        CanViewIsMayView(record, caller, grants, visible);
        if record.visibility == Public || CanView(record, caller, grants, visible) {
          PublicMayView(record, caller, granted);
          var textScore := 0.0;
          if request.query != "" {
            textScore := ScoreEntry(env, record, request.query);
          }
          if !(request.query != "" && textScore == 0.0) {
            admitted := true;
          }
        } else {
          PublicMayView(record, caller, granted);
        }
      }
      HitMeans(env, shown, request, caller, granted, id);
      assert admitted <==> Hit(env, shown, request, caller, granted, id);
      assert ids[..i + 1][..i] == ids[..i];
      if admitted {
        var score := Score(env, request, usage, lookup.entry.record);
        candidates := candidates + [ScoredEntry(lookup.entry, score)];
      }
    }
    assert ids[..|ids|] == ids;
    ghost var matches := Matches(env, shown, request, caller, granted, usage);
    CandidatesAreMatches(env, shown, request, caller, granted, usage, ids);
    SortedIsRanking(candidates, matches);
    candidates := Sort(RanksBefore, candidates);
    result := Answered(PageOf(candidates, request.page, request.pageSize));
    PageMeans(env, shown, request, caller, granted, usage, candidates);
    RankingIsUnique(candidates, matches, request);
  }

  lemma ListingHolds(ids: seq<string>, all: set<string>)
    requires ListsStrings(ids, all)
    ensures forall j :: 0 <= j < |ids| ==> ids[j] in all
    ensures forall id :: id in all ==> id in ids
    ensures forall i, j :: 0 <= i < j < |ids| ==> ids[i] != ids[j]
  {
    StringLessIsStrictOrder();
    forall i, j | 0 <= i < j < |ids|
      ensures ids[i] != ids[j]
    {
      assert StringLess(ids[i], ids[j]);
    }
  }

  lemma PublicMayView(record: Record, caller: Caller, grants: set<ShareGrant>)
    ensures record.visibility == Public ==> MayView(record, caller, grants)
  {
  }

  lemma HitMeans(env: Environment, index: Index, request: Request, caller: Caller, grants: set<ShareGrant>, id: string)
    requires id in IdsOf(index)
    ensures Hit(env, index, request, caller, grants, id) <==>
              var found := Resolve(env, index, request, id);
              && found.Found?
              && PassesFilters(env, request, found.entry.record)
              && MayView(found.entry.record, caller, grants)
              && (request.query != "" ==> TextScore(env, found.entry.record, request.query) != 0.0)
  {
  }

  /** The hits among `ids`, in that order. */
  ghost function HitsIn(env: Environment, index: Index, request: Request, caller: Caller, grants: set<ShareGrant>,
                        usage: Option<map<string, int>>, ids: seq<string>): seq<ScoredEntry>
  {
    if ids == [] then []
    else
      var n := |ids| - 1;
      HitsIn(env, index, request, caller, grants, usage, ids[..n])
      + (if Hit(env, index, request, caller, grants, ids[n]) then [ScoredHit(env, index, request, usage, ids[n])] else [])
  }

  lemma {:induction false} HitsInAreHits(env: Environment, index: Index, request: Request, caller: Caller, grants: set<ShareGrant>,
                                         usage: Option<map<string, int>>, ids: seq<string>)
    requires Filed(index) && forall i, j :: 0 <= i < j < |ids| ==> ids[i] != ids[j]
    ensures var hits := HitsIn(env, index, request, caller, grants, usage, ids);
            && (forall c :: c in hits ==>
                  var id := c.entry.record.id;
                  id in ids && Hit(env, index, request, caller, grants, id) && c == ScoredHit(env, index, request, usage, id))
            && (forall id :: id in ids && Hit(env, index, request, caller, grants, id) ==>
                  ScoredHit(env, index, request, usage, id) in hits)
            && (forall i, j :: 0 <= i < j < |hits| ==> hits[i].entry.record.id != hits[j].entry.record.id)
    decreases |ids|
  {
    hide Resolve, Score;
    if ids != [] {
      var n := |ids| - 1;
      var front, last := ids[..n], ids[n];
      HitsInAreHits(env, index, request, caller, grants, usage, front);
      assert ids == front + [last];
      var earlier := HitsIn(env, index, request, caller, grants, usage, front);
      var hits := HitsIn(env, index, request, caller, grants, usage, ids);
      ResolvedHasId(env, index, request, last);
      forall i | 0 <= i < |earlier|
        ensures earlier[i].entry.record.id != last
      {
        assert earlier[i] in earlier;
        assert earlier[i].entry.record.id in front;
      }
    }
  }

  lemma CandidatesAreMatches(env: Environment, index: Index, request: Request, caller: Caller, grants: set<ShareGrant>,
                             usage: Option<map<string, int>>, ids: seq<string>)
    requires Filed(index) && forall i, j :: 0 <= i < j < |ids| ==> ids[i] != ids[j]
    requires forall id :: id in ids <==> id in IdsOf(index)
    ensures var hits := HitsIn(env, index, request, caller, grants, usage, ids);
            && (set c | c in hits) == Matches(env, index, request, caller, grants, usage)
            && (forall i, j :: 0 <= i < j < |hits| ==> hits[i].entry.record.id != hits[j].entry.record.id)
  {
    hide Resolve, Score, IdsOf;
    HitsInAreHits(env, index, request, caller, grants, usage, ids);
    var hits := HitsIn(env, index, request, caller, grants, usage, ids);
    forall c
      ensures c in hits <==> c in Matches(env, index, request, caller, grants, usage)
    {
      if c in hits {
        var id := c.entry.record.id;
        assert Hit(env, index, request, caller, grants, id);
      }
    }
  }

  lemma SortedIsRanking(candidates: seq<ScoredEntry>, matches: set<ScoredEntry>)
    requires (set c | c in candidates) == matches
    requires forall i, j :: 0 <= i < j < |candidates| ==> candidates[i].entry.record.id != candidates[j].entry.record.id
    ensures Lists(RanksBefore, Sort(RanksBefore, candidates), matches)
  {
    RankingIsStrictOrder();
    forall i, j | 0 <= i < j < |candidates|
      ensures RanksBefore(candidates[i], candidates[j]) || RanksBefore(candidates[j], candidates[i])
    {
      StringLessConnected(candidates[i].entry.record.id, candidates[j].entry.record.id);
    }
    SortLists(RanksBefore, candidates);
  }

  lemma RankingIsUnique(ranking: seq<ScoredEntry>, matches: set<ScoredEntry>, request: Request)
    requires Lists(RanksBefore, ranking, matches)
    ensures IsPageOfMatches(PageOf(ranking, request.page, request.pageSize), request, matches)
  {
    RankingIsStrictOrder();
    forall other | Lists(RanksBefore, other, matches)
      ensures other == ranking
    {
      ListingIsUnique(RanksBefore, other, ranking, matches);
    }
  }

  /** The items of pages 1..k, one after the other. */
  function JoinedPages(ranking: seq<ScoredEntry>, pageSize: int, k: nat): seq<ScoredEntry> {
    if k == 0 then [] else JoinedPages(ranking, pageSize, k - 1) + PageOf(ranking, k, pageSize).items
  }

  lemma TimesMonotone(a: nat, b: nat, n: nat)
    requires a <= b
    ensures a * n <= b * n
  {
  }

  function Prefix<T>(xs: seq<T>, n: nat): seq<T> {
    xs[..if n < |xs| then n else |xs|]
  }

  lemma PageExtendsPrefix(ranking: seq<ScoredEntry>, pageSize: nat, k: nat, seen: nat)
    requires k >= 1 && seen == (k - 1) * pageSize
    ensures Prefix(ranking, seen) + PageOf(ranking, k, pageSize).items == Prefix(ranking, seen + pageSize)
    ensures PageOf(ranking, k, pageSize).nextPage == if seen + pageSize < |ranking| then Some(k + 1) else None
  {
  }

  /** Paging loses and repeats nothing: pages 1..k are the first `k * pageSize`
      matches, and the token is absent exactly from the last page on. */
  lemma {:induction false} PagesCoverRanking(ranking: seq<ScoredEntry>, pageSize: nat, k: nat)
    requires pageSize >= 1
    ensures JoinedPages(ranking, pageSize, k) == Prefix(ranking, k * pageSize)
    ensures k >= 1 ==> (PageOf(ranking, k, pageSize).nextPage == None
                        <==> JoinedPages(ranking, pageSize, k) == ranking)
    ensures k >= 1 && PageOf(ranking, k, pageSize).nextPage.Some? ==> PageOf(ranking, k, pageSize).nextPage == Some(k + 1)
    decreases k
  {
    hide PageOf;
    if k > 0 {
      PagesCoverRanking(ranking, pageSize, k - 1);
      TimesMonotone(0, k - 1, pageSize);
      PageExtendsPrefix(ranking, pageSize, k, (k - 1) * pageSize);
      assert (k - 1) * pageSize + pageSize == k * pageSize;
    }
  }

  /** Passing usage counts never changes which entries match. */
  lemma UsageKeepsMatches(env: Environment, index: Index, request: Request, caller: Caller, grants: set<ShareGrant>,
                          a: Option<map<string, int>>, b: Option<map<string, int>>)
    ensures (set c | c in Matches(env, index, request, caller, grants, a) :: c.entry)
            == (set c | c in Matches(env, index, request, caller, grants, b) :: c.entry)
  {
    hide Hit, Resolve, Score, IdsOf;
    SameEntries(env, index, request, caller, grants, a, b);
    SameEntries(env, index, request, caller, grants, b, a);
  }

  lemma SameEntries(env: Environment, index: Index, request: Request, caller: Caller, grants: set<ShareGrant>,
                    a: Option<map<string, int>>, b: Option<map<string, int>>)
    ensures (set c | c in Matches(env, index, request, caller, grants, a) :: c.entry)
            <= (set c | c in Matches(env, index, request, caller, grants, b) :: c.entry)
  {
    hide Resolve, Score, IdsOf;
    forall c | c in Matches(env, index, request, caller, grants, a)
      ensures c.entry in (set d | d in Matches(env, index, request, caller, grants, b) :: d.entry)
    {
      var id :| id in IdsOf(index) && Hit(env, index, request, caller, grants, id)
                && c == ScoredHit(env, index, request, a, id);
      var d := ScoredHit(env, index, request, b, id);
      assert d in Matches(env, index, request, caller, grants, b) && d.entry == c.entry;
    }
  }

  /** Counts that are all zero rank exactly as no counts at all. */
  lemma ZeroUsageIsNoUsage(env: Environment, index: Index, request: Request, caller: Caller, grants: set<ShareGrant>,
                           usage: map<string, int>)
    requires Bounded(env) && forall id :: id in usage ==> usage[id] <= 0
    ensures Matches(env, index, request, caller, grants, Some(usage)) == Matches(env, index, request, caller, grants, None)
  {
    hide Resolve, IdsOf, TextScore;
    forall id | id in IdsOf(index) && Hit(env, index, request, caller, grants, id)
      ensures ScoredHit(env, index, request, Some(usage), id) == ScoredHit(env, index, request, None, id)
    {
      var record := Resolve(env, index, request, id).entry.record;
      assert UsageBonus(env, Some(usage), record.id) == 0.0;
    }
  }

  /** A text score gap above the usage weight is never overturned by usage. */
  lemma UsageNeverOverturnsRelevance(env: Environment, request: Request, usage: Option<map<string, int>>, a: Entry, b: Entry)
    requires Bounded(env) && request.query != ""
    requires TextScore(env, a.record, request.query) - TextScore(env, b.record, request.query) > WEIGHT_USAGE
    ensures RanksBefore(ScoredEntry(a, Score(env, request, usage, a.record)), ScoredEntry(b, Score(env, request, usage, b.record)))
  {
    assert 0.0 <= UsageBonus(env, usage, a.record.id) && UsageBonus(env, usage, b.record.id) <= WEIGHT_USAGE;
  }
}
