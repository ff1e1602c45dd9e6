/**
 * The listing endpoint `GET /api/doctors` of app/api/doctors/route.ts: read the
 * query string, narrow the whole doctor collection by search term,
 * specializations and price bucket, let a region filter replace that working
 * set, sort it by the requested key and cut out one page.
 *
 * The two database reads are modelled as one input sequence `base` (the whole
 * collection in storage order); the region read is the case-insensitive
 * region predicate applied to that same sequence.
 */
module ListingQuery {
  import opened Js
  import ArraySort

  datatype Address = Address(locality: string, region: string)
  datatype Location = Location(latitude: string, longitude: string)

  /** A stored doctor row with its address and location relations. */
  datatype Doctor = Doctor(
    id: string,
    name: string,
    specialization: string,
    description: string,
    priceRange: int,
    image: string,
    url: string,
    address: Address,
    location: Location,
    rating: Option<real>)

  // ---------------------------------------------------------------- query string

  /** Decoded `URLSearchParams`: name/value pairs in the order they were appended. */
  type Params = seq<(string, string)>

  /** `searchParams.get(name)`: the first value stored under `name`, or null. */
  function GetParam(params: Params, name: string): (r: Option<string>)
    ensures r.None? <==> forall i :: 0 <= i < |params| ==> params[i].0 != name
    ensures r.Some? ==> (name, r.value) in params
  {
    if params == [] then None
    else if params[0].0 == name then Some(params[0].1)
    else GetParam(params[1..], name)
  }

  /** `get` answers with the value of the first pair that has the name. */
  lemma {:induction false} GetParamFirst(params: Params, name: string)
    ensures var r := GetParam(params, name);
      r.Some? ==> exists i :: FirstNamed(params, name, i) && params[i].1 == r.value
  {
    if params != [] && params[0].0 != name && GetParam(params, name).Some? {
      GetParamFirst(params[1..], name);
      var i :| FirstNamed(params[1..], name, i) && params[1..][i].1 == GetParam(params, name).value;
      assert FirstNamed(params, name, i + 1);
    } else if params != [] && params[0].0 == name {
      assert FirstNamed(params, name, 0);
    }
  }

  /** Pair `i` has the name and no earlier pair does. */
  predicate FirstNamed(params: Params, name: string, i: int) {
    0 <= i < |params| && params[i].0 == name && forall j :: 0 <= j < i ==> params[j].0 != name
  }

  /** `searchParams.getAll(name)`: every value stored under `name`, in order. */
  function GetAllParams(params: Params, name: string): (r: seq<string>)
    ensures |r| <= |params|
    ensures forall v :: v in r ==> (name, v) in params
  {
    if params == [] then []
    else (if params[0].0 == name then [params[0].1] else []) + GetAllParams(params[1..], name)
  }

  /**
   * `getAll` returns every value stored under the name, as many times as it is
   * stored, in the order of the pairs.
   */
  lemma GetAllParamsExact(params: Params, name: string)
    ensures var r := GetAllParams(params, name);
      && (forall v :: multiset(r)[v] == multiset(params)[(name, v)])
      && IsSubsequence(Tagged(name, r), params)
  {
    GetAllParamsCounts(params, name);
    GetAllParamsInOrder(params, name);
  }

  lemma {:induction false} GetAllParamsCounts(params: Params, name: string)
    ensures forall v :: multiset(GetAllParams(params, name))[v] == multiset(params)[(name, v)]
  {
    if params != [] {
      GetAllParamsCounts(params[1..], name);
      var rest := GetAllParams(params[1..], name);
      assert params == [params[0]] + params[1..];
      assert multiset(params) == multiset{params[0]} + multiset(params[1..]);
      if params[0].0 == name {
        assert params[0] == (name, params[0].1);
        assert multiset(GetAllParams(params, name)) == multiset{params[0].1} + multiset(rest);
      } else {
        assert GetAllParams(params, name) == rest;
      }
    }
  }

  lemma {:induction false} GetAllParamsInOrder(params: Params, name: string)
    ensures IsSubsequence(Tagged(name, GetAllParams(params, name)), params)
  {
    if params != [] {
      GetAllParamsInOrder(params[1..], name);
      var rest := GetAllParams(params[1..], name);
      if params[0].0 == name {
        var t := Tagged(name, [params[0].1] + rest);
        assert GetAllParams(params, name) == [params[0].1] + rest;
        assert t[0] == params[0];
        assert t[1..] == Tagged(name, rest);
      } else {
        assert GetAllParams(params, name) == rest;
        SubsequenceOfTail(Tagged(name, rest), params);
      }
    }
  }


  /** The pairs `(name, v)` for the values `v` of `values`. */
  function Tagged(name: string, values: seq<string>): (r: Params)
    ensures |r| == |values|
  {
    seq(|values|, k requires 0 <= k < |values| => (name, values[k]))
  }

  /** `searchParams.get(name) || fallback` */
  function ParamOr(params: Params, name: string, fallback: string): string {
    match GetParam(params, name)
    case None => fallback
    case Some(v) => if v == "" then fallback else v
  }

  datatype Query = Query(
    page: JsNum,
    limit: JsNum,
    search: string,
    specializations: seq<string>,
    priceRange: string,
    region: string,
    sortBy: string)

  /** Lines 8-14: the parameters with their defaults. */
  function ParseQuery(params: Params): Query {
    Query(
      ParseInt(ParamOr(params, "page", "1")),
      ParseInt(ParamOr(params, "limit", "10")),
      ParamOr(params, "search", ""),
      GetAllParams(params, "specialization"),
      ParamOr(params, "priceRange", ""),
      ParamOr(params, "region", ""),
      ParamOr(params, "sortBy", "relevance"))
  }

  /** An empty query string asks for page 1 of 10, unfiltered, in relevance order. */
  lemma EmptyQueryDefaults()
    ensures ParseQuery([]) == Query(Num(1), Num(10), "", [], "", "", "relevance")
  {
    ParseIntNatToString(1);
    ParseIntNatToString(10);
    assert NatToString(1) == "1";
    assert NatToString(10) == "10";
  }

  // ---------------------------------------------------------------- filters

  /** One in-memory `.filter` predicate of the pipeline. */
  datatype Criterion =
    | Search(term: string)
    | Specialty(allowed: seq<string>)
    | PriceBucket(bucket: string)
    | Region(region: string)

  /** Lines 30-35: the lowercased term occurs in the lowercased name, specialization or description. */
  predicate MatchesSearch(d: Doctor, term: string) {
    var t := Lower(term);
    Includes(Lower(d.name), t) || Includes(Lower(d.specialization), t) || Includes(Lower(d.description), t)
  }

  /** The two numbers of a price bucket after `split("-").map(Number)`; `max` is absent without a dash. */
  datatype Bucket = Bucket(min: JsNum, max: Option<JsNum>)

  function ParseBucket(s: string): Bucket {
    var parts := Split(s, '-');
    Bucket(ToNumber(parts[0]), if |parts| >= 2 then Some(ToNumber(parts[1])) else None)
  }

  /** `p >= x` against a JS number: false for NaN. */
  predicate AtLeast(p: int, x: JsNum) {
    x.Num? && p >= x.n
  }

  /** `p < x` against a JS number: false for NaN. */
  predicate Below(p: int, x: JsNum) {
    x.Num? && p < x.n
  }

  /** Lines 47-52: with a truthy `max` the bucket is `[min, max)`, otherwise `[min, ...)`. */
  predicate InBucket(b: Bucket, price: int) {
    if b.max.Some? && NumTruthy(b.max.value) then AtLeast(price, b.min) && Below(price, b.max.value)
    else AtLeast(price, b.min)
  }

  predicate Keeps(c: Criterion, d: Doctor) {
    match c
    case Search(term) => MatchesSearch(d, term)
    case Specialty(allowed) => d.specialization in allowed
    case PriceBucket(bucket) => InBucket(ParseBucket(bucket), d.priceRange)
    case Region(region) =>
      var regionLower := Lower(region);
      Lower(d.address.region) == Lower(regionLower)
  }

  /** `s.filter(d => Keeps(c, d))`: each doctor keeps all its copies or none. */
  function Select(s: seq<Doctor>, c: Criterion): (r: seq<Doctor>)
    ensures |r| <= |s|
    ensures forall d :: multiset(r)[d] == if Keeps(c, d) then multiset(s)[d] else 0
  {
    if s == [] then []
    else
      var rest := Select(s[1..], c);
      assert s == [s[0]] + s[1..];
      if Keeps(c, s[0]) then [s[0]] + rest else rest
  }

  /** `r` is `s` with some elements dropped and the rest in their original order. */
  predicate IsSubsequence<T(==)>(r: seq<T>, s: seq<T>)
    decreases |s|
  {
    r == [] || (s != [] && ((r[0] == s[0] && IsSubsequence(r[1..], s[1..])) || IsSubsequence(r, s[1..])))
  }

  lemma {:induction false} SubsequenceOfTail<T>(r: seq<T>, s: seq<T>)
    requires s != [] && IsSubsequence(r, s[1..])
    ensures IsSubsequence(r, s)
  {
  }

  lemma {:induction false} SubsequenceTransitive(a: seq<Doctor>, b: seq<Doctor>, c: seq<Doctor>)
    requires IsSubsequence(a, b) && IsSubsequence(b, c)
    ensures IsSubsequence(a, c)
    decreases |c|
  {
    if a != [] {
      assert b != [] && c != [];
      if b[0] == c[0] && IsSubsequence(b[1..], c[1..]) {
        if a[0] == b[0] && IsSubsequence(a[1..], b[1..]) {
          SubsequenceTransitive(a[1..], b[1..], c[1..]);
        } else {
          SubsequenceTransitive(a, b[1..], c[1..]);
        }
      } else {
        SubsequenceTransitive(a, b, c[1..]);
      }
    }
  }

  /** Filtering keeps the surviving doctors in their original order. */
  lemma {:induction false} SelectIsSubsequence(s: seq<Doctor>, c: Criterion)
    ensures IsSubsequence(Select(s, c), s)
  {
    if s != [] {
      SelectIsSubsequence(s[1..], c);
      if !Keeps(c, s[0]) {
        SubsequenceOfTail(Select(s, c), s);
      } else {
        assert Select(s, c)[1..] == Select(s[1..], c);
      }
    }
  }

  /** A filter every doctor passes changes nothing. */
  lemma {:induction false} SelectAll(s: seq<Doctor>, c: Criterion)
    requires forall i :: 0 <= i < |s| ==> Keeps(c, s[i])
    ensures Select(s, c) == s
  {
    if s != [] {
      SelectAll(s[1..], c);
    }
  }

  /** An empty term matches every doctor, so skipping the search for "" loses nothing. */
  lemma EmptySearchKeepsAll(s: seq<Doctor>)
    ensures Select(s, Search("")) == s
  {
    forall i | 0 <= i < |s|
      ensures Keeps(Search(""), s[i])
    {
      IncludesEmpty(Lower(s[i].name));
    }
    SelectAll(s, Search(""));
  }

  /** The search ignores ASCII case on both sides: "cardio" finds "Dr. Cardio Patel". */
  lemma SearchIgnoresCase(d: Doctor, term: string)
    ensures MatchesSearch(d, term) <==> MatchesSearch(d, Lower(term))
    ensures MatchesSearch(d, term) <==> MatchesSearch(d.(name := Lower(d.name)), term)
  {
    LowerIdempotent(term);
    LowerIdempotent(d.name);
  }

  /** The stored region matches when it equals the requested one up to ASCII case. */
  lemma RegionIgnoresCase(d: Doctor, region: string)
    ensures Keeps(Region(region), d) <==> Lower(d.address.region) == Lower(region)
  {
    LowerIdempotent(region);
  }

  // ---------------------------------------------------------------- price buckets

  /** `"lo-hi"` with a non-zero `hi` is the half-open range `[lo, hi)`. */
  lemma BucketHalfOpen(lo: string, hi: string, price: int)
    requires AllDigits(lo) && AllDigits(hi) && DigitsValue(hi) != 0
    ensures InBucket(ParseBucket(lo + "-" + hi), price) <==> DigitsValue(lo) <= price < DigitsValue(hi)
  {
    DigitsHaveNoDash(lo);
    DigitsHaveNoDash(hi);
    BucketParts(lo, hi);
    assert ParseBucket(lo + "-" + hi) == Bucket(Num(DigitsValue(lo)), Some(Num(DigitsValue(hi))));
  }

  /** `"lo-hi"` with an empty, zero or non-numeric `hi` is the open range `[lo, ...)`. */
  lemma BucketOpenEnded(lo: string, hi: string, price: int)
    requires AllDigits(lo) && '-' !in hi && !NumTruthy(ToNumber(hi))
    ensures InBucket(ParseBucket(lo + "-" + hi), price) <==> DigitsValue(lo) <= price
  {
    BucketParts(lo, hi);
  }

  /** A bucket with no dash at all is the open range `[lo, ...)` when `lo` is a number. */
  lemma BucketWithoutDash(lo: string, price: int)
    requires AllDigits(lo)
    ensures InBucket(ParseBucket(lo), price) <==> DigitsValue(lo) <= price
  {
    DigitsHaveNoDash(lo);
    SplitJoin([lo], '-');
  }

  /**
   * When the text before the first dash can be no number (a symbol no numeric
   * literal uses, or a `+` after a digit), `min` is NaN and no price passes.
   */
  lemma NaNLowerBoundKeepsNothing(bucket: string, price: int)
    requires NumberRejects(Split(bucket, '-')[0])
    ensures !InBucket(ParseBucket(bucket), price)
  {
  }

  lemma BucketParts(lo: string, hi: string)
    requires '-' !in lo && '-' !in hi
    ensures ParseBucket(lo + "-" + hi) == Bucket(ToNumber(lo), Some(ToNumber(hi)))
  {
    SplitJoin([lo, hi], '-');
    assert Join([lo, hi], '-') == lo + "-" + hi;
  }

  lemma DigitsHaveNoDash(s: string)
    requires AllDigits(s)
    ensures '-' !in s
  {
    forall i | 0 <= i < |s|
      ensures s[i] != '-'
    {
      assert IsDigit(s[i]);
    }
  }

  /** The bucket "1000-2000" keeps a doctor priced 1000 and drops one priced 2000. */
  lemma ThousandToTwoThousand(d: Doctor)
    ensures d.priceRange == 1000 ==> Keeps(PriceBucket("1000-2000"), d)
    ensures d.priceRange == 2000 ==> !Keeps(PriceBucket("1000-2000"), d)
  {
    NatToStringValue(1000);
    NatToStringValue(2000);
    assert NatToString(1000) == "1000";
    assert NatToString(2000) == "2000";
    assert "1000-2000" == "1000" + "-" + "2000";
    BucketHalfOpen("1000", "2000", d.priceRange);
  }

  /** The bucket "3000+" offered by the listing page keeps no doctor at all. */
  lemma ThreeThousandPlusKeepsNothing(s: seq<Doctor>)
    ensures Select(s, PriceBucket("3000+")) == []
  {
    assert !IsDigit("3000+"[4]);
    assert '-' !in "3000+";
    SplitJoin(["3000+"], '-');
    assert Rejected("3000+", 4);
    forall d ensures !Keeps(PriceBucket("3000+"), d) {
      NaNLowerBoundKeepsNothing("3000+", d.priceRange);
    }
    assert forall d :: multiset(Select(s, PriceBucket("3000+")))[d] == 0;
  }

  /** The bucket parse the comment at line 50 describes: a trailing `+` marks an open-ended bucket. */
  function ParseBucketOpenEnded(s: string): Bucket {
    if |s| > 0 && s[|s| - 1] == '+' then Bucket(ToNumber(s[..|s| - 1]), None) else ParseBucket(s)
  }

  /** With the trailing `+` understood, "3000+" keeps exactly the prices from 3000 up. */
  lemma OpenEndedBucketKeepsFrom(lo: string, price: int)
    requires AllDigits(lo)
    ensures InBucket(ParseBucketOpenEnded(lo + "+"), price) <==> DigitsValue(lo) <= price
  {
    assert (lo + "+")[..|lo|] == lo;
  }

  lemma ThreeThousandPlusOpenEnded(price: int)
    ensures InBucket(ParseBucketOpenEnded("3000+"), price) <==> price >= 3000
  {
    NatToStringValue(3000);
    assert NatToString(3000) == "3000";
    assert "3000+" == "3000" + "+";
    OpenEndedBucketKeepsFrom("3000", price);
  }

  // ---------------------------------------------------------------- the working set

  /** Lines 25-53: search, then specializations, then price bucket, each only when given. */
  function Narrowed(base: seq<Doctor>, q: Query): seq<Doctor> {
    var afterSearch := if q.search != "" then Select(base, Search(q.search)) else base;
    var afterSpecialty :=
      if |q.specializations| > 0 then Select(afterSearch, Specialty(q.specializations)) else afterSearch;
    if q.priceRange != "" then Select(afterSpecialty, PriceBucket(q.priceRange)) else afterSpecialty
  }

  /** Lines 56-74: a region replaces the narrowed set by a fresh region-only read. */
  function Working(base: seq<Doctor>, q: Query): seq<Doctor> {
    if q.region != "" then Select(base, Region(q.region)) else Narrowed(base, q)
  }

  /** Whether `d` belongs in the working set of `q`. */
  predicate Admitted(q: Query, d: Doctor) {
    if q.region != "" then Keeps(Region(q.region), d)
    else
      && (q.search == "" || Keeps(Search(q.search), d))
      && (|q.specializations| == 0 || Keeps(Specialty(q.specializations), d))
      && (q.priceRange == "" || Keeps(PriceBucket(q.priceRange), d))
  }

  /** The working set is the base collection in order, keeping exactly the admitted doctors. */
  lemma WorkingSetIsAdmittedSubsequence(base: seq<Doctor>, q: Query)
    ensures IsSubsequence(Working(base, q), base)
    ensures forall d :: multiset(Working(base, q))[d] == if Admitted(q, d) then multiset(base)[d] else 0
  {
    var afterSearch := if q.search != "" then Select(base, Search(q.search)) else base;
    var afterSpecialty :=
      if |q.specializations| > 0 then Select(afterSearch, Specialty(q.specializations)) else afterSearch;
    var narrowed := Narrowed(base, q);
    assert IsSubsequence(afterSearch, base) by {
      if q.search != "" { SelectIsSubsequence(base, Search(q.search)); } else { Reflexive(base); }
    }
    assert IsSubsequence(afterSpecialty, afterSearch) by {
      if |q.specializations| > 0 {
        SelectIsSubsequence(afterSearch, Specialty(q.specializations));
      } else {
        Reflexive(afterSearch);
      }
    }
    assert IsSubsequence(narrowed, afterSpecialty) by {
      if q.priceRange != "" {
        SelectIsSubsequence(afterSpecialty, PriceBucket(q.priceRange));
      } else {
        Reflexive(afterSpecialty);
      }
    }
    if q.region != "" {
      SelectIsSubsequence(base, Region(q.region));
    } else {
      SubsequenceTransitive(afterSpecialty, afterSearch, base);
      SubsequenceTransitive(narrowed, afterSpecialty, base);
    }
  }

  lemma {:induction false} Reflexive(s: seq<Doctor>)
    ensures IsSubsequence(s, s)
  {
    if s != [] {
      Reflexive(s[1..]);
    }
  }

  /** With a region, the search, specialization and price filters have no effect at all. */
  lemma RegionDiscardsEarlierFilters(base: seq<Doctor>, q: Query, search: string, specializations: seq<string>, priceRange: string)
    requires q.region != ""
    ensures Working(base, q) == Working(base, q.(search := search, specializations := specializations, priceRange := priceRange))
    ensures Working(base, q) == Working(base, Query(q.page, q.limit, "", [], "", q.region, q.sortBy))
  {
  }

  // ---------------------------------------------------------------- sorting

  /** The sort keys the handler recognises; any other `sortBy` leaves the order alone. */
  datatype Order = ByRating | PriceLow | PriceHigh

  function OrderOf(sortBy: string): Option<Order> {
    if sortBy == "rating" then Some(ByRating)
    else if sortBy == "price_low" then Some(PriceLow)
    else if sortBy == "price_high" then Some(PriceHigh)
    else None
  }

  /** `d.rating || 0` */
  function RatingOrZero(d: Doctor): real {
    match d.rating
    case None => 0.0
    case Some(r) => r
  }

  /**
   * Lines 79, 82, 85: the comparator handed to `Array.prototype.sort` is
   * positive for `(a, b)`, so `b` belongs before `a`. Only its sign matters.
   */
  predicate Above(o: Order, a: Doctor, b: Doctor) {
    match o
    case ByRating => RatingOrZero(b) - RatingOrZero(a) > 0.0
    case PriceLow => a.priceRange - b.priceRange > 0
    case PriceHigh => b.priceRange - a.priceRange > 0
  }

  /** The comparator of `o` as the sort receives it. */
  function AboveBy(o: Order): (Doctor, Doctor) -> bool {
    (a, b) => Above(o, a, b)
  }

  /** Each comparator orders doctors by a single key, so the sort it drives is well defined. */
  lemma AboveByConsistent(o: Order)
    ensures ArraySort.Consistent(AboveBy(o))
  {
  }

  /** Lines 77-90: sort for a recognised key, otherwise keep the order. */
  function Arrange(sortBy: string, s: seq<Doctor>): seq<Doctor> {
    match OrderOf(sortBy)
    case None => s
    case Some(o) => ArraySort.SortedBy(AboveBy(o), s)
  }

  /** What each sort key promises about the arranged sequence. */
  lemma ArrangeMeaning(sortBy: string, s: seq<Doctor>)
    ensures multiset(Arrange(sortBy, s)) == multiset(s)
    ensures var r := Arrange(sortBy, s);
      sortBy == "rating" ==> forall i, j :: 0 <= i < j < |r| ==> RatingOrZero(r[i]) >= RatingOrZero(r[j])
    ensures var r := Arrange(sortBy, s);
      sortBy == "price_low" ==> forall i, j :: 0 <= i < j < |r| ==> r[i].priceRange <= r[j].priceRange
    ensures var r := Arrange(sortBy, s);
      sortBy == "price_high" ==> forall i, j :: 0 <= i < j < |r| ==> r[i].priceRange >= r[j].priceRange
    ensures OrderOf(sortBy).None? ==> Arrange(sortBy, s) == s
  {
    match OrderOf(sortBy)
    case None =>
    case Some(o) =>
      AboveByConsistent(o);
      ArraySort.SortPermutesAndOrders(AboveBy(o), s);
      var r := ArraySort.SortedBy(AboveBy(o), s);
      match o
      case ByRating => RatingOrdered(r);
      case PriceLow => PriceLowOrdered(r);
      case PriceHigh => PriceHighOrdered(r);
  }

  lemma RatingOrdered(r: seq<Doctor>)
    requires ArraySort.Ordered(AboveBy(ByRating), r)
    ensures forall i, j :: 0 <= i < j < |r| ==> RatingOrZero(r[i]) >= RatingOrZero(r[j])
  {
    forall i, j | 0 <= i < j < |r|
      ensures RatingOrZero(r[i]) >= RatingOrZero(r[j])
    {
      assert !AboveBy(ByRating)(r[i], r[j]);
    }
  }

  lemma PriceLowOrdered(r: seq<Doctor>)
    requires ArraySort.Ordered(AboveBy(PriceLow), r)
    ensures forall i, j :: 0 <= i < j < |r| ==> r[i].priceRange <= r[j].priceRange
  {
    forall i, j | 0 <= i < j < |r|
      ensures r[i].priceRange <= r[j].priceRange
    {
      assert !AboveBy(PriceLow)(r[i], r[j]);
    }
  }

  lemma PriceHighOrdered(r: seq<Doctor>)
    requires ArraySort.Ordered(AboveBy(PriceHigh), r)
    ensures forall i, j :: 0 <= i < j < |r| ==> r[i].priceRange >= r[j].priceRange
  {
    forall i, j | 0 <= i < j < |r|
      ensures r[i].priceRange >= r[j].priceRange
    {
      assert !AboveBy(PriceHigh)(r[i], r[j]);
    }
  }

  /** The listing page's "experience", "fees_low" and "fees_high" choices are not recognised. */
  lemma ListingPageSortKeysIgnored(s: seq<Doctor>)
    ensures Arrange("fees_low", s) == s
    ensures Arrange("fees_high", s) == s
    ensures Arrange("experience", s) == s
    ensures Arrange("relevance", s) == s
  {
  }

  // ---------------------------------------------------------------- pagination

  /** Lines 93-95: `slice((page - 1) * limit, (page - 1) * limit + limit)`. */
  function PageSlice(s: seq<Doctor>, page: JsNum, limit: JsNum): seq<Doctor> {
    var start := if page.Num? && limit.Num? then Num((page.n - 1) * limit.n) else NaN;
    var end := if start.Num? then Num(start.n + limit.n) else NaN;
    Slice(s, start, end)
  }

  /**
   * Line 99, `Math.ceil(n / limit)` as it appears in the JSON response: NaN and
   * Infinity (a NaN or zero limit) serialise as null.
   */
  function PageCount(n: nat, limit: JsNum): Option<int> {
    match limit
    case NaN => None
    case Num(l) =>
      if l == 0 then None
      else if l > 0 then Some((n + l - 1) / l)
      else Some(-(n / -l))
  }

  /** For a positive limit the page count is the least number of pages that hold `n` doctors. */
  lemma PageCountIsCeiling(n: nat, limit: int)
    requires limit >= 1
    ensures PageCount(n, Num(limit)).Some?
    ensures var t := PageCount(n, Num(limit)).value;
      t >= 0 && t * limit >= n && (t - 1) * limit < n
  {
    var t := (n + limit - 1) / limit;
    var rem := (n + limit - 1) % limit;
    assert n + limit - 1 == t * limit + rem;
  }

  /** For page and limit at least 1 the page is the window `[(page-1)*limit, page*limit)` clipped to `s`. */
  lemma PageWindow(s: seq<Doctor>, page: int, limit: int)
    requires page >= 1 && limit >= 1
    ensures var start := (page - 1) * limit;
      var r := PageSlice(s, Num(page), Num(limit));
      && start >= 0
      && |r| <= limit
      && (start < |s| ==> r == s[start..if start + limit < |s| then start + limit else |s|])
      && (start >= |s| ==> r == [])
  {
    MulMonotone(page - 1, 0, limit);
    SliceWindow(s, (page - 1) * limit, limit);
  }

  /** `slice(start, start + limit)` for a non-negative start. */
  lemma SliceWindow(s: seq<Doctor>, start: nat, limit: nat)
    ensures var r := Slice(s, Num(start), Num(start + limit));
      && |r| <= limit
      && (start < |s| ==> r == s[start..if start + limit < |s| then start + limit else |s|])
      && (start >= |s| ==> r == [])
  {
  }

  /** A page is empty exactly when it lies beyond the last page. */
  lemma EmptyPageIffBeyondLast(s: seq<Doctor>, page: int, limit: int)
    requires page >= 1 && limit >= 1
    ensures PageSlice(s, Num(page), Num(limit)) == [] <==> page > PageCount(|s|, Num(limit)).value
  {
    PageWindow(s, page, limit);
    PageCountIsCeiling(|s|, limit);
    var t := PageCount(|s|, Num(limit)).value;
    if page > t {
      assert page - 1 >= t;
      MulMonotone(page - 1, t, limit);
    } else {
      MulMonotone(t - 1, page - 1, limit);
    }
  }

  lemma MulMonotone(a: int, b: int, c: int)
    requires a >= b && c >= 0
    ensures a * c >= b * c
  {
  }

  // ---------------------------------------------------------------- the handler

  datatype ListResponse = ListResponse(
    doctors: seq<Doctor>,
    totalPages: Option<int>,
    currentPage: Option<int>,
    totalDoctors: nat)

  /**
   * `GET(request)`: the working set is rebound step by step, sorted in place and
   * sliced. `base` is the collection `findMany` returns.
   */
  method Get(base: seq<Doctor>, params: Params) returns (resp: ListResponse)
    ensures var q := ParseQuery(params);
      var working := Working(base, q);
      && resp.totalDoctors == |working|
      && resp.doctors == PageSlice(Arrange(q.sortBy, working), q.page, q.limit)
      && resp.totalPages == PageCount(|working|, q.limit)
      && resp.currentPage == (if q.page.Num? then Some(q.page.n) else None)
  {
    var q := ParseQuery(params);
    var filtered := FilterDoctors(base, q);
    var sorted := SortDoctors(filtered, q.sortBy);
    resp := ListResponse(
      PageSlice(sorted, q.page, q.limit),
      PageCount(|sorted|, q.limit),
      if q.page.Num? then Some(q.page.n) else None,
      |sorted|);
  }

  /** Lines 25-74: `filteredDoctors` rebound by each filter that applies. */
  method FilterDoctors(base: seq<Doctor>, q: Query) returns (filtered: seq<Doctor>)
    ensures filtered == Working(base, q)
  {
    filtered := base;
    if q.search != "" {
      filtered := Select(filtered, Search(q.search));
    }
    if |q.specializations| > 0 {
      filtered := Select(filtered, Specialty(q.specializations));
    }
    if q.priceRange != "" {
      filtered := Select(filtered, PriceBucket(q.priceRange));
    }
    if q.region != "" {
      filtered := Select(base, Region(q.region));
    }
  }

  /** Lines 77-90: `filteredDoctors.sort(...)` for a recognised key, in place. */
  method SortDoctors(filtered: seq<Doctor>, sortBy: string) returns (sorted: seq<Doctor>)
    ensures sorted == Arrange(sortBy, filtered)
  {
    var a := new Doctor[|filtered|](i requires 0 <= i < |filtered| => filtered[i]);
    assert a[..] == filtered;
    match OrderOf(sortBy) {
      case None =>
      case Some(o) => ArraySort.SortInPlace(a, AboveBy(o));
    }
    sorted := a[..];
  }
}
