/**
 * scrape.js: read the JSON-LD blocks of each listing page, keep the ones whose
 * `@type` is "Physician", and project each onto a doctor record with defaults
 * for missing fields. The pages are fetched for `page=1` to `page=10` and the
 * records concatenated in page order.
 *
 * Fetching and HTML parsing are not modelled: a page is given as the sequence
 * of its JSON-LD blocks, each either text `JSON.parse` rejects or the value it gives.
 */
module Scraper {
  import opened Js

  datatype Block = Malformed | Parsed(json: Json)

  datatype ScrapedAddress = ScrapedAddress(locality: Json, region: Json)
  datatype ScrapedLocation = ScrapedLocation(latitude: Json, longitude: Json)

  datatype ScrapedDoctor = ScrapedDoctor(
    name: Json,
    specialization: Json,
    description: Json,
    priceRange: Json,
    image: Json,
    url: Json,
    address: ScrapedAddress,
    location: ScrapedLocation,
    rating: Json)

  /** Line 19: `data["@type"] === "Physician"` (reading it off null throws, so null is never one). */
  predicate IsPhysician(block: Block) {
    block.Parsed? && Prop(Some(block.json), "@type") == Some(Some(Str("Physician")))
  }

  /** Lines 20-36: the record pushed for one physician block. */
  function Project(data: Json): (d: ScrapedDoctor)
    ensures Truthy(OptProp(Some(data), "name")) ==> Some(d.name) == OptProp(Some(data), "name")
    ensures !Truthy(OptProp(Some(data), "name")) ==> d.name == Str("")
    ensures Truthy(OptProp(Some(data), "medicalSpecialty")) ==> Some(d.specialization) == OptProp(Some(data), "medicalSpecialty")
    ensures !Truthy(OptProp(Some(data), "medicalSpecialty")) ==> d.specialization == Str("")
    ensures Truthy(OptProp(Some(data), "priceRange")) ==> Some(d.priceRange) == OptProp(Some(data), "priceRange")
    ensures !Truthy(OptProp(Some(data), "priceRange")) ==> d.priceRange == Number(0.0)
    ensures var address := OptProp(Some(data), "address");
      && (Truthy(OptProp(address, "addressLocality")) ==> Some(d.address.locality) == OptProp(address, "addressLocality"))
      && (!Truthy(OptProp(address, "addressLocality")) ==> d.address.locality == Str(""))
      && (Truthy(OptProp(address, "addressRegion")) ==> Some(d.address.region) == OptProp(address, "addressRegion"))
      && (!Truthy(OptProp(address, "addressRegion")) ==> d.address.region == Str(""))
    ensures var geo := OptProp(Some(data), "geo");
      && (Truthy(OptProp(geo, "latitude")) ==> Some(d.location.latitude) == OptProp(geo, "latitude"))
      && (!Truthy(OptProp(geo, "latitude")) ==> d.location.latitude == Str(""))
      && (Truthy(OptProp(geo, "longitude")) ==> Some(d.location.longitude) == OptProp(geo, "longitude"))
      && (!Truthy(OptProp(geo, "longitude")) ==> d.location.longitude == Str(""))
    ensures var rating := OptProp(OptProp(Some(data), "aggregateRating"), "ratingValue");
      && (Truthy(rating) ==> Some(d.rating) == rating)
      && (!Truthy(rating) ==> d.rating == Null)
  {
    var v := Some(data);
    var address, geo := OptProp(v, "address"), OptProp(v, "geo");
    ScrapedDoctor(
      Or(OptProp(v, "name"), Str("")),
      Or(OptProp(v, "medicalSpecialty"), Str("")),
      Or(OptProp(v, "description"), Str("")),
      Or(OptProp(v, "priceRange"), Number(0.0)),
      Or(OptProp(v, "image"), Str("")),
      Or(OptProp(v, "url"), Str("")),
      ScrapedAddress(Or(OptProp(address, "addressLocality"), Str("")), Or(OptProp(address, "addressRegion"), Str(""))),
      ScrapedLocation(Or(OptProp(geo, "latitude"), Str("")), Or(OptProp(geo, "longitude"), Str(""))),
      Or(OptProp(OptProp(v, "aggregateRating"), "ratingValue"), Null))
  }

  /** The records of a page, in block order: the value `scrapeDoctors` resolves to. */
  function Extract(blocks: seq<Block>): (doctors: seq<ScrapedDoctor>)
    ensures |doctors| <= |blocks|
  {
    if blocks == [] then []
    else
      var last := blocks[|blocks| - 1];
      Extract(blocks[..|blocks| - 1]) + (if IsPhysician(last) then [Project(last.json)] else [])
  }

  /** How many blocks of a page are physicians. */
  function PhysicianCount(blocks: seq<Block>): nat {
    if blocks == [] then 0
    else PhysicianCount(blocks[..|blocks| - 1]) + (if IsPhysician(blocks[|blocks| - 1]) then 1 else 0)
  }

  /** Lines 4-44, `scrapeDoctors` once the page is in hand: the `each` loop over the blocks. */
  method ScrapePage(blocks: seq<Block>) returns (doctors: seq<ScrapedDoctor>)
    ensures doctors == Extract(blocks)
  {
    doctors := [];
    var i := 0;
    while i < |blocks|
      invariant 0 <= i <= |blocks|
      invariant doctors == Extract(blocks[..i])
    {
      assert blocks[..i + 1][..i] == blocks[..i];
      var block := blocks[i];
      if block.Parsed? && Prop(Some(block.json), "@type") == Some(Some(Str("Physician"))) {
        doctors := doctors + [Project(block.json)];
      }
      i := i + 1;
    }
    assert blocks[..|blocks|] == blocks;
  }

  /** The records of pages 1 to `n`, in page order. */
  function Collected(pageBlocks: nat -> seq<Block>, n: nat): seq<ScrapedDoctor> {
    if n == 0 then [] else Collected(pageBlocks, n - 1) + Extract(pageBlocks(n))
  }

  /** The physicians on pages 1 to `n`. */
  function TotalPhysicians(pageBlocks: nat -> seq<Block>, n: nat): nat {
    if n == 0 then 0 else TotalPhysicians(pageBlocks, n - 1) + PhysicianCount(pageBlocks(n))
  }

  /** Lines 45-51: scrape pages 1 to 10 and append each page's records. */
  method ScrapeAll(pageBlocks: nat -> seq<Block>) returns (doctors: seq<ScrapedDoctor>)
    ensures doctors == Collected(pageBlocks, 10)
    ensures |doctors| == TotalPhysicians(pageBlocks, 10)
  {
    doctors := [];
    var i := 1;
    while i < 11
      invariant 1 <= i <= 11
      invariant doctors == Collected(pageBlocks, i - 1)
      invariant |doctors| == TotalPhysicians(pageBlocks, i - 1)
    {
      var pageDoctors := ScrapePage(pageBlocks(i));
      ExtractCount(pageBlocks(i));
      doctors := doctors + pageDoctors;
      i := i + 1;
    }
  }

  // ---------------------------------------------------------------- properties

  /** One record per physician block, and no more. */
  lemma {:induction false} ExtractCount(blocks: seq<Block>)
    ensures |Extract(blocks)| == PhysicianCount(blocks)
  {
    if blocks != [] {
      ExtractCount(blocks[..|blocks| - 1]);
    }
  }

  /** The records of two runs of blocks are the records of each, in order. */
  lemma {:induction false} ExtractAppend(a: seq<Block>, b: seq<Block>)
    ensures Extract(a + b) == Extract(a) + Extract(b)
    decreases |b|
  {
    if b == [] {
      assert a + b == a;
    } else {
      var init := b[..|b| - 1];
      assert (a + b)[..|a + b| - 1] == a + init;
      ExtractAppend(a, init);
    }
  }

  lemma ExtractOne(block: Block)
    ensures Extract([block]) == if IsPhysician(block) then [Project(block.json)] else []
  {
    assert [block][..0] == [];
  }

  /** The records around one block, and the block's own record if it has one. */
  lemma ExtractAround(before: seq<Block>, block: Block, after: seq<Block>)
    ensures Extract(before + [block] + after) == Extract(before) + Extract([block]) + Extract(after)
  {
    ExtractAppend(before + [block], after);
    ExtractAppend(before, [block]);
  }

  /** A block that does not parse is skipped; the blocks around it are still read. */
  lemma MalformedSkipped(before: seq<Block>, after: seq<Block>)
    ensures Extract(before + [Malformed] + after) == Extract(before) + Extract(after)
  {
    ExtractAround(before, Malformed, after);
    ExtractOne(Malformed);
  }

  /** A block whose value is null, or not a physician, is skipped as well. */
  lemma NonPhysicianSkipped(before: seq<Block>, block: Block, after: seq<Block>)
    requires !IsPhysician(block)
    ensures Extract(before + [block] + after) == Extract(before) + Extract(after)
  {
    ExtractAround(before, block, after);
    ExtractOne(block);
  }

  /** A physician block contributes exactly its projection, at its place. */
  lemma PhysicianKept(before: seq<Block>, data: Json, after: seq<Block>)
    requires IsPhysician(Parsed(data))
    ensures Extract(before + [Parsed(data)] + after) == Extract(before) + [Project(data)] + Extract(after)
  {
    ExtractAround(before, Parsed(data), after);
    ExtractOne(Parsed(data));
  }

  /** A rating of 0 is stored as null: `||` cannot tell it from a missing one. */
  lemma ZeroRatingBecomesNull(data: Json)
    requires OptProp(OptProp(Some(data), "aggregateRating"), "ratingValue") == Some(Number(0.0))
    ensures Project(data).rating == Null
  {
  }
}
