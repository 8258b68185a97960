/**
 * The preview site's content-block library (preview/src/lib/content-blocks.ts):
 * seven lists of blocks (hero, problem, value proposition, testimonial, call
 * to action, stats, pricing), the mapping from every block type to a list,
 * lookup, status updates, A/B test results and the best-performing variant.
 * The library is updated in place in the source; here updates return it, and
 * the date read from the clock is the parameter `today`.
 */
module PreviewBlocks {
  import opened Wrappers
  import opened Seqs
  import opened Keyed

  datatype BlockType =
    | Hero | HeroVideo | Problem | Solution | ValueProp | Testimonial | Pricing | Cta
    | FeatureGrid | Stats | Process | Faq | LogoGrid | CaseStudy | VideoShowcase

  /** A test-result entry: the rates are numbers, the notes text. */
  datatype TestValue = Num(n: real) | Text(s: string)

  datatype Block = Block(
    id: string,
    blockType: BlockType,
    variant: string,
    active: bool,
    lastModified: string,
    testResults: map<string, TestValue>,
    hasVideo: bool)

  datatype Library = Library(
    hero: seq<Block>,
    problem: seq<Block>,
    valueProp: seq<Block>,
    testimonial: seq<Block>,
    cta: seq<Block>,
    stats: seq<Block>,
    pricing: seq<Block>)

  function BlockId(b: Block): string
  {
    b.id
  }

  predicate HasVideo(b: Block)
  {
    b.hasVideo
  }

  predicate IsActiveBlock(b: Block)
  {
    b.active
  }

  /**
   * `getBlockVariants`: the list mapped for the type. Hero video is the hero
   * blocks with a video; solution and feature grid reuse the value
   * propositions, case study the testimonials; the rest map to [].
   */
  function GetBlockVariants(lib: Library, t: BlockType): (r: seq<Block>)
    ensures t in {Process, Faq, LogoGrid, VideoShowcase} ==> r == []
    ensures t in {Solution, FeatureGrid} ==> r == lib.valueProp
    ensures t == CaseStudy ==> r == lib.testimonial
    ensures t == HeroVideo ==> forall b :: b in r <==> b in lib.hero && b.hasVideo
  {
    match t
    case Hero => lib.hero
    case HeroVideo => Filter(lib.hero, HasVideo)
    case Problem => lib.problem
    case Solution => lib.valueProp
    case ValueProp => lib.valueProp
    case Testimonial => lib.testimonial
    case Pricing => lib.pricing
    case Cta => lib.cta
    case FeatureGrid => lib.valueProp
    case Stats => lib.stats
    case Process => []
    case Faq => []
    case LogoGrid => []
    case CaseStudy => lib.testimonial
    case VideoShowcase => []
  }

  /** `getActiveBlocks`: the active blocks of the type's list, in order. */
  function GetActiveBlocks(lib: Library, t: BlockType): (r: seq<Block>)
    ensures forall b :: b in r <==> b in GetBlockVariants(lib, t) && b.active
    ensures IsSubseq(r, GetBlockVariants(lib, t))
  {
    FilterIsSubseq(GetBlockVariants(lib, t), IsActiveBlock);
    Filter(GetBlockVariants(lib, t), IsActiveBlock)
  }

  /** Every block lookup goes through the seven lists in this order. */
  function AllBlocks(lib: Library): seq<Block>
  {
    lib.hero + lib.problem + lib.valueProp + lib.testimonial + lib.cta + lib.stats + lib.pricing
  }

  /** `getBlockById`: the first block with the id across the seven lists. */
  function GetBlockById(lib: Library, id: string): (r: Option<Block>)
    ensures r.None? <==> forall i :: 0 <= i < |AllBlocks(lib)| ==> AllBlocks(lib)[i].id != id
    ensures r.Some? ==> exists p :: 0 <= p < |AllBlocks(lib)| && AllBlocks(lib)[p] == r.value
                                  && r.value.id == id && IsFirstWith(AllBlocks(lib), BlockId, p)
  {
    FirstWith(AllBlocks(lib), BlockId, id)
  }

  /** A hero block is found before any later list is searched. */
  lemma HeroFoundFirst(lib: Library, i: nat)
    requires i < |lib.hero|
    requires forall j :: 0 <= j < i ==> lib.hero[j].id != lib.hero[i].id
    ensures GetBlockById(lib, lib.hero[i].id) == Some(lib.hero[i])
  {
    var all := AllBlocks(lib);
    assert all[i] == lib.hero[i];
  }

  /** Rebuild the library from an updated full list of the same length. */
  function Split(lib: Library, all: seq<Block>): (r: Library)
    requires |all| == |AllBlocks(lib)|
    ensures AllBlocks(r) == all
  {
    var a := |lib.hero|;
    var b := a + |lib.problem|;
    var c := b + |lib.valueProp|;
    var d := c + |lib.testimonial|;
    var e := d + |lib.cta|;
    var f := e + |lib.stats|;
    var r := Library(all[..a], all[a..b], all[b..c], all[c..d], all[d..e], all[e..f], all[f..]);
    assert AllBlocks(r) == all;
    r
  }

  function SetStatus(active: bool, today: string): Block -> Block
  {
    (b: Block) => b.(active := active, lastModified := today)
  }

  /** `updateBlockStatus`: the block `getBlockById` finds gets the flag and is dated; otherwise nothing changes. */
  function UpdateBlockStatus(lib: Library, id: string, active: bool, today: string): (r: Library)
    ensures GetBlockById(lib, id).None? ==> AllBlocks(r) == AllBlocks(lib)
    ensures |AllBlocks(r)| == |AllBlocks(lib)|
    ensures forall i :: 0 <= i < |AllBlocks(lib)| ==>
      AllBlocks(r)[i] == if AllBlocks(lib)[i].id == id && IsFirstWith(AllBlocks(lib), BlockId, i)
                         then AllBlocks(lib)[i].(active := active, lastModified := today)
                         else AllBlocks(lib)[i]
  {
    Split(lib, UpdateFirst(AllBlocks(lib), BlockId, id, SetStatus(active, today)))
  }

  /** After an update, lookup by the id sees the new status. */
  lemma UpdateThenLookup(lib: Library, id: string, active: bool, today: string)
    requires GetBlockById(lib, id).Some?
    ensures GetBlockById(UpdateBlockStatus(lib, id, active, today), id)
      == Some(GetBlockById(lib, id).value.(active := active, lastModified := today))
  {
    UpdatedLibraryLookup(lib, UpdateBlockStatus(lib, id, active, today), id, active, today);
  }

  lemma UpdatedLibraryLookup(lib: Library, r: Library, id: string, active: bool, today: string)
    requires GetBlockById(lib, id).Some?
    requires |AllBlocks(r)| == |AllBlocks(lib)|
    requires forall i :: 0 <= i < |AllBlocks(lib)| ==>
      AllBlocks(r)[i] == if AllBlocks(lib)[i].id == id && IsFirstWith(AllBlocks(lib), BlockId, i)
                         then AllBlocks(lib)[i].(active := active, lastModified := today)
                         else AllBlocks(lib)[i]
    ensures GetBlockById(r, id) == Some(GetBlockById(lib, id).value.(active := active, lastModified := today))
  {
    UpdatedSeqLookup(AllBlocks(lib), AllBlocks(r), id, active, today);
  }

  lemma UpdatedSeqLookup(all: seq<Block>, after: seq<Block>, id: string, active: bool, today: string)
    requires FirstWith(all, BlockId, id).Some?
    requires |after| == |all|
    requires forall i :: 0 <= i < |all| ==>
      after[i] == if all[i].id == id && IsFirstWith(all, BlockId, i)
                  then all[i].(active := active, lastModified := today)
                  else all[i]
    ensures FirstWith(after, BlockId, id) == Some(FirstWith(all, BlockId, id).value.(active := active, lastModified := today))
  {
    var p :| 0 <= p < |all| && all[p] == FirstWith(all, BlockId, id).value && all[p].id == id && IsFirstWith(all, BlockId, p);
    assert after[p].id == id;
    var found := FirstWith(after, BlockId, id);
    var q :| 0 <= q < |after| && after[q] == found.value && found.value.id == id && IsFirstWith(after, BlockId, q);
    UpdatedIsFound(all, after, id, active, today, p, q);
  }

  /**
   * When only the first block with the id is rewritten and ids are kept, the
   * first block with the id afterwards is the rewritten one.
   */
  lemma UpdatedIsFound(all: seq<Block>, after: seq<Block>, id: string, active: bool, today: string, p: nat, q: nat)
    requires |after| == |all|
    requires forall i :: 0 <= i < |all| ==>
      after[i] == if all[i].id == id && IsFirstWith(all, BlockId, i)
                  then all[i].(active := active, lastModified := today)
                  else all[i]
    requires p < |all| && all[p].id == id && IsFirstWith(all, BlockId, p)
    requires q < |after| && after[q].id == id && IsFirstWith(after, BlockId, q)
    ensures after[q] == all[p].(active := active, lastModified := today)
  {
    assert forall i :: 0 <= i < |all| ==> after[i].id == all[i].id;
    assert q == p;
  }

  /** `{ ...old, ...results, lastTested: today }`: later entries win, untouched keys stay. */
  function MergeResults(prev: map<string, TestValue>, results: map<string, TestValue>, today: string): (r: map<string, TestValue>)
    ensures r.Keys == prev.Keys + results.Keys + {"lastTested"}
    ensures r["lastTested"] == Text(today)
    ensures forall k :: k in results && k != "lastTested" ==> r[k] == results[k]
    ensures forall k :: k in prev && k !in results && k != "lastTested" ==> r[k] == prev[k]
  {
    prev + results + map["lastTested" := Text(today)]
  }

  function Record(results: map<string, TestValue>, today: string): Block -> Block
  {
    (b: Block) => b.(testResults := MergeResults(b.testResults, results, today))
  }

  /** `recordTestResult`: merge into the found block's test results; an unknown id changes nothing. */
  function RecordTestResult(lib: Library, id: string, results: map<string, TestValue>, today: string): (r: Library)
    ensures |AllBlocks(r)| == |AllBlocks(lib)|
    ensures forall i :: 0 <= i < |AllBlocks(lib)| ==>
      AllBlocks(r)[i] == if AllBlocks(lib)[i].id == id && IsFirstWith(AllBlocks(lib), BlockId, i)
                         then AllBlocks(lib)[i].(testResults := MergeResults(AllBlocks(lib)[i].testResults, results, today))
                         else AllBlocks(lib)[i]
  {
    Split(lib, UpdateFirst(AllBlocks(lib), BlockId, id, Record(results, today)))
  }

  /** Recording the same results twice gives what recording them once gives. */
  lemma MergeIdempotent(prev: map<string, TestValue>, results: map<string, TestValue>, today: string)
    ensures MergeResults(MergeResults(prev, results, today), results, today) == MergeResults(prev, results, today)
  {
  }

  /** A conversion rate is recorded, numeric and non-zero. */
  predicate HasRate(b: Block)
  {
    "conversionRate" in b.testResults && b.testResults["conversionRate"].Num? && b.testResults["conversionRate"].n != 0.0
  }

  function Rate(b: Block): real
  {
    if "conversionRate" in b.testResults && b.testResults["conversionRate"].Num? then b.testResults["conversionRate"].n else 0.0
  }

  /** `getBestPerformingVariant`: among the type's blocks with a rate, one with the highest. */
  function GetBestPerformingVariant(lib: Library, t: BlockType): (r: Option<Block>)
    ensures var vs := GetBlockVariants(lib, t);
      && (r.None? <==> forall b :: b in vs ==> !HasRate(b))
      && (r.Some? ==> r.value in vs && HasRate(r.value) && forall b :: b in vs && HasRate(b) ==> Rate(b) <= Rate(r.value))
  {
    BestBy(GetBlockVariants(lib, t), HasRate, Rate)
  }

  /** Only the primary hero (12.5%) has a recorded rate among the three hero blocks, so it performs best. */
  lemma BestHeroIsPrimary(lib: Library)
    requires |lib.hero| == 3 && lib.hero[0].id == "hero-primary"
    requires lib.hero[0].testResults.Keys == {"conversionRate", "engagementRate", "notes"}
    requires lib.hero[0].testResults["conversionRate"] == Num(12.5)
    requires lib.hero[1].testResults == map[] && lib.hero[2].testResults == map[]
    ensures GetBestPerformingVariant(lib, Hero) == Some(lib.hero[0])
  {
    assert forall b :: b in lib.hero && HasRate(b) ==> b == lib.hero[0];
  }
}
