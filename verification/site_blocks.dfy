/**
 * The root site's content-block registry (src/lib/content-blocks.ts): eight
 * records of blocks (hero, problem, value, testimonial, call to action,
 * stats, pricing, video) merged into one object keyed by block id. The
 * merged registry is the list of its values in key order; every key is its
 * block's id.
 */
module SiteBlocks {
  import opened Wrappers
  import opened Seqs
  import opened Keyed
  import opened Strings

  datatype BlockKind = Hero | Problem | ValueProp | Testimonial | Cta | Stats | Pricing | VideoShowcase

  datatype Variant = Primary | Secondary | Alternative | TestA | TestB

  datatype SiteBlock = SiteBlock(id: string, kind: BlockKind, variant: Variant)

  function BlockId(b: SiteBlock): string
  {
    b.id
  }

  /** `getBlockById`: the registry entry for the id, or `null`. */
  function GetBlockById(reg: seq<SiteBlock>, id: string): (r: Option<SiteBlock>)
    ensures r.None? <==> forall i :: 0 <= i < |reg| ==> reg[i].id != id
    ensures r.Some? ==> r.value in reg && r.value.id == id
  {
    FirstWith(reg, BlockId, id)
  }

  function OfKind(kind: BlockKind): SiteBlock -> bool
  {
    (b: SiteBlock) => b.kind == kind
  }

  /** `getBlocksByType`: the blocks of the type, in registry order. */
  function GetBlocksByType(reg: seq<SiteBlock>, kind: BlockKind): (r: seq<SiteBlock>)
    ensures forall b :: b in r <==> b in reg && b.kind == kind
    ensures IsSubseq(r, reg)
  {
    FilterIsSubseq(reg, OfKind(kind));
    Filter(reg, OfKind(kind))
  }

  /** The id prefix variants share: the id up to its first '-'. */
  function Family(id: string): (r: string)
    ensures StartsWith(id, r) && '-' !in r
  {
    SplitFirstIsPrefix(id, '-');
    Split(id, '-')[0]
  }

  function IsVariantOf(kind: BlockKind, family: string): SiteBlock -> bool
  {
    (b: SiteBlock) => b.kind == kind && StartsWith(b.id, family)
  }

  /**
   * `getBlockVariants`: for a registered base id, the blocks of the base's
   * type whose id starts with the base id's part before the first '-'; for
   * an unknown id, none.
   */
  function GetBlockVariants(reg: seq<SiteBlock>, baseId: string): (r: seq<SiteBlock>)
    ensures GetBlockById(reg, baseId).None? ==> r == []
    ensures GetBlockById(reg, baseId).Some? ==> forall b :: b in r <==>
      b in reg && b.kind == GetBlockById(reg, baseId).value.kind && StartsWith(b.id, Family(baseId))
    ensures IsSubseq(r, reg)
  {
    match GetBlockById(reg, baseId)
    case None => []
    case Some(base) =>
      FilterIsSubseq(reg, IsVariantOf(base.kind, Family(baseId)));
      Filter(reg, IsVariantOf(base.kind, Family(baseId)))
  }

  /** A registered base block is always among its own variants. */
  lemma BaseIsOwnVariant(reg: seq<SiteBlock>, baseId: string)
    requires GetBlockById(reg, baseId).Some?
    ensures GetBlockById(reg, baseId).value in GetBlockVariants(reg, baseId)
  {
  }

  /** Every variant is of the type of the block it is asked for. */
  lemma VariantsShareType(reg: seq<SiteBlock>, baseId: string)
    requires GetBlockById(reg, baseId).Some?
    ensures forall b :: b in GetBlockVariants(reg, baseId) ==> b in GetBlocksByType(reg, GetBlockById(reg, baseId).value.kind)
  {
  }

  lemma HeroFamily()
    ensures Family("hero-primary") == "hero"
  {
    SplitFirst("hero-primary", '-', 4);
    assert "hero-primary"[..4] == "hero";
  }

  /** The two hero blocks are variants of each other, because both ids begin "hero". */
  lemma HeroTestIsVariantOfPrimary(reg: seq<SiteBlock>)
    requires GetBlockById(reg, "hero-primary") == Some(SiteBlock("hero-primary", Hero, Primary))
    requires SiteBlock("hero-test-a", Hero, TestA) in reg
    ensures SiteBlock("hero-test-a", Hero, TestA) in GetBlockVariants(reg, "hero-primary")
  {
    HeroFamily();
    assert "hero-test-a"[..4] == "hero";
    assert StartsWith("hero-test-a", Family("hero-primary"));
  }
}
