/**
 * The marketing site's page-template registry
 * (apps/mybenefitsvideos/src/lib/page-templates.ts): three lists of
 * templates (homepage, services, landing), each an ordered list of content
 * sections. Activation, section reordering and toggling update the registry
 * in place in the source; here they return the updated registry, and the
 * date the source reads from the clock is the parameter `today`.
 */
module AppTemplates {
  import opened Wrappers
  import opened Seqs
  import opened Keyed

  datatype PageSection = PageSection(
    id: string,
    blockType: string,
    blockId: string,
    active: bool,
    order: int,
    showOnMobile: Option<bool>)

  datatype PageTemplate = PageTemplate(
    id: string,
    name: string,
    pageKind: string,
    active: bool,
    lastModified: string,
    conversionRate: Option<real>,
    sections: seq<PageSection>)

  datatype TemplateRegistry = TemplateRegistry(homepage: seq<PageTemplate>, services: seq<PageTemplate>, landing: seq<PageTemplate>)

  function TemplateId(t: PageTemplate): string
  {
    t.id
  }

  function SectionId(s: PageSection): string
  {
    s.id
  }

  function SectionOrder(s: PageSection): real
  {
    s.order as real
  }

  function SectionWithOrder(s: PageSection, order: int): PageSection
  {
    s.(order := order)
  }

  // ---------------------------------------------------------------------------
  // Lookup
  // ---------------------------------------------------------------------------

  /** The list registered for a page type: 'homepage', 'services' or 'landing'. */
  function TypeList(reg: TemplateRegistry, pageType: string): (r: Option<seq<PageTemplate>>)
    ensures r.Some? <==> pageType in {"homepage", "services", "landing"}
  {
    if pageType == "homepage" then Some(reg.homepage)
    else if pageType == "services" then Some(reg.services)
    else if pageType == "landing" then Some(reg.landing)
    else None
  }

  /** Every template, homepage list first, then services, then landing. */
  function AllTemplates(reg: TemplateRegistry): seq<PageTemplate>
  {
    reg.homepage + reg.services + reg.landing
  }

  /**
   * `getAllTemplates`: with a page type (a non-empty string) that type's
   * list, or [] for an unknown type; without one, every template.
   */
  function GetAllTemplates(reg: TemplateRegistry, pageType: string): (r: seq<PageTemplate>)
    ensures pageType == "" ==> r == AllTemplates(reg)
    ensures pageType != "" ==> r == TypeList(reg, pageType).GetOr([])
  {
    if pageType == "" then AllTemplates(reg) else TypeList(reg, pageType).GetOr([])
  }

  /** The full list is the three typed lists one after another. */
  lemma AllIsTypedLists(reg: TemplateRegistry)
    ensures GetAllTemplates(reg, "") ==
      GetAllTemplates(reg, "homepage") + GetAllTemplates(reg, "services") + GetAllTemplates(reg, "landing")
  {
  }

  predicate IsActiveTemplate(t: PageTemplate)
  {
    t.active
  }

  /** `getActiveTemplate`: the first active template of the page type; none for an unknown type. */
  function GetActiveTemplate(reg: TemplateRegistry, pageType: string): (r: Option<PageTemplate>)
    ensures TypeList(reg, pageType).None? ==> r.None?
    ensures TypeList(reg, pageType).Some? ==>
      var ts := TypeList(reg, pageType).value;
      && (r.None? <==> forall i :: 0 <= i < |ts| ==> !ts[i].active)
      && (r.Some? ==> exists p :: 0 <= p < |ts| && ts[p] == r.value && r.value.active
                                && forall q :: 0 <= q < p ==> !ts[q].active)
  {
    Find(TypeList(reg, pageType).GetOr([]), IsActiveTemplate)
  }

  // ---------------------------------------------------------------------------
  // Updates
  // ---------------------------------------------------------------------------

  /** Rebuild a registry from an updated full list of the same length. */
  function Split(reg: TemplateRegistry, all: seq<PageTemplate>): (r: TemplateRegistry)
    requires |all| == |AllTemplates(reg)|
    ensures AllTemplates(r) == all
    ensures |r.homepage| == |reg.homepage| && |r.services| == |reg.services| && |r.landing| == |reg.landing|
  {
    var h := |reg.homepage|;
    var s := |reg.services|;
    var r := TemplateRegistry(all[..h], all[h..h + s], all[h + s..]);
    assert AllTemplates(r) == all;
    r
  }

  function Deactivated(ts: seq<PageTemplate>): (r: seq<PageTemplate>)
    ensures |r| == |ts|
    ensures forall i :: 0 <= i < |ts| ==> r[i] == ts[i].(active := false)
  {
    if |ts| == 0 then [] else [ts[0].(active := false)] + Deactivated(ts[1..])
  }

  function MarkActive(today: string): PageTemplate -> PageTemplate
  {
    (t: PageTemplate) => t.(active := true, lastModified := today)
  }

  /** Deactivate every template of the list, then activate the first with the id. */
  function ActivateIn(ts: seq<PageTemplate>, id: string, today: string): (r: seq<PageTemplate>)
    ensures |r| == |ts|
    ensures forall i :: 0 <= i < |ts| ==> r[i] == ts[i].(active := r[i].active, lastModified := r[i].lastModified)
    ensures forall i :: 0 <= i < |ts| ==> (r[i].active <==> ts[i].id == id && IsFirstWith(ts, TemplateId, i))
    ensures forall i :: 0 <= i < |ts| ==> r[i].lastModified == if r[i].active then today else ts[i].lastModified
  {
    var off := Deactivated(ts);
    assert forall i :: 0 <= i < |ts| ==> (IsFirstWith(off, TemplateId, i) <==> IsFirstWith(ts, TemplateId, i)) by {
      forall i | 0 <= i < |ts| ensures IsFirstWith(off, TemplateId, i) <==> IsFirstWith(ts, TemplateId, i) {
        SameKeysSameFirst(off, ts, TemplateId, i);
      }
    }
    UpdateFirst(off, TemplateId, id, MarkActive(today))
  }

  /** After activation at most one template of the list is active, and one is exactly when the id is listed. */
  lemma ActivateLeavesOneActive(ts: seq<PageTemplate>, id: string, today: string)
    ensures var r := ActivateIn(ts, id, today);
      && (forall i, j :: 0 <= i < |r| && 0 <= j < |r| && r[i].active && r[j].active ==> i == j)
      && ((exists i :: 0 <= i < |r| && r[i].active) <==> (exists i :: 0 <= i < |ts| && ts[i].id == id))
  {
    var r := ActivateIn(ts, id, today);
    if exists i :: 0 <= i < |ts| && ts[i].id == id {
      var p := FindIndex(ts, KeyIs(TemplateId, id)).value;
      assert IsFirstWith(ts, TemplateId, p);
      assert r[p].active;
    }
  }

  /**
   * `activateTemplate`: within the page type's list. An empty page type
   * selects every template, so all are deactivated and the first with the
   * id across the lists is activated; an unknown type changes nothing.
   */
  function ActivateTemplate(reg: TemplateRegistry, id: string, pageType: string, today: string): (r: TemplateRegistry)
    ensures pageType == "homepage" ==> r == reg.(homepage := ActivateIn(reg.homepage, id, today))
    ensures pageType == "services" ==> r == reg.(services := ActivateIn(reg.services, id, today))
    ensures pageType == "landing" ==> r == reg.(landing := ActivateIn(reg.landing, id, today))
    ensures pageType == "" ==> AllTemplates(r) == ActivateIn(AllTemplates(reg), id, today)
    ensures pageType !in {"", "homepage", "services", "landing"} ==> r == reg
  {
    if pageType == "homepage" then reg.(homepage := ActivateIn(reg.homepage, id, today))
    else if pageType == "services" then reg.(services := ActivateIn(reg.services, id, today))
    else if pageType == "landing" then reg.(landing := ActivateIn(reg.landing, id, today))
    else if pageType == "" then Split(reg, ActivateIn(AllTemplates(reg), id, today))
    else reg
  }

  /** The template's sections renumbered by the listed ids, dated `today`. */
  function Renumber(newOrder: seq<string>, today: string): PageTemplate -> PageTemplate
  {
    (t: PageTemplate) => t.(sections := Reorder(t.sections, SectionId, SectionWithOrder, newOrder), lastModified := today)
  }

  /**
   * `updateSectionOrder`: in the first template with the id, the i-th
   * listed section id gives order i + 1 (unknown section ids are skipped),
   * and the template is dated; an unknown template changes nothing.
   */
  function UpdateSectionOrder(reg: TemplateRegistry, templateId: string, newOrder: seq<string>, today: string): (r: TemplateRegistry)
    ensures |AllTemplates(r)| == |AllTemplates(reg)|
    ensures forall i :: 0 <= i < |AllTemplates(reg)| ==>
      AllTemplates(r)[i] == if AllTemplates(reg)[i].id == templateId && IsFirstWith(AllTemplates(reg), TemplateId, i)
                            then Renumber(newOrder, today)(AllTemplates(reg)[i])
                            else AllTemplates(reg)[i]
  {
    Split(reg, UpdateFirst(AllTemplates(reg), TemplateId, templateId, Renumber(newOrder, today)))
  }

  /** Renumbering changes only orders: the section ids, blocks and flags stay as they were. */
  lemma RenumberKeepsSections(t: PageTemplate, newOrder: seq<string>, today: string)
    ensures var u := Renumber(newOrder, today)(t);
      && u == t.(sections := u.sections, lastModified := today)
      && |u.sections| == |t.sections|
      && forall i :: 0 <= i < |t.sections| ==> u.sections[i] == t.sections[i].(order := u.sections[i].order)
  {
    var u := Renumber(newOrder, today)(t);
    forall i | 0 <= i < |t.sections|
      ensures u.sections[i] == t.sections[i].(order := u.sections[i].order)
    {
      if t.sections[i].id in newOrder && IsFirstWith(t.sections, SectionId, i) {
        var j :| 0 <= j < |newOrder| && newOrder[j] == t.sections[i].id && u.sections[i] == SectionWithOrder(t.sections[i], j + 1)
          && forall m :: j < m < |newOrder| ==> newOrder[m] != t.sections[i].id;
      }
    }
  }

  function WithSectionActive(active: bool): PageSection -> PageSection
  {
    (s: PageSection) => s.(active := active)
  }

  /** Set the named section's flag; the template is dated only when the section exists. */
  function ToggleIn(t: PageTemplate, sectionId: string, active: bool, today: string): (r: PageTemplate)
    ensures FirstWith(t.sections, SectionId, sectionId).None? ==> r == t
    ensures FirstWith(t.sections, SectionId, sectionId).Some? ==> r.lastModified == today
    ensures r == t.(sections := r.sections, lastModified := r.lastModified)
    ensures |r.sections| == |t.sections|
    ensures forall i :: 0 <= i < |t.sections| ==> r.sections[i] == t.sections[i].(active := r.sections[i].active)
    ensures forall i :: 0 <= i < |t.sections| ==>
      r.sections[i].active == if t.sections[i].id == sectionId && IsFirstWith(t.sections, SectionId, i) then active else t.sections[i].active
  {
    if FirstWith(t.sections, SectionId, sectionId).Some? then
      t.(sections := UpdateFirst(t.sections, SectionId, sectionId, WithSectionActive(active)), lastModified := today)
    else t
  }

  function Toggle(sectionId: string, active: bool, today: string): PageTemplate -> PageTemplate
  {
    (t: PageTemplate) => ToggleIn(t, sectionId, active, today)
  }

  /** `toggleSection`: only the first template with the id is touched, through `ToggleIn`. */
  function ToggleSection(reg: TemplateRegistry, templateId: string, sectionId: string, active: bool, today: string): (r: TemplateRegistry)
    ensures |AllTemplates(r)| == |AllTemplates(reg)|
    ensures forall i :: 0 <= i < |AllTemplates(reg)| ==>
      AllTemplates(r)[i] == if AllTemplates(reg)[i].id == templateId && IsFirstWith(AllTemplates(reg), TemplateId, i)
                            then ToggleIn(AllTemplates(reg)[i], sectionId, active, today)
                            else AllTemplates(reg)[i]
  {
    Split(reg, UpdateFirst(AllTemplates(reg), TemplateId, templateId, Toggle(sectionId, active, today)))
  }

  // ---------------------------------------------------------------------------
  // Section lists
  // ---------------------------------------------------------------------------

  predicate IsActiveSection(s: PageSection)
  {
    s.active
  }

  /** Shown on mobile unless the condition says `false` explicitly. */
  predicate IsMobileSection(s: PageSection)
  {
    s.active && s.showOnMobile != Some(false)
  }

  /** `filter(p).sort(by order)`: the sections kept by `p`, ascending by order, stable. */
  function SortedSections(sections: seq<PageSection>, p: PageSection -> bool): (r: seq<PageSection>)
    ensures forall x :: x in r <==> x in sections && p(x)
    ensures multiset(r) == multiset(Filter(sections, p))
    ensures SortedBy(r, SectionOrder)
  {
    var kept := Filter(sections, p);
    var r := SortBy(kept, SectionOrder);
    assert forall x :: x in r <==> x in kept by {
      forall x ensures x in r <==> x in kept {
        assert x in r <==> x in multiset(r);
        assert x in kept <==> x in multiset(kept);
      }
    }
    r
  }

  /** `getTemplateSections`: the template's active sections by order; [] for an unknown template. */
  function GetTemplateSections(reg: TemplateRegistry, templateId: string): (r: seq<PageSection>)
    ensures FirstWith(AllTemplates(reg), TemplateId, templateId).None? ==> r == []
    ensures FirstWith(AllTemplates(reg), TemplateId, templateId).Some? ==>
      var t := FirstWith(AllTemplates(reg), TemplateId, templateId).value;
      (forall x :: x in r <==> x in t.sections && x.active) && SortedBy(r, SectionOrder)
  {
    match FirstWith(AllTemplates(reg), TemplateId, templateId)
    case None => []
    case Some(t) => SortedSections(t.sections, IsActiveSection)
  }

  /** `getTemplateMobileSections`: as above, also dropping sections hidden on mobile. */
  function GetTemplateMobileSections(reg: TemplateRegistry, templateId: string): (r: seq<PageSection>)
    ensures FirstWith(AllTemplates(reg), TemplateId, templateId).None? ==> r == []
    ensures FirstWith(AllTemplates(reg), TemplateId, templateId).Some? ==>
      var t := FirstWith(AllTemplates(reg), TemplateId, templateId).value;
      (forall x :: x in r <==> x in t.sections && x.active && x.showOnMobile != Some(false)) && SortedBy(r, SectionOrder)
  {
    match FirstWith(AllTemplates(reg), TemplateId, templateId)
    case None => []
    case Some(t) => SortedSections(t.sections, IsMobileSection)
  }

  /** The mobile sections are among the template's sections. */
  lemma MobileSectionsAreActiveSections(reg: TemplateRegistry, templateId: string)
    ensures forall x :: x in GetTemplateMobileSections(reg, templateId) ==> x in GetTemplateSections(reg, templateId)
  {
  }

  // ---------------------------------------------------------------------------
  // Best performer
  // ---------------------------------------------------------------------------

  /** A conversion rate is recorded and non-zero (JavaScript truthiness). */
  predicate HasRate(t: PageTemplate)
  {
    t.conversionRate.Some? && t.conversionRate.value != 0.0
  }

  function Rate(t: PageTemplate): real
  {
    t.conversionRate.GetOr(0.0)
  }

  /** `getBestPerformingTemplate`: among the type's templates with a rate, one with the highest rate. */
  function GetBestPerformingTemplate(reg: TemplateRegistry, pageType: string): (r: Option<PageTemplate>)
    ensures var ts := GetAllTemplates(reg, pageType);
      && (r.None? <==> forall t :: t in ts ==> !HasRate(t))
      && (r.Some? ==> r.value in ts && HasRate(r.value) && forall t :: t in ts && HasRate(t) ==> Rate(t) <= Rate(r.value))
  {
    BestBy(GetAllTemplates(reg, pageType), HasRate, Rate)
  }

  /**
   * The homepage list holds the primary template (rate 12.5) and the
   * ROI-focused one (no recorded rate), so the primary one performs best.
   */
  lemma BestHomepageIsPrimary(reg: TemplateRegistry)
    requires |reg.homepage| == 2
    requires reg.homepage[0].id == "homepage-primary" && reg.homepage[0].conversionRate == Some(12.5)
    requires reg.homepage[1].conversionRate == None
    ensures GetBestPerformingTemplate(reg, "homepage") == Some(reg.homepage[0])
  {
    var ts := reg.homepage;
    assert forall t :: t in ts && HasRate(t) ==> t == ts[0];
  }
}
