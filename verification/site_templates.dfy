/**
 * The root site's page assembly (src/lib/page-templates.ts): a registry of
 * templates keyed by id (homepage, service, calculator and about pages,
 * merged in that order), each a list of content-block sections. The
 * registry is the list of its values in key order; every key is its
 * template's id.
 */
module SiteTemplates {
  import opened Wrappers
  import opened Seqs
  import opened Keyed
  import opened JsNum
  import SiteNavigation

  datatype Section = Section(blockId: string, enabled: bool, order: int)

  datatype SiteTemplate = SiteTemplate(id: string, name: string, route: string, sections: seq<Section>)

  function TemplateId(t: SiteTemplate): string
  {
    t.id
  }

  function SectionOrder(s: Section): real
  {
    s.order as real
  }

  /** `getPageTemplate`: the registry entry for the id, or `null`. */
  function GetPageTemplate(reg: seq<SiteTemplate>, id: string): (r: Option<SiteTemplate>)
    ensures r.None? <==> forall i :: 0 <= i < |reg| ==> reg[i].id != id
    ensures r.Some? ==> r.value in reg && r.value.id == id
  {
    FirstWith(reg, TemplateId, id)
  }

  function OnRoute(route: string): SiteTemplate -> bool
  {
    (t: SiteTemplate) => t.route == route
  }

  /** `getTemplatesByRoute`: the templates on the route, in registry order. */
  function GetTemplatesByRoute(reg: seq<SiteTemplate>, route: string): (r: seq<SiteTemplate>)
    ensures forall t :: t in r <==> t in reg && t.route == route
    ensures IsSubseq(r, reg)
  {
    FilterIsSubseq(reg, OnRoute(route));
    Filter(reg, OnRoute(route))
  }

  /** With the two homepage templates first and no other template on '/', the home route has exactly those two. */
  lemma HomeRouteHasTwoTemplates(home1: SiteTemplate, home2: SiteTemplate, rest: seq<SiteTemplate>)
    requires home1.route == "/" && home2.route == "/"
    requires forall t :: t in rest ==> t.route != "/"
    ensures GetTemplatesByRoute([home1, home2] + rest, "/") == [home1, home2]
  {
    FilterConcat([home1, home2], rest, OnRoute("/"));
    assert forall i :: 0 <= i < |rest| ==> rest[i] in rest;
    FilterNone(rest, OnRoute("/"));
    assert [home1, home2][1..] == [home2];
  }

  predicate IsEnabled(s: Section)
  {
    s.enabled
  }

  /** `assemblePageSections`: the enabled sections ascending by order (stable); the template is untouched. */
  function AssemblePageSections(t: SiteTemplate): (r: seq<Section>)
    ensures forall x :: x in r <==> x in t.sections && x.enabled
    ensures multiset(r) == multiset(Filter(t.sections, IsEnabled))
    ensures SortedBy(r, SectionOrder)
  {
    SortByMembers(Filter(t.sections, IsEnabled), SectionOrder);
    SortBy(Filter(t.sections, IsEnabled), SectionOrder)
  }

  /** Enabled sections with equal orders keep their listed order. */
  lemma AssembleIsStable(t: SiteTemplate, order: int)
    ensures WithKey(AssemblePageSections(t), SectionOrder, order as real) == WithKey(Filter(t.sections, IsEnabled), SectionOrder, order as real)
  {
    SortByIsStable(Filter(t.sections, IsEnabled), SectionOrder, order as real);
  }

  /**
   * The result of an edit. `BadArgument` is a section index outside the
   * list or an order list shorter than the sections: the source then builds
   * sections with undefined fields, which this model does not represent.
   */
  datatype Edit = Edited(template: SiteTemplate) | UnknownTemplate | BadArgument

  /** `Partial<PageSection>`: the fields an update sets. */
  datatype SectionUpdate = SectionUpdate(blockId: Option<string>, enabled: Option<bool>, order: Option<int>)

  /** `{ ...section, ...updates }`. */
  function Merge(s: Section, u: SectionUpdate): (r: Section)
    ensures r.blockId == (if u.blockId.Some? then u.blockId.value else s.blockId)
    ensures r.enabled == (if u.enabled.Some? then u.enabled.value else s.enabled)
    ensures r.order == (if u.order.Some? then u.order.value else s.order)
  {
    Section(u.blockId.GetOr(s.blockId), u.enabled.GetOr(s.enabled), u.order.GetOr(s.order))
  }

  /** `updatePageSection`: a copy of the template with only the indexed section merged with the updates. */
  function UpdatePageSection(reg: seq<SiteTemplate>, id: string, index: int, u: SectionUpdate): (r: Edit)
    ensures GetPageTemplate(reg, id).None? <==> r.UnknownTemplate?
    ensures r.Edited? ==>
      var t := GetPageTemplate(reg, id).value;
      && 0 <= index < |t.sections|
      && r.template == t.(sections := r.template.sections)
      && |r.template.sections| == |t.sections|
      && r.template.sections[index] == Merge(t.sections[index], u)
      && forall i :: 0 <= i < |t.sections| && i != index ==> r.template.sections[i] == t.sections[i]
    ensures r.BadArgument? ==> !(0 <= index < |GetPageTemplate(reg, id).value.sections|)
  {
    match GetPageTemplate(reg, id)
    case None => UnknownTemplate
    case Some(t) =>
      if 0 <= index < |t.sections| then Edited(t.(sections := t.sections[index := Merge(t.sections[index], u)]))
      else BadArgument
  }

  /** An update that sets nothing returns the registered template; repeating an update changes nothing more. */
  lemma MergeLaws(s: Section, u: SectionUpdate)
    ensures Merge(s, SectionUpdate(None, None, None)) == s
    ensures Merge(Merge(s, u), u) == Merge(s, u)
  {
  }

  /** Section i takes order `newOrder[i]`. */
  function Renumbered(sections: seq<Section>, newOrder: seq<int>): (r: seq<Section>)
    requires |newOrder| >= |sections|
    ensures |r| == |sections|
    ensures forall i :: 0 <= i < |sections| ==> r[i] == sections[i].(order := newOrder[i])
  {
    if |sections| == 0 then [] else [sections[0].(order := newOrder[0])] + Renumbered(sections[1..], newOrder[1..])
  }

  /** `reorderPageSections`: section i takes order `newOrder[i]`, then the sections are sorted by order. */
  function ReorderPageSections(reg: seq<SiteTemplate>, id: string, newOrder: seq<int>): (r: Edit)
    ensures GetPageTemplate(reg, id).None? <==> r.UnknownTemplate?
    ensures r.BadArgument? <==> GetPageTemplate(reg, id).Some? && |newOrder| < |GetPageTemplate(reg, id).value.sections|
    ensures r.Edited? ==>
      var t := GetPageTemplate(reg, id).value;
      && r.template == t.(sections := r.template.sections)
      && multiset(r.template.sections) == multiset(Renumbered(t.sections, newOrder))
      && SortedBy(r.template.sections, SectionOrder)
      && SameTieOrder(r.template.sections, Renumbered(t.sections, newOrder), SectionOrder)
  {
    match GetPageTemplate(reg, id)
    case None => UnknownTemplate
    case Some(t) =>
      if |newOrder| < |t.sections| then BadArgument
      else
        SortByKeepsTieOrder(Renumbered(t.sections, newOrder), SectionOrder);
        Edited(t.(sections := SortBy(Renumbered(t.sections, newOrder), SectionOrder)))
  }

  /** Reordering with the orders the sections already have, when they are ascending, returns the template as it is. */
  lemma ReorderWithCurrentOrders(reg: seq<SiteTemplate>, id: string, newOrder: seq<int>)
    requires GetPageTemplate(reg, id).Some?
    requires var t := GetPageTemplate(reg, id).value;
      |newOrder| == |t.sections| && (forall i :: 0 <= i < |t.sections| ==> newOrder[i] == t.sections[i].order)
      && SortedBy(t.sections, SectionOrder)
    ensures ReorderPageSections(reg, id, newOrder) == Edited(GetPageTemplate(reg, id).value)
  {
    var t := GetPageTemplate(reg, id).value;
    var renumbered := Renumbered(t.sections, newOrder);
    assert renumbered == t.sections;
    SortBySorted(t.sections, SectionOrder);
  }

  /**
   * `getActiveTemplate`: with at most one template on the route its id (or
   * 'default' when there is none or its id is empty); otherwise the visitor's
   * string hash picks the first of them when its magnitude modulo 100 is
   * below 50, else the second.
   */
  function GetActiveTemplate(reg: seq<SiteTemplate>, route: string, visitorId: string): (r: string)
    ensures var ts := GetTemplatesByRoute(reg, route);
      && (r == "default" || exists t :: t in ts && t.id == r)
      && (|ts| == 0 ==> r == "default")
      && (|ts| == 1 ==> r == if ts[0].id != "" then ts[0].id else "default")
      && (|ts| >= 2 ==> r == if Abs(StringHash(visitorId)) % 100 < 50 then ts[0].id else ts[1].id)
  {
    var ts := GetTemplatesByRoute(reg, route);
    if |ts| <= 1 then
      if |ts| == 1 && ts[0].id != "" then ts[0].id else "default"
    else if Abs(StringHash(visitorId)) % 100 < 50 then ts[0].id else ts[1].id
  }

  /**
   * The home-page template and the navigation variant use the same bucket:
   * a visitor who sees the standard navigation gets the first template on '/'.
   */
  lemma HomeTemplateFollowsNavigation(reg: seq<SiteTemplate>, visitorId: string)
    requires |GetTemplatesByRoute(reg, "/")| >= 2
    ensures var ts := GetTemplatesByRoute(reg, "/");
      GetActiveTemplate(reg, "/", visitorId) ==
        if SiteNavigation.NavigationVariant(visitorId, "/") == SiteNavigation.StandardNav then ts[0].id else ts[1].id
  {
  }
}
