/** `save_page_structure`: the architect's plan, stored whole in the session
    state for the code generator. */
module ArchitectureTools {
  import opened Common
  import opened Json
  import opened Session

  datatype PlanReply = PlanSaved(message: string) | PlanFailed(error: string)

  datatype PlanOutcome = PlanOutcome(reply: PlanReply, ctx: Option<Context>)

  /** The architecture dict, its four parts in Python's insertion order. */
  function Architecture(siteMap: Value, componentSpecs: Value, styleArchitecture: Value,
                        interactionSpecs: Value): Value {
    Obj([Field("site_map", siteMap),
         Field("component_specs", componentSpecs),
         Field("style_architecture", styleArchitecture),
         Field("interaction_specs", interactionSpecs)])
  }

  /** `save_page_structure(site_map, component_specs, style_architecture,
      interaction_specs, tool_context)`. */
  function SavePageStructure(siteMap: Value, componentSpecs: Value, styleArchitecture: Value,
                             interactionSpecs: Value, ctx: Option<Context>): (r: PlanOutcome)
    ensures ctx.None? <==> r.reply.PlanFailed?
    ensures ctx.None? ==> r == PlanOutcome(PlanFailed("No ToolContext available."), None)
    ensures ctx.Some? ==>
      && r.reply == PlanSaved("Architecture saved to state.")
      && r.ctx.Some? && r.ctx.value.sessionId == ctx.value.sessionId
      && "site_architecture" in r.ctx.value.state
      && r.ctx.value.state.Keys == ctx.value.state.Keys + {"site_architecture"}
      && (forall k :: k in ctx.value.state && k != "site_architecture" ==>
            r.ctx.value.state[k] == ctx.value.state[k])
  {
    match ctx
    case None => PlanOutcome(PlanFailed("No ToolContext available."), None)
    case Some(c) =>
      var architecture := Architecture(siteMap, componentSpecs, styleArchitecture, interactionSpecs);
      PlanOutcome(PlanSaved("Architecture saved to state."),
                  Some(WithState(c, c.state["site_architecture" := architecture])))
  }

  // ---------------------------------------------------------------- lemmas

  /** The architecture dict gives back each part under its own key. */
  lemma ArchitectureReadsBack(siteMap: Value, componentSpecs: Value, styleArchitecture: Value,
                              interactionSpecs: Value)
    ensures var fields := Architecture(siteMap, componentSpecs, styleArchitecture, interactionSpecs).fields;
      && Lookup(fields, "site_map") == Some(siteMap)
      && Lookup(fields, "component_specs") == Some(componentSpecs)
      && Lookup(fields, "style_architecture") == Some(styleArchitecture)
      && Lookup(fields, "interaction_specs") == Some(interactionSpecs)
  {
    var fields := Architecture(siteMap, componentSpecs, styleArchitecture, interactionSpecs).fields;
    var ks := Keys(fields);
    assert ks[0][0] == 's' && ks[1][0] == 'c' && ks[2][0] == 's' && ks[3][0] == 'i';
    assert ks[0][1] == 'i' && ks[2][1] == 't';
    forall i | 0 <= i < 4 ensures Lookup(fields, fields[i].key) == Some(fields[i].val) {
      LookupAt(fields, i);
    }
  }

  /** Each part of the plan can be read back from the stored architecture
      exactly as it was given. */
  lemma StoredPlanReadsBack(siteMap: Value, componentSpecs: Value, styleArchitecture: Value,
                            interactionSpecs: Value, ctx: Context)
    ensures var s := SavePageStructure(siteMap, componentSpecs, styleArchitecture, interactionSpecs, Some(ctx))
                       .ctx.value.state;
      && s["site_architecture"].Obj?
      && Keys(s["site_architecture"].fields)
           == ["site_map", "component_specs", "style_architecture", "interaction_specs"]
      && Lookup(s["site_architecture"].fields, "site_map") == Some(siteMap)
      && Lookup(s["site_architecture"].fields, "component_specs") == Some(componentSpecs)
      && Lookup(s["site_architecture"].fields, "style_architecture") == Some(styleArchitecture)
      && Lookup(s["site_architecture"].fields, "interaction_specs") == Some(interactionSpecs)
  {
    var fields := Architecture(siteMap, componentSpecs, styleArchitecture, interactionSpecs).fields;
    assert Keys(fields) == ["site_map", "component_specs", "style_architecture", "interaction_specs"];
    ArchitectureReadsBack(siteMap, componentSpecs, styleArchitecture, interactionSpecs);
  }

  /** The four arguments of one `save_page_structure` call. */
  datatype Plan = Plan(siteMap: Value, componentSpecs: Value, styleArchitecture: Value,
                       interactionSpecs: Value)

  function SavePlan(p: Plan, ctx: Option<Context>): PlanOutcome {
    SavePageStructure(p.siteMap, p.componentSpecs, p.styleArchitecture, p.interactionSpecs, ctx)
  }

  /** A second save replaces the first plan entirely: only the latest plan
      is kept. */
  lemma LatestPlanWins(a: Plan, b: Plan, ctx: Context)
    ensures SavePlan(b, SavePlan(a, Some(ctx)).ctx) == SavePlan(b, Some(ctx))
  {
    var stored := Architecture(b.siteMap, b.componentSpecs, b.styleArchitecture, b.interactionSpecs);
    assert SavePlan(a, Some(ctx)).ctx.value.state["site_architecture" := stored]
        == ctx.state["site_architecture" := stored];
  }
}
