/**
  The page-level dispatch of the UI package: `config.data.template` selects
  a page template, and every other string (or no string at all) selects
  the Generic template.
*/
module PageRouting {
  import opened Wrappers
  import opened JsValue

  datatype PageTemplate = GenericTemplate | HomeTemplate | InsightsTemplate | PressReleaseTemplate

  /** The template element the router returns, with the props it passes on. */
  datatype PageElement = PageElement(template: PageTemplate, config: Value, data: Value)

  /** The registered template names, as an independent table. */
  const Templates: map<string, PageTemplate> :=
    map["generic" := GenericTemplate, "home" := HomeTemplate,
        "insights" := InsightsTemplate, "pressrelease" := PressReleaseTemplate]

  /** The `switch` on the template name, with its `default` branch. */
  function TemplateFor(template: Option<Value>): (r: PageTemplate)
    ensures template.Some? && template.value.Str? && template.value.s in Templates ==>
              r == Templates[template.value.s]
    ensures !(template.Some? && template.value.Str? && template.value.s in Templates) ==>
              r == GenericTemplate
  {
    if template == Some(Str("generic")) then GenericTemplate
    else if template == Some(Str("home")) then HomeTemplate
    else if template == Some(Str("insights")) then InsightsTemplate
    else if template == Some(Str("pressrelease")) then PressReleaseTemplate
    else GenericTemplate
  }

  /** `PageRouter({config, data})`: reading `config.data.template` throws when
      `config` or `config.data` is null or missing; otherwise a template is
      always chosen and receives `config` and `data` unchanged. */
  function PageRouter(config: Value, data: Value): (r: Completion<PageElement>)
    ensures r.Throws? <==> config.Null? || Member(config, "data").None? || Member(config, "data").value.Null?
    ensures r.Normal? ==> r.value.config == config && r.value.data == data
    ensures r.Normal? ==> r.value.template == TemplateFor(Member(Member(config, "data").value, "template"))
  {
    match Get(Some(config), "data")
    case Throws => Throws
    case Normal(configData) =>
      match Get(configData, "template")
      case Throws => Throws
      case Normal(template) => Normal(PageElement(TemplateFor(template), config, data))
  }

  /** A configuration carrying only a template name, for the lemmas below. */
  function WithTemplate(name: string): Value
  {
    Obj([("data", Obj([("template", Str(name))]))])
  }

  /** Names differing from a registered one only in case fall back to Generic,
      and so does a configuration without a template. */
  lemma CaseSensitiveFallback(data: Value)
    ensures PageRouter(WithTemplate("Home"), data).value.template == GenericTemplate
    ensures PageRouter(WithTemplate("INSIGHTS"), data).value.template == GenericTemplate
    ensures PageRouter(WithTemplate("PressRelease"), data).value.template == GenericTemplate
    ensures PageRouter(Obj([("data", Obj([]))]), data).value.template == GenericTemplate
  {
  }
}
