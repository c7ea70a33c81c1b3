/**
  The page renderer of the web application, reduced to its logic: look the
  slug up, answer "Page not found" when there is no page, otherwise render
  the title `config.data.title` and route the page.
*/
module PageRenderer {
  import opened Wrappers
  import opened JsValue
  import opened ContentfulJoin
  import opened PageRouting

  datatype Rendered = NotFound | Found(title: Option<Value>, element: PageElement)

  /** `PageRenderer({slug})`: the page found for `slug`, its title and its routed template. */
  function RenderPage(configItems: seq<RawEntry>, dataItems: seq<RawEntry>, slug: string): (r: Completion<Rendered>)
    ensures r.Normal? ==> GetPageBySlug(configItems, dataItems, slug).Normal?
    ensures r.Normal? ==> (r.value.NotFound? <==> GetPageBySlug(configItems, dataItems, slug).value.None?)
    ensures r.Normal? && r.value.Found? ==>
              var page := GetPageBySlug(configItems, dataItems, slug).value.value;
              && HasSlug(page, slug)
              && r.value.title == Get(page.config.data, "title").value
              && r.value.element.config == ConfigValue(page.config)
              && r.value.element.data == DataValue(page.data)
  {
    match GetPageBySlug(configItems, dataItems, slug)
    case Throws => Throws
    case Normal(None) => Normal(NotFound)
    case Normal(Some(page)) =>
      match Get(page.config.data, "title")
      case Throws => Throws
      case Normal(title) =>
        match PageRouter(ConfigValue(page.config), DataValue(page.data))
        case Throws => Throws
        case Normal(element) => Normal(Found(title, element))
  }

  /** Rendering a fetched page never throws: "not found" exactly when no page
      has the slug, and otherwise the first such page is routed, with the
      template named by its `config.data.template` and its props unchanged. */
  lemma RenderPageNeverThrows(configItems: seq<RawEntry>, dataItems: seq<RawEntry>, slug: string)
    ensures var pages := FetchAllEntries(configItems, dataItems);
            var r := RenderPage(configItems, dataItems, slug);
            && r.Normal?
            && (r.value.NotFound? <==> forall i :: 0 <= i < |pages| ==> !HasSlug(pages[i], slug))
            && (r.value.Found? ==>
                  var page := GetPageBySlug(configItems, dataItems, slug).value.value;
                  && page in pages
                  && r.value.element.config == ConfigValue(page.config)
                  && r.value.element.data == DataValue(page.data)
                  && r.value.element.template == TemplateFor(Member(page.config.data.value, "template")))
  {
    var pages := FetchAllEntries(configItems, dataItems);
    GetPageBySlugSpec(configItems, dataItems, slug);
    var found := GetPageBySlug(configItems, dataItems, slug);
    assert found.Normal?;
    if found.value.Some? {
      var page := found.value.value;
      assert page in pages;
      FetchedPagesQualify(configItems, dataItems);
      TruthySlugPath(page.config);
      ConfigValueData(page.config);
      var title := Get(page.config.data, "title");
      assert title.Normal?;
      var routed := PageRouter(ConfigValue(page.config), DataValue(page.data));
      assert routed.Normal?;
      assert RenderPage(configItems, dataItems, slug) == Normal(Found(title.value, routed.value));
    } else {
      assert RenderPage(configItems, dataItems, slug) == Normal(NotFound);
    }
  }
}
