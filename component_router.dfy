/**
  The component-level dispatch of the UI package: a block's `config.type`
  selects one of four renderers; anything else becomes an
  "Unknown component" placeholder.
*/
module ComponentRouter {
  import opened Wrappers
  import opened JsValue

  datatype Renderer = Hero | Card | MyImage | Button

  /** What the router returns: a renderer given the props it was called
      with, or the placeholder showing the unmatched `config.type`. */
  datatype ComponentElement =
    | Render(renderer: Renderer, config: Value, data: Option<Value>)
    | UnknownComponent(typeTag: Option<Value>)

  /** The registry of component types, as an independent table. */
  const Registry: map<string, Renderer> :=
    map["Hero" := Hero, "Card" := Card, "Image" := MyImage, "Button" := Button]

  /** The renderer a `config.type` selects: exact string comparison. */
  function RendererFor(typeTag: Option<Value>): (r: Option<Renderer>)
    ensures r.Some? <==> typeTag.Some? && typeTag.value.Str? && typeTag.value.s in Registry
    ensures r.Some? ==> r.value == Registry[typeTag.value.s]
  {
    if typeTag == Some(Str("Hero")) then Some(Hero)
    else if typeTag == Some(Str("Card")) then Some(Card)
    else if typeTag == Some(Str("Image")) then Some(MyImage)
    else if typeTag == Some(Str("Button")) then Some(Button)
    else None
  }

  /** `ComponentsRouter(props)`: reads `props.config`, `props.data` and then
      `config.type`, which throws when `config` is missing or null. */
  function ComponentsRouter(props: Value): (r: Completion<ComponentElement>)
    ensures r.Throws? <==> Member(props, "config").None? || Member(props, "config").value.Null?
    ensures r.Normal? ==>
      var config := Member(props, "config").value;
      var tag := Member(config, "type");
      if tag.Some? && tag.value.Str? && tag.value.s in Registry
      then r.value == Render(Registry[tag.value.s], config, Member(props, "data"))
      else r.value == UnknownComponent(tag)
  {
    var config := Member(props, "config");
    var data := Member(props, "data");
    match Get(config, "type")
    case Throws => Throws
    case Normal(tag) =>
      match RendererFor(tag)
      case Some(renderer) => Normal(Render(renderer, config.value, data))
      case None => Normal(UnknownComponent(tag))
  }

  /** Every props object whose `config` is a non-null value is dispatched:
      the placeholder absorbs every unregistered type. */
  lemma DispatchIsTotal(props: Value)
    requires Member(props, "config").Some? && !Member(props, "config").value.Null?
    ensures ComponentsRouter(props).Normal?
    ensures ComponentsRouter(props).value.Render? || ComponentsRouter(props).value.UnknownComponent?
  {
  }

  /** Matching is case-sensitive: lower-case spellings are unknown types. */
  lemma CaseSensitive()
    ensures forall tag :: tag in ["hero", "card", "image", "button", "HERO"] ==>
      ComponentsRouter(Obj([("config", Obj([("type", Str(tag))]))])) ==
      Normal(UnknownComponent(Some(Str(tag))))
  {
  }
}
