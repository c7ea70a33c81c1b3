/**
  The Generic page template: every block of `props.data.data.data` is a
  one-key object `{ <name>: { config, data } }`; the template drops the key
  and hands the value, spread as props, to the component router.
*/
module GenericPage {
  import opened Wrappers
  import opened JsValue
  import opened ComponentRouter

  /** `<ComponentsRouter key={i} {...value} />`: a router element not yet rendered. */
  datatype RouterElement = RouterElement(key: nat, props: Value)

  /** The props a block contributes, or a TypeError when it has no first entry. */
  function BlockProps(block: Value): (r: Completion<Value>)
    ensures r.Normal? <==> FirstEntryValue(block).Normal?
    ensures r.Normal? ==> r.value == Spread(FirstEntryValue(block).value)
  {
    match FirstEntryValue(block)
    case Throws => Throws
    case Normal(value) => Normal(Spread(value))
  }

  /** The callback of `map`, applied in order to `blocks`, numbering from `from`;
      the first block without an entry aborts the whole `map`. */
  function Elements(blocks: seq<Value>, from: nat): (r: Completion<seq<RouterElement>>)
    ensures r.Normal? ==> |r.value| == |blocks|
    ensures r.Normal? ==> forall i :: 0 <= i < |r.value| ==> r.value[i].key == from + i
    decreases |blocks|
  {
    if blocks == [] then Normal([])
    else
      match BlockProps(blocks[0])
      case Throws => Throws
      case Normal(props) =>
        match Elements(blocks[1..], from + 1)
        case Throws => Throws
        case Normal(rest) => Normal([RouterElement(from, props)] + rest)
  }

  /** The map produces one element per block, in block order, keyed by
      position, exactly when every block has a first entry. */
  lemma {:induction false} ElementsSpec(blocks: seq<Value>, from: nat)
    ensures Elements(blocks, from).Normal? <==>
              forall i :: 0 <= i < |blocks| ==> BlockProps(blocks[i]).Normal?
    ensures Elements(blocks, from).Normal? ==>
              var es := Elements(blocks, from).value;
              && |es| == |blocks|
              && forall i :: 0 <= i < |es| ==>
                   es[i] == RouterElement(from + i, BlockProps(blocks[i]).value)
    decreases |blocks|
  {
    if blocks != [] {
      ElementsSpec(blocks[1..], from + 1);
      assert forall i :: 1 <= i < |blocks| ==> blocks[i] == blocks[1..][i - 1];
    }
  }

  /** The block list the template reads: `props.data.data.data`. */
  function Blocks(props: Value): Completion<Option<Value>>
  {
    match Get(Some(props), "data")
    case Throws => Throws
    case Normal(d1) =>
      match Get(d1, "data")
      case Throws => Throws
      case Normal(d2) => Get(d2, "data")
  }

  /** `GenericPage(props)`: throws when the path to the block list is broken,
      when the list is not an array (it has no `map`), or when a block has no
      entry; otherwise one router element per block. */
  function GenericPage(props: Value): (r: Completion<seq<RouterElement>>)
    ensures r.Normal? ==> Blocks(props).Normal? && Blocks(props).value.Some? &&
                          Blocks(props).value.value.Arr?
  {
    match Blocks(props)
    case Throws => Throws
    case Normal(list) =>
      if list.Some? && list.value.Arr? then Elements(list.value.elems, 0) else Throws
  }

  /** What the template promises for a well-formed block list: element `i`
      carries key `i` and the spread value of block `i`'s first entry. */
  lemma GenericPageSpec(props: Value, blocks: seq<Value>)
    requires Blocks(props) == Normal(Some(Arr(blocks)))
    ensures GenericPage(props).Normal? <==>
              forall i :: 0 <= i < |blocks| ==> FirstEntryValue(blocks[i]).Normal?
    ensures GenericPage(props).Normal? ==>
              var es := GenericPage(props).value;
              && |es| == |blocks|
              && forall i :: 0 <= i < |es| ==>
                   es[i] == RouterElement(i, Spread(FirstEntryValue(blocks[i]).value))
  {
    ElementsSpec(blocks, 0);
  }

  /** Only the value of each block's first entry matters: its key and any
      later entries are ignored. */
  lemma {:induction false} OnlyFirstValueMatters(blocks: seq<Value>, other: seq<Value>, from: nat)
    requires |blocks| == |other|
    requires forall i :: 0 <= i < |blocks| ==> FirstEntryValue(blocks[i]) == FirstEntryValue(other[i])
    ensures Elements(blocks, from) == Elements(other, from)
    decreases |blocks|
  {
    if blocks != [] {
      assert FirstEntryValue(blocks[0]) == FirstEntryValue(other[0]);
      OnlyFirstValueMatters(blocks[1..], other[1..], from + 1);
    }
  }

  /** The block `{ name: value }` together with any `extra` entries. */
  lemma ExtraEntriesIgnored(name: string, other: string, value: Value, extra: seq<(string, Value)>)
    ensures Elements([Obj([(name, value)] + extra)], 0) == Elements([Obj([(other, value)])], 0)
    ensures Elements([Obj([(name, value)] + extra)], 0) == Normal([RouterElement(0, Spread(value))])
  {
    var block := Obj([(name, value)] + extra);
    OnlyFirstValueMatters([block], [Obj([(other, value)])], 0);
    assert [block][1..] == [];
    assert Elements([block][1..], 1) == Normal([]);
    assert BlockProps(block) == Normal(Spread(value));
    assert [RouterElement(0, Spread(value))] + [] == [RouterElement(0, Spread(value))];
  }

  /** A block with no entries makes the whole template throw. */
  lemma EmptyBlockThrows(blocks: seq<Value>, i: nat)
    requires i < |blocks| && blocks[i] == Obj([])
    ensures Elements(blocks, 0).Throws?
  {
    ElementsSpec(blocks, 0);
  }

  /** A block `{ hero: { config: { type: "Hero" }, data: d } }` ends at the Hero renderer. */
  lemma HeroBlockScenario(d: Value)
    ensures
      var config := Obj([("type", Str("Hero"))]);
      var block := Obj([("hero", Obj([("config", config), ("data", d)]))]);
      Elements([block], 0) == Normal([RouterElement(0, Obj([("config", config), ("data", d)]))]) &&
      ComponentsRouter(Obj([("config", config), ("data", d)])) == Normal(Render(Hero, config, Some(d)))
  {
    var config := Obj([("type", Str("Hero"))]);
    var props := Obj([("config", config), ("data", d)]);
    var block := Obj([("hero", props)]);
    assert [block][1..] == [];
    assert Elements([block][1..], 1) == Normal([]);
    assert BlockProps(block) == Normal(props);
    assert [RouterElement(0, props)] + [] == [RouterElement(0, props)];
    assert props.members[1..] == [("data", d)];
    assert "config" != "data";
    assert FindMember(props.members[1..], "data") == Some(d);
    assert Member(props, "data") == Some(d);
  }
}
