/**
  The read path of the web application: the configuration entries and the
  data entries listed by the CMS are projected to flat records, the
  configurations of type "Page" that carry a slug are paired with the first
  data entry pointing at them, unmatched configurations are dropped, and a
  page is looked up by slug.
*/
module ContentfulJoin {
  import opened Wrappers
  import opened JsValue

  /** An entry as the delivery API lists it: its `sys.id` and its `fields` object. */
  datatype RawEntry = RawEntry(sysId: string, fields: seq<(string, Value)>)

  /** `{ id, type, data }` of a configuration entry (`type` is `entryType` here); a field the entry lacks is `None`. */
  datatype ConfigRecord = ConfigRecord(id: string, entryType: Option<Value>, data: Option<Value>)

  /** `{ id, type, configId, data }` of a data entry. */
  datatype DataRecord = DataRecord(id: string, entryType: Option<Value>, configId: Option<Value>, data: Option<Value>)

  /** `{ config, data: pageData }` before the unmatched ones are dropped. */
  datatype Candidate = Candidate(config: ConfigRecord, data: Option<DataRecord>)

  /** A resolved page. */
  datatype Page = Page(config: ConfigRecord, data: DataRecord)

  function Field(e: RawEntry, key: string): Option<Value>
  {
    FindMember(e.fields, key)
  }

  /** `configs.items.map(c => ({ id: c.sys.id, type: c.fields.type, data: c.fields.data }))` */
  function ProjectConfigs(items: seq<RawEntry>): (r: seq<ConfigRecord>)
    ensures |r| == |items|
    ensures forall i :: 0 <= i < |items| ==>
              r[i] == ConfigRecord(items[i].sysId, Field(items[i], "type"), Field(items[i], "data"))
  {
    if items == [] then []
    else [ConfigRecord(items[0].sysId, Field(items[0], "type"), Field(items[0], "data"))] + ProjectConfigs(items[1..])
  }

  /** `datas.items.map(d => ({ id: d.sys.id, type, configId, data }))`, fields read from `d.fields`. */
  function ProjectData(items: seq<RawEntry>): (r: seq<DataRecord>)
    ensures |r| == |items|
    ensures forall i :: 0 <= i < |items| ==>
              r[i] == DataRecord(items[i].sysId, Field(items[i], "type"), Field(items[i], "configId"), Field(items[i], "data"))
  {
    if items == [] then []
    else [DataRecord(items[0].sysId, Field(items[0], "type"), Field(items[0], "configId"), Field(items[0], "data"))]
         + ProjectData(items[1..])
  }

  /** `cfg.data?.data?.slug` */
  function SlugPath(cfg: ConfigRecord): Option<Value>
  {
    OptGet(OptGet(cfg.data, "data"), "slug")
  }

  /** The filter predicate: `cfg.entryType === "Page" && cfg.data?.data?.slug`. */
  predicate IsPageConfig(cfg: ConfigRecord)
  {
    cfg.entryType == Some(Str("Page")) && Truthy(SlugPath(cfg))
  }

  /** The first stage: keep the page configurations, in order. */
  function FilterPages(cfgs: seq<ConfigRecord>): (r: seq<ConfigRecord>)
    ensures |r| <= |cfgs|
    ensures forall c :: c in r <==> c in cfgs && IsPageConfig(c)
  {
    if cfgs == [] then []
    else (if IsPageConfig(cfgs[0]) then [cfgs[0]] else []) + FilterPages(cfgs[1..])
  }

  /** Whether data entry `d` points at configuration `configId` (`d.configId === cfg.id`). */
  predicate PointsAt(d: DataRecord, configId: string)
  {
    d.configId == Some(Str(configId))
  }

  /** `dataMap.find(d => d.configId === cfg.id)`: the first match in data-list order. */
  function FindData(datas: seq<DataRecord>, configId: string): (r: Option<DataRecord>)
    ensures r.None? <==> forall i :: 0 <= i < |datas| ==> !PointsAt(datas[i], configId)
    ensures r.Some? ==> exists i :: 0 <= i < |datas| && datas[i] == r.value && PointsAt(datas[i], configId) &&
                                   forall j :: 0 <= j < i ==> !PointsAt(datas[j], configId)
  {
    if datas == [] then None
    else if PointsAt(datas[0], configId) then Some(datas[0])
    else
      var r := FindData(datas[1..], configId);
      assert forall i :: 1 <= i < |datas| ==> datas[i] == datas[1..][i - 1];
      if r.Some? then
        var i :| 0 <= i < |datas[1..]| && datas[1..][i] == r.value && PointsAt(datas[1..][i], configId) &&
                 forall j :: 0 <= j < i ==> !PointsAt(datas[1..][j], configId);
        assert datas[i + 1] == r.value;
        r
      else r
  }

  /** The second stage: pair each configuration with its data entry, if any. */
  function PairWithData(cfgs: seq<ConfigRecord>, datas: seq<DataRecord>): (r: seq<Candidate>)
    ensures |r| == |cfgs|
    ensures forall i :: 0 <= i < |r| ==> r[i].config == cfgs[i]
    ensures forall i :: 0 <= i < |r| && r[i].data.Some? ==> PointsAt(r[i].data.value, cfgs[i].id)
    ensures forall i :: 0 <= i < |r| && r[i].data.None? ==> forall d :: d in datas ==> !PointsAt(d, cfgs[i].id)
  {
    if cfgs == [] then []
    else [Candidate(cfgs[0], FindData(datas, cfgs[0].id))] + PairWithData(cfgs[1..], datas)
  }

  /** The third stage: `.filter(p => !!p.data)`. */
  function DropUnmatched(cands: seq<Candidate>): (r: seq<Page>)
    ensures |r| <= |cands|
    ensures forall p :: p in r <==> Candidate(p.config, Some(p.data)) in cands
  {
    if cands == [] then []
    else
      (if cands[0].data.Some? then [Page(cands[0].config, cands[0].data.value)] else [])
      + DropUnmatched(cands[1..])
  }

  /** The pages `fetchAllEntries` returns for the two listings it fetched. */
  function FetchAllEntries(configItems: seq<RawEntry>, dataItems: seq<RawEntry>): (r: seq<Page>)
    ensures r == Join(ProjectConfigs(configItems), ProjectData(dataItems))
  {
    PipelineIsJoin(ProjectConfigs(configItems), ProjectData(dataItems));
    DropUnmatched(PairWithData(FilterPages(ProjectConfigs(configItems)), ProjectData(dataItems)))
  }

  /** Reference definition of the join in one pass over the configurations:
      each one yields one page or none, in configuration order. */
  function Join(cfgs: seq<ConfigRecord>, datas: seq<DataRecord>): seq<Page>
  {
    if cfgs == [] then []
    else JoinOne(cfgs[0], datas) + Join(cfgs[1..], datas)
  }

  /** The page (if any) a single configuration contributes. */
  function JoinOne(cfg: ConfigRecord, datas: seq<DataRecord>): seq<Page>
  {
    if IsPageConfig(cfg) && FindData(datas, cfg.id).Some? then [Page(cfg, FindData(datas, cfg.id).value)] else []
  }

  /** The filter / map / filter chain computes the one-pass join. */
  lemma {:induction false} PipelineIsJoin(cfgs: seq<ConfigRecord>, datas: seq<DataRecord>)
    ensures DropUnmatched(PairWithData(FilterPages(cfgs), datas)) == Join(cfgs, datas)
    decreases |cfgs|
  {
    if cfgs != [] {
      PipelineIsJoin(cfgs[1..], datas);
      var head := if IsPageConfig(cfgs[0]) then [cfgs[0]] else [];
      assert FilterPages(cfgs) == head + FilterPages(cfgs[1..]);
      PairAppend(head, FilterPages(cfgs[1..]), datas);
      DropAppend(PairWithData(head, datas), PairWithData(FilterPages(cfgs[1..]), datas));
      if IsPageConfig(cfgs[0]) {
        assert PairWithData(head, datas) == [Candidate(cfgs[0], FindData(datas, cfgs[0].id))] by {
          assert head[1..] == [];
        }
        assert DropUnmatched(PairWithData(head, datas)) == JoinOne(cfgs[0], datas) by {
          var c := PairWithData(head, datas);
          assert c[1..] == [];
        }
      }
    }
  }

  lemma {:induction false} PairAppend(a: seq<ConfigRecord>, b: seq<ConfigRecord>, datas: seq<DataRecord>)
    ensures PairWithData(a + b, datas) == PairWithData(a, datas) + PairWithData(b, datas)
    decreases |a|
  {
    if a != [] {
      assert (a + b)[1..] == a[1..] + b;
      PairAppend(a[1..], b, datas);
    } else {
      assert a + b == b;
    }
  }

  lemma {:induction false} DropAppend(a: seq<Candidate>, b: seq<Candidate>)
    ensures DropUnmatched(a + b) == DropUnmatched(a) + DropUnmatched(b)
    decreases |a|
  {
    if a != [] {
      assert (a + b)[1..] == a[1..] + b;
      DropAppend(a[1..], b);
    } else {
      assert a + b == b;
    }
  }

  /** Output order follows configuration order: the join of a concatenation
      is the concatenation of the joins. */
  lemma {:induction false} JoinAppend(a: seq<ConfigRecord>, b: seq<ConfigRecord>, datas: seq<DataRecord>)
    ensures Join(a + b, datas) == Join(a, datas) + Join(b, datas)
    decreases |a|
  {
    if a != [] {
      assert (a + b)[1..] == a[1..] + b;
      JoinAppend(a[1..], b, datas);
    } else {
      assert a + b == b;
    }
  }

  /** At most one page per configuration; a page is exactly a qualifying
      configuration paired with its first matching data entry. */
  lemma {:induction false} JoinMembers(cfgs: seq<ConfigRecord>, datas: seq<DataRecord>)
    ensures |Join(cfgs, datas)| <= |cfgs|
    ensures forall p :: p in Join(cfgs, datas) <==>
              p.config in cfgs && IsPageConfig(p.config) && FindData(datas, p.config.id) == Some(p.data)
    decreases |cfgs|
  {
    if cfgs != [] {
      JoinMembers(cfgs[1..], datas);
      assert forall c :: c in cfgs <==> c == cfgs[0] || c in cfgs[1..];
    }
  }

  /** The slug a returned page was selected for is a non-empty path. */
  lemma TruthySlugPath(cfg: ConfigRecord)
    requires Truthy(SlugPath(cfg))
    ensures cfg.data.Some? && !cfg.data.value.Null?
    ensures Get(cfg.data, "data").Normal? && Get(cfg.data, "data").value.Some?
    ensures !Get(cfg.data, "data").value.value.Null?
  {
  }

  /** Every returned page is a "Page" configuration with a truthy slug,
      paired with the first data entry (in data-list order) whose `configId`
      is the configuration's id; there are at most as many pages as
      configuration entries. */
  lemma FetchedPagesQualify(configItems: seq<RawEntry>, dataItems: seq<RawEntry>)
    ensures |FetchAllEntries(configItems, dataItems)| <= |configItems|
    ensures forall p :: p in FetchAllEntries(configItems, dataItems) ==>
              && p.config in ProjectConfigs(configItems)
              && p.config.entryType == Some(Str("Page"))
              && Truthy(SlugPath(p.config))
              && PointsAt(p.data, p.config.id)
              && FindData(ProjectData(dataItems), p.config.id) == Some(p.data)
  {
    var cfgs, datas := ProjectConfigs(configItems), ProjectData(dataItems);
    PipelineIsJoin(cfgs, datas);
    JoinMembers(cfgs, datas);
    forall p | p in FetchAllEntries(configItems, dataItems)
      ensures PointsAt(p.data, p.config.id)
    {
      var r := FindData(datas, p.config.id);
      assert r == Some(p.data);
    }
  }

  /** A qualifying configuration appears in the result exactly when some data
      entry points at it; without one it is dropped, without an error. */
  lemma FetchedPagesComplete(configItems: seq<RawEntry>, dataItems: seq<RawEntry>, i: nat)
    requires i < |configItems|
    requires IsPageConfig(ProjectConfigs(configItems)[i])
    ensures var cfg := ProjectConfigs(configItems)[i];
            var found := FindData(ProjectData(dataItems), cfg.id);
            (found.Some? ==> Page(cfg, found.value) in FetchAllEntries(configItems, dataItems)) &&
            (found.None? ==> forall p :: p in FetchAllEntries(configItems, dataItems) ==> p.config != cfg)
  {
    var cfgs, datas := ProjectConfigs(configItems), ProjectData(dataItems);
    PipelineIsJoin(cfgs, datas);
    JoinMembers(cfgs, datas);
    assert cfgs[i] in cfgs;
  }

  /** The listing order of configurations is the order of the pages. */
  lemma FetchFollowsConfigOrder(a: seq<RawEntry>, b: seq<RawEntry>, dataItems: seq<RawEntry>)
    ensures FetchAllEntries(a + b, dataItems) == FetchAllEntries(a, dataItems) + FetchAllEntries(b, dataItems)
  {
    var datas := ProjectData(dataItems);
    assert ProjectConfigs(a + b) == ProjectConfigs(a) + ProjectConfigs(b);
    JoinAppend(ProjectConfigs(a), ProjectConfigs(b), datas);
  }

  /** A single configuration entry yields one page or none. */
  lemma FetchSingleConfig(item: RawEntry, dataItems: seq<RawEntry>)
    ensures var cfg := ProjectConfigs([item])[0];
            FetchAllEntries([item], dataItems) == JoinOne(cfg, ProjectData(dataItems))
  {
  }

  /** The member `(key, v)` when the field is present; JavaScript keeps an
      `undefined` field, but reading it gives `undefined` just as its absence does. */
  function FieldMember(key: string, v: Option<Value>): seq<(string, Value)>
  {
    if v.Some? then [(key, v.value)] else []
  }

  /** A configuration record as the JavaScript object handed to the renderers. */
  function ConfigValue(cfg: ConfigRecord): Value
  {
    Obj([("id", Str(cfg.id))] + FieldMember("type", cfg.entryType) + FieldMember("data", cfg.data))
  }

  /** A data record as the JavaScript object handed to the renderers. */
  function DataValue(d: DataRecord): Value
  {
    Obj([("id", Str(d.id))] + FieldMember("type", d.entryType) + FieldMember("configId", d.configId)
        + FieldMember("data", d.data))
  }

  /** Reading `.data` of the object gives back the record's `data` field. */
  lemma ConfigValueData(cfg: ConfigRecord)
    ensures Member(ConfigValue(cfg), "data") == cfg.data
  {
    var head := [("id", Str(cfg.id))] + FieldMember("type", cfg.entryType);
    var ms := head + FieldMember("data", cfg.data);
    assert ConfigValue(cfg).members == ms;
    assert "id" != "data" && "type" != "data";
    assert forall i :: 0 <= i < |head| ==> head[i].0 != "data";
    if cfg.data.Some? {
      assert ms[|head|] == ("data", cfg.data.value);
    } else {
      assert ms == head;
    }
  }

  /** `p.config.data.data.slug`, which throws if a link of the path is missing. */
  function SlugOf(p: Page): Completion<Option<Value>>
  {
    match Get(p.config.data, "data")
    case Throws => Throws
    case Normal(inner) => Get(inner, "slug")
  }

  predicate HasSlug(p: Page, slug: string)
  {
    SlugOf(p) == Normal(Some(Str(slug)))
  }

  /** `pages.find(p => p.config.data.data.slug === slug)`: the first page with
      that slug, `None` when there is none, or the TypeError of a page whose
      path is broken before it. */
  function FindBySlug(pages: seq<Page>, slug: string): (r: Completion<Option<Page>>)
    ensures (forall i :: 0 <= i < |pages| ==> SlugOf(pages[i]).Normal?) ==>
              && r.Normal?
              && (r.value.None? <==> forall i :: 0 <= i < |pages| ==> !HasSlug(pages[i], slug))
              && (r.value.Some? ==> exists i :: 0 <= i < |pages| && pages[i] == r.value.value &&
                                      HasSlug(pages[i], slug) &&
                                      forall j :: 0 <= j < i ==> !HasSlug(pages[j], slug))
  {
    if pages == [] then Normal(None)
    else
      match SlugOf(pages[0])
      case Throws => Throws
      case Normal(s) =>
        if s == Some(Str(slug)) then Normal(Some(pages[0]))
        else
          var r := FindBySlug(pages[1..], slug);
          assert forall i :: 1 <= i < |pages| ==> pages[i] == pages[1..][i - 1];
          if (forall i :: 0 <= i < |pages| ==> SlugOf(pages[i]).Normal?) && r.Normal? && r.value.Some? then
            var i :| 0 <= i < |pages[1..]| && pages[1..][i] == r.value.value && HasSlug(pages[1..][i], slug) &&
                     forall j :: 0 <= j < i ==> !HasSlug(pages[1..][j], slug);
            assert pages[i + 1] == r.value.value;
            r
          else r
  }

  /** `getPageBySlug(slug)`: fetch, then find. */
  function GetPageBySlug(configItems: seq<RawEntry>, dataItems: seq<RawEntry>, slug: string): (r: Completion<Option<Page>>)
    ensures r.Normal? && r.value.Some? ==>
              r.value.value in FetchAllEntries(configItems, dataItems) && HasSlug(r.value.value, slug)
  {
    FoundPageHasSlug(FetchAllEntries(configItems, dataItems), slug);
    FindBySlug(FetchAllEntries(configItems, dataItems), slug)
  }

  /** Whatever the lookup finds is one of the pages and carries the slug. */
  lemma {:induction false} FoundPageHasSlug(pages: seq<Page>, slug: string)
    ensures var r := FindBySlug(pages, slug);
            r.Normal? && r.value.Some? ==> r.value.value in pages && HasSlug(r.value.value, slug)
    decreases |pages|
  {
    if pages != [] && SlugOf(pages[0]).Normal? && SlugOf(pages[0]).value != Some(Str(slug)) {
      FoundPageHasSlug(pages[1..], slug);
    }
  }

  /** On fetched pages the lookup never throws: it yields the first page whose
      slug is `slug`, or `None` when no page has it. */
  lemma GetPageBySlugSpec(configItems: seq<RawEntry>, dataItems: seq<RawEntry>, slug: string)
    ensures var pages := FetchAllEntries(configItems, dataItems);
            var r := GetPageBySlug(configItems, dataItems, slug);
            && r.Normal?
            && (r.value.None? <==> forall i :: 0 <= i < |pages| ==> !HasSlug(pages[i], slug))
            && (r.value.Some? ==> exists i :: 0 <= i < |pages| && pages[i] == r.value.value &&
                                    HasSlug(pages[i], slug) &&
                                    forall j :: 0 <= j < i ==> !HasSlug(pages[j], slug))
  {
    var pages := FetchAllEntries(configItems, dataItems);
    FetchedPagesQualify(configItems, dataItems);
    forall i | 0 <= i < |pages| ensures SlugOf(pages[i]).Normal? {
      assert pages[i] in pages;
      TruthySlugPath(pages[i].config);
    }
  }

  /** The empty slug is never found: the filter kept only truthy slugs. */
  lemma EmptySlugNotFound(configItems: seq<RawEntry>, dataItems: seq<RawEntry>)
    ensures GetPageBySlug(configItems, dataItems, "") == Normal(None)
  {
    var r := GetPageBySlug(configItems, dataItems, "");
    GetPageBySlugSpec(configItems, dataItems, "");
    if r.value.Some? {
      var p := r.value.value;
      FetchedPagesQualify(configItems, dataItems);
      assert Truthy(SlugPath(p.config));
      TruthySlugPath(p.config);
    }
  }
}
