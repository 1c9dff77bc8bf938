/** Side packs: layers that complete every branch and tag beside the default
    branch (rust/src/branches.rs, `side_tips` and `side_pack`;
    rust/src/server/refs.rs, `publish_branches`). */
module SidePacks {
  import opened Clonepack
  import opened Histories

  const SIDE_LAYERS: nat := 8

  /** A branch or tag and what it names. */
  datatype Ref = Ref(name: Bytes, id: Oid)

  datatype MirrorRefs = MirrorRefs(defaultBranch: Option<Bytes>, branches: seq<Ref>, tags: seq<Ref>)

  /** The default branch's commit. */
  function Base(refs: MirrorRefs): Option<Oid> {
    if refs.defaultBranch.None? then None else FirstNamed(refs.branches, refs.defaultBranch.value)
  }

  function FirstNamed(branches: seq<Ref>, name: Bytes): Option<Oid> {
    if branches == [] then None else if branches[0].name == name then Some(branches[0].id)
      else FirstNamed(branches[1..], name)
  }

  /** The ids that need more than the default branch. The source makes a sorted
      list without duplicates of them; here they are a set. */
  function SideTips(refs: MirrorRefs): set<Oid> {
    (set i | 0 <= i < |refs.branches| && Some(refs.branches[i].name) != refs.defaultBranch :: refs.branches[i].id)
      + (set i | 0 <= i < |refs.tags| :: refs.tags[i].id)
  }

  ghost function ReachAll(g: Graph, tips: set<Oid>): Objects {
    set t, x | t in tips && x in g.reach(t) :: x
  }

  /** `pack-objects`: everything the tips reach that the excluded do not. */
  type SideBuilder = (set<Oid>, set<Oid>) -> Result<Objects>

  ghost predicate SideBuilderOk(g: Graph, build: SideBuilder) {
    forall tips, excluded :: build(tips, excluded).Ok? ==>
      ReachAll(g, tips) - ReachAll(g, excluded) <= build(tips, excluded).value
  }

  /** The layer for these refs on layers that complete `older`: none without a
      default branch, or with nothing to pack. */
  function SidePack(refs: MirrorRefs, older: set<Oid>, build: SideBuilder): Result<Option<Objects>> {
    var base := Base(refs);
    if base.None? then Ok(None) else
      var tips := SideTips(refs) - {base.value} - older;
      if tips == {} then Ok(None) else
        var built := build(tips, {base.value} + older);
        if built.Err? then Err(built.error)
        else if built.value == {} then Ok(None) else Ok(Some(built.value))
  }

  /** What a refresh publishes: the tips its layers complete, and the commit
      against which they were built. */
  datatype RepoBranches = RepoBranches(refs: MirrorRefs, sideBase: Option<Oid>, sideTips: set<Oid>,
                                       layers: seq<Objects>)

  ghost function LayerObjects(layers: seq<Objects>): Objects {
    set i, x | 0 <= i < |layers| && x in layers[i] :: x
  }

  /** With the side base's history the layers hold everything the tips reach. */
  ghost predicate Completes(g: Graph, layers: seq<Objects>, base: Oid, tips: set<Oid>) {
    ReachAll(g, tips) <= LayerObjects(layers) + g.reach(base)
  }

  ghost predicate PublishedOk(g: Graph, b: RepoBranches) {
    && b.sideTips == SideTips(b.refs)
    && |b.layers| <= SIDE_LAYERS
    && (b.sideBase.None? ==> b.layers == [])
    && (b.sideBase.Some? ==> Completes(g, b.layers, b.sideBase.value, b.sideTips))
  }

  /** A layer on the old ones completes the new tips. */
  lemma LayerCompletes(g: Graph, build: SideBuilder, refs: MirrorRefs, layers: seq<Objects>, sideBase: Oid,
                       older: set<Oid>)
    requires SideBuilderOk(g, build) && Base(refs).Some? && SidePack(refs, older, build).Ok?
    requires g.reach(sideBase) <= g.reach(Base(refs).value) && Completes(g, layers, sideBase, older)
    ensures var layer := SidePack(refs, older, build).value;
      Completes(g, if layer.Some? then layers + [layer.value] else layers, Base(refs).value, SideTips(refs))
  {
    var base, layer := Base(refs).value, SidePack(refs, older, build).value;
    var all := if layer.Some? then layers + [layer.value] else layers;
    var tips := SideTips(refs) - {base} - older;
    assert forall i :: 0 <= i < |layers| ==> layers[i] == all[i];
    forall t, x | t in SideTips(refs) && x in g.reach(t) ensures x in LayerObjects(all) + g.reach(base) {
      if x in ReachAll(g, older) {
        assert x in LayerObjects(layers) + g.reach(sideBase);
        if x in LayerObjects(layers) {
          var i :| 0 <= i < |layers| && x in layers[i];
          assert x in all[i];
        }
      } else if t in tips && x !in g.reach(base) {
        assert x in ReachAll(g, tips);
        ExcludedReach(g, base, older);
        assert x in build(tips, {base} + older).value;
        assert x in all[|layers|];
      }
    }
  }

  lemma ExcludedReach(g: Graph, base: Oid, older: set<Oid>)
    ensures ReachAll(g, {base} + older) <= g.reach(base) + ReachAll(g, older)
  {}

  /** Nothing older: the whole side pack. */
  lemma WholeCompletes(g: Graph, build: SideBuilder, refs: MirrorRefs)
    requires SideBuilderOk(g, build) && Base(refs).Some? && SidePack(refs, {}, build).Ok?
    ensures var layer := SidePack(refs, {}, build).value;
      Completes(g, if layer.Some? then [layer.value] else [], Base(refs).value, SideTips(refs))
  {
    var none: seq<Objects> := [];
    assert Completes(g, none, Base(refs).value, {});
    LayerCompletes(g, build, refs, none, Base(refs).value, {});
    var layer := SidePack(refs, {}, build).value;
    if layer.Some? {
      assert none + [layer.value] == [layer.value];
    }
  }

  /** The default branch only moved forward since the layers were built. */
  ghost predicate ForwardOk(g: Graph, forward: (Oid, Oid) -> bool) {
    forall a, b :: forward(a, b) ==> g.reach(a) <= g.reach(b)
  }

  method WholeSidePack(g: Graph, build: SideBuilder, refs: MirrorRefs) returns (r: Result<seq<Objects>>)
    requires SideBuilderOk(g, build)
    ensures r.Ok? ==> |r.value| <= 1 && (Base(refs).None? ==> r.value == [])
    ensures r.Ok? && Base(refs).Some? ==> Completes(g, r.value, Base(refs).value, SideTips(refs))
  {
    var layer := SidePack(refs, {}, build);
    if layer.Err? {
      return Err(layer.error);
    }
    if Base(refs).Some? {
      WholeCompletes(g, build, refs);
    }
    return Ok(if layer.value.Some? then [layer.value.value] else []);
  }

  /** Publish the refs. `older` is what the mirror's file of side tips says, when it
      is the list the previous layers complete. */
  method Publish(g: Graph, build: SideBuilder, forward: (Oid, Oid) -> bool, refs: MirrorRefs,
                 previous0: Option<RepoBranches>, older: Option<set<Oid>>)
    returns (r: Result<RepoBranches>)
    requires SideBuilderOk(g, build) && ForwardOk(g, forward)
    requires previous0.Some? ==> PublishedOk(g, previous0.value)
    requires previous0.Some? && older.Some? ==> older.value == previous0.value.sideTips
    ensures r.Ok? ==> PublishedOk(g, r.value) && r.value.refs == refs
    ensures r.Ok? && Base(refs).Some? ==>
      r.value.sideBase.Some? && g.reach(r.value.sideBase.value) <= g.reach(Base(refs).value)
  {
    hide SideBuilderOk, SideTips, Base, SidePack, Completes, ForwardOk;
    var base, tips := Base(refs), SideTips(refs);
    var moved := previous0.Some? && base.Some? && previous0.value.sideBase.Some?
      && forward(previous0.value.sideBase.value, base.value);
    if moved {
      MovedForward(g, forward, previous0.value.sideBase.value, base.value);
      var previous := previous0.value;
      if previous.sideTips == tips {
        return Ok(RepoBranches(refs, previous.sideBase, tips, previous.layers));
      }
      if |previous.layers| < SIDE_LAYERS && older.Some? {
        var layer := SidePack(refs, older.value, build);
        if layer.Ok? {
          LayerCompletes(g, build, refs, previous.layers, previous.sideBase.value, older.value);
          var layers := if layer.value.Some? then previous.layers + [layer.value.value] else previous.layers;
          return Ok(RepoBranches(refs, base, tips, layers));
        }
      }
    }
    var whole := WholeSidePack(g, build, refs);
    if whole.Err? {
      return Err(whole.error);
    }
    return Ok(RepoBranches(refs, base, tips, whole.value));
  }

  lemma MovedForward(g: Graph, forward: (Oid, Oid) -> bool, a: Oid, b: Oid)
    requires ForwardOk(g, forward) && forward(a, b)
    ensures g.reach(a) <= g.reach(b)
  {}

  /** With the layers and the base's history, nothing any ref reaches is missing. */
  lemma CloneComplete(g: Graph, b: RepoBranches, r: Ref)
    requires PublishedOk(g, b) && Base(b.refs).Some? && b.sideBase.Some?
      && g.reach(b.sideBase.value) <= g.reach(Base(b.refs).value)
    requires r in b.refs.branches || r in b.refs.tags
    requires forall i, j :: 0 <= i < j < |b.refs.branches| ==> b.refs.branches[i].name != b.refs.branches[j].name
    ensures g.reach(r.id) <= LayerObjects(b.layers) + g.reach(Base(b.refs).value)
  {
    if r in b.refs.tags || Some(r.name) != b.refs.defaultBranch {
      assert r.id in SideTips(b.refs);
      forall x | x in g.reach(r.id) ensures x in LayerObjects(b.layers) + g.reach(Base(b.refs).value) {
        assert x in ReachAll(g, b.sideTips);
      }
    } else {
      NamedIs(b.refs.branches, r);
    }
  }

  lemma {:induction false} NamedIs(branches: seq<Ref>, r: Ref)
    requires r in branches && forall i, j :: 0 <= i < j < |branches| ==> branches[i].name != branches[j].name
    ensures FirstNamed(branches, r.name) == Some(r.id)
  {
    if branches[0] != r {
      NamedIs(branches[1..], r);
    }
  }
}
