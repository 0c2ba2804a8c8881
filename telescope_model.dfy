// The declarative telescope model of the HDF5 file writer: components with
// the sensors and attributes the writer expects, each named under the
// component's proxy path, and a model that collects the components by name
// together with the names of the flag bits.

module TelescopeModels {
  import opened Wrappers
  import opened Strs

  datatype Attribute = Attribute(name: string, fullName: string, critical: bool)

  datatype Sensor = Sensor(name: string, fullName: string, critical: bool, description: Option<string>)

  /** A sensor's or attribute's full name: the proxy path, '_', then the short name. */
  function FullName(proxyPath: string, name: string): string
  {
    proxyPath + "_" + name
  }

  /** A full name gives back its proxy path and its short name. */
  lemma FullNameSplits(proxyPath: string, name: string)
    ensures var f := FullName(proxyPath, name);
      StartsWith(f, proxyPath + "_") && f[|proxyPath| + 1..] == name
  {
    var f := FullName(proxyPath, name);
    assert f[..|proxyPath| + 1] == proxyPath + "_";
  }

  /** The sensors that add_sensors appends: one per name, in order. */
  function SensorsFor(proxyPath: string, names: seq<string>, critical: bool): (r: seq<Sensor>)
    ensures |r| == |names|
    ensures forall i :: 0 <= i < |r| ==>
      r[i].name == names[i] && r[i].fullName == FullName(proxyPath, names[i]) &&
      r[i].critical == critical && r[i].description.None?
  {
    if names == [] then []
    else SensorsFor(proxyPath, names[..|names| - 1], critical) +
         [Sensor(names[|names| - 1], FullName(proxyPath, names[|names| - 1]), critical, None)]
  }

  /** The attributes that add_attributes appends: one per name, in order. */
  function AttributesFor(proxyPath: string, names: seq<string>, critical: bool): (r: seq<Attribute>)
    ensures |r| == |names|
    ensures forall i :: 0 <= i < |r| ==>
      r[i].name == names[i] && r[i].fullName == FullName(proxyPath, names[i]) && r[i].critical == critical
  {
    if names == [] then []
    else AttributesFor(proxyPath, names[..|names| - 1], critical) +
         [Attribute(names[|names| - 1], FullName(proxyPath, names[|names| - 1]), critical)]
  }

  lemma SensorsForSnoc(proxyPath: string, names: seq<string>, critical: bool, i: nat)
    requires i < |names|
    ensures SensorsFor(proxyPath, names[..i + 1], critical) ==
      SensorsFor(proxyPath, names[..i], critical) + [Sensor(names[i], FullName(proxyPath, names[i]), critical, None)]
  {
    assert names[..i + 1][..i] == names[..i];
  }

  lemma AttributesForSnoc(proxyPath: string, names: seq<string>, critical: bool, i: nat)
    requires i < |names|
    ensures AttributesFor(proxyPath, names[..i + 1], critical) ==
      AttributesFor(proxyPath, names[..i], critical) + [Attribute(names[i], FullName(proxyPath, names[i]), critical)]
  {
    assert names[..i + 1][..i] == names[..i];
  }

  class TelescopeComponent {
    const name: string
    /** The prefix of every full name; the component name unless given. */
    const proxyPath: string
    var sensors: seq<Sensor>
    var attributes: seq<Attribute>

    constructor (name: string, proxyPath: Option<string>)
      ensures this.name == name
      ensures this.proxyPath == (if proxyPath.Some? then proxyPath.value else name)
      ensures sensors == [] && attributes == []
    {
      this.name := name;
      this.proxyPath := if proxyPath.Some? then proxyPath.value else name;
      sensors := [];
      attributes := [];
    }

    /** add_sensors */
    method AddSensors(names: seq<string>, critical: bool)
      modifies this
      ensures sensors == old(sensors) + SensorsFor(proxyPath, names, critical)
      ensures attributes == old(attributes)
    {
      for i := 0 to |names|
        invariant sensors == old(sensors) + SensorsFor(proxyPath, names[..i], critical)
        invariant attributes == old(attributes)
      {
        SensorsForSnoc(proxyPath, names, critical, i);
        sensors := sensors + [Sensor(names[i], FullName(proxyPath, names[i]), critical, None)];
      }
      assert names[..|names|] == names;
    }

    /** add_attributes */
    method AddAttributes(names: seq<string>, critical: bool)
      modifies this
      ensures attributes == old(attributes) + AttributesFor(proxyPath, names, critical)
      ensures sensors == old(sensors)
    {
      for i := 0 to |names|
        invariant attributes == old(attributes) + AttributesFor(proxyPath, names[..i], critical)
        invariant sensors == old(sensors)
      {
        AttributesForSnoc(proxyPath, names, critical, i);
        attributes := attributes + [Attribute(names[i], FullName(proxyPath, names[i]), critical)];
      }
      assert names[..|names|] == names;
    }
  }

  /** Adding one component: a name already present keeps its component. */
  function AddFirst(m: map<string, TelescopeComponent>, c: TelescopeComponent): map<string, TelescopeComponent>
  {
    if c.name in m then m else m[c.name := c]
  }

  /** The components dictionary after add_components, with the duplicate
      check the warning describes: the first component of a name stays. */
  function WithComponents(m: map<string, TelescopeComponent>, cs: seq<TelescopeComponent>): map<string, TelescopeComponent>
  {
    if cs == [] then m else AddFirst(WithComponents(m, cs[..|cs| - 1]), cs[|cs| - 1])
  }

  /** The components dictionary after add_components as written: the check
      asks whether the component object is a key, but the keys are names,
      so it never holds and each component overwrites its name. */
  function WithComponentsAsWritten(m: map<string, TelescopeComponent>, cs: seq<TelescopeComponent>): map<string, TelescopeComponent>
  {
    if cs == [] then m else WithComponentsAsWritten(m, cs[..|cs| - 1])[cs[|cs| - 1].name := cs[|cs| - 1]]
  }

  /** After add_components the names are the old ones and the new ones; an
      old entry stays, and a new name holds the first component of that
      name. */
  lemma {:induction false} WithComponentsFirstWins(m: map<string, TelescopeComponent>, cs: seq<TelescopeComponent>, k: string)
    ensures var r := WithComponents(m, cs);
      (k in r <==> k in m || exists i :: 0 <= i < |cs| && cs[i].name == k) &&
      (k in m ==> r[k] == m[k]) &&
      (k !in m && k in r ==> (exists i :: 0 <= i < |cs| && cs[i].name == k && r[k] == cs[i] &&
                                (forall j :: 0 <= j < i ==> cs[j].name != k)))
  {
    if cs != [] {
      var init := cs[..|cs| - 1];
      var c := cs[|cs| - 1];
      WithComponentsFirstWins(m, init, k);
      var p := WithComponents(m, init);
      if k !in m && k in p {
        var i :| 0 <= i < |init| && init[i].name == k && p[k] == init[i] && forall j :: 0 <= j < i ==> init[j].name != k;
        assert cs[i] == init[i];
        assert forall j :: 0 <= j < i ==> cs[j] == init[j];
      }
      if k !in m && k !in p && c.name == k {
        assert forall j :: 0 <= j < |init| ==> cs[j] == init[j] && init[j].name != k;
      }
      forall i | 0 <= i < |init| ensures cs[i] == init[i] { }
    }
  }

  /** The names a sequence of components brings. */
  function Names(cs: seq<TelescopeComponent>): set<string>
  {
    set j | 0 <= j < |cs| :: cs[j].name
  }

  /** A component that no earlier one shares a name with is the one kept
      under its name. */
  lemma FirstOfNameKept(m: map<string, TelescopeComponent>, cs: seq<TelescopeComponent>, i: nat)
    requires i < |cs| && cs[i].name !in m
    requires forall j :: 0 <= j < i ==> cs[j].name != cs[i].name
    ensures cs[i].name in WithComponents(m, cs) && WithComponents(m, cs)[cs[i].name] == cs[i]
  {
    var k := cs[i].name;
    WithComponentsFirstWins(m, cs, k);
    var i' :| 0 <= i' < |cs| && cs[i'].name == k && WithComponents(m, cs)[k] == cs[i'] &&
      forall j :: 0 <= j < i' ==> cs[j].name != k;
    assert i' == i;
  }

  /** The names after add_components are the old names and the added ones. */
  lemma WithComponentsKeys(m: map<string, TelescopeComponent>, cs: seq<TelescopeComponent>)
    ensures WithComponents(m, cs).Keys == m.Keys + Names(cs)
  {
    forall k | k in m.Keys + Names(cs) ensures k in WithComponents(m, cs) {
      WithComponentsFirstWins(m, cs, k);
      if k !in m.Keys { var j :| 0 <= j < |cs| && cs[j].name == k; }
    }
    forall k | k in WithComponents(m, cs) ensures k in m.Keys + Names(cs) {
      WithComponentsFirstWins(m, cs, k);
    }
  }

  /** As written, an old entry is replaced, and a name holds the last
      component of that name. */
  lemma {:induction false} WithComponentsAsWrittenLastWins(m: map<string, TelescopeComponent>, cs: seq<TelescopeComponent>, k: string)
    ensures var r := WithComponentsAsWritten(m, cs);
      (k in r <==> k in m || exists i :: 0 <= i < |cs| && cs[i].name == k) &&
      (forall i :: 0 <= i < |cs| && cs[i].name == k && (forall j :: i < j < |cs| ==> cs[j].name != k) ==> r[k] == cs[i])
  {
    if cs != [] {
      var init := cs[..|cs| - 1];
      WithComponentsAsWrittenLastWins(m, init, k);
      forall i | 0 <= i < |init| ensures cs[i] == init[i] { }
    }
  }

  /** Two components of one name: as written the second one is kept, with
      the duplicate check the first one is. */
  lemma DuplicateNameOverwrites(a: TelescopeComponent, b: TelescopeComponent)
    requires a != b && a.name == b.name
    ensures WithComponentsAsWritten(map[], [a, b])[a.name] == b
    ensures WithComponents(map[], [a, b])[a.name] == a
  {
    assert [a, b][..1] == [a];
    assert [a][..0] == [];
    assert WithComponents(map[], [a]) == map[a.name := a];
    assert WithComponents(map[], [a, b]) == AddFirst(map[a.name := a], b);
    assert WithComponentsAsWritten(map[], [a]) == map[a.name := a];
  }

  class TelescopeModel {
    var components: map<string, TelescopeComponent>
    /** (name, description) of each flag bit. */
    var flagsDescription: seq<(string, string)>

    constructor ()
      ensures components == map[] && flagsDescription == []
    {
      components := map[];
      flagsDescription := [];
    }

    /** add_components, with a duplicate name skipped. */
    method AddComponents(cs: seq<TelescopeComponent>)
      modifies this
      ensures components == WithComponents(old(components), cs)
      ensures flagsDescription == old(flagsDescription)
    {
      for i := 0 to |cs|
        invariant components == WithComponents(old(components), cs[..i])
        invariant flagsDescription == old(flagsDescription)
      {
        var c := cs[i];
        assert cs[..i + 1][..i] == cs[..i];
        if c.name in components {
          continue;
        }
        components := components[c.name := c];
      }
      assert cs[..|cs|] == cs;
    }

    /** set_flags_description */
    method SetFlagsDescription(flags: seq<(string, string)>)
      modifies this
      ensures flagsDescription == flags && components == old(components)
    {
      flagsDescription := flags;
    }
  }
}
