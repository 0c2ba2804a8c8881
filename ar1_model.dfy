// The AR1 telescope model: one antenna positioner per name in the antenna
// mask, then the correlator/beamformer, the weather station, the
// observation and the science data processor, each declaring the sensors
// and attributes the file writer records; and the names of the eight flag
// bits.

module Ar1Model {
  import opened Wrappers
  import opened TelescopeModels

  const ANTENNA_SENSORS: seq<string> :=
    ["activity", "target",
     "pos_request_scan_azim", "pos_request_scan_elev",
     "pos_actual_scan_azim", "pos_actual_scan_elev",
     "dig_noise_diode", "ap_indexer_position",
     "rsc_rxl_serial_number", "rsc_rxs_serial_number",
     "rsc_rxu_serial_number", "rsc_rxx_serial_number"]

  const CBF_ATTRIBUTES: seq<string> :=
    ["n_chans", "n_accs", "n_bls", "bls_ordering", "bandwidth",
     "sync_time", "int_time", "scale_factor_timestamp"]

  const ENVIRO_SENSORS: seq<string> :=
    ["air_pressure", "air_relative_humidity", "air_temperature",
     "mean_wind_speed", "wind_direction"]

  function AntennaSensors(proxyPath: string): seq<Sensor>
  {
    SensorsFor(proxyPath, ANTENNA_SENSORS, true)
  }

  function AntennaAttributes(proxyPath: string): seq<Attribute>
  {
    AttributesFor(proxyPath, ["observer"], true) + AttributesFor(proxyPath, ["description"], false)
  }

  /** An antenna records twelve sensors, all critical, and two attributes:
      'observer', critical, and 'description', not. */
  lemma AntennaShape(proxyPath: string)
    ensures |AntennaSensors(proxyPath)| == 12
    ensures forall s <- AntennaSensors(proxyPath) :: s.critical
    ensures AntennaAttributes(proxyPath) ==
      [Attribute("observer", FullName(proxyPath, "observer"), true),
       Attribute("description", FullName(proxyPath, "description"), false)]
  {
    var ss := AntennaSensors(proxyPath);
    forall s | s in ss ensures s.critical {
      var i :| 0 <= i < |ss| && ss[i] == s;
    }
  }

  function CbfSensors(proxyPath: string): seq<Sensor>
  {
    SensorsFor(proxyPath, ["target"], true) + SensorsFor(proxyPath, ["auto_delay_enabled"], false)
  }

  function CbfAttributes(proxyPath: string): seq<Attribute>
  {
    AttributesFor(proxyPath, CBF_ATTRIBUTES, true) + AttributesFor(proxyPath, ["center_freq"], false)
  }

  function EnviroSensors(proxyPath: string): seq<Sensor>
  {
    SensorsFor(proxyPath, ENVIRO_SENSORS, false)
  }

  function DigitiserSensors(proxyPath: string): seq<Sensor>
  {
    SensorsFor(proxyPath, ["overflow"], false)
  }

  function ObservationSensors(proxyPath: string): seq<Sensor>
  {
    SensorsFor(proxyPath, ["label", "params"], true) + SensorsFor(proxyPath, ["script_log"], false)
  }

  function SdpAttributes(proxyPath: string): seq<Attribute>
  {
    AttributesFor(proxyPath, ["l0_int_time"], true)
  }

  function ProxyOr(name: string, proxyPath: Option<string>): string
  {
    if proxyPath.Some? then proxyPath.value else name
  }

  /** AntennaPositioner */
  method NewAntennaPositioner(name: string, proxyPath: Option<string>) returns (c: TelescopeComponent)
    ensures fresh(c) && c.name == name && c.proxyPath == ProxyOr(name, proxyPath)
    ensures c.sensors == AntennaSensors(c.proxyPath) && c.attributes == AntennaAttributes(c.proxyPath)
  {
    c := new TelescopeComponent(name, proxyPath);
    c.AddSensors(ANTENNA_SENSORS, true);
    c.AddAttributes(["observer"], true);
    c.AddAttributes(["description"], false);
  }

  /** CorrelatorBeamformer */
  method NewCorrelatorBeamformer(name: string, proxyPath: Option<string>) returns (c: TelescopeComponent)
    ensures fresh(c) && c.name == name && c.proxyPath == ProxyOr(name, proxyPath)
    ensures c.sensors == CbfSensors(c.proxyPath) && c.attributes == CbfAttributes(c.proxyPath)
  {
    c := new TelescopeComponent(name, proxyPath);
    c.AddSensors(["target"], true);
    c.AddSensors(["auto_delay_enabled"], false);
    c.AddAttributes(CBF_ATTRIBUTES, true);
    c.AddAttributes(["center_freq"], false);
  }

  /** Enviro */
  method NewEnviro(name: string, proxyPath: Option<string>) returns (c: TelescopeComponent)
    ensures fresh(c) && c.name == name && c.proxyPath == ProxyOr(name, proxyPath)
    ensures c.sensors == EnviroSensors(c.proxyPath) && c.attributes == []
  {
    c := new TelescopeComponent(name, proxyPath);
    c.AddSensors(ENVIRO_SENSORS, false);
  }

  /** Digitiser */
  method NewDigitiser(name: string, proxyPath: Option<string>) returns (c: TelescopeComponent)
    ensures fresh(c) && c.name == name && c.proxyPath == ProxyOr(name, proxyPath)
    ensures c.sensors == DigitiserSensors(c.proxyPath) && c.attributes == []
  {
    c := new TelescopeComponent(name, proxyPath);
    c.AddSensors(["overflow"], false);
  }

  /** Observation */
  method NewObservation(name: string, proxyPath: Option<string>) returns (c: TelescopeComponent)
    ensures fresh(c) && c.name == name && c.proxyPath == ProxyOr(name, proxyPath)
    ensures c.sensors == ObservationSensors(c.proxyPath) && c.attributes == []
  {
    c := new TelescopeComponent(name, proxyPath);
    c.AddSensors(["label", "params"], true);
    c.AddSensors(["script_log"], false);
  }

  /** SDP */
  method NewSdp(name: string, proxyPath: Option<string>) returns (c: TelescopeComponent)
    ensures fresh(c) && c.name == name && c.proxyPath == ProxyOr(name, proxyPath)
    ensures c.sensors == [] && c.attributes == SdpAttributes(c.proxyPath)
  {
    c := new TelescopeComponent(name, proxyPath);
    c.AddAttributes(["l0_int_time"], true);
  }

  const FLAGS: seq<(string, string)> :=
    [("reserved0", "reserved - bit 0"),
     ("static", "predefined static flag list"),
     ("cam", "flag based on live CAM information"),
     ("reserved3", "reserved - bit 3"),
     ("ingest_rfi", "RFI detected in ingest"),
     ("predicted_rfi", "RFI predicted from space based pollutants"),
     ("cal_rfi", "RFI detected in calibration"),
     ("reserved7", "reserved - bit 7")]

  /** The fixed components that follow the antennas. */
  const FIXED: set<string> := {"cbf", "anc", "obs", "sdp"}

  /** create_model: the names are the antenna names and the four fixed
      ones; every antenna name holds an antenna positioner, and a fixed name
      that no antenna takes holds its own component.  An empty mask gives
      four components, and there are eight flag bits. */
  method CreateModel(antennaMask: seq<string>) returns (model: TelescopeModel)
    ensures fresh(model)
    ensures model.components.Keys == (set n | n in antennaMask) + FIXED
    ensures forall n :: n in antennaMask ==>
      model.components[n].sensors == AntennaSensors(n) && model.components[n].attributes == AntennaAttributes(n)
    ensures "cbf" !in antennaMask ==>
      model.components["cbf"].sensors == CbfSensors("cbf") && model.components["cbf"].attributes == CbfAttributes("cbf")
    ensures "anc" !in antennaMask ==>
      model.components["anc"].sensors == EnviroSensors("anc") && model.components["anc"].attributes == []
    ensures "obs" !in antennaMask ==>
      model.components["obs"].sensors == ObservationSensors("obs") && model.components["obs"].attributes == []
    ensures "sdp" !in antennaMask ==>
      model.components["sdp"].sensors == [] && model.components["sdp"].attributes == SdpAttributes("sdp")
    ensures antennaMask == [] ==> |model.components| == 4
    ensures model.flagsDescription == FLAGS && |FLAGS| == 8
  {
    var components := NewAntennas(antennaMask);
    ghost var antennas := components;
    var fixed := NewFixed();
    components := components + fixed;
    model := NewModel(components);
    ModelHolds(antennaMask, antennas, fixed, model.components);
  }

  /** The components that follow the antennas: correlator/beamformer,
      enviro, observation and SDP. */
  method NewFixed() returns (fixed: seq<TelescopeComponent>)
    ensures FixedFor(fixed)
  {
    var cbf := NewCorrelatorBeamformer("cbf", None);
    var env := NewEnviro("anc", None);
    var obs := NewObservation("obs", None);
    var sdp := NewSdp("sdp", None);
    fixed := [cbf, env, obs, sdp];
  }

  /** The fixed components as create_model makes them. */
  ghost predicate FixedFor(fixed: seq<TelescopeComponent>)
    reads set j | 0 <= j < |fixed| :: fixed[j]
  {
    |fixed| == 4 &&
    fixed[0].name == "cbf" && fixed[0].sensors == CbfSensors("cbf") && fixed[0].attributes == CbfAttributes("cbf") &&
    fixed[1].name == "anc" && fixed[1].sensors == EnviroSensors("anc") && fixed[1].attributes == [] &&
    fixed[2].name == "obs" && fixed[2].sensors == ObservationSensors("obs") && fixed[2].attributes == [] &&
    fixed[3].name == "sdp" && fixed[3].sensors == [] && fixed[3].attributes == SdpAttributes("sdp")
  }

  /** What the dictionary built from the antennas and the fixed components
      holds. */
  lemma ModelHolds(mask: seq<string>, antennas: seq<TelescopeComponent>, fixed: seq<TelescopeComponent>,
                   m: map<string, TelescopeComponent>)
    requires AntennasFor(mask, antennas) && FixedFor(fixed)
    requires m == WithComponents(map[], antennas + fixed)
    ensures m.Keys == (set n | n in mask) + FIXED
    ensures forall n :: n in mask ==>
      m[n].sensors == AntennaSensors(n) && m[n].attributes == AntennaAttributes(n)
    ensures "cbf" !in mask ==>
      m["cbf"].sensors == CbfSensors("cbf") && m["cbf"].attributes == CbfAttributes("cbf")
    ensures "anc" !in mask ==>
      m["anc"].sensors == EnviroSensors("anc") && m["anc"].attributes == []
    ensures "obs" !in mask ==>
      m["obs"].sensors == ObservationSensors("obs") && m["obs"].attributes == []
    ensures "sdp" !in mask ==>
      m["sdp"].sensors == [] && m["sdp"].attributes == SdpAttributes("sdp")
    ensures mask == [] ==> |m| == 4
  {
    ModelEntries(mask, antennas, fixed, m);
    forall n | n in mask
      ensures m[n].sensors == AntennaSensors(n) && m[n].attributes == AntennaAttributes(n)
    {
      var j :| 0 <= j < |mask| && mask[j] == n && m[n] == antennas[j];
    }
  }

  /** Each component is the antenna positioner of its mask name. */
  ghost predicate AntennasFor(mask: seq<string>, cs: seq<TelescopeComponent>)
    reads set j | 0 <= j < |cs| :: cs[j]
  {
    |cs| == |mask| &&
    forall j :: 0 <= j < |mask| ==>
      cs[j].name == mask[j] &&
      cs[j].sensors == AntennaSensors(mask[j]) &&
      cs[j].attributes == AntennaAttributes(mask[j])
  }

  /** The model part of create_model: the components by name, and the
      flag bits. */
  method NewModel(components: seq<TelescopeComponent>) returns (model: TelescopeModel)
    ensures fresh(model)
    ensures model.components == WithComponents(map[], components) && model.flagsDescription == FLAGS
  {
    model := new TelescopeModel();
    model.AddComponents(components);
    model.SetFlagsDescription(FLAGS);
  }

  /** The antenna loop of create_model: one positioner per mask name. */
  method NewAntennas(antennaMask: seq<string>) returns (components: seq<TelescopeComponent>)
    ensures AntennasFor(antennaMask, components)
  {
    components := [];
    for i := 0 to |antennaMask|
      invariant |components| == i
      invariant forall j :: 0 <= j < i ==>
        components[j].name == antennaMask[j] &&
        components[j].sensors == AntennaSensors(antennaMask[j]) &&
        components[j].attributes == AntennaAttributes(antennaMask[j])
    {
      var ant := NewAntennaPositioner(antennaMask[i], None);
      components := components + [ant];
    }
  }

  /** The entries of the dictionary built from the antennas and the four
      fixed components. */
  lemma ModelEntries(mask: seq<string>, antennas: seq<TelescopeComponent>, fixed: seq<TelescopeComponent>,
                     m: map<string, TelescopeComponent>)
    requires |antennas| == |mask| && |fixed| == 4
    requires forall j :: 0 <= j < |mask| ==> antennas[j].name == mask[j]
    requires fixed[0].name == "cbf" && fixed[1].name == "anc" && fixed[2].name == "obs" && fixed[3].name == "sdp"
    requires m == WithComponents(map[], antennas + fixed)
    ensures m.Keys == (set n | n in mask) + FIXED
    ensures forall n :: n in mask ==> n in m && exists j :: 0 <= j < |mask| && mask[j] == n && m[n] == antennas[j]
    ensures forall k :: 0 <= k < 4 && fixed[k].name !in mask ==> fixed[k].name in m && m[fixed[k].name] == fixed[k]
    ensures mask == [] ==> |m| == 4
  {
    WithComponentsKeys(map[], antennas + fixed);
    NamesOfModel(mask, antennas, fixed);
    forall n | n in mask ensures n in m && exists j :: 0 <= j < |mask| && mask[j] == n && m[n] == antennas[j] {
      AntennaEntry(mask, antennas, fixed, m, n);
    }
    forall k | 0 <= k < 4 && fixed[k].name !in mask ensures fixed[k].name in m && m[fixed[k].name] == fixed[k] {
      FixedEntry(mask, antennas, fixed, m, k);
    }
    if mask == [] {
      assert (set n | n in mask) == {};
      assert |FIXED| == 4;
    }
  }

  lemma NamesOfModel(mask: seq<string>, antennas: seq<TelescopeComponent>, fixed: seq<TelescopeComponent>)
    requires |antennas| == |mask| && |fixed| == 4
    requires forall j :: 0 <= j < |mask| ==> antennas[j].name == mask[j]
    requires fixed[0].name == "cbf" && fixed[1].name == "anc" && fixed[2].name == "obs" && fixed[3].name == "sdp"
    ensures Names(antennas + fixed) == (set n | n in mask) + FIXED
  {
    var cs := antennas + fixed;
    forall n | n in Names(cs) ensures n in (set n | n in mask) + FIXED {
      var i :| 0 <= i < |cs| && cs[i].name == n;
      if i < |mask| { assert cs[i] == antennas[i]; } else { assert cs[i] == fixed[i - |mask|]; }
    }
    forall n | n in (set n | n in mask) + FIXED ensures n in Names(cs) {
      if n in mask {
        var j :| 0 <= j < |mask| && mask[j] == n;
        assert cs[j] == antennas[j];
      } else {
        var k := if n == "cbf" then 0 else if n == "anc" then 1 else if n == "obs" then 2 else 3;
        assert cs[|mask| + k] == fixed[k];
      }
    }
  }

  lemma AntennaEntry(mask: seq<string>, antennas: seq<TelescopeComponent>, fixed: seq<TelescopeComponent>,
                     m: map<string, TelescopeComponent>, n: string)
    requires |antennas| == |mask|
    requires forall j :: 0 <= j < |mask| ==> antennas[j].name == mask[j]
    requires m == WithComponents(map[], antennas + fixed)
    requires n in mask
    ensures n in m && exists j :: 0 <= j < |mask| && mask[j] == n && m[n] == antennas[j]
  {
    var cs := antennas + fixed;
    var j0 :| 0 <= j0 < |mask| && mask[j0] == n;
    var i := FirstName(cs, n, j0);
    assert cs[i] == antennas[i];
    FirstOfNameKept(map[], cs, i);
  }

  /** The first index of a component of a given name, at or before a known one. */
  lemma FirstName(cs: seq<TelescopeComponent>, n: string, j0: nat) returns (i: nat)
    requires j0 < |cs| && cs[j0].name == n
    decreases j0
    ensures i <= j0 && cs[i].name == n && forall j :: 0 <= j < i ==> cs[j].name != n
  {
    if j :| 0 <= j < j0 && cs[j].name == n {
      i := FirstName(cs, n, j);
    } else {
      i := j0;
    }
  }

  lemma FixedEntry(mask: seq<string>, antennas: seq<TelescopeComponent>, fixed: seq<TelescopeComponent>,
                   m: map<string, TelescopeComponent>, k: nat)
    requires |antennas| == |mask| && |fixed| == 4 && k < 4
    requires forall j :: 0 <= j < |mask| ==> antennas[j].name == mask[j]
    requires fixed[0].name == "cbf" && fixed[1].name == "anc" && fixed[2].name == "obs" && fixed[3].name == "sdp"
    requires m == WithComponents(map[], antennas + fixed)
    requires fixed[k].name !in mask
    ensures fixed[k].name in m && m[fixed[k].name] == fixed[k]
  {
    var cs := antennas + fixed;
    var n := fixed[k].name;
    assert cs[|mask| + k] == fixed[k];
    forall j | 0 <= j < |mask| + k ensures cs[j].name != n {
      if j < |mask| {
        assert cs[j] == antennas[j] && mask[j] in mask;
      } else {
        assert cs[j] == fixed[j - |mask|];
      }
    }
    FirstOfNameKept(map[], cs, |mask| + k);
  }
}
