/**
 * The tables of dds/DCPS/transport/framework/TransportRegistry.cpp as
 * values: transport types, instances and configurations held in maps keyed
 * by name, the transport entries recorded while loading, and the pure
 * operations on those maps that the registry's methods perform.
 *
 * A configuration, instance or type is a reference-counted object in the
 * source; here it is a value stored under its name, and the registry's
 * methods that change one store the new value back under that name.
 */
module RegistryTables {
  import opened Wrappers
  import opened Text

  /** `TransportRegistry::DEFAULT_CONFIG_NAME`. */
  const DEFAULT_CONFIG_NAME: string := "_OPENDDS_DEFAULT_CONFIG"

  /** The transport type `fix_empty_default` loads (the build without the safety profile). */
  const FALLBACK_TYPE: string := "tcp"

  const RTPS_UDP: string := "rtps_udp"

  /** The discovery name `register_type` and the constructor alias to `rtps_udp`. */
  const RTPS_DISCOVERY: string := "rtps_discovery"

  /** A registered transport type; `type->name()` is its key in `type_map_`. */
  datatype TransportType = TransportType(name: string)

  /**
   * A transport instance as `TransportType::new_inst(name, is_template)`
   * makes it: its name, the name of its type and whether it came from a
   * `[transport_template/NAME]` section.
   */
  datatype TransportInst = TransportInst(name: string, transportType: string, isTemplate: bool)

  /**
   * A `TransportConfig`: its name, its ordered instances, `swap_bytes_` and
   * `passive_connect_duration_` (None until a value is loaded: the
   * constructor's default is not part of this model).
   */
  datatype TransportConfig = TransportConfig(
    name: string, instances: seq<TransportInst>, swapBytes: bool, passiveConnectDuration: Option<int>)

  /** `make_rch<TransportConfig>(name)`: a configuration with no instances. */
  function NewConfig(name: string): TransportConfig
  {
    TransportConfig(name, [], false, None)
  }

  /** One key and value of a configuration section. */
  datatype KeyValue = KeyValue(key: string, value: string)

  /** `ValueMap`, a `std::map` of strings: its entries in the order the map iterates them. */
  type ValueMap = seq<KeyValue>

  /** `ValueMap::find`: the value under `key`, if any. */
  function FindValue(vm: ValueMap, key: string): (r: Option<string>)
    ensures r.Some? <==> exists k :: 0 <= k < |vm| && vm[k].key == key
    ensures r.Some? ==> exists k :: 0 <= k < |vm| && vm[k] == KeyValue(key, r.value)
  {
    if |vm| == 0 then None
    else if vm[0].key == key then Some(vm[0].value)
    else
      var r := FindValue(vm[1..], key);
      assert forall k :: 0 <= k < |vm[1..]| ==> vm[1..][k] == vm[k + 1];
      assert r.None? ==> forall k :: 0 < k < |vm| ==> vm[k].key != key by {
        if r.None? {
          forall k | 0 < k < |vm| ensures vm[k].key != key {
            assert vm[k] == vm[1..][k - 1];
          }
        }
      }
      r
  }

  /** `TransportEntry`: a transport section's name, the configuration that lists it, and its values. */
  datatype TransportEntry = TransportEntry(transportName: string, configName: string, transportInfo: ValueMap)

  /** The `lib_directive_map_` the constructor fills: a service directive per known library. */
  const LIB_DIRECTIVES: map<string, string> := map[
    "tcp" := "dynamic OpenDDS_Tcp Service_Object * OpenDDS_Tcp:_make_TcpLoader()",
    "udp" := "dynamic OpenDDS_Udp Service_Object * OpenDDS_Udp:_make_UdpLoader()",
    "multicast" := "dynamic OpenDDS_Multicast Service_Object * OpenDDS_Multicast:_make_MulticastLoader()",
    "rtps_udp" := "dynamic OpenDDS_Rtps_Udp Service_Object * OpenDDS_Rtps_Udp:_make_RtpsUdpLoader()",
    "shmem" := "dynamic OpenDDS_Shmem Service_Object * OpenDDS_Shmem:_make_ShmemLoader()",
    "rtps_discovery" := "dynamic OpenDDS_Rtps_Udp Service_Object * OpenDDS_Rtps_Udp:_make_RtpsUdpLoader()",
    "repository" := "dynamic OpenDDS_InfoRepoDiscovery Service_Object * OpenDDS_InfoRepoDiscovery:_make_IRDiscoveryLoader()"]

  /** Discovery over RTPS loads the same library as the `rtps_udp` transport, and every transport has a directive. */
  lemma LibDirectivesAlias()
    ensures RTPS_DISCOVERY in LIB_DIRECTIVES && RTPS_UDP in LIB_DIRECTIVES
    ensures LIB_DIRECTIVES[RTPS_DISCOVERY] == LIB_DIRECTIVES[RTPS_UDP]
    ensures LIB_DIRECTIVES.Keys == {"tcp", "udp", "multicast", "rtps_udp", "shmem", "rtps_discovery", "repository"}
    ensures FALLBACK_TYPE in LIB_DIRECTIVES
  {
  }

  // ---------------------------------------------------------------------
  // The operations on the maps

  /** `create_config`: nil when the name is taken; otherwise a new empty configuration stored under it. */
  function CreateConfigIn(configs: map<string, TransportConfig>, name: string): (map<string, TransportConfig>, Option<TransportConfig>)
  {
    if name in configs then (configs, None)
    else (configs[name := NewConfig(name)], Some(NewConfig(name)))
  }

  /** `load_transport_lib_i` with the library already loaded (or linked statically): a lookup in `type_map_`. */
  function LoadTransportLibIn(types: map<string, TransportType>, transportType: string): Option<TransportType>
  {
    if transportType in types then Some(types[transportType]) else None
  }

  /**
   * `create_inst`: nil when the type is not registered or the name is
   * taken (checked in that order); otherwise the type's new instance stored
   * under the name.
   */
  function CreateInstIn(insts: map<string, TransportInst>, types: map<string, TransportType>,
                        name: string, transportType: string, isTemplate: bool)
    : (map<string, TransportInst>, Option<TransportInst>)
  {
    match LoadTransportLibIn(types, transportType)
    case None => (insts, None)
    case Some(t) =>
      if name in insts then (insts, None)
      else
        var inst := TransportInst(name, t.name, isTemplate);
        (insts[name := inst], Some(inst))
  }

  /** `register_type`: false on a taken name; `rtps_udp` is registered under `rtps_discovery` too. */
  function RegisterTypeIn(types: map<string, TransportType>, t: TransportType): (map<string, TransportType>, bool)
  {
    if t.name in types then (types, false)
    else
      var added := types[t.name := t];
      (if t.name == RTPS_UDP then added[RTPS_DISCOVERY := t] else added, true)
  }

  /** The index of the first transport entry listed by `configName`, if any. */
  function FirstEntryFor(transports: seq<TransportEntry>, configName: string): (r: Option<nat>)
    ensures r.Some? ==> r.value < |transports| && transports[r.value].configName == configName
    ensures r.Some? ==> forall k :: 0 <= k < r.value ==> transports[k].configName != configName
    ensures r.None? ==> forall k :: 0 <= k < |transports| ==> transports[k].configName != configName
  {
    if |transports| == 0 then None
    else if transports[0].configName == configName then Some(0)
    else match FirstEntryFor(transports[1..], configName)
      case None => None
      case Some(k) => Some(k + 1)
  }

  // ---------------------------------------------------------------------
  // What the operations promise

  /**
   * `create_config` leaves the map alone and returns nil exactly when the
   * name is in use; otherwise it adds exactly that one name, holding an
   * empty configuration of that name, which a lookup then returns.
   */
  lemma CreateConfigAddsOne(configs: map<string, TransportConfig>, name: string)
    ensures var (after, r) := CreateConfigIn(configs, name);
            && (r.None? <==> name in configs)
            && (r.None? ==> after == configs)
            && (r.Some? ==> after.Keys == configs.Keys + {name} && name in after && after[name] == r.value
                            && r.value.name == name && r.value.instances == []
                            && forall n :: n in configs ==> after[n] == configs[n])
  {
  }

  /**
   * `create_inst` returns nil, changing nothing, exactly when the type is
   * unknown or the name is in use; otherwise it adds exactly that name,
   * holding an instance of that name and type.
   */
  lemma CreateInstAddsOne(insts: map<string, TransportInst>, types: map<string, TransportType>,
                          name: string, transportType: string, isTemplate: bool)
    ensures var (after, r) := CreateInstIn(insts, types, name, transportType, isTemplate);
            && (r.None? <==> transportType !in types || name in insts)
            && (r.None? ==> after == insts)
            && (r.Some? ==> after.Keys == insts.Keys + {name} && after[name] == r.value
                            && r.value == TransportInst(name, types[transportType].name, isTemplate)
                            && forall n :: n in insts ==> after[n] == insts[n])
  {
  }

  /**
   * `register_type` fails, changing nothing, exactly on a taken name;
   * otherwise the name maps to the type, and so does `rtps_discovery` when
   * the name is `rtps_udp`; no other name changes.
   */
  lemma RegisterTypeAdds(types: map<string, TransportType>, t: TransportType)
    ensures var (after, ok) := RegisterTypeIn(types, t);
            && (!ok <==> t.name in types)
            && (!ok ==> after == types)
            && (ok ==> t.name in after && after[t.name] == t)
            && (ok && t.name == RTPS_UDP ==> RTPS_DISCOVERY in after && after[RTPS_DISCOVERY] == t)
            && (ok ==> after.Keys == if t.name == RTPS_UDP then types.Keys + {t.name, RTPS_DISCOVERY} else types.Keys + {t.name})
            && (ok ==> forall n :: n in types && n != RTPS_DISCOVERY ==> after[n] == types[n])
  {
  }
}
