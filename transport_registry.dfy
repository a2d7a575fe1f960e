/**
 * `TransportRegistry` (dds/DCPS/transport/framework/TransportRegistry.cpp):
 * the registry of named transport configurations, instances and types,
 * whose methods update its maps in place.
 *
 * `global_config_` and `config_map_[DEFAULT_CONFIG_NAME]` are one shared
 * object in the source; here the global configuration is the name of an
 * entry of `configMap`, so a change made through either is seen through
 * both.
 */
module TransportRegistryModel {
  import opened Wrappers
  import opened Text
  import opened RegistryTables
  import opened ConfigValues
  import opened ConfigLoad
  import ConfigLoadProps

  class TransportRegistry {
    /** `config_map_` */
    var configMap: map<string, TransportConfig>
    /** `inst_map_` */
    var instMap: map<string, TransportInst>
    /** `type_map_` */
    var typeMap: map<string, TransportType>
    /** `lib_directive_map_` */
    var libDirectiveMap: map<string, string>
    /** `domain_default_config_map_`, by domain id */
    var domainDefaultConfigMap: map<int, TransportConfig>
    /** `global_config_`: the name of its entry in `configMap`, None for nil */
    var globalConfig: Option<string>
    /** `transports_` */
    var transports: seq<TransportEntry>
    /** `released_` */
    var released: bool

    /** A non-nil global configuration is an entry of the configuration map. */
    predicate Valid()
      reads this
    {
      globalConfig.Some? ==> globalConfig.value in configMap
    }

    /** The object `global_config_` points to, or None for nil. */
    function GlobalConfig(): (r: Option<TransportConfig>)
      requires Valid()
      reads this
      ensures r.Some? <==> globalConfig.Some?
      ensures r.Some? ==> r.value == configMap[globalConfig.value]
    {
      match globalConfig
      case None => None
      case Some(name) => Some(configMap[name])
    }

    /**
     * The constructor: the global configuration is a new empty
     * configuration named `DEFAULT_CONFIG_NAME`, the only entry of the
     * configuration map; the library directives are filled in; nothing else
     * is registered and the registry is not released.
     */
    constructor ()
      ensures Valid()
      ensures configMap == map[DEFAULT_CONFIG_NAME := NewConfig(DEFAULT_CONFIG_NAME)]
      ensures globalConfig == Some(DEFAULT_CONFIG_NAME)
      ensures GlobalConfig() == Some(NewConfig(DEFAULT_CONFIG_NAME))
      ensures libDirectiveMap == LIB_DIRECTIVES
      ensures instMap == map[] && typeMap == map[] && domainDefaultConfigMap == map[]
      ensures transports == [] && !released
    {
      configMap := map[DEFAULT_CONFIG_NAME := NewConfig(DEFAULT_CONFIG_NAME)];
      globalConfig := Some(DEFAULT_CONFIG_NAME);
      libDirectiveMap := LIB_DIRECTIVES;
      instMap := map[];
      typeMap := map[];
      domainDefaultConfigMap := map[];
      transports := [];
      released := false;
    }

    /**
     * `create_config`: nil, changing nothing, when the name is taken;
     * otherwise exactly one new empty configuration under that name.
     */
    method CreateConfig(name: string) returns (r: Option<TransportConfig>)
      requires Valid()
      modifies this`configMap
      ensures Valid()
      ensures (configMap, r) == CreateConfigIn(old(configMap), name)
      ensures r.None? <==> name in old(configMap)
      ensures r.Some? ==> r.value == NewConfig(name) && configMap == old(configMap)[name := r.value]
    {
      if name in configMap {
        r := None;
      } else {
        r := Some(NewConfig(name));
        configMap := configMap[name := r.value];
      }
    }

    /** `get_config`: the configuration stored under the name, nil when there is none. */
    method GetConfig(name: string) returns (r: Option<TransportConfig>)
      ensures r.Some? <==> name in configMap
      ensures r.Some? ==> r.value == configMap[name]
    {
      if name in configMap {
        r := Some(configMap[name]);
      } else {
        r := None;
      }
    }

    /**
     * `load_transport_lib_i` with the library already linked: the type
     * registered under the name, nil when there is none.
     */
    method LoadTransportLibI(transportType: string) returns (r: Option<TransportType>)
      ensures r == LoadTransportLibIn(typeMap, transportType)
      ensures r.Some? <==> transportType in typeMap
    {
      if transportType in typeMap {
        r := Some(typeMap[transportType]);
      } else {
        r := None;
      }
    }

    /**
     * `create_inst`: nil, changing nothing, when the type is not registered
     * or the name is taken; otherwise exactly one new instance of that type
     * under that name.
     */
    method CreateInst(name: string, transportType: string, isTemplate: bool) returns (r: Option<TransportInst>)
      modifies this`instMap
      ensures (instMap, r) == CreateInstIn(old(instMap), typeMap, name, transportType, isTemplate)
      ensures r.None? <==> transportType !in typeMap || name in old(instMap)
      ensures r.Some? ==> r.value == TransportInst(name, typeMap[transportType].name, isTemplate)
                          && instMap == old(instMap)[name := r.value]
    {
      var t := LoadTransportLibI(transportType);
      if t.None? {
        return None;
      }
      if name in instMap {
        return None;
      }
      r := Some(TransportInst(name, t.value.name, isTemplate));
      instMap := instMap[name := r.value];
    }

    /** `get_inst`: the instance stored under the name, nil when there is none. */
    method GetInst(name: string) returns (r: Option<TransportInst>)
      ensures r.Some? <==> name in instMap
      ensures r.Some? ==> r.value == instMap[name]
    {
      if name in instMap {
        r := Some(instMap[name]);
      } else {
        r := None;
      }
    }

    /**
     * `fix_empty_default`: always returns the global configuration as it
     * was; only when that is the default configuration, still without
     * instances, does it load the fallback transport's library, whose
     * loading is outside this model and reported as `fallbackType`.
     */
    method FixEmptyDefault() returns (cfg: Option<TransportConfig>, fallbackType: Option<string>)
      requires Valid()
      ensures cfg == GlobalConfig()
      ensures fallbackType.Some? <==> cfg.Some? && cfg.value.instances == [] && cfg.value.name == DEFAULT_CONFIG_NAME
      ensures fallbackType.Some? ==> fallbackType.value == FALLBACK_TYPE
    {
      if globalConfig.None?
         || configMap[globalConfig.value].instances != []
         || configMap[globalConfig.value].name != DEFAULT_CONFIG_NAME {
        return GlobalConfig(), None;
      }
      cfg := GlobalConfig();
      var _ := LoadTransportLibI(FALLBACK_TYPE);
      fallbackType := Some(FALLBACK_TYPE);
    }

    /**
     * `register_type`: false, changing nothing, on a taken name; otherwise
     * the type is registered under its name, and under `rtps_discovery` as
     * well when its name is `rtps_udp`.
     */
    method RegisterType(t: TransportType) returns (ok: bool)
      modifies this`typeMap
      ensures (typeMap, ok) == RegisterTypeIn(old(typeMap), t)
      ensures !ok <==> t.name in old(typeMap)
      ensures ok ==> t.name in typeMap && typeMap[t.name] == t
      ensures ok && t.name == RTPS_UDP ==> RTPS_DISCOVERY in typeMap && typeMap[RTPS_DISCOVERY] == t
    {
      if t.name in typeMap {
        return false;
      }
      typeMap := typeMap[t.name := t];
      if t.name == RTPS_UDP {
        typeMap := typeMap[RTPS_DISCOVERY := t];
      }
      ok := true;
    }

    /**
     * `release`: marks the registry released and empties every map and the
     * transport entries, leaving the global configuration nil; the library
     * directives stay. Shutting the instances down is outside this model.
     */
    method Release()
      modifies this
      ensures Valid()
      ensures released
      ensures instMap == map[] && transports == [] && typeMap == map[] && configMap == map[]
      ensures domainDefaultConfigMap == map[] && globalConfig.None?
      ensures libDirectiveMap == old(libDirectiveMap)
    {
      released := true;
      instMap := map[];
      transports := [];
      typeMap := map[];
      configMap := map[];
      domainDefaultConfigMap := map[];
      globalConfig := None;
    }

    /** `released`: whether `release` has run. */
    method Released() returns (r: bool)
      ensures r == released
    {
      r := released;
    }

    /**
     * `has_transports`: whether any transport entry is recorded. Without
     * one, no configuration has an entry; with one, the first entry's
     * configuration has.
     */
    function HasTransports(): (r: bool)
      reads this
      ensures !r ==> forall name :: FirstEntryFor(transports, name).None?
      ensures r ==> |transports| > 0 && FirstEntryFor(transports, transports[0].configName) == Some(0)
    {
      |transports| > 0
    }

    /**
     * `get_transport_info`: true with a copy of the first transport entry
     * recorded for the configuration; false, leaving `inst` as it was, when
     * there is none.
     */
    method GetTransportInfo(configName: string, inst: TransportEntry) returns (found: bool, out: TransportEntry)
      ensures found <==> exists k :: 0 <= k < |transports| && transports[k].configName == configName
      ensures found ==> FirstEntryFor(transports, configName).Some?
                        && out == transports[FirstEntryFor(transports, configName).value]
      ensures !found ==> out == inst
    {
      found := false;
      out := inst;
      if HasTransports() {
        var i := 0;
        while i < |transports|
          invariant i <= |transports|
          invariant forall k :: 0 <= k < i ==> transports[k].configName != configName
        {
          if transports[i].configName == configName {
            out := TransportEntry(transports[i].transportName, transports[i].configName, transports[i].transportInfo);
            found := true;
            return;
          }
          i := i + 1;
        }
      }
    }

    /**
     * `load_transport_configuration`: loads the sections into the registry
     * and returns 0, or -1 on the first error, keeping what was changed
     * before it. Configurations and instances registered before the load
     * are never replaced. When the load succeeds and created instances, the
     * file's name is a new configuration holding exactly those instances in
     * strictly ascending order of name. `toInteger` stands for
     * `convertToInteger`.
     */
    method LoadTransportConfiguration(fileName: string, sections: seq<Section>, toInteger: string -> Option<int>)
      returns (status: int)
      requires Valid()
      modifies this`configMap, this`instMap, this`transports
      ensures Valid()
      ensures var r := Load(old(configMap), old(instMap), old(transports), typeMap, fileName, sections, toInteger);
              && configMap == r.configs && instMap == r.insts && transports == r.transports
              && status == if r.err.None? then 0 else -1
      ensures forall n :: n in old(configMap) ==> n in configMap && configMap[n] == old(configMap)[n]
      ensures forall n :: n in old(instMap) ==> n in instMap && instMap[n] == old(instMap)[n]
      ensures var created := Load(old(configMap), old(instMap), old(transports), typeMap, fileName, sections, toInteger).created;
              status == 0 && |created| > 0 ==>
                && fileName !in old(configMap) && fileName in configMap && configMap[fileName].name == fileName
                && multiset(configMap[fileName].instances) == multiset(created)
                && (forall i, j :: 0 <= i < j < |configMap[fileName].instances| ==>
                      LexLess(configMap[fileName].instances[i].name, configMap[fileName].instances[j].name))
    {
      ConfigLoadProps.LoadPreservesAndSorts(configMap, instMap, transports, typeMap, fileName, sections, toInteger);
      var r := LoadMethod(configMap, instMap, transports, typeMap, fileName, sections, toInteger);
      configMap := r.configs;
      instMap := r.insts;
      transports := r.transports;
      status := if r.err.None? then 0 else -1;
    }
  }
}
