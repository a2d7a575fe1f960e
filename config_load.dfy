/**
 * `TransportRegistry::load_transport_configuration`
 * (dds/DCPS/transport/framework/TransportRegistry.cpp) over sections given
 * as plain lists: the `[transport/NAME]` and `[transport_template/NAME]`
 * subsections that create instances, the `[config/NAME]` subsections that
 * create configurations, the population of those configurations with the
 * instances they list, and the per-file default configuration holding every
 * instance of the file sorted by name.
 *
 * The functions state what each loop computes; each loop is a method
 * proved to compute its function. Like the source, a load that fails keeps
 * whatever it changed before the failure.
 */
module ConfigLoad {
  import opened Wrappers
  import opened Text
  import opened RegistryTables
  import opened ConfigValues

  /** The section names the source compares against (the source's comments show them as `[transport/NAME]` and so on). */
  const TRANSPORT_SECTION_NAME: string := "transport"
  const TRANSPORT_TEMPLATE_SECTION_NAME: string := "transport_template"
  const CONFIG_SECTION_NAME: string := "config"

  /** A subsection `[section/id]` and its values, as `processSections` and `pullValues` give them. */
  datatype Subsection = Subsection(id: string, values: ValueMap)

  /**
   * A top-level section: its name, its own values (which must be empty),
   * whether `processSections` reports nesting deeper than one level, and
   * its subsections in order.
   */
  datatype Section = Section(name: string, values: ValueMap, nested: bool, subsections: seq<Subsection>)

  /**
   * What the load works on: the registry's configurations, instances and
   * transport entries, the `ConfigInfo`s gathered from `[config/NAME]`
   * subsections, the instances created from this file, and the first error.
   */
  datatype LoadState = LoadState(
    configs: map<string, TransportConfig>, insts: map<string, TransportInst>,
    transports: seq<TransportEntry>, infos: seq<ConfigInfo>, created: seq<TransportInst>,
    err: Option<LoadError>)

  /** The section names are distinct. */
  lemma SectionNamesDistinct()
    ensures TRANSPORT_SECTION_NAME != TRANSPORT_TEMPLATE_SECTION_NAME
    ensures CONFIG_SECTION_NAME != TRANSPORT_SECTION_NAME && CONFIG_SECTION_NAME != TRANSPORT_TEMPLATE_SECTION_NAME
  {
    assert |TRANSPORT_SECTION_NAME| != |TRANSPORT_TEMPLATE_SECTION_NAME|;
    assert CONFIG_SECTION_NAME[0] == 'c' && TRANSPORT_SECTION_NAME[0] == 't' && TRANSPORT_TEMPLATE_SECTION_NAME[0] == 't';
  }

  // ---------------------------------------------------------------------
  // `[transport/NAME]` and `[transport_template/NAME]` subsections

  /** The transport type: `TRANSPORT_TYPE`, else `transport_type`. */
  function TransportTypeValue(values: ValueMap): Option<string>
  {
    match FindValue(values, "TRANSPORT_TYPE")
    case Some(t) => Some(t)
    case None => FindValue(values, "transport_type")
  }

  /**
   * One transport subsection: it must hold values, one of them the type; the
   * instance is created under the subsection's name and recorded, with an
   * entry holding its values and no configuration name yet.
   */
  function TransportSubsectionStep(ls: LoadState, types: map<string, TransportType>, isTemplate: bool, sub: Subsection)
    : LoadState
  {
    if |sub.values| == 0 then ls.(err := Some(MissingTransportType(sub.id)))
    else match TransportTypeValue(sub.values)
      case None => ls.(err := Some(MissingTransportType(sub.id)))
      case Some(transportType) =>
        var (insts, inst) := CreateInstIn(ls.insts, types, sub.id, transportType, isTemplate);
        match inst
        case None => ls.(err := Some(CannotCreateInst(sub.id)))
        case Some(i) =>
          ls.(insts := insts, created := ls.created + [i],
              transports := ls.transports + [TransportEntry(sub.id, "", sub.values)])
  }

  function RunTransportSubsections(ls: LoadState, types: map<string, TransportType>, isTemplate: bool, subs: seq<Subsection>)
    : LoadState
    decreases |subs|
  {
    if |subs| == 0 || ls.err.Some? then ls
    else RunTransportSubsections(TransportSubsectionStep(ls, types, isTemplate, subs[0]), types, isTemplate, subs[1..])
  }

  // ---------------------------------------------------------------------
  // `[config/NAME]` subsections

  /**
   * One configuration subsection: the configuration is created under the
   * subsection's name, its values are loaded into it, and it must list
   * instances. The configuration is stored back even when a value fails,
   * as the source has already changed the object in the map.
   */
  function ConfigSubsectionStep(ls: LoadState, sub: Subsection, toInteger: string -> Option<int>): LoadState
  {
    var (configs, config) := CreateConfigIn(ls.configs, sub.id);
    match config
    case None => ls.(err := Some(CannotCreateConfig(sub.id)))
    case Some(c) =>
      var vs := RunValues(ValuesState(c, [], ls.transports, ls.infos, None), sub.id, sub.values, toInteger);
      ls.(configs := configs[sub.id := vs.config], transports := vs.transports, infos := vs.infos,
          err := if vs.err.Some? then vs.err else if |vs.tokens| == 0 then Some(NoTransportsListed(sub.id)) else None)
  }

  function RunConfigSubsections(ls: LoadState, subs: seq<Subsection>, toInteger: string -> Option<int>): LoadState
    decreases |subs|
  {
    if |subs| == 0 || ls.err.Some? then ls
    else RunConfigSubsections(ConfigSubsectionStep(ls, subs[0], toInteger), subs[1..], toInteger)
  }

  // ---------------------------------------------------------------------
  // Sections

  /**
   * One top-level section: transport and configuration sections may hold
   * no values of their own and no deeper nesting; any other section is
   * skipped.
   */
  function SectionStep(ls: LoadState, types: map<string, TransportType>, sec: Section, toInteger: string -> Option<int>)
    : LoadState
  {
    var isTemplate := sec.name == TRANSPORT_TEMPLATE_SECTION_NAME;
    if sec.name == TRANSPORT_SECTION_NAME || isTemplate || sec.name == CONFIG_SECTION_NAME then
      if |sec.values| > 0 then ls.(err := Some(SectionHasValues(sec.name)))
      else if sec.nested then ls.(err := Some(TooManyNesting(sec.name)))
      else if sec.name == CONFIG_SECTION_NAME then RunConfigSubsections(ls, sec.subsections, toInteger)
      else RunTransportSubsections(ls, types, isTemplate, sec.subsections)
    else ls
  }

  /**
   * The section name selects exactly one branch: `transport` runs its
   * subsections as instances and `transport_template` as templates, `config`
   * runs its subsections as configurations, both only when the section has
   * no values of its own and no nested subsections, and any other section is
   * skipped.
   */
  lemma SectionDispatch(ls: LoadState, types: map<string, TransportType>, sec: Section, toInteger: string -> Option<int>)
    ensures var known := sec.name == TRANSPORT_SECTION_NAME || sec.name == TRANSPORT_TEMPLATE_SECTION_NAME
                         || sec.name == CONFIG_SECTION_NAME;
            var r := SectionStep(ls, types, sec, toInteger);
            && (!known ==> r == ls)
            && (known && |sec.values| > 0 ==> r == ls.(err := Some(SectionHasValues(sec.name))))
            && (known && |sec.values| == 0 && sec.nested ==> r == ls.(err := Some(TooManyNesting(sec.name))))
            && (|sec.values| == 0 && !sec.nested ==>
                  && (sec.name == TRANSPORT_SECTION_NAME ==> r == RunTransportSubsections(ls, types, false, sec.subsections))
                  && (sec.name == TRANSPORT_TEMPLATE_SECTION_NAME ==> r == RunTransportSubsections(ls, types, true, sec.subsections))
                  && (sec.name == CONFIG_SECTION_NAME ==> r == RunConfigSubsections(ls, sec.subsections, toInteger)))
  {
    SectionNamesDistinct();
  }

  function RunSections(ls: LoadState, types: map<string, TransportType>, sections: seq<Section>, toInteger: string -> Option<int>)
    : LoadState
    decreases |sections|
  {
    if |sections| == 0 || ls.err.Some? then ls
    else RunSections(SectionStep(ls, types, sections[0], toInteger), types, sections[1..], toInteger)
  }

  // ---------------------------------------------------------------------
  // Populating the configurations

  /** `config->instances_.push_back(inst)` on the configuration stored under `configName`. */
  function AppendInstance(configs: map<string, TransportConfig>, configName: string, inst: TransportInst)
    : map<string, TransportConfig>
  {
    if configName in configs then configs[configName := configs[configName].(instances := configs[configName].instances + [inst])]
    else configs
  }

  /** The inner populate loop: each listed name must be an instance, which is appended. */
  function PopulateNames(ls: LoadState, configName: string, names: seq<string>): LoadState
    decreases |names|
  {
    if |names| == 0 || ls.err.Some? then ls
    else if names[0] !in ls.insts then ls.(err := Some(UndefinedInst(names[0], configName)))
    else PopulateNames(ls.(configs := AppendInstance(ls.configs, configName, ls.insts[names[0]])), configName, names[1..])
  }

  /** The outer populate loop over the gathered `ConfigInfo`s. */
  function Populate(ls: LoadState, infos: seq<ConfigInfo>): LoadState
    decreases |infos|
  {
    if |infos| == 0 || ls.err.Some? then ls
    else Populate(PopulateNames(ls, infos[0].configName, infos[0].instNames), infos[1..])
  }

  // ---------------------------------------------------------------------
  // The default configuration of the file

  /** `std::list::sort(predicate)`: a stable sort by instance name. */
  function SortByName(s: seq<TransportInst>): seq<TransportInst>
  {
    if |s| == 0 then [] else InsertByName(s[|s| - 1], SortByName(s[..|s| - 1]))
  }

  /** Inserts `x` after every element whose name is not greater than its own. */
  function InsertByName(x: TransportInst, s: seq<TransportInst>): seq<TransportInst>
  {
    if |s| == 0 then [x]
    else if LexLess(x.name, s[0].name) then [x] + s
    else [s[0]] + InsertByName(x, s[1..])
  }

  /** Names never decrease along the sequence. */
  predicate SortedByName(s: seq<TransportInst>)
  {
    forall i, j :: 0 <= i < j < |s| ==> !LexLess(s[j].name, s[i].name)
  }

  /**
   * When the file created instances, a configuration named after the file
   * holds them all, sorted by name; its name must be free.
   */
  function DefaultConfig(ls: LoadState, fileName: string): LoadState
  {
    if |ls.created| == 0 then ls
    else
      var (configs, config) := CreateConfigIn(ls.configs, fileName);
      match config
      case None => ls.(err := Some(CannotCreateDefaultConfig(fileName)))
      case Some(c) => ls.(configs := configs[fileName := c.(instances := c.instances + SortByName(ls.created))])
  }

  /**
   * The whole load from the registry's tables: the sections in order, then
   * the population of the gathered configurations, then the default
   * configuration; the first error ends it.
   */
  function Load(configs: map<string, TransportConfig>, insts: map<string, TransportInst>, transports: seq<TransportEntry>,
                types: map<string, TransportType>, fileName: string, sections: seq<Section>, toInteger: string -> Option<int>)
    : LoadState
  {
    var afterSections := RunSections(LoadState(configs, insts, transports, [], [], None), types, sections, toInteger);
    if afterSections.err.Some? then afterSections
    else
      var populated := Populate(afterSections, afterSections.infos);
      if populated.err.Some? then populated
      else DefaultConfig(populated, fileName)
  }

  // ---------------------------------------------------------------------
  // The loops

  /** The body of the transport subsection loop, returning the error it meets. */
  method TransportSubsection(ls: LoadState, types: map<string, TransportType>, isTemplate: bool, sub: Subsection)
    returns (r: LoadState)
    ensures r == TransportSubsectionStep(ls, types, isTemplate, sub)
  {
    r := ls;
    if |sub.values| == 0 {
      return r.(err := Some(MissingTransportType(sub.id)));
    }
    var transportType := TransportTypeValue(sub.values);
    if transportType.None? {
      return r.(err := Some(MissingTransportType(sub.id)));
    }
    var (insts, inst) := CreateInstIn(r.insts, types, sub.id, transportType.value, isTemplate);
    if inst.None? {
      return r.(err := Some(CannotCreateInst(sub.id)));
    }
    r := r.(insts := insts, created := r.created + [inst.value],
            transports := r.transports + [TransportEntry(sub.id, "", sub.values)]);
  }

  /** The loop over the subsections of a transport section. */
  method TransportSubsectionsLoop(ls: LoadState, types: map<string, TransportType>, isTemplate: bool, subs: seq<Subsection>)
    returns (r: LoadState)
    ensures r == RunTransportSubsections(ls, types, isTemplate, subs)
  {
    r := ls;
    var i := 0;
    while i < |subs| && r.err.None?
      invariant i <= |subs|
      invariant RunTransportSubsections(r, types, isTemplate, subs[i..]) == RunTransportSubsections(ls, types, isTemplate, subs)
    {
      assert subs[i..][1..] == subs[i + 1..];
      r := TransportSubsection(r, types, isTemplate, subs[i]);
      i := i + 1;
    }
  }

  /** The loop over the subsections of a configuration section. */
  method ConfigSubsectionsLoop(ls: LoadState, subs: seq<Subsection>, toInteger: string -> Option<int>)
    returns (r: LoadState)
    ensures r == RunConfigSubsections(ls, subs, toInteger)
  {
    r := ls;
    var i := 0;
    while i < |subs| && r.err.None?
      invariant i <= |subs|
      invariant RunConfigSubsections(r, subs[i..], toInteger) == RunConfigSubsections(ls, subs, toInteger)
    {
      assert subs[i..][1..] == subs[i + 1..];
      var sub := subs[i];
      var (configs, config) := CreateConfigIn(r.configs, sub.id);
      if config.None? {
        r := r.(err := Some(CannotCreateConfig(sub.id)));
      } else {
        var vs := ValuesLoop(ValuesState(config.value, [], r.transports, r.infos, None), sub.id, sub.values, toInteger);
        var err := if vs.err.Some? then vs.err else if |vs.tokens| == 0 then Some(NoTransportsListed(sub.id)) else None;
        r := r.(configs := configs[sub.id := vs.config], transports := vs.transports, infos := vs.infos, err := err);
      }
      i := i + 1;
    }
  }

  /** `for (index = 0; enumerate_sections(...) == 0; ++index)`. */
  method SectionsLoop(ls: LoadState, types: map<string, TransportType>, sections: seq<Section>, toInteger: string -> Option<int>)
    returns (r: LoadState)
    ensures r == RunSections(ls, types, sections, toInteger)
  {
    r := ls;
    var i := 0;
    while i < |sections| && r.err.None?
      invariant i <= |sections|
      invariant RunSections(r, types, sections[i..], toInteger) == RunSections(ls, types, sections, toInteger)
    {
      assert sections[i..][1..] == sections[i + 1..];
      var sec := sections[i];
      var isTemplate := sec.name == TRANSPORT_TEMPLATE_SECTION_NAME;
      if sec.name == TRANSPORT_SECTION_NAME || isTemplate || sec.name == CONFIG_SECTION_NAME {
        if |sec.values| > 0 {
          r := r.(err := Some(SectionHasValues(sec.name)));
        } else if sec.nested {
          r := r.(err := Some(TooManyNesting(sec.name)));
        } else if sec.name == CONFIG_SECTION_NAME {
          r := ConfigSubsectionsLoop(r, sec.subsections, toInteger);
        } else {
          r := TransportSubsectionsLoop(r, types, isTemplate, sec.subsections);
        }
      }
      i := i + 1;
    }
  }

  /** `for (j = 0; j < insts.size(); ++j)`: look each name up and append the instance. */
  method PopulateNamesLoop(ls: LoadState, configName: string, names: seq<string>) returns (r: LoadState)
    ensures r == PopulateNames(ls, configName, names)
  {
    r := ls;
    var j := 0;
    while j < |names| && r.err.None?
      invariant j <= |names|
      invariant PopulateNames(r, configName, names[j..]) == PopulateNames(ls, configName, names)
    {
      assert names[j..][1..] == names[j + 1..];
      if names[j] !in r.insts {
        r := r.(err := Some(UndefinedInst(names[j], configName)));
      } else {
        r := r.(configs := AppendInstance(r.configs, configName, r.insts[names[j]]));
      }
      j := j + 1;
    }
  }

  /** `for (i = 0; i < configInfoVec.size(); ++i)`. */
  method PopulateLoop(ls: LoadState, infos: seq<ConfigInfo>) returns (r: LoadState)
    ensures r == Populate(ls, infos)
  {
    r := ls;
    var i := 0;
    while i < |infos| && r.err.None?
      invariant i <= |infos|
      invariant Populate(r, infos[i..]) == Populate(ls, infos)
    {
      assert infos[i..][1..] == infos[i + 1..];
      r := PopulateNamesLoop(r, infos[i].configName, infos[i].instNames);
      i := i + 1;
    }
  }

  /** The default configuration: created, then given the sorted instances one by one. */
  method DefaultConfigMethod(ls: LoadState, fileName: string) returns (r: LoadState)
    ensures r == DefaultConfig(ls, fileName)
  {
    r := ls;
    if |ls.created| > 0 {
      var (configs, config) := CreateConfigIn(ls.configs, fileName);
      if config.None? {
        r := ls.(err := Some(CannotCreateDefaultConfig(fileName)));
      } else {
        var sorted := SortByName(ls.created);
        var c := config.value;
        for k := 0 to |sorted|
          invariant c == config.value.(instances := config.value.instances + sorted[..k])
        {
          assert sorted[..k + 1] == sorted[..k] + [sorted[k]];
          c := c.(instances := c.instances + [sorted[k]]);
        }
        assert sorted[..|sorted|] == sorted;
        r := ls.(configs := configs[fileName := c]);
      }
    }
  }

  /** `load_transport_configuration` on the registry's tables. */
  method LoadMethod(configs: map<string, TransportConfig>, insts: map<string, TransportInst>, transports: seq<TransportEntry>,
                    types: map<string, TransportType>, fileName: string, sections: seq<Section>, toInteger: string -> Option<int>)
    returns (r: LoadState)
    ensures r == Load(configs, insts, transports, types, fileName, sections, toInteger)
  {
    r := SectionsLoop(LoadState(configs, insts, transports, [], [], None), types, sections, toInteger);
    if r.err.None? {
      r := PopulateLoop(r, r.infos);
      if r.err.None? {
        r := DefaultConfigMethod(r, fileName);
      }
    }
  }
}
