/**
 * What `load_transport_configuration` promises, stated over the functions
 * of ConfigLoad: the sort of the default configuration, the outcome of each
 * kind of subsection, the population of configurations, and that a load,
 * even a failing one, never changes a configuration or an instance that
 * existed before it.
 */
module ConfigLoadProps {
  import opened Wrappers
  import opened Text
  import opened RegistryTables
  import opened ConfigValues
  import opened ConfigLoad

  // ---------------------------------------------------------------------
  // Sorting by name

  /** "Not less than" is transitive on names (a total preorder). */
  lemma NotLessTransitive(a: string, b: string, c: string)
    requires !LexLess(b, a) && !LexLess(c, b)
    ensures !LexLess(c, a)
  {
    if LexLess(c, a) {
      LexLessTotal(a, b);
      if a != b {
        LexLessTransitive(c, a, b);
      }
    }
  }

  /** Inserting adds exactly the one element. */
  lemma {:induction false} InsertByNameMultiset(x: TransportInst, s: seq<TransportInst>)
    ensures multiset(InsertByName(x, s)) == multiset(s) + multiset{x}
    decreases |s|
  {
    if |s| > 0 && !LexLess(x.name, s[0].name) {
      InsertByNameMultiset(x, s[1..]);
      assert s == [s[0]] + s[1..];
    }
  }

  /** An element no greater than any of a sorted sequence can go in front of it. */
  lemma ConsSorted(a: TransportInst, t: seq<TransportInst>)
    requires SortedByName(t)
    requires forall k :: 0 <= k < |t| ==> !LexLess(t[k].name, a.name)
    ensures SortedByName([a] + t)
  {
    var r := [a] + t;
    forall i, j | 0 <= i < j < |r| ensures !LexLess(r[j].name, r[i].name) {
      assert r[j] == t[j - 1];
      if i > 0 {
        assert r[i] == t[i - 1];
      }
    }
  }

  /** Inserting keeps a sorted sequence sorted and adds exactly the one element. */
  lemma {:induction false} InsertByNameSorted(x: TransportInst, s: seq<TransportInst>)
    requires SortedByName(s)
    ensures SortedByName(InsertByName(x, s))
    ensures multiset(InsertByName(x, s)) == multiset(s) + multiset{x}
    decreases |s|
  {
    InsertByNameMultiset(x, s);
    if |s| == 0 {
    } else if LexLess(x.name, s[0].name) {
      forall k | 0 <= k < |s| ensures !LexLess(s[k].name, x.name) {
        if LexLess(s[k].name, x.name) {
          LexLessTransitive(s[k].name, x.name, s[0].name);
          if k == 0 {
            LexLessIrreflexive(s[0].name);
          }
        }
      }
      ConsSorted(x, s);
    } else {
      assert SortedByName(s[1..]) by {
        forall i, j | 0 <= i < j < |s[1..]| ensures !LexLess(s[1..][j].name, s[1..][i].name) {
          assert s[1..][j] == s[j + 1] && s[1..][i] == s[i + 1];
        }
      }
      InsertByNameSorted(x, s[1..]);
      var t := InsertByName(x, s[1..]);
      forall k | 0 <= k < |t| ensures !LexLess(t[k].name, s[0].name) {
        assert t[k] in multiset(t);
        if t[k] != x {
          assert t[k] in multiset(s[1..]);
          var m :| 0 <= m < |s[1..]| && s[1..][m] == t[k];
          assert s[m + 1] == t[k];
        }
      }
      ConsSorted(s[0], t);
    }
  }

  /**
   * The default configuration's order: `SortByName` returns the same
   * instances, each as often, with names never decreasing.
   */
  lemma {:induction false} SortByNameSorted(s: seq<TransportInst>)
    ensures SortedByName(SortByName(s))
    ensures multiset(SortByName(s)) == multiset(s)
    ensures |SortByName(s)| == |s|
    decreases |s|
  {
    if |s| > 0 {
      var init := s[..|s| - 1];
      SortByNameSorted(init);
      InsertByNameSorted(s[|s| - 1], SortByName(init));
      InsertByNameMultiset(s[|s| - 1], SortByName(init));
      assert s == init + [s[|s| - 1]];
    }
    assert |multiset(SortByName(s))| == |multiset(s)|;
  }

  /** Names strictly ascend along the sequence. */
  predicate StrictlyByName(s: seq<TransportInst>)
  {
    forall i, j :: 0 <= i < j < |s| ==> LexLess(s[i].name, s[j].name)
  }

  /** Inserting an instance whose name is not yet present keeps the names strictly ascending. */
  lemma {:induction false} InsertByNameStrict(x: TransportInst, s: seq<TransportInst>)
    requires StrictlyByName(s)
    requires forall k :: 0 <= k < |s| ==> s[k].name != x.name
    ensures StrictlyByName(InsertByName(x, s))
    decreases |s|
  {
    if |s| == 0 {
    } else if LexLess(x.name, s[0].name) {
      var r := [x] + s;
      forall j | 1 < j < |r| ensures LexLess(x.name, r[j].name) {
        LexLessTransitive(x.name, s[0].name, r[j].name);
      }
      assert InsertByName(x, s) == r;
    } else {
      LexLessTotal(x.name, s[0].name);
      InsertByNameStrict(x, s[1..]);
      var t := InsertByName(x, s[1..]);
      InsertByNameMultiset(x, s[1..]);
      forall j | 0 <= j < |t| ensures LexLess(s[0].name, t[j].name) {
        assert t[j] in multiset(t);
        if t[j] != x {
          assert t[j] in multiset(s[1..]);
          var k :| 0 <= k < |s[1..]| && s[1..][k] == t[j];
          assert s[k + 1] == t[j];
        }
      }
      var r := [s[0]] + t;
      forall i, j | 0 <= i < j < |r| ensures LexLess(r[i].name, r[j].name) {
        if i > 0 {
          assert r[i] == t[i - 1] && r[j] == t[j - 1];
        }
      }
      assert InsertByName(x, s) == r;
    }
  }

  /** With distinct names, the sorted instances strictly ascend by name. */
  lemma {:induction false} SortByNameStrict(s: seq<TransportInst>)
    requires forall i, j :: 0 <= i < j < |s| ==> s[i].name != s[j].name
    ensures StrictlyByName(SortByName(s))
    decreases |s|
  {
    if |s| > 0 {
      var init := s[..|s| - 1];
      var x := s[|s| - 1];
      SortByNameStrict(init);
      SortByNameSorted(init);
      var t := SortByName(init);
      forall k | 0 <= k < |t| ensures t[k].name != x.name {
        assert t[k] in multiset(t);
        assert t[k] in multiset(init);
        var a :| 0 <= a < |init| && init[a] == t[k];
      }
      InsertByNameStrict(x, t);
    }
  }

  // ---------------------------------------------------------------------
  // One subsection

  /** `TRANSPORT_TYPE` takes precedence over `transport_type`; the type is missing only when both are. */
  lemma TransportTypePrecedence(values: ValueMap)
    ensures TransportTypeValue(values).None? <==>
              forall k :: 0 <= k < |values| ==> values[k].key != "TRANSPORT_TYPE" && values[k].key != "transport_type"
    ensures FindValue(values, "TRANSPORT_TYPE").Some? ==> TransportTypeValue(values) == FindValue(values, "TRANSPORT_TYPE")
  {
  }

  /**
   * A transport subsection succeeds exactly when it names a registered type
   * and its name is free: it then adds one instance of that type under its
   * name, records it as created, and appends an entry with its values and
   * no configuration name. Configurations are not touched.
   */
  lemma TransportSubsectionOutcome(ls: LoadState, types: map<string, TransportType>, isTemplate: bool, sub: Subsection)
    requires ls.err.None?
    ensures var r := TransportSubsectionStep(ls, types, isTemplate, sub);
            var tt := TransportTypeValue(sub.values);
            && r.configs == ls.configs && r.infos == ls.infos
            && (r.err.None? <==> tt.Some? && tt.value in types && sub.id !in ls.insts)
            && (r.err.None? ==>
                  var inst := TransportInst(sub.id, types[tt.value].name, isTemplate);
                  && r.insts == ls.insts[sub.id := inst] && r.created == ls.created + [inst]
                  && r.transports == ls.transports + [TransportEntry(sub.id, "", sub.values)])
            && (r.err.Some? ==> r == ls.(err := r.err))
  {
    CreateInstAddsOne(ls.insts, types, sub.id, if TransportTypeValue(sub.values).Some? then TransportTypeValue(sub.values).value else "", isTemplate);
  }

  /**
   * A configuration subsection fails when its name is taken, and whenever
   * it has no `transports` key. When it succeeds, its name was free, it
   * holds only the three known keys, one of them `transports`, and it
   * leaves a configuration of that name, without instances yet, and at
   * least one `ConfigInfo` for it.
   */
  lemma ConfigSubsectionOutcome(ls: LoadState, sub: Subsection, toInteger: string -> Option<int>)
    requires ls.err.None?
    ensures var r := ConfigSubsectionStep(ls, sub, toInteger);
            && (sub.id in ls.configs ==> r == ls.(err := Some(CannotCreateConfig(sub.id))))
            && ((forall k :: 0 <= k < |sub.values| ==> sub.values[k].key != TRANSPORTS_KEY) ==> r.err.Some?)
            && (r.err.None? ==>
                  && sub.id !in ls.configs && sub.id in r.configs
                  && r.configs[sub.id].name == sub.id && r.configs[sub.id].instances == []
                  && (forall k :: 0 <= k < |sub.values| ==>
                        sub.values[k].key in {TRANSPORTS_KEY, SWAP_BYTES_KEY, PASSIVE_CONNECT_DURATION_KEY})
                  && (exists k :: 0 <= k < |sub.values| && sub.values[k].key == TRANSPORTS_KEY)
                  && |r.infos| > |ls.infos|)
  {
    if sub.id !in ls.configs {
      var vs0 := ValuesState(NewConfig(sub.id), [], ls.transports, ls.infos, None);
      RunValuesAccepted(vs0, sub.id, sub.values, toInteger);
      RunValuesFrame(vs0, sub.id, sub.values, toInteger);
      var vs := RunValues(vs0, sub.id, sub.values, toInteger);
      if vs.err.None? && |vs.tokens| > 0 {
        assert |vs.infos| > |ls.infos| by {
          if |vs.infos| == |ls.infos| {
            PushedInfos(vs0, sub.id, sub.values, toInteger);
          }
        }
      }
    }
  }

  /** Names gathered by the values loop come with a pushed `ConfigInfo`. */
  lemma {:induction false} PushedInfos(vs: ValuesState, configId: string, values: ValueMap, toInteger: string -> Option<int>)
    ensures var r := RunValues(vs, configId, values, toInteger);
            |r.tokens| > |vs.tokens| ==> |r.infos| > |vs.infos|
    decreases |values|
  {
    if |values| > 0 && vs.err.None? {
      var next := ValueStep(vs, configId, values[0], toInteger);
      PushedInfos(next, configId, values[1..], toInteger);
      RunValuesFrame(next, configId, values[1..], toInteger);
      RunValuesTokensGrow(next, configId, values[1..], toInteger);
    }
  }

  /** The names gathered by the values loop only grow. */
  lemma {:induction false} RunValuesTokensGrow(vs: ValuesState, configId: string, values: ValueMap, toInteger: string -> Option<int>)
    ensures |RunValues(vs, configId, values, toInteger).tokens| >= |vs.tokens|
    decreases |values|
  {
    if |values| > 0 && vs.err.None? {
      RunValuesTokensGrow(ValueStep(vs, configId, values[0], toInteger), configId, values[1..], toInteger);
    }
  }

  // ---------------------------------------------------------------------
  // Populating

  /** The instances registered under `names`, in order. */
  function InstancesNamed(insts: map<string, TransportInst>, names: seq<string>): (r: seq<TransportInst>)
    requires forall k :: 0 <= k < |names| ==> names[k] in insts
    ensures |r| == |names| && forall k :: 0 <= k < |names| ==> r[k] == insts[names[k]]
  {
    if |names| == 0 then [] else [insts[names[0]]] + InstancesNamed(insts, names[1..])
  }

  /**
   * The inner populate loop changes only the configuration it fills: the
   * instances, the created list, the `ConfigInfo`s, the transport entries,
   * the set of configuration names and every other configuration stay.
   */
  lemma {:induction false} PopulateNamesFrame(ls: LoadState, configName: string, names: seq<string>)
    ensures var r := PopulateNames(ls, configName, names);
            && r.insts == ls.insts && r.created == ls.created && r.infos == ls.infos && r.transports == ls.transports
            && r.configs.Keys == ls.configs.Keys
            && (forall n :: n in ls.configs && n != configName ==> r.configs[n] == ls.configs[n])
    decreases |names|
  {
    if |names| > 0 && ls.err.None? && names[0] in ls.insts {
      PopulateNamesFrame(ls.(configs := AppendInstance(ls.configs, configName, ls.insts[names[0]])), configName, names[1..]);
    }
  }

  /** The inner populate loop succeeds exactly when every listed name is an instance. */
  lemma {:induction false} PopulateNamesSucceeds(ls: LoadState, configName: string, names: seq<string>)
    requires ls.err.None?
    ensures PopulateNames(ls, configName, names).err.None? <==> forall k :: 0 <= k < |names| ==> names[k] in ls.insts
    decreases |names|
  {
    if |names| > 0 && names[0] in ls.insts {
      PopulateNamesSucceeds(ls.(configs := AppendInstance(ls.configs, configName, ls.insts[names[0]])), configName, names[1..]);
      assert forall k :: 0 < k < |names| ==> names[k] == names[1..][k - 1];
    }
  }

  /** Appending one element, then a sequence, is appending their concatenation. */
  lemma AppendAssociative<T>(a: seq<T>, x: T, b: seq<T>)
    ensures (a + [x]) + b == a + ([x] + b)
  {
  }

  /** When every listed name is an instance, those instances are appended, in order, to the configuration. */
  lemma {:induction false} PopulateNamesAppends(ls: LoadState, configName: string, names: seq<string>)
    requires ls.err.None? && configName in ls.configs
    requires forall k :: 0 <= k < |names| ==> names[k] in ls.insts
    ensures PopulateNames(ls, configName, names).configs
              == ls.configs[configName := ls.configs[configName].(
                   instances := ls.configs[configName].instances + InstancesNamed(ls.insts, names))]
    decreases |names|
  {
    var c := ls.configs[configName];
    if |names| == 0 {
      assert c.(instances := c.instances + InstancesNamed(ls.insts, names)) == c;
    } else {
      var c1 := c.(instances := c.instances + [ls.insts[names[0]]]);
      var next := ls.(configs := ls.configs[configName := c1]);
      assert next.configs == AppendInstance(ls.configs, configName, ls.insts[names[0]]);
      assert PopulateNames(ls, configName, names) == PopulateNames(next, configName, names[1..]);
      assert forall k :: 0 <= k < |names[1..]| ==> names[1..][k] in next.insts by {
        forall k | 0 <= k < |names[1..]| ensures names[1..][k] in next.insts {
          assert names[1..][k] == names[k + 1];
        }
      }
      PopulateNamesAppends(next, configName, names[1..]);
      var rest := InstancesNamed(ls.insts, names[1..]);
      assert InstancesNamed(ls.insts, names) == [ls.insts[names[0]]] + rest;
      AppendAssociative(c.instances, ls.insts[names[0]], rest);
      assert next.configs[configName := c1.(instances := c1.instances + rest)]
          == ls.configs[configName := c1.(instances := c1.instances + rest)];
    }
  }

  /** A failing inner populate loop reports the first listed name that is not an instance. */
  lemma {:induction false} PopulateNamesFirstMissing(ls: LoadState, configName: string, names: seq<string>)
    requires ls.err.None?
    ensures var r := PopulateNames(ls, configName, names);
            r.err.Some? ==> exists k :: 0 <= k < |names| && names[k] !in ls.insts
                                       && (forall j :: 0 <= j < k ==> names[j] in ls.insts)
                                       && r.err.value == UndefinedInst(names[k], configName)
    decreases |names|
  {
    if |names| > 0 && names[0] in ls.insts {
      var next := ls.(configs := AppendInstance(ls.configs, configName, ls.insts[names[0]]));
      PopulateNamesFirstMissing(next, configName, names[1..]);
      var r := PopulateNames(next, configName, names[1..]);
      if r.err.Some? {
        var k :| 0 <= k < |names[1..]| && names[1..][k] !in ls.insts && (forall j :: 0 <= j < k ==> names[1..][j] in ls.insts)
                 && r.err.value == UndefinedInst(names[1..][k], configName);
        assert names[k + 1] == names[1..][k];
        assert forall j :: 0 < j < k + 1 ==> names[j] == names[1..][j - 1];
      }
    }
  }

  // ---------------------------------------------------------------------
  // The default configuration

  /**
   * When the file created instances, the default configuration is made
   * under the file's name, which must be free, and holds exactly those
   * instances sorted by name; otherwise nothing happens.
   */
  lemma DefaultConfigSorted(ls: LoadState, fileName: string)
    requires ls.err.None?
    ensures var r := DefaultConfig(ls, fileName);
            && (|ls.created| == 0 ==> r == ls)
            && (|ls.created| > 0 ==> (r.err.Some? <==> fileName in ls.configs))
            && (|ls.created| > 0 && r.err.None? ==>
                  && r.configs.Keys == ls.configs.Keys + {fileName}
                  && r.configs[fileName].name == fileName
                  && SortedByName(r.configs[fileName].instances)
                  && multiset(r.configs[fileName].instances) == multiset(ls.created))
            && r.insts == ls.insts && r.created == ls.created
            && (forall n :: n in ls.configs ==> n in r.configs && r.configs[n] == ls.configs[n])
  {
    SortByNameSorted(ls.created);
  }

  // ---------------------------------------------------------------------
  // The whole load

  /**
   * What every step of a load keeps, relative to the tables it started
   * from: configurations and instances that existed are unchanged, every
   * gathered `ConfigInfo` is for a configuration made by this load, and
   * the instances this load created are new, registered, distinct by name,
   * and the only instances added.
   */
  predicate Preserved(ls: LoadState, configs0: map<string, TransportConfig>, insts0: map<string, TransportInst>)
  {
    && (forall n :: n in configs0 ==> n in ls.configs && ls.configs[n] == configs0[n])
    && (forall k :: 0 <= k < |ls.infos| ==> ls.infos[k].configName !in configs0)
    && (forall n :: n in insts0 ==> n in ls.insts && ls.insts[n] == insts0[n])
    && (forall k :: 0 <= k < |ls.created| ==>
          ls.created[k].name !in insts0 && ls.created[k].name in ls.insts && ls.insts[ls.created[k].name] == ls.created[k])
    && (forall n :: n in ls.insts ==> n in insts0 || exists k :: 0 <= k < |ls.created| && ls.created[k].name == n)
    && (forall j, k :: 0 <= j < k < |ls.created| ==> ls.created[j].name != ls.created[k].name)
  }

  /** Registering one new instance as created keeps the invariant. */
  lemma AddInstancePreserves(ls: LoadState, r: LoadState, inst: TransportInst,
                             configs0: map<string, TransportConfig>, insts0: map<string, TransportInst>)
    requires Preserved(ls, configs0, insts0)
    requires inst.name !in ls.insts
    requires r.configs == ls.configs && r.infos == ls.infos
    requires r.insts == ls.insts[inst.name := inst] && r.created == ls.created + [inst]
    ensures Preserved(r, configs0, insts0)
  {
    var n := |ls.created|;
    assert r.created[n] == inst;
    forall k | 0 <= k < |r.created|
      ensures r.created[k].name !in insts0 && r.created[k].name in r.insts && r.insts[r.created[k].name] == r.created[k]
    {
      if k < n {
        assert r.created[k] == ls.created[k];
      }
    }
    forall m | m in r.insts
      ensures m in insts0 || exists k :: 0 <= k < |r.created| && r.created[k].name == m
    {
      if m != inst.name && m !in insts0 {
        var k :| 0 <= k < |ls.created| && ls.created[k].name == m;
        assert r.created[k] == ls.created[k];
      }
    }
    forall j, k | 0 <= j < k < |r.created| ensures r.created[j].name != r.created[k].name {
      assert r.created[j] == ls.created[j];
      if k < n {
        assert r.created[k] == ls.created[k];
      }
    }
  }

  lemma TransportSubsectionPreserves(ls: LoadState, types: map<string, TransportType>, isTemplate: bool, sub: Subsection,
                                     configs0: map<string, TransportConfig>, insts0: map<string, TransportInst>)
    requires ls.err.None? && Preserved(ls, configs0, insts0)
    ensures Preserved(TransportSubsectionStep(ls, types, isTemplate, sub), configs0, insts0)
  {
    TransportSubsectionOutcome(ls, types, isTemplate, sub);
    var r := TransportSubsectionStep(ls, types, isTemplate, sub);
    if r.err.None? {
      var tt := TransportTypeValue(sub.values).value;
      AddInstancePreserves(ls, r, TransportInst(sub.id, types[tt].name, isTemplate), configs0, insts0);
    }
  }

  lemma {:induction false} TransportSubsectionsPreserve(ls: LoadState, types: map<string, TransportType>, isTemplate: bool,
                                                        subs: seq<Subsection>,
                                                        configs0: map<string, TransportConfig>, insts0: map<string, TransportInst>)
    requires Preserved(ls, configs0, insts0)
    ensures Preserved(RunTransportSubsections(ls, types, isTemplate, subs), configs0, insts0)
    decreases |subs|
  {
    if |subs| > 0 && ls.err.None? {
      TransportSubsectionPreserves(ls, types, isTemplate, subs[0], configs0, insts0);
      TransportSubsectionsPreserve(TransportSubsectionStep(ls, types, isTemplate, subs[0]), types, isTemplate, subs[1..], configs0, insts0);
    }
  }

  lemma ConfigSubsectionPreserves(ls: LoadState, sub: Subsection, toInteger: string -> Option<int>,
                                  configs0: map<string, TransportConfig>, insts0: map<string, TransportInst>)
    requires ls.err.None? && Preserved(ls, configs0, insts0)
    ensures Preserved(ConfigSubsectionStep(ls, sub, toInteger), configs0, insts0)
  {
    if sub.id !in ls.configs {
      var vs0 := ValuesState(NewConfig(sub.id), [], ls.transports, ls.infos, None);
      RunValuesFrame(vs0, sub.id, sub.values, toInteger);
      var vs := RunValues(vs0, sub.id, sub.values, toInteger);
      forall k | 0 <= k < |vs.infos| ensures vs.infos[k].configName !in configs0 {
        if k < |ls.infos| {
          assert vs.infos[k] == vs.infos[..|ls.infos|][k];
        }
      }
    }
  }

  lemma {:induction false} ConfigSubsectionsPreserve(ls: LoadState, subs: seq<Subsection>, toInteger: string -> Option<int>,
                                                     configs0: map<string, TransportConfig>, insts0: map<string, TransportInst>)
    requires Preserved(ls, configs0, insts0)
    ensures Preserved(RunConfigSubsections(ls, subs, toInteger), configs0, insts0)
    decreases |subs|
  {
    if |subs| > 0 && ls.err.None? {
      ConfigSubsectionPreserves(ls, subs[0], toInteger, configs0, insts0);
      ConfigSubsectionsPreserve(ConfigSubsectionStep(ls, subs[0], toInteger), subs[1..], toInteger, configs0, insts0);
    }
  }

  lemma {:induction false} SectionsPreserve(ls: LoadState, types: map<string, TransportType>, sections: seq<Section>,
                                            toInteger: string -> Option<int>,
                                            configs0: map<string, TransportConfig>, insts0: map<string, TransportInst>)
    requires Preserved(ls, configs0, insts0)
    ensures Preserved(RunSections(ls, types, sections, toInteger), configs0, insts0)
    decreases |sections|
  {
    if |sections| > 0 && ls.err.None? {
      var sec := sections[0];
      ConfigSubsectionsPreserve(ls, sec.subsections, toInteger, configs0, insts0);
      TransportSubsectionsPreserve(ls, types, sec.name == TRANSPORT_TEMPLATE_SECTION_NAME, sec.subsections, configs0, insts0);
      SectionsPreserve(SectionStep(ls, types, sec, toInteger), types, sections[1..], toInteger, configs0, insts0);
    }
  }

  lemma {:induction false} PopulatePreserves(ls: LoadState, infos: seq<ConfigInfo>,
                                             configs0: map<string, TransportConfig>, insts0: map<string, TransportInst>)
    requires Preserved(ls, configs0, insts0)
    requires forall k :: 0 <= k < |infos| ==> infos[k].configName !in configs0
    ensures Preserved(Populate(ls, infos), configs0, insts0)
    ensures Populate(ls, infos).insts == ls.insts && Populate(ls, infos).created == ls.created
    decreases |infos|
  {
    if |infos| > 0 && ls.err.None? {
      PopulateNamesFrame(ls, infos[0].configName, infos[0].instNames);
      PopulatePreserves(PopulateNames(ls, infos[0].configName, infos[0].instNames), infos[1..], configs0, insts0);
    }
  }

  /** The tables a load starts from keep the invariant. */
  lemma StartPreserved(configs0: map<string, TransportConfig>, insts0: map<string, TransportInst>, transports: seq<TransportEntry>)
    ensures Preserved(LoadState(configs0, insts0, transports, [], [], None), configs0, insts0)
  {
  }

  /**
   * A load, failing or not, never changes a configuration or an instance
   * that existed before it; the instances it created are new, distinct by
   * name and the only ones it added.
   */
  lemma LoadPreserves(configs: map<string, TransportConfig>, insts: map<string, TransportInst>,
                      transports: seq<TransportEntry>, types: map<string, TransportType>, fileName: string,
                      sections: seq<Section>, toInteger: string -> Option<int>)
    ensures Preserved(Load(configs, insts, transports, types, fileName, sections, toInteger), configs, insts)
  {
    var ls0 := LoadState(configs, insts, transports, [], [], None);
    StartPreserved(configs, insts, transports);
    SectionsPreserve(ls0, types, sections, toInteger, configs, insts);
    var afterSections := RunSections(ls0, types, sections, toInteger);
    if afterSections.err.None? {
      PopulatePreserves(afterSections, afterSections.infos, configs, insts);
      var populated := Populate(afterSections, afterSections.infos);
      if populated.err.None? {
        DefaultConfigSorted(populated, fileName);
      }
    }
  }

  /**
   * After a successful population that kept the earlier configurations and
   * created instances of distinct names, the default configuration is new,
   * and holds exactly them, each once, in
   * strictly ascending order of name.
   */
  lemma DefaultConfigStrict(ls: LoadState, fileName: string, configs0: map<string, TransportConfig>)
    requires ls.err.None? && configs0.Keys <= ls.configs.Keys
    requires forall j, k :: 0 <= j < k < |ls.created| ==> ls.created[j].name != ls.created[k].name
    ensures var r := DefaultConfig(ls, fileName);
            r.err.None? && |r.created| > 0 ==>
              && fileName !in configs0 && fileName in r.configs && r.configs[fileName].name == fileName
              && multiset(r.configs[fileName].instances) == multiset(r.created)
              && (forall i, j :: 0 <= i < j < |r.configs[fileName].instances| ==>
                    LexLess(r.configs[fileName].instances[i].name, r.configs[fileName].instances[j].name))
  {
    DefaultConfigSorted(ls, fileName);
    if |ls.created| > 0 {
      SortByNameStrict(ls.created);
      var r := DefaultConfig(ls, fileName);
      if r.err.None? {
        assert r.configs[fileName].instances == SortByName(ls.created);
      }
    }
  }

  /**
   * When a load succeeds and created instances, the configuration named
   * after the file is new and holds exactly them, each once, in strictly
   * ascending order of name.
   */
  lemma LoadSorts(configs: map<string, TransportConfig>, insts: map<string, TransportInst>,
                  transports: seq<TransportEntry>, types: map<string, TransportType>, fileName: string,
                  sections: seq<Section>, toInteger: string -> Option<int>)
    ensures var r := Load(configs, insts, transports, types, fileName, sections, toInteger);
            r.err.None? && |r.created| > 0 ==>
              && fileName !in configs && fileName in r.configs && r.configs[fileName].name == fileName
              && multiset(r.configs[fileName].instances) == multiset(r.created)
              && (forall i, j :: 0 <= i < j < |r.configs[fileName].instances| ==>
                    LexLess(r.configs[fileName].instances[i].name, r.configs[fileName].instances[j].name))
  {
    var ls0 := LoadState(configs, insts, transports, [], [], None);
    StartPreserved(configs, insts, transports);
    SectionsPreserve(ls0, types, sections, toInteger, configs, insts);
    var afterSections := RunSections(ls0, types, sections, toInteger);
    if afterSections.err.None? {
      PopulatePreserves(afterSections, afterSections.infos, configs, insts);
      var populated := Populate(afterSections, afterSections.infos);
      if populated.err.None? {
        DefaultConfigStrict(populated, fileName, configs);
      }
    }
  }

  /** Both of the above, as `load_transport_configuration` relies on them. */
  lemma LoadPreservesAndSorts(configs: map<string, TransportConfig>, insts: map<string, TransportInst>,
                              transports: seq<TransportEntry>, types: map<string, TransportType>, fileName: string,
                              sections: seq<Section>, toInteger: string -> Option<int>)
    ensures var r := Load(configs, insts, transports, types, fileName, sections, toInteger);
            && Preserved(r, configs, insts)
            && (r.err.None? && |r.created| > 0 ==>
                  && fileName !in configs && fileName in r.configs && r.configs[fileName].name == fileName
                  && multiset(r.configs[fileName].instances) == multiset(r.created)
                  && (forall i, j :: 0 <= i < j < |r.configs[fileName].instances| ==>
                        LexLess(r.configs[fileName].instances[i].name, r.configs[fileName].instances[j].name)))
  {
    LoadPreserves(configs, insts, transports, types, fileName, sections, toInteger);
    LoadSorts(configs, insts, transports, types, fileName, sections, toInteger);
  }
}
