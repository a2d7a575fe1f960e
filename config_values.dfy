/**
 * The handling of one `[config/NAME]` subsection's values in
 * `TransportRegistry::load_transport_configuration`
 * (dds/DCPS/transport/framework/TransportRegistry.cpp): the comma split of
 * `transports`, recording the configuration's name on the matching
 * transport entry, the `swap_bytes` literals, `passive_connect_duration`,
 * and the rejection of any other key.
 *
 * Each loop of the source is a method proved to compute a function given
 * here; the functions carry the properties.
 */
module ConfigValues {
  import opened Wrappers
  import opened Text
  import opened RegistryTables

  /** The reasons `load_transport_configuration` logs before returning -1. */
  datatype LoadError =
    | SectionHasValues(section: string)
    | TooManyNesting(section: string)
    | MissingTransportType(transportId: string)
    | CannotCreateInst(transportId: string)
    | CannotCreateConfig(configId: string)
    | IllegalSwapBytes(value: string, configId: string)
    | IllegalPassiveConnectDuration(value: string, configId: string)
    | UnexpectedEntry(key: string, configId: string)
    | NoTransportsListed(configId: string)
    | UndefinedInst(instName: string, configId: string)
    | CannotCreateDefaultConfig(fileName: string)

  /** `ConfigInfo`: a configuration and the instance names its `transports` value lists. */
  datatype ConfigInfo = ConfigInfo(configName: string, instNames: seq<string>)

  /** The three keys a `[config/NAME]` subsection may hold. */
  const TRANSPORTS_KEY: string := "transports"
  const SWAP_BYTES_KEY: string := "swap_bytes"
  const PASSIVE_CONNECT_DURATION_KEY: string := "passive_connect_duration"

  /** The three keys are distinct, and so are the four `swap_bytes` literals. */
  lemma KeysDistinct()
    ensures TRANSPORTS_KEY != SWAP_BYTES_KEY && TRANSPORTS_KEY != PASSIVE_CONNECT_DURATION_KEY
    ensures SWAP_BYTES_KEY != PASSIVE_CONNECT_DURATION_KEY
    ensures |{"1", "true", "0", "false"}| == 4
  {
    assert TRANSPORTS_KEY[0] == 't' && SWAP_BYTES_KEY[0] == 's' && PASSIVE_CONNECT_DURATION_KEY[0] == 'p';
    assert "1"[0] != "0"[0] && "true"[0] != "false"[0];
  }

  // ---------------------------------------------------------------------
  // The `transports` value

  /**
   * The tokens of `value` between commas, in order, the text after the last
   * comma (or all of `value` when there is none) last.
   */
  function Split(value: string): (r: seq<string>)
    ensures |r| > 0
    decreases |value|
  {
    match IndexOf(value, ',')
    case None => [value]
    case Some(pos) => [value[..pos]] + Split(value[pos + 1..])
  }

  function Last<T>(s: seq<T>): T
    requires |s| > 0
  {
    s[|s| - 1]
  }

  /**
   * The `while (find(delim) != npos)` loop over the `transports` value:
   * pushes each token before a comma and erases it with its comma; what is
   * left is the last token.
   */
  method SplitTransports(value: string) returns (tokens: seq<string>, rest: string)
    ensures tokens + [rest] == Split(value)
  {
    tokens := [];
    rest := value;
    while IndexOf(rest, ',').Some?
      invariant tokens + Split(rest) == Split(value)
      decreases |rest|
    {
      var pos := IndexOf(rest, ',').value;
      tokens := tokens + [rest[..pos]];
      rest := rest[pos + 1..];
    }
  }

  /** Joining the tokens with commas gives back the value: nothing is lost or added. */
  lemma {:induction false} SplitJoin(value: string)
    ensures Join(Split(value), ",") == value
    decreases |value|
  {
    match IndexOf(value, ',')
    case None =>
    case Some(pos) =>
      var rest := Split(value[pos + 1..]);
      SplitJoin(value[pos + 1..]);
      assert Split(value) == [value[..pos]] + rest;
      assert value == value[..pos] + "," + value[pos + 1..];
  }

  /** No token holds a comma, and a value without a comma is its one token. */
  lemma {:induction false} SplitTokens(value: string)
    ensures forall k :: 0 <= k < |Split(value)| ==> ',' !in Split(value)[k]
    ensures ',' !in value ==> Split(value) == [value]
    decreases |value|
  {
    match IndexOf(value, ',')
    case None =>
    case Some(pos) =>
      SplitTokens(value[pos + 1..]);
  }

  /** The index of the first transport entry named `transportName`, if any. */
  function FirstEntryNamed(transports: seq<TransportEntry>, transportName: string): (r: Option<nat>)
    ensures r.Some? ==> r.value < |transports| && transports[r.value].transportName == transportName
    ensures r.Some? ==> forall k :: 0 <= k < r.value ==> transports[k].transportName != transportName
    ensures r.None? ==> forall k :: 0 <= k < |transports| ==> transports[k].transportName != transportName
  {
    if |transports| == 0 then None
    else if transports[0].transportName == transportName then Some(0)
    else match FirstEntryNamed(transports[1..], transportName)
      case None => None
      case Some(k) => Some(k + 1)
  }

  /** The first transport entry named `transportName`, if any, now names `configId` as its configuration. */
  function RecordConfigName(transports: seq<TransportEntry>, transportName: string, configId: string): seq<TransportEntry>
  {
    match FirstEntryNamed(transports, transportName)
    case None => transports
    case Some(k) => transports[k := transports[k].(configName := configId)]
  }

  /** The loop over `transports_` that stops at the first entry named by the last token. */
  method RecordConfigNameLoop(transports: seq<TransportEntry>, transportName: string, configId: string)
    returns (r: seq<TransportEntry>)
    ensures r == RecordConfigName(transports, transportName, configId)
  {
    r := transports;
    var i := 0;
    while i < |r|
      invariant i <= |r| && r == transports
      invariant forall k :: 0 <= k < i ==> transports[k].transportName != transportName
    {
      if r[i].transportName == transportName {
        r := r[i := r[i].(configName := configId)];
        return;
      }
      i := i + 1;
    }
  }

  /**
   * Only the first entry named `transportName` changes, and only its
   * configuration name; with no such entry nothing changes.
   */
  lemma RecordConfigNameChanges(transports: seq<TransportEntry>, transportName: string, configId: string)
    ensures var r := RecordConfigName(transports, transportName, configId);
            && |r| == |transports|
            && (forall k :: 0 <= k < |r| ==>
                  r[k].transportName == transports[k].transportName && r[k].transportInfo == transports[k].transportInfo)
            && (forall k :: 0 <= k < |r| && r[k] != transports[k] ==>
                  r[k].configName == configId && FirstEntryNamed(transports, transportName) == Some(k))
            && (FirstEntryNamed(transports, transportName).Some? ==>
                  r[FirstEntryNamed(transports, transportName).value].configName == configId)
  {
  }

  // ---------------------------------------------------------------------
  // The loop over a `[config/NAME]` subsection's values

  /**
   * What the values loop works on: the configuration being loaded, the
   * names accumulated in its `ConfigInfo`, the registry's transport entries,
   * the `ConfigInfo`s pushed so far and the first error.
   */
  datatype ValuesState = ValuesState(
    config: TransportConfig, tokens: seq<string>, transports: seq<TransportEntry>,
    infos: seq<ConfigInfo>, err: Option<LoadError>)

  /** One iteration of the values loop, on the key and value `kv`. */
  function ValueStep(vs: ValuesState, configId: string, kv: KeyValue, toInteger: string -> Option<int>): ValuesState
  {
    if kv.key == TRANSPORTS_KEY then
      var names := Split(kv.value);
      var tokens := vs.tokens + names;
      vs.(transports := RecordConfigName(vs.transports, Last(names), configId),
          tokens := tokens, infos := vs.infos + [ConfigInfo(configId, tokens)])
    else if kv.key == SWAP_BYTES_KEY then
      if kv.value == "1" || kv.value == "true" then vs.(config := vs.config.(swapBytes := true))
      else if kv.value != "0" && kv.value != "false" then vs.(err := Some(IllegalSwapBytes(kv.value, configId)))
      else vs
    else if kv.key == PASSIVE_CONNECT_DURATION_KEY then
      match toInteger(kv.value)
      case Some(n) => vs.(config := vs.config.(passiveConnectDuration := Some(n)))
      case None => vs.(err := Some(IllegalPassiveConnectDuration(kv.value, configId)))
    else vs.(err := Some(UnexpectedEntry(kv.key, configId)))
  }

  /** The values loop: each entry in turn, stopping at the first error. */
  function RunValues(vs: ValuesState, configId: string, values: ValueMap, toInteger: string -> Option<int>): ValuesState
    decreases |values|
  {
    if |values| == 0 || vs.err.Some? then vs
    else RunValues(ValueStep(vs, configId, values[0], toInteger), configId, values[1..], toInteger)
  }

  /** The body of the values loop, its `transports` branch running the two loops above. */
  method ValueStepMethod(vs: ValuesState, configId: string, kv: KeyValue, toInteger: string -> Option<int>)
    returns (r: ValuesState)
    ensures r == ValueStep(vs, configId, kv, toInteger)
  {
    KeysDistinct();
    if kv.key == TRANSPORTS_KEY {
      var tokens, rest := SplitTransports(kv.value);
      assert Last(Split(kv.value)) == rest;
      var transports := RecordConfigNameLoop(vs.transports, rest, configId);
      var names := vs.tokens + (tokens + [rest]);
      r := vs.(transports := transports, tokens := names, infos := vs.infos + [ConfigInfo(configId, names)]);
    } else if kv.key == SWAP_BYTES_KEY {
      if kv.value == "1" || kv.value == "true" {
        r := vs.(config := vs.config.(swapBytes := true));
      } else if kv.value != "0" && kv.value != "false" {
        r := vs.(err := Some(IllegalSwapBytes(kv.value, configId)));
      } else {
        r := vs;
      }
    } else if kv.key == PASSIVE_CONNECT_DURATION_KEY {
      var n := toInteger(kv.value);
      if n.Some? {
        r := vs.(config := vs.config.(passiveConnectDuration := n));
      } else {
        r := vs.(err := Some(IllegalPassiveConnectDuration(kv.value, configId)));
      }
    } else {
      r := vs.(err := Some(UnexpectedEntry(kv.key, configId)));
    }
  }

  /** `for (it = values.begin(); ...)`, returning at the first error. */
  method ValuesLoop(vs: ValuesState, configId: string, values: ValueMap, toInteger: string -> Option<int>)
    returns (r: ValuesState)
    ensures r == RunValues(vs, configId, values, toInteger)
  {
    r := vs;
    var i := 0;
    while i < |values| && r.err.None?
      invariant i <= |values|
      invariant RunValues(r, configId, values[i..], toInteger) == RunValues(vs, configId, values, toInteger)
    {
      assert values[i..][1..] == values[i + 1..];
      r := ValueStepMethod(r, configId, values[i], toInteger);
      i := i + 1;
    }
  }

  // ---------------------------------------------------------------------
  // What one value does

  /**
   * `swap_bytes` accepts exactly "1", "true", "0" and "false": the first two
   * set the flag, the other two leave it as it was, and anything else is an
   * error that leaves the configuration unchanged.
   */
  lemma SwapBytesLiterals(vs: ValuesState, configId: string, value: string, toInteger: string -> Option<int>)
    requires vs.err.None?
    ensures var r := ValueStep(vs, configId, KeyValue(SWAP_BYTES_KEY, value), toInteger);
            && (r.err.Some? <==> value !in {"1", "true", "0", "false"})
            && (r.err.Some? ==> r.err.value == IllegalSwapBytes(value, configId) && r.config == vs.config)
            && (r.err.None? ==> r.config.swapBytes == (vs.config.swapBytes || value in {"1", "true"}))
            && r.config.(swapBytes := vs.config.swapBytes) == vs.config
            && r.tokens == vs.tokens && r.transports == vs.transports && r.infos == vs.infos
  {
    KeysDistinct();
  }

  /** A key other than the three known ones is rejected, naming the key and the configuration. */
  lemma UnexpectedKeyRejected(vs: ValuesState, configId: string, kv: KeyValue, toInteger: string -> Option<int>)
    requires vs.err.None?
    ensures (ValueStep(vs, configId, kv, toInteger).err.Some? && ValueStep(vs, configId, kv, toInteger).err.value.UnexpectedEntry?)
              <==> kv.key !in {TRANSPORTS_KEY, SWAP_BYTES_KEY, PASSIVE_CONNECT_DURATION_KEY}
    ensures kv.key !in {TRANSPORTS_KEY, SWAP_BYTES_KEY, PASSIVE_CONNECT_DURATION_KEY} ==>
              ValueStep(vs, configId, kv, toInteger) == vs.(err := Some(UnexpectedEntry(kv.key, configId)))
  {
    KeysDistinct();
  }

  /**
   * The key selects exactly one branch of the loop body, and each branch
   * touches only its own part of the state: only `transports` changes the
   * names, the transport entries and the recorded infos (and never fails),
   * only `swap_bytes` changes the byte-order flag, only
   * `passive_connect_duration` changes the duration, and an error names the
   * branch its key selects.
   */
  lemma KeySelectsBranch(vs: ValuesState, configId: string, kv: KeyValue, toInteger: string -> Option<int>)
    requires vs.err.None?
    ensures var r := ValueStep(vs, configId, kv, toInteger);
            && (kv.key == TRANSPORTS_KEY <==> !(r.tokens == vs.tokens && r.transports == vs.transports && r.infos == vs.infos))
            && (kv.key == TRANSPORTS_KEY ==> r.err.None?)
            && (kv.key != SWAP_BYTES_KEY ==> r.config.swapBytes == vs.config.swapBytes)
            && (kv.key != PASSIVE_CONNECT_DURATION_KEY ==> r.config.passiveConnectDuration == vs.config.passiveConnectDuration)
            && r.config.(swapBytes := vs.config.swapBytes, passiveConnectDuration := vs.config.passiveConnectDuration) == vs.config
            && (r.err.Some? && r.err.value.IllegalSwapBytes? ==> kv.key == SWAP_BYTES_KEY)
            && (r.err.Some? && r.err.value.IllegalPassiveConnectDuration? ==> kv.key == PASSIVE_CONNECT_DURATION_KEY)
            && (r.err.Some? && r.err.value.UnexpectedEntry? <==>
                  kv.key != TRANSPORTS_KEY && kv.key != SWAP_BYTES_KEY && kv.key != PASSIVE_CONNECT_DURATION_KEY)
  {
    KeysDistinct();
    if kv.key == TRANSPORTS_KEY {
      var r := ValueStep(vs, configId, kv, toInteger);
      assert |r.infos| == |vs.infos| + 1;
    }
  }

  /**
   * A `passive_connect_duration` value is stored when the conversion
   * succeeds and is an error otherwise.
   */
  lemma PassiveConnectDuration(vs: ValuesState, configId: string, value: string, toInteger: string -> Option<int>)
    requires vs.err.None?
    ensures var r := ValueStep(vs, configId, KeyValue(PASSIVE_CONNECT_DURATION_KEY, value), toInteger);
            && (r.err.Some? <==> toInteger(value).None?)
            && (r.err.None? ==> r.config == vs.config.(passiveConnectDuration := toInteger(value)))
            && (r.err.Some? ==> r.err.value == IllegalPassiveConnectDuration(value, configId) && r.config == vs.config)
  {
    KeysDistinct();
  }

  /**
   * A `transports` value appends all its tokens, in order, to the names of
   * the configuration, records the `ConfigInfo` with them, and records the
   * configuration's name on the first transport entry named by the last
   * token; it is never an error.
   */
  lemma TransportsValue(vs: ValuesState, configId: string, value: string, toInteger: string -> Option<int>)
    ensures var r := ValueStep(vs, configId, KeyValue(TRANSPORTS_KEY, value), toInteger);
            && r.err == vs.err && r.config == vs.config
            && r.tokens == vs.tokens + Split(value)
            && Join(r.tokens[|vs.tokens|..], ",") == value
            && r.infos == vs.infos + [ConfigInfo(configId, r.tokens)]
            && r.transports == RecordConfigName(vs.transports, Last(Split(value)), configId)
  {
    SplitJoin(value);
    var r := ValueStep(vs, configId, KeyValue(TRANSPORTS_KEY, value), toInteger);
    assert r.tokens[|vs.tokens|..] == Split(value);
  }

  // ---------------------------------------------------------------------
  // What the whole loop does

  /**
   * A loop that ends without error met only the three known keys, and its
   * names grew exactly when one of them was `transports`: a subsection
   * without `transports` lists no instances.
   */
  lemma {:induction false} RunValuesAccepted(vs: ValuesState, configId: string, values: ValueMap, toInteger: string -> Option<int>)
    requires vs.err.None?
    ensures var r := RunValues(vs, configId, values, toInteger);
            r.err.None? ==>
              && (forall k :: 0 <= k < |values| ==> values[k].key in {TRANSPORTS_KEY, SWAP_BYTES_KEY, PASSIVE_CONNECT_DURATION_KEY})
              && (r.tokens == vs.tokens <==> forall k :: 0 <= k < |values| ==> values[k].key != TRANSPORTS_KEY)
              && |r.tokens| >= |vs.tokens|
    decreases |values|
  {
    if |values| > 0 {
      var next := ValueStep(vs, configId, values[0], toInteger);
      if next.err.None? {
        RunValuesAccepted(next, configId, values[1..], toInteger);
        assert forall k :: 0 < k < |values| ==> values[k] == values[1..][k - 1];
      }
    }
  }

  /** An error stops the loop: once set, it is the loop's result. */
  lemma {:induction false} RunValuesKeepsError(vs: ValuesState, configId: string, values: ValueMap, toInteger: string -> Option<int>)
    ensures vs.err.Some? ==> RunValues(vs, configId, values, toInteger) == vs
    ensures RunValues(vs, configId, values, toInteger).err.None? ==> vs.err.None?
    decreases |values|
  {
    if |values| > 0 && vs.err.None? {
      RunValuesKeepsError(ValueStep(vs, configId, values[0], toInteger), configId, values[1..], toInteger);
    }
  }

  /**
   * The loop never renames the configuration or touches its instances, and
   * every `ConfigInfo` it pushes is for this configuration.
   */
  lemma {:induction false} RunValuesFrame(vs: ValuesState, configId: string, values: ValueMap, toInteger: string -> Option<int>)
    ensures var r := RunValues(vs, configId, values, toInteger);
            && r.config.name == vs.config.name && r.config.instances == vs.config.instances
            && |r.infos| >= |vs.infos| && r.infos[..|vs.infos|] == vs.infos
            && (forall k :: |vs.infos| <= k < |r.infos| ==> r.infos[k].configName == configId)
            && |r.transports| == |vs.transports|
    decreases |values|
  {
    if |values| > 0 && vs.err.None? {
      var next := ValueStep(vs, configId, values[0], toInteger);
      RunValuesFrame(next, configId, values[1..], toInteger);
      var r := RunValues(next, configId, values[1..], toInteger);
      assert r.infos[..|next.infos|][..|vs.infos|] == r.infos[..|vs.infos|];
    }
  }
}
