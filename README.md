# OpenDDS field descriptors and transport registry in Dafny

This project models two parts of OpenDDS.

**`FieldInfo` of the IDL compiler** (`dds/idl/field_info.cpp`). It is the
descriptor that the code generators build for a struct field, or for a
standalone named type, whose type is an array or a sequence. It covers:

- the names it derives: the scoped, struct and type names of anonymous
  types, and the `underscore` mangling of `::`;
- the element type, its C++ spelling and its CDR width (`to_cxx_type`,
  `string_type`);
- the element count, an array's product of extents kept as a 64-bit
  `size_t`;
- the strings of the classic and C++11 language mappings (`ref`);
- the `EleLen` key with its `operator<`.

The front end's `resolveActualType` and `classify` are an input record
(`FrontEnd`). `init()` runs as five heap-free methods, one per block of its
body. Each method is proved equal to a pure function, and the lemmas are
stated about those functions. `FieldInfo` is a class whose members are
constants set from the descriptor `init()` computed. A thrown
`std::invalid_argument` or `std::out_of_range` is a `Failure` result.

**`TransportRegistry` of the DCPS transport framework**
(`dds/DCPS/transport/framework/TransportRegistry.cpp`). It is the registry
of named transport configurations, instances and types. The class holds the
same maps as the source and updates them in place. Its operations are:

- creating and looking up configurations and instances;
- registering types, with the `rtps_discovery` alias;
- `fix_empty_default`;
- `release`;
- looking up transport entries;
- `load_transport_configuration`.

The load is modelled as pure functions over the registry's tables:

- the section loop;
- `[transport/NAME]` and `[transport_template/NAME]` subsections;
- `[config/NAME]` subsections and their three keys;
- the population of the configurations;
- the default configuration named after the file, with its instances
  sorted by name.

Each of the source's loops is a method proved equal to those functions. The
lemmas show these facts about a load, whether it fails or not:

- it never changes a configuration or instance that existed before it;
- every instance it creates is new and has a distinct name;
- the instances it creates are the only ones it adds.

When a load succeeds and created instances, the default configuration holds
exactly those instances, each once, in strictly ascending order of name.

Modules:

- `Wrappers`, `Text` and `IdlAst` hold the shared datatypes and string
  functions.
- `FieldNaming`, `FieldTypes`, `FieldInfoModel` and `FieldInfoProps` model
  `field_info.cpp`.
- `RegistryTables`, `ConfigValues`, `ConfigLoad`, `ConfigLoadProps` and
  `TransportRegistryModel` model `TransportRegistry.cpp`.

## Model

| member | source | states |
|---|---|---|
| FieldInfoModel.EleLenStrictWeakOrder | dds/idl/field_info.cpp:17-20 | `EleLen::operator<` (element node first, then count) is irreflexive, asymmetric and transitive; two keys are equivalent under it exactly when they are equal |
| FieldInfoProps.EleLenOfEquivalent | dds/idl/field_info.cpp:13-20 | two descriptors' keys are equivalent under `operator<` exactly when they have the same element node (or none) and the same element count |
| FieldInfoProps.DescribeKey | dds/idl/field_info.cpp:13-15 | the key `init()` leads to is the element node of an array or sequence, 0 for any other type, paired with the element count |
| FieldNaming.NposPlusTwoWraps | dds/idl/field_info.cpp:30 | `npos + 2` computed in `size_t` wraps to 1 |
| FieldNaming.RFindScoped | dds/idl/field_info.cpp:30 | in a name built from a scope and a local name, the last `::` found by `rfind` is the one just before the local name |
| FieldNaming.GetTypeNameAnonymous | dds/idl/field_info.cpp:24-32 | an anonymous type `S::L` is renamed `S::_L`, or `S::_L_seq` for a sequence |
| FieldNaming.GetTypeNameTopLevel | dds/idl/field_info.cpp:24-32 | a one-level anonymous name has no `::`, so because `npos + 2` wraps to 1 its first character becomes the prefix |
| FieldNaming.GetTypeNameNamed | dds/idl/field_info.cpp:24-32 | a type that is not anonymous is named by its scoped name |
| FieldNaming.Underscore | dds/idl/field_info.cpp:40-47 | the replacement loop yields `Underscored(s)`: each `::` the forward search finds becomes `_`, and the search resumes two characters after the replacement |
| FieldNaming.UnderscoredUnchanged | dds/idl/field_info.cpp:40-47 | a name without `::` is returned unchanged |
| FieldNaming.UnderscoredEmpty | dds/idl/field_info.cpp:40-47 | the output is empty exactly when the input is |
| FieldNaming.UnderscoredRemovesScopeOps | dds/idl/field_info.cpp:40-47 | without three colons in a row, no `::` is left in the output |
| FieldNaming.UnderscoredAdjacentOperators | dds/idl/field_info.cpp:40-47 | two adjacent operators are not both replaced: `::::` becomes `_::` |
| FieldNaming.UnderscoredScoped | dds/idl/field_info.cpp:34-47 | for identifier parts, `underscore` of the `::`-joined name is the `_`-joined name |
| FieldNaming.UnderscoredTypeNameIsUnderscore | dds/idl/field_info.cpp:34-38 | `underscored_type_name` is `underscore(scoped(sn))` under C++11 and empty under the classic mapping |
| FieldNaming.RefDistinguishesTags | dds/idl/field_info.cpp:49-52 | with the same wrapped type and qualifier, two `ref` types are equal exactly when their tags are |
| FieldNaming.RefConstDiffers | dds/idl/field_info.cpp:49-52 | the const and plain `ref` types differ |
| FieldTypes.StringTypeDistinct | dds/idl/field_info.cpp:142-147 | `string_type` depends exactly on the mapping and on whether the string is wide: the four spellings are distinct |
| FieldTypes.PrimitiveWidthsAreCdr | dds/idl/field_info.cpp:154-172 | each primitive in the table gets its CDR width; `wchar` gets width 1; any other primitive gets no entry |
| FieldTypes.ToCxxTypeFails | dds/idl/field_info.cpp:149-175 | `to_cxx_type` throws `invalid_argument` exactly for a primitive, not an enum or string, that is outside the table |
| FieldTypes.ToCxxTypeWidth | dds/idl/field_info.cpp:149-175 | the size set is 4 for enums and strings, the table width for primitives, and unchanged otherwise; the spelling is `string_type` for strings and the scoped name otherwise |
| FieldTypes.ToCxxTypeEnumFirst | dds/idl/field_info.cpp:152 | an enum is an `ACE_CDR::ULong` of width 4 whatever else it is classified as |
| FieldTypes.ToCxxTypeMappingIndependent | dds/idl/field_info.cpp:149-175 | the mapping changes neither whether `to_cxx_type` throws nor the width, and changes the spelling only for strings |
| FieldInfoModel.ElementsBlock | dds/idl/field_info.cpp:73-85 | the block computes the actual types, classes, element names and references given by `ElementsOf` |
| FieldInfoModel.NamingBlock | dds/idl/field_info.cpp:87-106 | the block computes the naming of `TypeNaming`, or its `out_of_range` |
| FieldInfoModel.ElementTypeBlock | dds/idl/field_info.cpp:108-111 | `elem_sz_` starts at 0, and `to_cxx_type` runs only when there is an element type |
| FieldInfoModel.CountBlock | dds/idl/field_info.cpp:113-126 | the extent loop computes `ElementCount`: the product modulo 2^64, its decimal text and the argument name |
| FieldInfoModel.MappingBlock | dds/idl/field_info.cpp:128-139 | the mapping block computes `MappingOf` |
| FieldInfoModel.InitBlocks | dds/idl/field_info.cpp:71-140 | the blocks in order, stopping at the first exception, compute `Describe` |
| FieldInfoModel.DescribeNamingFails | dds/idl/field_info.cpp:87-106 | the naming block's exception is the result of `init()` |
| FieldInfoModel.DescribeElementFails | dds/idl/field_info.cpp:108-111 | when naming succeeds, `to_cxx_type`'s exception is the result |
| FieldInfoModel.DescribeIs | dds/idl/field_info.cpp:71-140 | a descriptor whose parts are the blocks' results is the one `init()` yields |
| FieldInfoModel.FieldInfo.constructor | dds/idl/field_info.cpp:55-61 | the members hold the descriptor `init()` computed |
| FieldInfoModel.FieldInfo.FromField | dds/idl/field_info.cpp:55-61 | construction from a field fails exactly when `init()` throws, with its exception; otherwise the members are `Describe` of the field's initializer list |
| FieldInfoModel.FieldInfo.FromScopedName | dds/idl/field_info.cpp:63-69 | the same for a standalone scoped name and base type |
| FieldInfoProps.TypeNamingFails | dds/idl/field_info.cpp:87-98 | the naming block throws exactly for an unnamed anonymous collection with an empty scoped name, where `substr(npos + 2)` starts past the end |
| FieldInfoProps.DescribeFails | dds/idl/field_info.cpp:71-140 | `init()` throws `out_of_range` exactly in that case, and otherwise throws `invalid_argument` exactly for an unsupported primitive element |
| FieldInfoProps.AnonymousFieldNaming | dds/idl/field_info.cpp:87-95 | an anonymous collection field `name` in scope `S` is named `S::_name` (`_name_seq` for a sequence), and its mangled name is that name with `::` replaced |
| FieldInfoProps.AnonymousFieldMangled | dds/idl/field_info.cpp:87-95 | with identifier scopes, the mangled name is the `_`-joined scope, `_`, and the new type name |
| FieldInfoProps.AnonymousSequenceExample | dds/idl/field_info.cpp:87-95 | a field `bar` of anonymous sequence type in struct `Foo`, whatever its element type and bound, is `Foo::_bar_seq`, mangled `Foo__bar_seq` |
| FieldInfoProps.AnonymousBoundedSequenceDescribed | dds/idl/field_info.cpp:71-126 | for field `bar` of struct `Foo` with an anonymous `sequence<short, 5>`, the whole descriptor has the primitive element class, element type `ACE_CDR::Short` of width 2, five elements counted by `length`, and the names `Foo::_bar_seq` and `Foo__bar_seq` |
| FieldInfoProps.AnonymousUnnamedNaming | dds/idl/field_info.cpp:87-98 | an unnamed anonymous collection keeps its scoped name; its type name is the local name and its struct name the scope |
| FieldInfoProps.AnonymousUnnamedTopLevel | dds/idl/field_info.cpp:87-98 | at the outermost scope the struct name is the whole name and the type name drops its first character |
| FieldInfoProps.FieldUnderscoredMatchesScopedType | dds/idl/field_info.cpp:55-61 | under C++11, a field's `underscored_` is `underscore(scoped_type_)` whichever branch set it |
| FieldInfoProps.FieldUnderscoredClassic | dds/idl/field_info.cpp:55-61 | under the classic mapping, `underscored_` stays empty unless the field renames an anonymous type |
| FieldInfoProps.NamedTypeNaming | dds/idl/field_info.cpp:63-69 | a standalone named type is named by the scoped name given, when that is not empty |
| FieldInfoProps.ProductZero | dds/idl/field_info.cpp:113-117 | the product of the extents is 0 exactly when one extent is 0 |
| FieldInfoProps.ArrayCount | dds/idl/field_info.cpp:113-121 | an array's `n_elems_` is the product of its extents modulo 2^64, which equals the product when that fits; it is 0 exactly when an extent is 0 and the product fits; `length_` reads back as `n_elems_` |
| FieldInfoProps.ArrayCountWraps | dds/idl/field_info.cpp:113-121 | the largest two-extent product (0xFFFFFFFF by 0xFFFFFFFF) still fits in `size_t`; a 2^31 by 2^31 by 4 array wraps to `n_elems_` 0 with `length_` "0" |
| FieldInfoProps.OtherCounts | dds/idl/field_info.cpp:113-126 | a sequence counts its bound, with `length_` its `length` member; any other type has one element and no length or argument name |
| FieldInfoProps.DescribeElementWidth | dds/idl/field_info.cpp:108-111 | `elem_sz_` is 0 without an element type, and otherwise one of the CDR widths or 0 |
| FieldInfoProps.ElementReferences | dds/idl/field_info.cpp:75-85 | the element references are set exactly for a collection whose element has a non-empty scoped name, and tag that name with its mangled name |
| FieldInfoProps.ClassicMapping | dds/idl/field_info.cpp:128-139 | classic: the argument stays, nothing is unwrapped, and the references are the type (its `_forany` for an array) taken by reference, const or not |
| FieldInfoProps.Cxx11Mapping | dds/idl/field_info.cpp:128-139 | C++11: the argument becomes `wrap`, the unwrap lines bind the former name, and the references are tagged `DistinctType` wrappers |
| FieldInfoProps.MappingPointer | dds/idl/field_info.cpp:128-139 | the pointer type is the same under both mappings, and their references differ |
| FieldInfoProps.FieldMappingIndependent | dds/idl/field_info.cpp:71-140 | for a field, the mapping changes neither whether (and what) `init()` throws nor the types, element names, count, width and names |
| RegistryTables.LibDirectivesAlias | dds/DCPS/transport/framework/TransportRegistry.cpp:78-86 | the constructor's directives cover seven names; `rtps_discovery` loads the `rtps_udp` library, and the fallback type has a directive |
| RegistryTables.FindValue | dds/DCPS/transport/framework/TransportRegistry.cpp:150-153 | a value is found exactly when the section holds the key, and it is that key's value |
| RegistryTables.FirstEntryFor | dds/DCPS/transport/framework/TransportRegistry.cpp:550-575 | the index of the first transport entry listed by a configuration, or none when no entry is |
| RegistryTables.CreateConfigAddsOne | dds/DCPS/transport/framework/TransportRegistry.cpp:436-452 | `create_config` returns nil and changes nothing exactly when the name is taken; otherwise it adds exactly one empty configuration of that name |
| RegistryTables.CreateInstAddsOne | dds/DCPS/transport/framework/TransportRegistry.cpp:395-421 | `create_inst` returns nil and changes nothing exactly when the type is unknown or the name is taken; otherwise it adds exactly one instance of that name and type |
| RegistryTables.RegisterTypeAdds | dds/DCPS/transport/framework/TransportRegistry.cpp:498-516 | `register_type` fails exactly on a taken name; otherwise it registers the type under its name, and under `rtps_discovery` too for `rtps_udp`, and changes no other name |
| ConfigValues.KeySelectsBranch | dds/DCPS/transport/framework/TransportRegistry.cpp:246-292 | the key selects exactly one branch: only `transports` changes the names, entries and infos (and it never fails), only `swap_bytes` the byte-order flag, only `passive_connect_duration` the duration; an error names the branch of its key, and `UnexpectedEntry` comes exactly from the unknown keys |
| ConfigValues.SplitTransports | dds/DCPS/transport/framework/TransportRegistry.cpp:250-254 | the comma loop gives the tokens of `Split(value)`, the text after the last comma being left over |
| ConfigValues.SplitJoin | dds/DCPS/transport/framework/TransportRegistry.cpp:250-254 | joining the tokens with commas gives the value back |
| ConfigValues.SplitTokens | dds/DCPS/transport/framework/TransportRegistry.cpp:250-254 | no token holds a comma, and a value without a comma is its one token |
| ConfigValues.FirstEntryNamed | dds/DCPS/transport/framework/TransportRegistry.cpp:256-262 | the index of the first transport entry with the name, or none |
| ConfigValues.RecordConfigNameLoop | dds/DCPS/transport/framework/TransportRegistry.cpp:256-262 | the search loop stops at the first entry named by the last token and records the configuration name there |
| ConfigValues.RecordConfigNameChanges | dds/DCPS/transport/framework/TransportRegistry.cpp:256-262 | only that first entry's configuration name changes, and nothing changes when there is no such entry |
| ConfigValues.ValueStepMethod | dds/DCPS/transport/framework/TransportRegistry.cpp:244-292 | one iteration of the values loop computes `ValueStep` |
| ConfigValues.ValuesLoop | dds/DCPS/transport/framework/TransportRegistry.cpp:243-293 | the values loop computes `RunValues`, returning at the first error |
| ConfigValues.SwapBytesLiterals | dds/DCPS/transport/framework/TransportRegistry.cpp:267-276 | `swap_bytes` accepts exactly `1`, `true`, `0` and `false`: the first two set the flag, the others leave it, and anything else is an error |
| ConfigValues.UnexpectedKeyRejected | dds/DCPS/transport/framework/TransportRegistry.cpp:286-292 | a step is an unexpected-entry error exactly for a key other than the three known ones, naming the key and configuration |
| ConfigValues.PassiveConnectDuration | dds/DCPS/transport/framework/TransportRegistry.cpp:277-285 | the converted duration is stored, and a failed conversion is an error |
| ConfigValues.TransportsValue | dds/DCPS/transport/framework/TransportRegistry.cpp:246-266 | `transports` appends all its tokens in order, pushes the `ConfigInfo`, records the configuration on the entry, and never fails |
| ConfigValues.RunValuesAccepted | dds/DCPS/transport/framework/TransportRegistry.cpp:243-293 | a loop without error met only known keys, and its names grew exactly when one key was `transports` |
| ConfigValues.RunValuesKeepsError | dds/DCPS/transport/framework/TransportRegistry.cpp:243-293 | once an error is set, it is the loop's result |
| ConfigValues.RunValuesFrame | dds/DCPS/transport/framework/TransportRegistry.cpp:243-293 | the loop keeps the configuration's name and instances, pushes only this configuration's `ConfigInfo`s, and keeps the number of entries |
| ConfigLoad.SectionDispatch | dds/DCPS/transport/framework/TransportRegistry.cpp:106-304 | the section name selects exactly one branch: `transport` loads instances and `transport_template` templates, `config` loads configurations, each only with no values and no nesting (else the matching error), and any other section is skipped |
| ConfigLoad.TransportSubsection | dds/DCPS/transport/framework/TransportRegistry.cpp:146-184 | the body of the transport subsection loop computes `TransportSubsectionStep`, returning at its first error |
| ConfigLoad.TransportSubsectionsLoop | dds/DCPS/transport/framework/TransportRegistry.cpp:142-192 | the transport subsection loop computes `RunTransportSubsections` |
| ConfigLoad.ConfigSubsectionsLoop | dds/DCPS/transport/framework/TransportRegistry.cpp:225-301 | the configuration subsection loop computes `RunConfigSubsections` |
| ConfigLoad.SectionsLoop | dds/DCPS/transport/framework/TransportRegistry.cpp:106-304 | the section loop computes `RunSections` |
| ConfigLoad.PopulateNamesLoop | dds/DCPS/transport/framework/TransportRegistry.cpp:310-320 | the inner populate loop computes `PopulateNames` |
| ConfigLoad.PopulateLoop | dds/DCPS/transport/framework/TransportRegistry.cpp:306-321 | the outer populate loop computes `Populate` |
| ConfigLoad.DefaultConfigMethod | dds/DCPS/transport/framework/TransportRegistry.cpp:323-339 | creating the file's configuration and pushing the sorted instances computes `DefaultConfig` |
| ConfigLoad.LoadMethod | dds/DCPS/transport/framework/TransportRegistry.cpp:89-342 | the whole load computes `Load` |
| ConfigLoadProps.NotLessTransitive | dds/DCPS/transport/framework/TransportRegistry.cpp:33-37 | "not less than" on names is transitive |
| ConfigLoadProps.InsertByNameMultiset | dds/DCPS/transport/framework/TransportRegistry.cpp:334 | inserting adds exactly the one element |
| ConfigLoadProps.InsertByNameSorted | dds/DCPS/transport/framework/TransportRegistry.cpp:334 | inserting keeps a sorted sequence sorted |
| ConfigLoadProps.SortByNameSorted | dds/DCPS/transport/framework/TransportRegistry.cpp:334 | `list::sort` by name returns the same instances, each as often, with names never decreasing |
| ConfigLoadProps.InsertByNameStrict | dds/DCPS/transport/framework/TransportRegistry.cpp:334 | inserting a new name keeps the names strictly ascending |
| ConfigLoadProps.SortByNameStrict | dds/DCPS/transport/framework/TransportRegistry.cpp:334 | with distinct names, the sorted instances strictly ascend by name |
| ConfigLoadProps.TransportTypePrecedence | dds/DCPS/transport/framework/TransportRegistry.cpp:149-162 | `TRANSPORT_TYPE` takes precedence over `transport_type`; the type is missing only when both are |
| ConfigLoadProps.TransportSubsectionOutcome | dds/DCPS/transport/framework/TransportRegistry.cpp:146-184 | a transport subsection succeeds exactly when it names a registered type and a free name; it then adds one instance, records it as created, appends its entry, and leaves configurations alone |
| ConfigLoadProps.ConfigSubsectionOutcome | dds/DCPS/transport/framework/TransportRegistry.cpp:225-300 | a configuration subsection fails on a taken name and whenever `transports` is missing; on success it holds only known keys and leaves an empty configuration of that name with a `ConfigInfo` |
| ConfigLoadProps.PushedInfos | dds/DCPS/transport/framework/TransportRegistry.cpp:246-266 | names gathered by the values loop come with a pushed `ConfigInfo` |
| ConfigLoadProps.RunValuesTokensGrow | dds/DCPS/transport/framework/TransportRegistry.cpp:243-293 | the gathered names only grow |
| ConfigLoadProps.InstancesNamed | dds/DCPS/transport/framework/TransportRegistry.cpp:310-320 | the instances registered under the listed names, in order |
| ConfigLoadProps.PopulateNamesFrame | dds/DCPS/transport/framework/TransportRegistry.cpp:310-320 | the inner populate loop changes only the configuration it fills |
| ConfigLoadProps.PopulateNamesSucceeds | dds/DCPS/transport/framework/TransportRegistry.cpp:310-320 | it succeeds exactly when every listed name is an instance |
| ConfigLoadProps.PopulateNamesAppends | dds/DCPS/transport/framework/TransportRegistry.cpp:310-320 | it then appends those instances, in order, to the configuration |
| ConfigLoadProps.PopulateNamesFirstMissing | dds/DCPS/transport/framework/TransportRegistry.cpp:310-320 | a failure names the first listed name that is not an instance |
| ConfigLoadProps.DefaultConfigSorted | dds/DCPS/transport/framework/TransportRegistry.cpp:323-339 | when the file created instances, a configuration named after the file (which must be free) holds exactly them sorted by name; otherwise nothing happens |
| ConfigLoadProps.AddInstancePreserves | dds/DCPS/transport/framework/TransportRegistry.cpp:168-177 | registering one new instance as created keeps the load invariant |
| ConfigLoadProps.TransportSubsectionPreserves | dds/DCPS/transport/framework/TransportRegistry.cpp:146-184 | a transport subsection keeps the load invariant |
| ConfigLoadProps.TransportSubsectionsPreserve | dds/DCPS/transport/framework/TransportRegistry.cpp:142-192 | so does the transport subsection loop |
| ConfigLoadProps.ConfigSubsectionPreserves | dds/DCPS/transport/framework/TransportRegistry.cpp:225-300 | a configuration subsection keeps the load invariant |
| ConfigLoadProps.ConfigSubsectionsPreserve | dds/DCPS/transport/framework/TransportRegistry.cpp:194-302 | so does the configuration subsection loop |
| ConfigLoadProps.SectionsPreserve | dds/DCPS/transport/framework/TransportRegistry.cpp:106-304 | so does the section loop |
| ConfigLoadProps.PopulatePreserves | dds/DCPS/transport/framework/TransportRegistry.cpp:306-321 | so does the populate loop |
| ConfigLoadProps.StartPreserved | dds/DCPS/transport/framework/TransportRegistry.cpp:95-102 | the starting tables satisfy the invariant |
| ConfigLoadProps.DefaultConfigStrict | dds/DCPS/transport/framework/TransportRegistry.cpp:323-339 | after a population that kept the earlier configurations and created distinct names, a successful default configuration is new and holds exactly the created instances in strictly ascending name order |
| ConfigLoadProps.LoadPreserves | dds/DCPS/transport/framework/TransportRegistry.cpp:89-342 | a load, failing or not, changes no pre-existing configuration or instance, and the instances it adds are new, distinct and all recorded as created |
| ConfigLoadProps.LoadSorts | dds/DCPS/transport/framework/TransportRegistry.cpp:89-342 | a successful load that created instances leaves a new configuration named after the file holding exactly them, in strictly ascending name order |
| ConfigLoadProps.LoadPreservesAndSorts | dds/DCPS/transport/framework/TransportRegistry.cpp:89-342 | a load, failing or not, changes no pre-existing configuration or instance and adds only new, distinct instances; on success with created instances, the file's configuration holds exactly them in strictly ascending name order |
| TransportRegistryModel.TransportRegistry.GlobalConfig | dds/DCPS/transport/framework/TransportRegistry.cpp:71-76 | the global configuration is the configuration-map entry it names, or nil |
| TransportRegistryModel.TransportRegistry.constructor | dds/DCPS/transport/framework/TransportRegistry.cpp:71-87 | the global configuration is a new empty default configuration, the only map entry; the directives are filled; nothing else is registered; not released |
| TransportRegistryModel.TransportRegistry.CreateConfig | dds/DCPS/transport/framework/TransportRegistry.cpp:436-452 | nil and no change when the name is taken; otherwise exactly one new empty configuration |
| TransportRegistryModel.TransportRegistry.GetConfig | dds/DCPS/transport/framework/TransportRegistry.cpp:455-464 | the stored configuration, or nil exactly when there is none |
| TransportRegistryModel.TransportRegistry.LoadTransportLibI | dds/DCPS/transport/framework/TransportRegistry.cpp:356-393 | the registered type, or nil exactly when there is none |
| TransportRegistryModel.TransportRegistry.CreateInst | dds/DCPS/transport/framework/TransportRegistry.cpp:395-421 | nil and no change when the type is unknown or the name taken; otherwise exactly one new instance of that type |
| TransportRegistryModel.TransportRegistry.GetInst | dds/DCPS/transport/framework/TransportRegistry.cpp:424-433 | the stored instance, or nil exactly when there is none |
| TransportRegistryModel.TransportRegistry.FixEmptyDefault | dds/DCPS/transport/framework/TransportRegistry.cpp:482-495 | returns the global configuration; the fallback `tcp` library is loaded exactly when that is the default configuration without instances |
| TransportRegistryModel.TransportRegistry.RegisterType | dds/DCPS/transport/framework/TransportRegistry.cpp:498-516 | false and no change on a taken name; otherwise the type is registered, under `rtps_discovery` too for `rtps_udp` |
| TransportRegistryModel.TransportRegistry.Release | dds/DCPS/transport/framework/TransportRegistry.cpp:518-541 | released; every map and the entries are empty and the global configuration nil; the directives stay |
| TransportRegistryModel.TransportRegistry.Released | dds/DCPS/transport/framework/TransportRegistry.cpp:543-548 | whether `release` has run |
| TransportRegistryModel.TransportRegistry.HasTransports | dds/DCPS/transport/framework/TransportRegistry.cpp:577-580 | false means no configuration has an entry; true means the first entry's configuration has one |
| TransportRegistryModel.TransportRegistry.GetTransportInfo | dds/DCPS/transport/framework/TransportRegistry.cpp:550-575 | true exactly when the configuration has an entry, with a copy of the first one; false leaves the argument as it was |
| TransportRegistryModel.TransportRegistry.LoadTransportConfiguration | dds/DCPS/transport/framework/TransportRegistry.cpp:89-342 | the tables become those of `Load`, and the status is 0, or -1 on an error; no configuration or instance registered before the load is removed or replaced; when it succeeds and created instances, the file's name is a new configuration holding exactly those instances, in strictly ascending order of name |

## Left out

- Locking: the registry's mutex and the thread safety it gives are not modelled.
- `TransportRegistry::instance()` and `close()`: the process-wide singleton is not modelled.
- Loading libraries: `load_transport_lib_i` is a lookup in the type map. Running the service directive through ACE's service configurator is outside the model.
- FixEmptyDefault: it reports the fallback type instead of loading that library. So it does not capture that a registered `tcp` type could later be used.
- The fallback type is `tcp`, as in a build without the safety profile.
- Configuration files: `open_section` failing, and the reading of sections by `processSections` and `pullValues`, are not modelled. The sections arrive as a list of `Section` values.
- Calls into other objects: `inst->load`, `shutdown`, `new_inst` and `convertToInteger` are foreign calls.
  - Each new instance is a `TransportInst` value.
  - `inst->load` of its values is not modelled: its success is taken for granted and the entry records the values.
  - `convertToInteger` is the `toInteger` parameter.
- Logging is left out: the log messages appear only as the `LoadError` reasons.
- `bind_config`, `remove_participant`, the public `load_transport_lib` wrapper, `domain_default_config`, the domain default configuration setters and `DEFAULT_INST_PREFIX` are not modelled.
- Shared objects: configurations, instances and types are values kept in the maps, so sharing of reference-counted objects is not captured. The exception is the global configuration, which is the name of its entry in the configuration map. A load changes only configurations it created itself.
- Header constants: `TransportRegistry.h` is not part of this model. The section names `transport`, `transport_template` and `config`, and the configuration keys, are taken from the comments and logs of `TransportRegistry.cpp`.
- The constructor's `passive_connect_duration_` default is not modelled: it is `None` until a value is loaded.
- FieldInfoModel.Describe: `n_elems_` is taken to be a 64-bit `std::size_t`, and `ref`'s default qualifier to be `"const "`. `field_info.h` is not part of this model.
- RegistryTables.ValueMap: the entries of a `std::map` have unique keys in ascending order, but the model does not require it of a `ValueMap`. Every lemma holds for any sequence of entries, including ones a map cannot hold, such as two `transports` entries.
- Front end: `resolveActualType`, `classify` and the AST node queries are inputs (`FrontEnd`, `AstType`). `scoped()` is the `::`-joined name, and `scoped_helper(sn, "_")` is the `_`-joined one.
- FieldInfoModel.FieldInfo.FromField: a `FieldInfo` object exists only when `init()` completes. The members are constants, because the source sets them once in the constructor.
- Scope: the rest of the IDL compiler (the generators that use `FieldInfo`), and the rest of the transport framework, are not modelled.
