# ZConfig schema objects, modelled in Dafny

This project models `info.py` of ZConfig. That file holds the in-memory objects a
ZConfig schema is made of, and the search that matches a section found in a
configuration document against the children a section type declares.

- **`Unbounded` sentinel** (`bounds.dfy`, module `Bounds`): the six Python
  comparisons of `UnboundedThing` follow the source literally. This includes
  the reflected comparison Python 2 applies when an integer stands on the
  left, and the quirk that `Unbounded > Unbounded` holds. The lemmas compare
  them with the order of the integers extended by +infinity.
- **Strings** (`strings.dfy`, module `Strings`): Python 2 `str` ordering (used
  by `list.sort` in `getsubtypenames`), sorting a set of names, and ASCII
  `str.lower` (used by the case-insensitive type registry).
- **Schema objects** (`info.dfy`, module `Info`):
  - `ValueInfo.convert` is modelled over an abstract converter.
  - `BaseInfo` and `SectionInfo` are values built by checking constructors.
  - `KeyInfo` is a class with a build-then-finish state machine.
  - `GroupType` is a class over its subtype map.
  - `SectionType` is a class over its ordered child list and the two indexes
    `keymap` and `attrmap`, kept consistent by the `Indexed` invariant.
  - `TypeTable` is the type registry shared by a schema and every section
    type it creates; its invariant is that every key is lowercase.
  - `SchemaType` is a section type plus that registry. Here it owns a
    `SectionType` as `root`, because the model has no inheritance; the
    schema's handler is `root.handler`.
  - `getsectionindex` is a loop proved equal to `Scan`, a recursive
    first-match specification built from `Step`, the verdict of one child.
  - `getrequiredtypes` is a worklist loop. It is proved against
    `LeastClosedNames`: the least set of names that holds the root's name and
    is closed under "a type named in the set names its slots' types". That
    set is defined over a slot graph of values.
- **Cross-operation properties** (`info_properties.dfy`, module
  `InfoProperties`): the descriptor rules, the registry round trip, the
  first-match behaviour of the search, and the least-closed-set reading of
  the required types.

`base.dfy` (module `Base`) holds the shared vocabulary:
- `Option`;
- the errors (`SchemaError`, `ConfigurationError`, `DataConversionError`, and
  Python's `ValueError`);
- `Result`, which stands for a raised exception.

An absent name, key or attribute (`None` in the source) is the empty string;
both are false in Python.

## Model

| member | source | states |
|---|---|---|
| Bounds.ComparisonsAgreeWithExtendedOrder | info.py:26-43 | `<`, `<=`, `>=`, `==` and `!=` on bounds agree with the integers extended by +infinity; `>` agrees too except that `Unbounded > Unbounded` holds |
| Bounds.UnboundedAnswers | info.py:26-43 | `Unbounded < x` is always false; `Unbounded > x` and `Unbounded >= x` always hold, even for `x = Unbounded`; `<=` and `==` hold only against `Unbounded` |
| Bounds.UnboundedMaximum | info.py:73-95 | an unbounded maxOccurs passes the `< 1` check of the descriptor constructor and makes `ismulti` true |
| Bounds.Less | info.py:27-28 | `a < b` holds exactly when `a` is below `b` in the integers extended by +infinity |
| Bounds.AtMost | info.py:30-31 | `a <= b` holds exactly when `a` is below or equal to `b` in the extended order |
| Bounds.Greater | info.py:33-34 | `a > b` holds exactly when `b` is below `a` in the extended order, or both are `Unbounded` |
| Bounds.AtLeast | info.py:36-37 | `a >= b` holds exactly when `b` is below or equal to `a` in the extended order |
| Bounds.Equal | info.py:39-40 | `a == b` holds exactly when the two bounds are the same |
| Bounds.NotEqual | info.py:42-43 | `a != b` holds exactly when the two bounds differ |
| Bounds.MoreThanOne | info.py:94-95 | `maxOccurs > 1` holds exactly when a maximum is given and lies above 1 in the extended order (None orders below every integer) |
| Bounds.BelowOne | info.py:73-74 | the maxOccurs check fires exactly when a maximum is given and lies below 1 in the extended order |
| Strings.SortedNames | info.py:215-218 | the sorted list holds exactly the names of the set, once each, in strictly ascending Python string order |
| Strings.Before | info.py:215-218 | Python's `<` on strings relates only different strings |
| Strings.BeforeIsLexicographic | info.py:215-218 | `a < b` holds exactly when `a` is a proper prefix of `b` or the first character where they differ is smaller in `a` |
| Strings.LeastExists | info.py:215-218 | every non-empty finite set of names has a least element, which is what makes the sorted list exist |
| Strings.BeforeTransitive | info.py:215-218 | Python string order is transitive (with `BeforeIrreflexive` and `BeforeTotal`, a strict total order) |
| Strings.BeforeTotal | info.py:215-218 | any two different strings are ordered one way or the other |
| Strings.BeforeIrreflexive | info.py:215-218 | no string comes before itself |
| Strings.Lower | info.py:242 | `lower` keeps the length and lowers each character on its own |
| Strings.LowerIdempotent | info.py:369-374 | a lowered name lowers to itself, so registry keys are their own lookup keys |
| Strings.CaseVariantsCollide | info.py:369-374 | names that differ only in letter case lower to the same registry key |
| Info.Convert | info.py:57-61 | conversion yields the converter's value, or a DataConversionError carrying the converter's message, the raw value and its position |
| Info.NewBaseInfo | info.py:71-85 | construction fails, with "maxOccurs must be at least 1", exactly when maxOccurs is given and below 1; otherwise the descriptor carries the arguments unchanged (the minOccurs check is never reached) |
| Info.MinBelowMax | info.py:77-79 | the (unreachable) minOccurs test holds exactly when both bounds are given and minOccurs lies below maxOccurs |
| Info.IsMulti | info.py:94-95 | a child is repeatable exactly when its maxOccurs is given and is `Unbounded` or at least 2 |
| Info.KeyInfo.constructor | info.py:102-108 | a new key is unfinished, has no default and carries its descriptor |
| Info.NewKeyInfo | info.py:102-108 | a key descriptor is built exactly when the descriptor checks pass, and then starts unfinished with no default |
| Info.KeyInfo.Finish | info.py:110-114 | finishing a finished key fails and changes nothing; otherwise the key becomes finished with its defaults kept |
| Info.KeyInfo.AddDefault | info.py:116-130 | fails on a finished key, and on a second default of a single-valued key, leaving the default untouched; otherwise the value joins the defaults in call order |
| Info.KeyInfo.GetDefault | info.py:132-140 | fails before `finish`; then a repeatable key answers with the list of its defaults in call order (empty if none) and any other key with its one default or None |
| Info.NewSectionInfo | info.py:144-169 | a repeatable slot fails unless its name is `*` or `+` and it names an attribute; the bound checks apply; the datatype is None for a group slot, otherwise the section type's |
| Info.SectionDefault | info.py:192-197 | a section slot has no default: an empty list when repeatable, None otherwise |
| Info.AllowUnnamed | info.py:179-180 | a slot allows unnamed sections exactly when it allows the empty name |
| Info.IsAllowedName | info.py:182-190 | a wildcard is never an allowed name; a `+` slot allows exactly the other non-empty names; any other slot allows only its own name, or only the empty name for `*` (case by case in `AllowedNames`) |
| Info.GroupType.constructor | info.py:201-203 | a new group has its name and no subtypes |
| Info.GroupType.AddSubtype | info.py:205-206 | the type is filed under its own name, replacing an earlier one; every subtype stays filed under its name |
| Info.GroupType.GetSubtype | info.py:208-213 | answers the subtype filed under the name, which carries that name, or fails with a SchemaError naming the group |
| Info.GroupType.SubtypeNames | info.py:215-218 | the subtype names, each once, in ascending order |
| Info.LookupType | info.py:241-246 | a lookup succeeds exactly when the lowered name is registered and then answers that entry; otherwise "unknown type name" |
| Info.SectionType.GetType | info.py:241-246 | `gettype` succeeds exactly when the lowered name is registered in the shared table and answers that entry; otherwise a SchemaError "unknown type name" with the name's repr |
| Info.SectionType.TypeNames | info.py:248-249 | `gettypenames` answers the registered names, the set `getunusedtypes` starts from; in a valid registry these are exactly the lowercase names `gettype` succeeds for |
| Info.RegisterType | info.py:369-374 | registration fails exactly when the lowered name is taken; otherwise it adds that one key, mapped to the type, and keeps every other entry |
| Info.IndexedAppend | info.py:257-271 | appending a child whose name and attribute are free, and indexing both, keeps both indexes in agreement with the child list |
| Info.SectionType.constructor | info.py:225-239 | a new section type has no children, empty indexes, no handler and the shared registry |
| Info.SectionType.AddChild | info.py:257-271 | fails exactly when the non-empty name or attribute is already used, changing nothing; otherwise appends the child at the end and indexes its name and attribute at the new position |
| Info.SectionType.AddKey | info.py:273-274 | a key is added under its own name, with the same failures |
| Info.SectionType.AddSection | info.py:276-278 | a section slot is added under the given name, with the same failures |
| Info.SectionType.GetInfo | info.py:280-288 | succeeds exactly for a name some child was added under, answering that child's descriptor; otherwise a ConfigurationError |
| Info.SectionType.ChildNames | info.py:290-291 | the names the children were added under, in order |
| Info.SectionType.PushUnseenChildTypes | info.py:299-305 | the inner loop yields, once each, the types named by section slots that were not yet seen, and afterwards every slot's type is seen |
| Info.SectionType.GetRequiredTypes | info.py:293-306 | the result holds the type's own name and its slots' types, lies inside the least closed name set, and equals it when type names are distinct |
| Info.WorklistSteps | info.py:296-305 | one round of the worklist keeps what is seen below every closed set and either grows the seen set or shortens the stack |
| Info.WorklistEnds | info.py:306 | an empty worklist leaves exactly the least closed name set (when names are distinct) |
| Info.Step | info.py:310-347 | one child's verdict: a match is a section slot of the right name that admits the type; a refusal is a ConfigurationError; a child under another name is skipped (the exact skip condition is `StepSkipsExactly`) |
| Info.Scan | info.py:308-348 | the scan's index is a valid position whose child matches, every earlier child being skipped; a failure is a ConfigurationError |
| Info.ScanDecides | info.py:308-348 | the first child not skipped decides the scan; if every child is skipped the result is "no matching section defined" |
| Info.SectionType.GetSectionIndex | info.py:308-348 | the loop answers exactly what the first-match scan specifies |
| Info.SectionType.GetSectionInfo | info.py:350-355 | answers the descriptor of the child the scan finds, a section slot that admits the type, or the scan's error |
| Info.SchemaType.constructor | info.py:361-367 | a new schema has an empty, valid (lowercase-keyed) registry, no children, and the given handler and URL |
| Info.SchemaType.AddType | info.py:369-374 | the registry changes exactly as `RegisterType` says and stays lowercase-keyed, and after success `gettype` of the type's name answers the type |
| Info.SchemaType.GetUnusedTypes | info.py:385-392 | fails with ValueError only when a required name is unregistered; otherwise answers registered names that are not required, never the schema's own name; exactly the registered minus the required ones when type names are distinct |
| Info.SchemaType.CreateSectionType | info.py:394-398 | a fresh empty section type (no handler, empty indexes) sharing the schema's registry is registered under its lowered name, or a SchemaError if that name is taken; the registry stays lowercase-keyed |
| InfoProperties.UnboundedIsRepeatable | info.py:73-95 | a descriptor with an unbounded maxOccurs is accepted and repeatable |
| InfoProperties.MinAboveMaxAccepted | info.py:73-79 | a minOccurs above a valid maxOccurs is accepted |
| InfoProperties.AllowedNames | info.py:179-190 | `*` and `+` are never allowed names; a `+` slot allows exactly the other non-empty names; a `*` slot only the empty name; any other slot only its own name; `allowUnnamed` is "allows the empty name" |
| InfoProperties.RepeatableSlotsAreWildcards | info.py:154-162 | an accepted repeatable section slot has a wildcard name and an attribute |
| InfoProperties.RegisterThenLookup | info.py:241-246 | after registering a type, every case variant of its name finds it and all other lookups are unchanged |
| InfoProperties.RedefinitionRefused | info.py:369-374 | a name differing only in case from a registered one cannot be registered |
| InfoProperties.LookupIgnoresCase | info.py:241-246 | lookups of case variants agree |
| Info.RegisterKeepsLowercase | info.py:369-374 | registration keeps every registry key in lowercase |
| InfoProperties.RegisteredTypeSeenByEverySectionType | info.py:241-246 | once `addtype` has filed a type in the schema's table, every section type sharing that table finds it under any case variant of its name, and answers other names as before |
| InfoProperties.TypeNamesAreLookupKeys | info.py:241-249 | in a valid (lowercase-keyed) registry, `gettype` succeeds exactly for names whose lowercase form `gettypenames` lists, and answers a listed name with its entry |
| InfoProperties.GetInfoAgreesWithChildNames | info.py:280-291 | `getinfo` succeeds exactly for the non-empty names `getchildnames` lists |
| InfoProperties.KeyIndexUnique | info.py:257-271 | no two children carry the same non-empty name |
| InfoProperties.ScanSucceedsIff | info.py:308-348 | the search succeeds exactly when some child matches and every child before it is skipped |
| InfoProperties.LaterChildrenIgnored | info.py:308-348 | appending a child never changes a search that already succeeds |
| InfoProperties.KeyNameRefused | info.py:312-316 | a section named like a key child is refused with a ConfigurationError |
| InfoProperties.NamedSlotNeverSkipped | info.py:312-329 | a child added under the instance's own name always decides, never letting the search move on |
| InfoProperties.StepSkipsExactly | info.py:310-347 | the search moves past a child exactly when it was added under another name, or is unnamed and is a key or a slot that does not admit the type |
| InfoProperties.NamedSlotOfTypeMatches | info.py:312-329 | a named slot of the section's own type takes a section of that name |
| InfoProperties.NamedGroupSubtypeMatches | info.py:318-329 | a named group slot takes the section when it files a subtype of that name under its own name |
| InfoProperties.UnnamedGroupTakesAnyInstance | info.py:336-347 | an unnamed group slot holding the type, not itself named like it, takes every instance, named or unnamed |
| InfoProperties.NamedSlotTakesPrecedence | info.py:310-329 | a first child named like the instance and of its type is the answer, whatever follows |
| InfoProperties.NamedGroupMissRefused | info.py:318-324 | a named group slot without the type refuses the section with a ConfigurationError |
| InfoProperties.NamedTypeMismatchRefused | info.py:325-328 | a named slot of another type refuses the section with a ConfigurationError |
| InfoProperties.UnnamedSlotTakesNamedInstance | info.py:331-335 | an unnamed slot of the section's type takes every named instance |
| InfoProperties.GroupMissSkipped | info.py:336-347 | an unnamed group slot without the type lets the search move on |
| InfoProperties.UnnamedNeedsStarSlot | info.py:331-335 | an unnamed section is taken by a slot of its type only when the slot is `*`, and refused otherwise |
| InfoProperties.LeastClosedIsClosed | info.py:293-306 | the names every closed set holds form a closed set, so the required names are the least closed set |
| InfoProperties.UnreferencedNotRequired | info.py:293-306 | a name other than the root's that no slot refers to is never required |

## Left out

- `components/logger/logger.py` is not part of this model. It is a factory over Python's `logging` module and has no logic of its own.
- The datatype converters are an abstract function. Only a ValueError they raise is caught by `convert`; any other exception is not modelled.
- The `__repr__` methods, the `True`/`False` shim, and the class-level `description`, `example` and `metadefault` are display or compatibility code.
- `keytype`, `valuetype`, `datatype`, `handler`, `registry` and `url` are opaque values. They are stored and handed back, never interpreted.
- The exception hierarchy is not part of the model. `SchemaError` is taken to be a kind of `ConfigurationError`, so a group miss in `getsectionindex` is caught, as the source's handler intends.
- `istypegroup` and `issection` are replaced by datatype tags (`Concrete`/`Group`, `KeyChild`/`SectionChild`). A descriptor is never a group, so the `gettype` branch of `getsectioninfo` is dead and not modelled.
- The schema's own `allowUnnamed`, `isAllowedName` and `issection`, and the `__len__`/`__getitem__` of section types, are constant answers or plain access and are not modelled.
- `gettypenames` and `getrequiredtypes` return dict key lists in unspecified order; they are modelled as sets.
- `Strings.Lower`: only ASCII letters are lowered, as in a Python 2 byte string; no locale.
- `Info.KeyInfo.GetDefault`: the model answers the defaults as a value. The source returns its internal `_default` list itself (info.py:140), so a caller that changes the returned list changes the key's defaults, and every call shares that one list; only the `[]` answered for a repeatable key without defaults is fresh. The model does not capture this aliasing.
- `Info.SectionType.GetRequiredTypes`: a group slot's type is pushed like any other but contributes no slots of its own. The source would fail with AttributeError reading `_children` of a group. The search is bounded by a ghost universe `U` of type references closed under slots. The exact equality with the least closed name set is proved only when the types of `U` have distinct names; soundness holds always.
- `Info.SchemaType.GetUnusedTypes`: it inherits the same restrictions. The exact answer is proved only when type names are distinct.
- `Info.SectionType.AddKey`: it requires a non-empty key name, which the source does not check. With an empty name and an attribute, the source's assert at info.py:259 passes and only the attribute is indexed (info.py:267-268). `getsectioninfo` would then fail with AttributeError reading `sectiontype` of that key at info.py:331, if the search reaches it.
- `Info.SectionType.AddChild` and `Info.SectionType.AddSection`: they require what the source asserts (a name or an attribute, info.py:259; no wildcard name for `addsection`). `AddChild` also requires a key child to have a non-empty name, for the reason given under `Info.SectionType.AddKey`.
