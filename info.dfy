/** The objects that describe a ZConfig schema: raw values with their
    positions, key and section descriptors, type groups, section types and the
    schema itself, with the search that matches a section found in a
    configuration document against the children a section type declares. */
module Info {
  import opened Base
  import opened Bounds
  import opened Strings

  // ---------------------------------------------------------------------------
  // Raw values

  /** A raw value as read from a document, with where it was read. */
  datatype ValueInfo = ValueInfo(value: string, position: Position)

  /** What a datatype converter makes of a raw string: a typed value, or the
      message of the ValueError it raised. */
  datatype Conversion<V> = Converted(v: V) | Rejected(cause: string)

  /** `ValueInfo.convert`: apply the converter; a rejection becomes a
      DataConversionError that names the raw value and its position. */
  function Convert<V>(vi: ValueInfo, dataType: string -> Conversion<V>): (r: Result<V>)
    ensures r.Ok? <==> dataType(vi.value).Converted?
    ensures r.Ok? ==> r.value == dataType(vi.value).v
    ensures r.Fail? ==> r.error == DataConversionError(dataType(vi.value).cause, vi.value, vi.position)
  {
    match dataType(vi.value)
    case Converted(v) => Ok(v)
    case Rejected(cause) => Fail(DataConversionError(cause, vi.value, vi.position))
  }

  // ---------------------------------------------------------------------------
  // Descriptors of declared children

  /** What every key and section descriptor knows about itself.  An absent name
      or attribute (None in the source) is the empty string. */
  datatype BaseInfo = BaseInfo(
    name: string,
    dataType: Option<Opaque>,
    minOccurs: Option<int>,
    maxOccurs: Option<Bound>,
    handler: Option<Opaque>,
    attribute: string)

  /** The checks of the descriptor constructor.  The minOccurs comparison sits
      after an unconditional raise, so it never runs. */
  function NewBaseInfo(name: string, dataType: Option<Opaque>, minOccurs: Option<int>,
                       maxOccurs: Option<Bound>, handler: Option<Opaque>, attribute: string)
    : (r: Result<BaseInfo>)
    ensures r.Fail? <==> BelowOne(maxOccurs)
    ensures r.Fail? ==> r.error == SchemaError("maxOccurs must be at least 1")
    ensures r.Ok? ==> r.value == BaseInfo(name, dataType, minOccurs, maxOccurs, handler, attribute)
  {
    var info := BaseInfo(name, dataType, minOccurs, maxOccurs, handler, attribute);
    if BelowOne(maxOccurs) then
      if Less(maxOccurs.value, Finite(1)) then
        Fail(SchemaError("maxOccurs must be at least 1"))
      else if MinBelowMax(minOccurs, maxOccurs) then
        Fail(SchemaError("minOccurs must be at least maxOccurs"))
      else
        Ok(info)
    else
      Ok(info)
  }

  /** `minOccurs is not None and minOccurs < maxOccurs` */
  function MinBelowMax(minOccurs: Option<int>, maxOccurs: Option<Bound>): (r: bool)
    ensures r <==> minOccurs.Some? && maxOccurs.Some? && Below(Finite(minOccurs.value), maxOccurs.value)
  {
    match minOccurs
    case None => false
    case Some(m) => maxOccurs.Some? && Less(Finite(m), maxOccurs.value)
  }

  /** `ismulti`: the child may occur more than once. */
  function IsMulti(b: BaseInfo): (r: bool)
    ensures r <==> b.maxOccurs.Some? && (b.maxOccurs.value.Unbounded? || b.maxOccurs.value.n >= 2)
  {
    MoreThanOne(b.maxOccurs)
  }

  /** The default of a key as `getdefault` hands it out: None, one value, or a list. */
  datatype Default = NoDefault | One(v: ValueInfo) | Many(vs: seq<ValueInfo>)

  /** A key descriptor.  It is built, receives its defaults, and is then
      finished; only a finished key gives out its default. */
  class KeyInfo {
    const info: BaseInfo
    var finished: bool
    var default: Default

    /** A key that may occur more than once keeps a non-empty list of defaults
        once it has any; any other key keeps at most one default. */
    ghost predicate Valid()
      reads this
    {
      && info.minOccurs.Some?
      && (IsMulti(info) ==> !default.One?)
      && (!IsMulti(info) ==> !default.Many?)
      && (default.Many? ==> default.vs != [])
    }

    /** The defaults added so far, in the order they were added. */
    function Added(): seq<ValueInfo>
      reads this
    {
      match default
      case NoDefault => []
      case One(v) => [v]
      case Many(vs) => vs
    }

    constructor (info: BaseInfo)
      requires info.minOccurs.Some?
      ensures this.info == info && !finished && default == NoDefault && Valid()
    {
      this.info := info;
      finished := false;
      default := NoDefault;
    }

    /** `finish`: the one transition from building to finished. */
    method Finish() returns (r: Result<()>)
      requires Valid()
      modifies this
      ensures Valid() && finished && default == old(default)
      ensures r.Fail? <==> old(finished)
      ensures r.Fail? ==> r.error == SchemaError("cannot finish KeyInfo more than once")
    {
      if finished {
        return Fail(SchemaError("cannot finish KeyInfo more than once"));
      }
      finished := true;
      r := Ok(());
    }

    /** `adddefault`: a key that may occur more than once collects its defaults
        in call order; any other key takes one default at most. */
    method AddDefault(value: string, position: Position) returns (r: Result<()>)
      requires Valid()
      modifies this
      ensures Valid() && finished == old(finished)
      ensures r.Fail? <==> old(finished) || (!IsMulti(info) && old(default) != NoDefault)
      ensures r.Fail? ==> r.error.SchemaError? && default == old(default)
      ensures r.Ok? ==> Added() == old(Added()) + [ValueInfo(value, position)]
    {
      if finished {
        return Fail(SchemaError("cannot add default values to finished KeyInfo"));
      }
      var v := ValueInfo(value, position);
      if IsMulti(info) {
        if default == NoDefault {
          default := Many([v]);
        } else {
          default := Many(default.vs + [v]);
        }
      } else if default != NoDefault {
        return Fail(SchemaError("cannot set more than one default to key with maxOccurs == 1"));
      } else {
        default := One(v);
      }
      r := Ok(());
    }

    /** `getdefault`: only a finished key answers.  A key that may occur more
        than once answers with the list of its defaults, empty if none was
        added; any other key with its one default, or None. */
    function GetDefault(): (r: Result<Default>)
      reads this
      requires Valid()
      ensures r.Fail? <==> !finished
      ensures r.Fail? ==> r.error.SchemaError?
      ensures r.Ok? && IsMulti(info) ==> r.value == Many(Added())
      ensures r.Ok? && !IsMulti(info) ==> r.value == if Added() == [] then NoDefault else One(Added()[0])
    {
      if !finished then
        Fail(SchemaError("cannot get default value of key before KeyInfo has been completely initialized"))
      else if default == NoDefault && IsMulti(info) then
        Ok(Many([]))
      else
        Ok(default)
    }
  }

  /** The `KeyInfo` constructor: the key's minOccurs must be given, then the
      descriptor checks apply. */
  method NewKeyInfo(name: string, dataType: Option<Opaque>, minOccurs: Option<int>,
                    maxOccurs: Option<Bound>, handler: Option<Opaque>, attribute: string)
    returns (r: Result<KeyInfo>)
    requires minOccurs.Some?
    ensures r.Fail? <==> BelowOne(maxOccurs)
    ensures r.Fail? ==> r.error.SchemaError?
    ensures r.Ok? ==> fresh(r.value) && r.value.Valid() && !r.value.finished && r.value.Added() == []
    ensures r.Ok? ==> r.value.info == BaseInfo(name, dataType, minOccurs, maxOccurs, handler, attribute)
  {
    var b := NewBaseInfo(name, dataType, minOccurs, maxOccurs, handler, attribute);
    if b.Fail? {
      return Fail(b.error);
    }
    var k := new KeyInfo(b.value);
    r := Ok(k);
  }

  /** What a section slot refers to: one section type, or a group of them. */
  datatype TypeRef = Concrete(st: SectionType) | Group(g: GroupType) {
    function Name(): string {
      match this
      case Concrete(t) => t.name
      case Group(g) => g.name
    }
  }

  /** A section descriptor: a slot for sections of one type or of a group. */
  datatype SectionInfo = SectionInfo(info: BaseInfo, sectiontype: TypeRef)

  /** The `SectionInfo` constructor.  A repeatable section needs a wildcard
      name and a target attribute; a group slot has no datatype of its own. */
  function NewSectionInfo(name: string, sectiontype: TypeRef, minOccurs: Option<int>,
                          maxOccurs: Option<Bound>, handler: Option<Opaque>, attribute: string)
    : (r: Result<SectionInfo>)
    ensures r.Fail? <==>
      || (MoreThanOne(maxOccurs) && ((name != "*" && name != "+") || attribute == ""))
      || BelowOne(maxOccurs)
    ensures r.Fail? ==> r.error.SchemaError?
    ensures r.Ok? ==> r.value.sectiontype == sectiontype
    ensures r.Ok? ==> r.value.info.name == name && r.value.info.attribute == attribute && r.value.info.handler == handler
    ensures r.Ok? ==> r.value.info.minOccurs == minOccurs && r.value.info.maxOccurs == maxOccurs
    ensures r.Ok? && sectiontype.Group? ==> r.value.info.dataType == None
    ensures r.Ok? && sectiontype.Concrete? ==> r.value.info.dataType == sectiontype.st.dataType
  {
    if MoreThanOne(maxOccurs) && name != "*" && name != "+" then
      Fail(SchemaError("sections which can occur more than once must use a name of '*' or '+'"))
    else if MoreThanOne(maxOccurs) && attribute == "" then
      Fail(SchemaError("sections which can occur more than once must specify a target attribute name"))
    else
      var dataType := if sectiontype.Group? then None else sectiontype.st.dataType;
      match NewBaseInfo(name, dataType, minOccurs, maxOccurs, handler, attribute)
      case Fail(e) => Fail(e)
      case Ok(b) => Ok(SectionInfo(b, sectiontype))
  }

  /** `allowUnnamed`: the slot takes sections without a name. */
  function AllowUnnamed(s: SectionInfo): (r: bool)
    ensures r <==> IsAllowedName(s, "")
  {
    s.info.name == "*"
  }

  /** `isAllowedName`: may a section of this name fill the slot? */
  function IsAllowedName(s: SectionInfo, n: string): (r: bool)
    ensures r ==> n != "*" && n != "+"
    ensures r && s.info.name != "+" ==> n == (if s.info.name == "*" then "" else s.info.name)
    ensures s.info.name == "+" ==> (r <==> n != "" && n != "*" && n != "+")
  {
    if n == "*" || n == "+" then false
    else if s.info.name == "+" then n != ""
    else if n == "" then s.info.name == "*"
    else n == s.info.name
  }

  /** `SectionInfo.getdefault`: sections have no default values. */
  function SectionDefault(s: SectionInfo): (r: Default)
    ensures r != NoDefault <==> IsMulti(s.info)
    ensures !r.One? && (r.Many? ==> r.vs == [])
  {
    if IsMulti(s.info) then Many([]) else NoDefault
  }

  // ---------------------------------------------------------------------------
  // Type groups

  /** A named set of section types, any of which may fill a group slot. */
  class GroupType {
    const name: string
    var subtypes: map<string, SectionType>

    /** Every subtype is filed under its own name. */
    ghost predicate Valid()
      reads this
    {
      forall n :: n in subtypes ==> subtypes[n].name == n
    }

    constructor (name: string)
      ensures this.name == name && subtypes == map[] && Valid()
    {
      this.name := name;
      subtypes := map[];
    }

    /** `addsubtype`: file a type under its name, replacing any earlier one. */
    method AddSubtype(t: SectionType)
      modifies this
      ensures subtypes == old(subtypes)[t.name := t]
      ensures old(Valid()) ==> Valid()
    {
      subtypes := subtypes[t.name := t];
    }

    /** `getsubtype` */
    function GetSubtype(n: string): (r: Result<SectionType>)
      reads this
      ensures r.Ok? <==> n in subtypes
      ensures r.Ok? ==> r.value == subtypes[n] && (Valid() ==> r.value.name == n)
      ensures r.Fail? ==> r.error == SchemaError("no subtype " + Repr(n) + " in group " + Repr(name))
    {
      if n in subtypes then Ok(subtypes[n])
      else Fail(SchemaError("no subtype " + Repr(n) + " in group " + Repr(name)))
    }

    /** `getsubtypenames`: the subtype names in sorted order. */
    function SubtypeNames(): (r: seq<string>)
      reads this
      ensures StrictlyAscending(r)
      ensures forall n :: n in r <==> n in subtypes
      ensures |r| == |subtypes|
    {
      SortedNames(subtypes.Keys)
    }
  }

  // ---------------------------------------------------------------------------
  // Section types

  /** A declared child: either a key or a section slot. */
  datatype ChildInfo = KeyChild(keyinfo: KeyInfo) | SectionChild(section: SectionInfo) {
    function Attribute(): string {
      match this
      case KeyChild(k) => k.info.attribute
      case SectionChild(s) => s.info.attribute
    }
  }

  /** An entry of a section type's child list: the name it was added under
      (empty for wildcard section slots) and its descriptor. */
  datatype Child = Child(key: string, info: ChildInfo)

  /** The registry of named types, shared by a schema and every section type
      created under it. */
  class TypeTable {
    var types: map<string, TypeRef>

    /** Types are filed under lowercase names only. */
    ghost predicate Valid()
      reads this
    {
      LowercaseKeys(types)
    }

    constructor ()
      ensures types == map[] && Valid()
    {
      types := map[];
    }
  }

  /** Every key of the registry is its own lowercase form. */
  ghost predicate LowercaseKeys(types: map<string, TypeRef>) {
    forall k :: k in types ==> Lower(k) == k
  }

  /** `gettype` on the registry contents: lookup by lowercased name. */
  function LookupType(types: map<string, TypeRef>, n: string): (r: Result<TypeRef>)
    ensures r.Ok? <==> Lower(n) in types
    ensures r.Ok? ==> r.value == types[Lower(n)]
    ensures r.Fail? ==> r.error == SchemaError("unknown type name: " + Repr(n))
  {
    if Lower(n) in types then Ok(types[Lower(n)])
    else Fail(SchemaError("unknown type name: " + Repr(n)))
  }

  /** `addtype` on the registry contents: file under the lowercased name,
      refusing a name that is already taken. */
  function RegisterType(types: map<string, TypeRef>, t: TypeRef): (r: Result<map<string, TypeRef>>)
    ensures r.Fail? <==> Lower(t.Name()) in types
    ensures r.Fail? ==> r.error.SchemaError?
    ensures r.Ok? ==> r.value.Keys == types.Keys + {Lower(t.Name())}
    ensures r.Ok? ==> forall k :: k in types ==> r.value[k] == types[k]
    ensures r.Ok? ==> r.value[Lower(t.Name())] == t
  {
    var n := Lower(t.Name());
    if n in types then Fail(SchemaError("type name cannot be redefined: " + Repr(t.Name())))
    else Ok(types[n := t])
  }

  /** Registration keeps every registry key in lowercase. */
  lemma RegisterKeepsLowercase(types: map<string, TypeRef>, t: TypeRef)
    requires LowercaseKeys(types) && RegisterType(types, t).Ok?
    ensures LowercaseKeys(RegisterType(types, t).value)
  {
    LowerIdempotent(t.Name());
  }

  /** The two indexes agree with the child list: each entry names the
      position of the one child carrying that name or attribute, and every
      child's non-empty name and attribute are indexed.  Every child has a
      name or an attribute, and only section slots are unnamed. */
  ghost predicate Indexed(children: seq<Child>, keymap: map<string, nat>, attrmap: map<string, nat>) {
    && "" !in keymap && "" !in attrmap
    && (forall k :: k in keymap ==> keymap[k] < |children| && children[keymap[k]].key == k)
    && (forall a :: a in attrmap ==> attrmap[a] < |children| && children[attrmap[a]].info.Attribute() == a)
    && (forall i :: 0 <= i < |children| && children[i].key != "" ==>
          children[i].key in keymap && keymap[children[i].key] == i)
    && (forall i :: 0 <= i < |children| && children[i].info.Attribute() != "" ==>
          children[i].info.Attribute() in attrmap && attrmap[children[i].info.Attribute()] == i)
    && (forall i :: 0 <= i < |children| ==> children[i].key != "" || children[i].info.Attribute() != "")
    && (forall i :: 0 <= i < |children| && children[i].info.KeyChild? ==> children[i].key != "")
  }

  /** Appending a child whose name and attribute are free, and indexing both,
      keeps the indexes in agreement. */
  lemma IndexedAppend(children: seq<Child>, keymap: map<string, nat>, attrmap: map<string, nat>, c: Child)
    requires Indexed(children, keymap, attrmap)
    requires c.key != "" || c.info.Attribute() != ""
    requires c.info.KeyChild? ==> c.key != ""
    requires c.key !in keymap && c.info.Attribute() !in attrmap
    ensures Indexed(children + [c],
                    if c.key != "" then keymap[c.key := |children|] else keymap,
                    if c.info.Attribute() != "" then attrmap[c.info.Attribute() := |children|] else attrmap)
  {
  }

  /** A section type: its ordered children and two indexes over them. */
  class SectionType {
    const name: string
    const keytype: Option<Opaque>
    const valuetype: Option<Opaque>
    const dataType: Option<Opaque>
    var handler: Option<Opaque>
    const registry: Option<Opaque>
    var children: seq<Child>
    var attrmap: map<string, nat>
    var keymap: map<string, nat>
    const types: TypeTable

    /** The indexes agree with the child list, as `Indexed` says. */
    ghost predicate Valid()
      reads this
    {
      Indexed(children, keymap, attrmap)
    }

    /** Some child was added under the non-empty name `k`. */
    predicate KeyTaken(k: string)
      reads this
    {
      k != "" && exists i :: 0 <= i < |children| && children[i].key == k
    }

    /** Some child carries the non-empty attribute `a`. */
    predicate AttributeTaken(a: string)
      reads this
    {
      a != "" && exists i :: 0 <= i < |children| && children[i].info.Attribute() == a
    }

    constructor (name: string, keytype: Option<Opaque>, valuetype: Option<Opaque>,
                 dataType: Option<Opaque>, registry: Option<Opaque>, types: TypeTable)
      ensures this.name == name && this.keytype == keytype && this.valuetype == valuetype
      ensures this.dataType == dataType && this.registry == registry && this.types == types
      ensures handler == None && children == [] && attrmap == map[] && keymap == map[]
      ensures Valid()
    {
      this.name := name;
      this.keytype := keytype;
      this.valuetype := valuetype;
      this.dataType := dataType;
      this.registry := registry;
      this.types := types;
      handler := None;
      children := [];
      attrmap := map[];
      keymap := map[];
    }

    /** `gettype`: look a type up in the shared registry, ignoring letter
        case. */
    function GetType(n: string): (r: Result<TypeRef>)
      reads types
      ensures r.Ok? <==> Lower(n) in types.types
      ensures r.Ok? ==> r.value == types.types[Lower(n)]
      ensures r.Fail? ==> r.error == SchemaError("unknown type name: " + Repr(n))
    {
      LookupType(types.types, n)
    }

    /** `_add_child`: refuse a name or attribute already in use; otherwise
        append the child and index its name and attribute. */
    method AddChild(key: string, info: ChildInfo) returns (r: Result<()>)
      requires Valid()
      requires key != "" || info.Attribute() != ""
      requires info.KeyChild? ==> key != ""
      modifies this
      ensures Valid() && handler == old(handler)
      ensures r.Fail? <==> old(KeyTaken(key)) || old(AttributeTaken(info.Attribute()))
      ensures r.Fail? ==> r.error.SchemaError? && children == old(children)
      ensures r.Ok? ==> children == old(children) + [Child(key, info)]
      ensures keymap == if r.Ok? && key != "" then old(keymap)[key := |old(children)|] else old(keymap)
      ensures attrmap ==
        if r.Ok? && info.Attribute() != "" then old(attrmap)[info.Attribute() := |old(children)|] else old(attrmap)
    {
      if key != "" && key in keymap {
        return Fail(SchemaError("child name " + key + " already used"));
      }
      var attribute := info.Attribute();
      if attribute != "" && attribute in attrmap {
        return Fail(SchemaError("child attribute name " + attribute + " already used"));
      }
      IndexedAppend(children, keymap, attrmap, Child(key, info));
      if attribute != "" {
        attrmap := attrmap[attribute := |children|];
      }
      if key != "" {
        keymap := keymap[key := |children|];
      }
      children := children + [Child(key, info)];
      r := Ok(());
    }

    /** `addkey`: a key is added under its own name. */
    method AddKey(k: KeyInfo) returns (r: Result<()>)
      requires Valid()
      requires k.info.name != ""
      modifies this
      ensures Valid() && handler == old(handler)
      ensures r.Fail? <==> old(KeyTaken(k.info.name)) || old(AttributeTaken(k.info.attribute))
      ensures r.Fail? ==> r.error.SchemaError? && children == old(children)
      ensures r.Ok? ==> children == old(children) + [Child(k.info.name, KeyChild(k))]
    {
      r := AddChild(k.info.name, KeyChild(k));
    }

    /** `addsection`: wildcard slots are added without a name. */
    method AddSection(name: string, s: SectionInfo) returns (r: Result<()>)
      requires Valid()
      requires name != "*" && name != "+"
      requires name != "" || s.info.attribute != ""
      modifies this
      ensures Valid() && handler == old(handler)
      ensures r.Fail? <==> old(KeyTaken(name)) || old(AttributeTaken(s.info.attribute))
      ensures r.Fail? ==> r.error.SchemaError? && children == old(children)
      ensures r.Ok? ==> children == old(children) + [Child(name, SectionChild(s))]
    {
      r := AddChild(name, SectionChild(s));
    }

    /** `getinfo`: the child added under the non-empty name `key`. */
    function GetInfo(key: string): (r: Result<ChildInfo>)
      reads this
      requires Valid()
      ensures r.Ok? <==> KeyTaken(key)
      ensures r.Ok? ==> forall i :: 0 <= i < |children| && children[i].key == key ==> r.value == children[i].info
      ensures r.Fail? ==> r.error.ConfigurationError?
    {
      if key == "" then
        Fail(ConfigurationError("cannot match a key without a name"))
      else if key !in keymap then
        Fail(ConfigurationError("no key matching " + Repr(key)))
      else
        Ok(children[keymap[key]].info)
    }

    /** `getchildnames`: the names the children were added under, in order. */
    function ChildNames(): (r: seq<string>)
      reads this
      ensures |r| == |children|
      ensures forall i :: 0 <= i < |r| ==> r[i] == children[i].key
    {
      var cs := children;
      seq(|cs|, i requires 0 <= i < |cs| => cs[i].key)
    }

    /** `gettypenames`: the registry's keys (a list in no particular order in
        the source). */
    function TypeNames(): (r: set<string>)
      reads types
      ensures r == types.types.Keys
      ensures types.Valid() ==> forall n :: n in r <==> Lower(n) == n && GetType(n).Ok?
    {
      types.types.Keys
    }

    /** The inner loop of `getrequiredtypes`: walks the slots of this type in
        order and returns, once each, the types they name that are not yet in
        `seen`, with `seen` grown by their names. */
    method PushUnseenChildTypes(seen: set<string>) returns (seen': set<string>, found: seq<TypeRef>)
      ensures seen' == seen + NamesOf(found)
      ensures forall x :: x in found ==> x in ChildTypes(this)
      ensures forall i, j :: 0 <= i < j < |found| ==> found[i].Name() != found[j].Name()
      ensures forall x :: x in found ==> x.Name() !in seen
      ensures forall y :: y in ChildTypes(this) ==> y.Name() in seen'
    {
      seen', found := seen, [];
      var cs := children;
      var j := 0;
      while j < |cs|
        invariant 0 <= j <= |cs|
        invariant seen' == seen + NamesOf(found)
        invariant forall x :: x in found ==> x in ChildTypes(this)
        invariant forall i, k :: 0 <= i < k < |found| ==> found[i].Name() != found[k].Name()
        invariant forall x :: x in found ==> x.Name() !in seen
        invariant forall k :: 0 <= k < j && cs[k].info.SectionChild? ==>
          cs[k].info.section.sectiontype.Name() in seen'
      {
        if cs[j].info.SectionChild? {
          var c := cs[j].info.section.sectiontype;
          if c.Name() !in seen' {
            NamesOfAppend(found, c);
            seen' := seen' + {c.Name()};
            found := found + [c];
          }
        }
        j := j + 1;
      }
    }

    /** `getrequiredtypes`: the names of this type and of every type reachable
        from it through section slots, found by a depth-first worklist.  `U`
        is any set of type references closed under section slots that holds
        this type; it bounds the search.  The result is always below every
        name set closed in the sense of `NameClosed`; when the types of `U`
        have distinct names it is exactly the least such set. */
    method GetRequiredTypes(ghost U: set<TypeRef>) returns (r: set<string>)
      requires Concrete(this) in U && ClosedUniverse(U)
      ensures name != "" ==> name in r
      ensures forall y :: y in ChildTypes(this) ==> y.Name() in r
      ensures r <= RequiredNames(U, this)
      ensures DistinctNames(U) ==> r == RequiredNames(U, this)
    {
      ghost var G := SlotGraph(U);
      ghost var root := Concrete(this);
      SlotGraphClosed(U);
      var d: set<string> := if name != "" then {name} else {};
      var stack: seq<TypeRef> := [Concrete(this)];
      WorklistStarts(G, root);
      while stack != []
        invariant G.Keys == U
        invariant forall x :: x in G ==> G[x] == if x.Concrete? then ChildTypes(x.st) else {}
        invariant WorklistInv(G, root, d, stack)
        decreases |Names(G.Keys) - d|, |stack|
      {
        var t := stack[|stack| - 1];
        assert t in G;
        var seen, pushed := d, [];
        if t.Concrete? {
          seen, pushed := t.st.PushUnseenChildTypes(d);
        }
        assert G[t] == if t.Concrete? then ChildTypes(t.st) else {};
        WorklistSteps(G, root, d, stack, pushed);
        stack := stack[..|stack| - 1] + pushed;
        d := seen;
      }
      r := d;
      WorklistEnds(G, root, d);
      SlotGraphIs(U, G);
    }

    /** `getsectionindex`: the position of the child that a section of type
        `typeName` named `name` (empty when unnamed) fills, scanning the children
        in order; the first relevant child decides. */
    method GetSectionIndex(typeName: string, name: string) returns (r: Result<nat>)
      requires Valid()
      ensures r == Scan(children, typeName, name)
    {
      var index := 0;
      while index < |children|
        invariant 0 <= index <= |children|
        invariant forall j :: 0 <= j < index ==> Step(children[j], typeName, name) == Skip
      {
        var c := children[index];
        if c.key != "" {
          if c.key == name {
            ScanDecides(children, index, typeName, name);
            if c.info.KeyChild? {
              return Fail(ConfigurationError("section name " + c.key + " already in use for key"));
            }
            var st := c.info.section.sectiontype;
            var resolved: string;
            if st.Group? {
              var sub := st.g.GetSubtype(typeName);
              if sub.Fail? {
                // SchemaError is a kind of ConfigurationError, so the miss is caught here
                return Fail(ConfigurationError("section type " + Repr(typeName) + " not allowed for name " + Repr(c.key)));
              }
              resolved := sub.value.name;
            } else {
              resolved := st.st.name;
            }
            if resolved != typeName {
              return Fail(ConfigurationError("name " + Repr(name) + " must be used for a " + Repr(resolved) + " section"));
            }
            return Ok(index);
          }
        } else {
          var s := c.info.section;
          if s.sectiontype.Name() == typeName {
            ScanDecides(children, index, typeName, name);
            if !(name != "" || AllowUnnamed(s)) {
              return Fail(ConfigurationError(Repr(typeName) + " sections must be named"));
            }
            return Ok(index);
          } else if s.sectiontype.Group? {
            var g := s.sectiontype.g;
            // a group named `typeName` was taken by the branch above, so the
            // source's "cannot define section with a sectiongroup type" check
            // never fires
            assert g.name != typeName;
            var sub := g.GetSubtype(typeName);
            if sub.Ok? {
              ScanDecides(children, index, typeName, name);
              return Ok(index);
            }
          }
        }
        index := index + 1;
      }
      ScanDecides(children, index, typeName, name);
      r := Fail(ConfigurationError("no matching section defined"));
    }

    /** `getsectioninfo`: the descriptor of the child `getsectionindex` finds.
        A descriptor is never a type group, so it is returned as it is. */
    method GetSectionInfo(typeName: string, name: string) returns (r: Result<ChildInfo>)
      requires Valid()
      ensures r.Ok? <==> Scan(children, typeName, name).Ok?
      ensures r.Ok? ==> r.value == children[Scan(children, typeName, name).value].info
      ensures r.Fail? ==> r.error == Scan(children, typeName, name).error
      ensures r.Ok? ==> r.value.SectionChild? && Admits(r.value.section, typeName)
    {
      var i := GetSectionIndex(typeName, name);
      if i.Fail? {
        return Fail(i.error);
      }
      r := Ok(children[i.value].info);
    }
  }

  // ---------------------------------------------------------------------------
  // The matching of a section instance against the children, child by child

  /** What one child says about a section of type `typeName` named `name`. */
  datatype Verdict = Skip | Match | Raise(error: Error)

  /** The group a child's slot refers to, if any. */
  function GroupOf(c: Child): set<GroupType> {
    if c.info.SectionChild? && c.info.section.sectiontype.Group? then {c.info.section.sectiontype.g} else {}
  }

  /** The groups the slots of `cs` refer to. */
  function GroupsOf(cs: seq<Child>): set<GroupType> {
    set i | 0 <= i < |cs| && cs[i].info.SectionChild? && cs[i].info.section.sectiontype.Group?
      :: cs[i].info.section.sectiontype.g
  }

  /** The slot takes sections of type `typeName`: its type is named `typeName`, or it
      is a group with a subtype of that name. */
  predicate Admits(s: SectionInfo, typeName: string)
    reads if s.sectiontype.Group? then {s.sectiontype.g} else {}
  {
    s.sectiontype.Name() == typeName || (s.sectiontype.Group? && typeName in s.sectiontype.g.subtypes)
  }

  /** One round of the loop of `getsectionindex`.  A child added under a name
      is relevant only to a section of that name and then decides strictly;
      an unnamed slot decides when its type is named `typeName`, and a group slot
      also when it has such a subtype (otherwise the scan moves on). */
  function Step(c: Child, typeName: string, name: string): (r: Verdict)
    reads GroupOf(c)
    ensures r == Match ==> c.info.SectionChild? && (c.key == "" || c.key == name) && Admits(c.info.section, typeName)
    ensures r.Raise? ==> r.error.ConfigurationError?
    ensures c.key != "" && c.key != name ==> r == Skip
  {
    if c.key != "" then
      if c.key != name then Skip
      else
        match c.info
        case KeyChild(_) => Raise(ConfigurationError("section name " + c.key + " already in use for key"))
        case SectionChild(s) =>
          match s.sectiontype
          case Concrete(st) =>
            if st.name == typeName then Match
            else Raise(ConfigurationError("name " + Repr(name) + " must be used for a " + Repr(st.name) + " section"))
          case Group(g) =>
            if typeName !in g.subtypes then
              Raise(ConfigurationError("section type " + Repr(typeName) + " not allowed for name " + Repr(c.key)))
            else if g.subtypes[typeName].name == typeName then Match
            else Raise(ConfigurationError("name " + Repr(name) + " must be used for a " + Repr(g.subtypes[typeName].name) + " section"))
    else
      match c.info
      case KeyChild(_) => Skip
      case SectionChild(s) =>
        if s.sectiontype.Name() == typeName then
          if name == "" && !AllowUnnamed(s) then Raise(ConfigurationError(Repr(typeName) + " sections must be named"))
          else Match
        else
          match s.sectiontype
          case Concrete(_) => Skip
          case Group(g) =>
            if g.name == typeName then Raise(ConfigurationError("cannot define section with a sectiongroup type"))
            else if typeName in g.subtypes then Match
            else Skip
  }

  /** The outcome of `getsectionindex` over the children `cs`: the position of
      the first child that matches, the error of the first that refuses, or
      "no matching section defined" when every child is skipped. */
  function Scan(cs: seq<Child>, typeName: string, name: string): (r: Result<nat>)
    reads GroupsOf(cs)
    ensures r.Ok? ==> r.value < |cs| && Step(cs[r.value], typeName, name) == Match
    ensures r.Ok? ==> forall j :: 0 <= j < r.value ==> Step(cs[j], typeName, name) == Skip
    ensures r.Fail? ==> r.error.ConfigurationError?
    decreases |cs|
  {
    if cs == [] then Fail(ConfigurationError("no matching section defined"))
    else
      assert GroupsOf(cs[1..]) <= GroupsOf(cs) by {
        forall g | g in GroupsOf(cs[1..]) ensures g in GroupsOf(cs) {
          var i :| 0 <= i < |cs[1..]| && cs[1..][i].info.SectionChild? && cs[1..][i].info.section.sectiontype.Group?
            && g == cs[1..][i].info.section.sectiontype.g;
          assert cs[i + 1] == cs[1..][i];
        }
      }
      match Step(cs[0], typeName, name)
      case Match => Ok(0)
      case Raise(e) => Fail(e)
      case Skip =>
        match Scan(cs[1..], typeName, name)
        case Ok(i) => Ok(i + 1)
        case Fail(e) => Fail(e)
  }

  /** The first child that is not skipped decides the scan; when there is
      none the scan finds no matching section. */
  lemma {:induction false} ScanDecides(cs: seq<Child>, i: nat, typeName: string, name: string)
    requires i <= |cs|
    requires forall j :: 0 <= j < i ==> Step(cs[j], typeName, name) == Skip
    requires i < |cs| ==> Step(cs[i], typeName, name) != Skip
    ensures i == |cs| ==> Scan(cs, typeName, name) == Fail(ConfigurationError("no matching section defined"))
    ensures i < |cs| && Step(cs[i], typeName, name) == Match ==> Scan(cs, typeName, name) == Ok(i)
    ensures i < |cs| && Step(cs[i], typeName, name).Raise? ==>
      Scan(cs, typeName, name) == Fail(Step(cs[i], typeName, name).error)
  {
    if cs != [] && i > 0 {
      assert Step(cs[0], typeName, name) == Skip;
      forall j | 0 <= j < i - 1 ensures Step(cs[1..][j], typeName, name) == Skip {
        assert cs[1..][j] == cs[j + 1];
      }
      ScanDecides(cs[1..], i - 1, typeName, name);
    }
  }

  // ---------------------------------------------------------------------------
  // Reachability of section types, for `getrequiredtypes`

  /** The section-type objects among the references `U`. */
  function TypeObjects(U: set<TypeRef>): set<SectionType> {
    set x | x in U && x.Concrete? :: x.st
  }

  /** The names of the references `U`. */
  function Names(U: set<TypeRef>): set<string> {
    set x | x in U :: x.Name()
  }

  /** No two of the references `U` share a name. */
  ghost predicate DistinctNames(U: set<TypeRef>) {
    forall x, y :: x in U && y in U && x.Name() == y.Name() ==> x == y
  }

  /** The types the section slots of `st` refer to. */
  function ChildTypes(st: SectionType): set<TypeRef>
    reads st
  {
    set i | 0 <= i < |st.children| && st.children[i].info.SectionChild? :: st.children[i].info.section.sectiontype
  }

  /** The names of the references in `s`. */
  function NamesOf(s: seq<TypeRef>): set<string> {
    set x | x in s :: x.Name()
  }

  lemma NamesOfAppend(s: seq<TypeRef>, x: TypeRef)
    ensures NamesOf(s + [x]) == NamesOf(s) + {x.Name()}
  {
    forall n | n in NamesOf(s + [x]) ensures n in NamesOf(s) + {x.Name()} {
      var y :| y in s + [x] && y.Name() == n;
      if y != x {
        assert y in s;
      }
    }
    forall n | n in NamesOf(s) ensures n in NamesOf(s + [x]) {
      var y :| y in s && y.Name() == n;
      assert y in s + [x];
    }
    assert x in s + [x];
  }

  /** Every slot of every section type in `U` refers to a member of `U`. */
  ghost predicate ClosedUniverse(U: set<TypeRef>)
    reads TypeObjects(U)
  {
    forall x :: x in U && x.Concrete? ==> ChildTypes(x.st) <= U
  }

  /** The slot graph of `U`: each reference with the types its slots name; a
      group has no slots of its own. */
  ghost function SlotGraph(U: set<TypeRef>): map<TypeRef, set<TypeRef>>
    reads TypeObjects(U)
  {
    map x | x in U :: if x.Concrete? then ChildTypes(x.st) else {}
  }

  lemma SlotGraphIs(U: set<TypeRef>, G: map<TypeRef, set<TypeRef>>)
    requires G.Keys == U
    requires forall x :: x in G ==> G[x] == if x.Concrete? then ChildTypes(x.st) else {}
    ensures G == SlotGraph(U)
  {
  }

  /** Every edge of `G` ends at a node of `G`. */
  ghost predicate ClosedGraph(G: map<TypeRef, set<TypeRef>>) {
    forall x :: x in G ==> G[x] <= G.Keys
  }

  lemma SlotGraphClosed(U: set<TypeRef>)
    requires ClosedUniverse(U)
    ensures SlotGraph(U).Keys == U && ClosedGraph(SlotGraph(U))
  {
    var G := SlotGraph(U);
    assert G.Keys == U;
    forall x | x in G ensures G[x] <= G.Keys {
      if x.Concrete? {
        assert ChildTypes(x.st) <= U;
      }
    }
  }

  /** The types every slot of `x` names are named in `S`. */
  ghost predicate Covers(G: map<TypeRef, set<TypeRef>>, x: TypeRef, S: set<string>) {
    x in G ==> forall y :: y in G[x] ==> y.Name() in S
  }

  /** `S` holds the name of `root` and, for `root` and every type of `G` it
      names, the names of the types their slots refer to. */
  ghost predicate NameClosed(G: map<TypeRef, set<TypeRef>>, root: TypeRef, S: set<string>) {
    && (root.Name() != "" ==> root.Name() in S)
    && Covers(G, root, S)
    && forall x :: x in G && x.Name() in S ==> Covers(G, x, S)
  }

  /** The names every closed set holds. */
  ghost function LeastClosedNames(G: map<TypeRef, set<TypeRef>>, root: TypeRef): set<string> {
    set n | n in Names(G.Keys) && forall S :: NameClosed(G, root, S) ==> n in S
  }

  /** The names the type `root` requires, over the universe `U`. */
  ghost function RequiredNames(U: set<TypeRef>, root: SectionType): set<string>
    reads TypeObjects(U)
  {
    LeastClosedNames(SlotGraph(U), Concrete(root))
  }

  /** The invariant of the worklist loop of `getrequiredtypes`: what is on the
      stack is a node of `G` named in `d` (the root may be unnamed); `d` lies
      below every closed set; and, when names are distinct, every type named
      in `d` is either still on the stack or has its slots covered. */
  ghost predicate WorklistInv(G: map<TypeRef, set<TypeRef>>, root: TypeRef, d: set<string>, stack: seq<TypeRef>) {
    && ClosedGraph(G)
    && root in G
    && (forall x :: x in stack ==> x in G)
    && d <= Names(G.Keys)
    && (root.Name() != "" ==> root.Name() in d)
    && (forall x :: x in stack ==> x == root || x.Name() in d)
    && (forall S :: NameClosed(G, root, S) ==> d <= S)
    && (root in stack || Covers(G, root, d))
    && (DistinctNames(G.Keys) ==> forall x :: x in G && x.Name() in d ==> x in stack || Covers(G, x, d))
  }

  lemma WorklistStarts(G: map<TypeRef, set<TypeRef>>, root: TypeRef)
    requires ClosedGraph(G) && root in G
    ensures WorklistInv(G, root, if root.Name() != "" then {root.Name()} else {}, [root])
  {
    var d := if root.Name() != "" then {root.Name()} else {};
    forall S | NameClosed(G, root, S) ensures d <= S {}
    if DistinctNames(G.Keys) {
      forall x | x in G && x.Name() in d ensures x in [root] {}
    }
  }

  /** Popping `t` and pushing the new types its slots name keeps the invariant
      and either grows `d` or shortens the stack. */
  lemma WorklistSteps(G: map<TypeRef, set<TypeRef>>, root: TypeRef, d0: set<string>, stack0: seq<TypeRef>,
                      pushed: seq<TypeRef>)
    requires stack0 != [] && WorklistInv(G, root, d0, stack0)
    requires forall x :: x in pushed ==> x in G[stack0[|stack0| - 1]]
    requires forall x :: x in pushed ==> x.Name() !in d0
    requires Covers(G, stack0[|stack0| - 1], d0 + NamesOf(pushed))
    ensures WorklistInv(G, root, d0 + NamesOf(pushed), stack0[..|stack0| - 1] + pushed)
    ensures pushed == [] ==> d0 + NamesOf(pushed) == d0
    ensures pushed != [] ==> |Names(G.Keys) - (d0 + NamesOf(pushed))| < |Names(G.Keys) - d0|
  {
    var t := stack0[|stack0| - 1];
    var rest := stack0[..|stack0| - 1];
    assert rest + [t] == stack0;
    var d := d0 + NamesOf(pushed);
    assert t in stack0;
    assert forall x :: x in pushed ==> x in G by {
      assert G[t] <= G.Keys;
    }
    var stack := rest + pushed;
    assert forall x :: x in stack ==> x in G by {
      forall x | x in stack ensures x in G {
        if x in rest {
          assert x in stack0;
        }
      }
    }
    NamesWithin(G.Keys, pushed);
    assert d <= Names(G.Keys);
    StepSound(G, root, d0, t, pushed);
    StepKeepsStack(root, d0, rest, t, pushed);
    StepKeepsRoot(G, root, d0, rest, t, pushed);
    if DistinctNames(G.Keys) {
      StepExplores(G, d0, rest, t, pushed);
    }
    assert WorklistInv(G, root, d, stack);
    if pushed == [] {
      assert NamesOf(pushed) == {};
    } else {
      assert pushed[0].Name() in d - d0;
      GapShrinks(Names(G.Keys), d0, d);
    }
  }

  lemma NamesWithin(U: set<TypeRef>, pushed: seq<TypeRef>)
    requires forall x :: x in pushed ==> x in U
    ensures NamesOf(pushed) <= Names(U)
  {
    forall n | n in NamesOf(pushed) ensures n in Names(U) {
      var x :| x in pushed && x.Name() == n;
    }
  }

  /** Soundness: the names pushed from `t` belong to every closed set that
      already holds `d0`. */
  lemma StepSound(G: map<TypeRef, set<TypeRef>>, root: TypeRef, d0: set<string>, t: TypeRef, pushed: seq<TypeRef>)
    requires forall S :: NameClosed(G, root, S) ==> d0 <= S
    requires t in G && (t == root || t.Name() in d0)
    requires forall x :: x in pushed ==> x in G[t]
    ensures forall S :: NameClosed(G, root, S) ==> d0 + NamesOf(pushed) <= S
  {
    forall S | NameClosed(G, root, S) ensures d0 + NamesOf(pushed) <= S {
      assert d0 <= S;
      assert Covers(G, t, S);
      forall n | n in NamesOf(pushed) ensures n in S {
        var x :| x in pushed && x.Name() == n;
      }
    }
  }

  lemma StepKeepsStack(root: TypeRef, d0: set<string>, rest: seq<TypeRef>, t: TypeRef, pushed: seq<TypeRef>)
    requires forall x :: x in rest + [t] ==> x == root || x.Name() in d0
    ensures forall x :: x in rest + pushed ==> x == root || x.Name() in d0 + NamesOf(pushed)
  {
    forall x | x in rest + pushed ensures x == root || x.Name() in d0 + NamesOf(pushed) {
      if x in rest {
        assert x in rest + [t];
      } else {
        assert x in pushed;
      }
    }
  }

  lemma StepKeepsRoot(G: map<TypeRef, set<TypeRef>>, root: TypeRef, d0: set<string>, rest: seq<TypeRef>,
                      t: TypeRef, pushed: seq<TypeRef>)
    requires root in rest + [t] || Covers(G, root, d0)
    requires Covers(G, t, d0 + NamesOf(pushed))
    ensures root in rest + pushed || Covers(G, root, d0 + NamesOf(pushed))
  {
    if root !in rest + pushed && root != t {
      CoversMonotone(G, root, d0, d0 + NamesOf(pushed));
    }
  }

  /** With distinct names, every type named after the step is still pending
      or has its slots covered. */
  lemma StepExplores(G: map<TypeRef, set<TypeRef>>, d0: set<string>, rest: seq<TypeRef>, t: TypeRef,
                     pushed: seq<TypeRef>)
    requires DistinctNames(G.Keys)
    requires forall x :: x in pushed ==> x in G
    requires forall x :: x in G && x.Name() in d0 ==> x in rest + [t] || Covers(G, x, d0)
    requires Covers(G, t, d0 + NamesOf(pushed))
    ensures forall x :: x in G && x.Name() in d0 + NamesOf(pushed) ==>
      x in rest + pushed || Covers(G, x, d0 + NamesOf(pushed))
  {
    var d := d0 + NamesOf(pushed);
    forall x | x in G && x.Name() in d ensures x in rest + pushed || Covers(G, x, d) {
      if x.Name() in d0 {
        if x == t {
        } else if x in rest {
        } else {
          assert x !in rest + [t];
          CoversMonotone(G, x, d0, d);
        }
      } else {
        var y :| y in pushed && y.Name() == x.Name();
        assert y in G;
      }
    }
  }

  /** An empty worklist leaves the least closed set of names. */
  lemma WorklistEnds(G: map<TypeRef, set<TypeRef>>, root: TypeRef, d: set<string>)
    requires WorklistInv(G, root, d, [])
    ensures root.Name() != "" ==> root.Name() in d
    ensures forall y :: y in G[root] ==> y.Name() in d
    ensures d <= LeastClosedNames(G, root)
    ensures DistinctNames(G.Keys) ==> d == LeastClosedNames(G, root)
  {
    forall n | n in d ensures n in LeastClosedNames(G, root) {}
    if DistinctNames(G.Keys) {
      assert NameClosed(G, root, d);
    }
  }

  lemma CoversMonotone(G: map<TypeRef, set<TypeRef>>, x: TypeRef, S: set<string>, S': set<string>)
    requires Covers(G, x, S) && S <= S'
    ensures Covers(G, x, S')
  {
  }

  lemma GapShrinks(N: set<string>, a: set<string>, b: set<string>)
    requires a <= b <= N && a != b
    ensures |N - b| < |N - a|
  {
    assert N - a == (N - b) + (b - a);
    assert (N - b) !! (b - a);
    var n :| n in b && n !in a;
    assert n in b - a;
  }

  // ---------------------------------------------------------------------------
  // The schema

  /** The schema: a section type that also owns the type registry.  The
      section-type part is `root`. */
  class SchemaType {
    const root: SectionType
    const url: Option<Opaque>

    constructor (name: string, keytype: Option<Opaque>, valuetype: Option<Opaque>,
                 dataType: Option<Opaque>, handler: Option<Opaque>, url: Option<Opaque>,
                 registry: Option<Opaque>)
      ensures fresh(root) && fresh(root.types)
      ensures root.name == name && root.keytype == keytype && root.valuetype == valuetype
      ensures root.dataType == dataType && root.registry == registry
      ensures root.handler == handler && this.url == url
      ensures root.children == [] && root.types.types == map[] && root.Valid() && root.types.Valid()
    {
      var table := new TypeTable();
      var st := new SectionType(name, keytype, valuetype, dataType, registry, table);
      st.handler := handler;
      root := st;
      this.url := url;
    }

    /** `addtype`: register a type under its lowercased name. */
    method AddType(t: TypeRef) returns (r: Result<()>)
      requires root.types.Valid()
      modifies root.types
      ensures root.types.Valid()
      ensures r.Fail? <==> RegisterType(old(root.types.types), t).Fail?
      ensures r.Fail? ==> r.error.SchemaError? && root.types.types == old(root.types.types)
      ensures r.Ok? ==> root.types.types == RegisterType(old(root.types.types), t).value
      ensures r.Ok? ==> root.GetType(t.Name()) == Ok(t)
    {
      var n := Lower(t.Name());
      if n in root.types.types {
        return Fail(SchemaError("type name cannot be redefined: " + Repr(t.Name())));
      }
      RegisterKeepsLowercase(root.types.types, t);
      root.types.types := root.types.types[n := t];
      r := Ok(());
    }

    /** `getunusedtypes`: the registered names no type reachable from the
        schema uses.  Removing a required name that is not registered is
        Python's ValueError. */
    method GetUnusedTypes(ghost U: set<TypeRef>) returns (r: Result<set<string>>)
      requires Concrete(root) in U && ClosedUniverse(U)
      ensures r.Fail? ==> r.error.ValueError? && !(RequiredNames(U, root) <= root.types.types.Keys)
      ensures DistinctNames(U) ==> (r.Ok? <==> RequiredNames(U, root) <= root.types.types.Keys)
      ensures r.Ok? ==> root.types.types.Keys - RequiredNames(U, root) <= r.value <= root.types.types.Keys
      ensures r.Ok? && root.name != "" ==> root.name !in r.value && root.name in root.types.types
      ensures r.Ok? && DistinctNames(U) ==> r.value == root.types.types.Keys - RequiredNames(U, root)
    {
      var alltypes := root.TypeNames();
      var reqtypes := root.GetRequiredTypes(U);
      var pending := reqtypes;
      while pending != {}
        invariant pending <= reqtypes
        invariant reqtypes - pending <= root.types.types.Keys
        invariant alltypes == root.types.types.Keys - (reqtypes - pending)
        decreases pending
      {
        var n :| n in pending;
        if n !in alltypes {
          return Fail(ValueError("list.remove(x): x not in list"));
        }
        alltypes := alltypes - {n};
        pending := pending - {n};
      }
      var schemaName := root.name;
      if schemaName != "" && schemaName in alltypes {
        alltypes := alltypes - {schemaName};
      }
      r := Ok(alltypes);
    }

    /** `createSectionType`: build a section type that shares this schema's
        registry, and register it. */
    method CreateSectionType(name: string, keytype: Option<Opaque>, valuetype: Option<Opaque>,
                             dataType: Option<Opaque>)
      returns (r: Result<SectionType>)
      requires root.types.Valid()
      modifies root.types
      ensures root.types.Valid()
      ensures r.Fail? <==> Lower(name) in old(root.types.types)
      ensures r.Fail? ==> r.error.SchemaError? && root.types.types == old(root.types.types)
      ensures r.Ok? ==> fresh(r.value) && r.value.Valid() && r.value.children == []
      ensures r.Ok? ==> r.value.handler == None && r.value.keymap == map[] && r.value.attrmap == map[]
      ensures r.Ok? ==> r.value.name == name && r.value.types == root.types && r.value.registry == root.registry
      ensures r.Ok? ==> r.value.keytype == keytype && r.value.valuetype == valuetype && r.value.dataType == dataType
      ensures r.Ok? ==> root.types.types == old(root.types.types)[Lower(name) := Concrete(r.value)]
    {
      var t := new SectionType(name, keytype, valuetype, dataType, root.registry, root.types);
      var added := AddType(Concrete(t));
      if added.Fail? {
        return Fail(added.error);
      }
      r := Ok(t);
    }
  }
}
