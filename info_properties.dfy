/** Properties that relate the operations of the schema objects to one another:
    the descriptor rules, the registry round trip, the first-match behaviour
    of the section search and the least-closed-set reading of the required
    types. */
module InfoProperties {
  import opened Base
  import opened Bounds
  import opened Strings
  import opened Info

  // ---------------------------------------------------------------------------
  // Descriptors

  /** An unbounded maxOccurs passes the `< 1` check and makes the child
      repeatable. */
  lemma UnboundedIsRepeatable(name: string, dataType: Option<Opaque>, minOccurs: Option<int>,
                              handler: Option<Opaque>, attribute: string)
    ensures NewBaseInfo(name, dataType, minOccurs, Some(Unbounded), handler, attribute).Ok?
    ensures IsMulti(NewBaseInfo(name, dataType, minOccurs, Some(Unbounded), handler, attribute).value)
  {
  }

  /** The minOccurs check follows an unconditional raise, so a minOccurs above
      a valid maxOccurs is accepted. */
  lemma MinAboveMaxAccepted(name: string, dataType: Option<Opaque>, handler: Option<Opaque>,
                            attribute: string, lo: int, hi: int)
    requires 1 <= hi < lo
    ensures NewBaseInfo(name, dataType, Some(lo), Some(Finite(hi)), handler, attribute).Ok?
  {
  }

  /** The naming rules of a section slot, case by case. */
  lemma AllowedNames(s: SectionInfo, n: string)
    ensures (n == "*" || n == "+") ==> !IsAllowedName(s, n)
    ensures s.info.name == "+" ==> (IsAllowedName(s, n) <==> n != "" && n != "*" && n != "+")
    ensures s.info.name == "*" ==> (IsAllowedName(s, n) <==> n == "")
    ensures s.info.name != "*" && s.info.name != "+" ==>
      (IsAllowedName(s, n) <==> n == s.info.name && n != "")
    ensures AllowUnnamed(s) <==> IsAllowedName(s, "")
  {
  }

  /** A repeatable section slot always has a wildcard name and an attribute. */
  lemma RepeatableSlotsAreWildcards(name: string, sectiontype: TypeRef, minOccurs: Option<int>,
                                    maxOccurs: Option<Bound>, handler: Option<Opaque>, attribute: string)
    requires NewSectionInfo(name, sectiontype, minOccurs, maxOccurs, handler, attribute).Ok?
    requires IsMulti(NewSectionInfo(name, sectiontype, minOccurs, maxOccurs, handler, attribute).value.info)
    ensures name == "*" || name == "+"
    ensures attribute != ""
  {
  }

  // ---------------------------------------------------------------------------
  // The type registry

  /** After a type is registered, looking up any case variant of its name
      finds it, and every other lookup is as before. */
  lemma RegisterThenLookup(types: map<string, TypeRef>, t: TypeRef, n: string)
    requires RegisterType(types, t).Ok?
    ensures Lower(n) == Lower(t.Name()) ==> LookupType(RegisterType(types, t).value, n) == Ok(t)
    ensures Lower(n) != Lower(t.Name()) ==> LookupType(RegisterType(types, t).value, n) == LookupType(types, n)
  {
  }

  /** A name that differs only in letter case from a registered one cannot be
      registered again. */
  lemma RedefinitionRefused(types: map<string, TypeRef>, t: TypeRef, u: TypeRef)
    requires RegisterType(types, t).Ok?
    requires Lower(u.Name()) == Lower(t.Name())
    ensures RegisterType(RegisterType(types, t).value, u).Fail?
  {
  }

  /** Lookups ignore letter case. */
  lemma LookupIgnoresCase(types: map<string, TypeRef>, a: string, b: string)
    requires Lower(a) == Lower(b)
    ensures LookupType(types, a).Ok? == LookupType(types, b).Ok?
    ensures LookupType(types, a).Ok? ==> LookupType(types, a).value == LookupType(types, b).value
  {
  }

  /** The registry is one table shared by the schema and every section type
      created under it (`createSectionType` hands each the schema's table):
      once `addtype` has filed a type, `gettype` on any of them finds it, and
      answers every other name as before. */
  lemma RegisteredTypeSeenByEverySectionType(schema: SchemaType, s: SectionType,
                                             before: map<string, TypeRef>, t: TypeRef, n: string)
    requires s.types == schema.root.types
    requires RegisterType(before, t).Ok? && schema.root.types.types == RegisterType(before, t).value
    ensures s.GetType(t.Name()) == Ok(t)
    ensures Lower(n) == Lower(t.Name()) ==> s.GetType(n) == Ok(t)
    ensures Lower(n) != Lower(t.Name()) ==> s.GetType(n) == LookupType(before, n)
  {
    RegisterThenLookup(before, t, t.Name());
    RegisterThenLookup(before, t, n);
  }

  /** `gettypenames` lists exactly the lowercase forms of the names `gettype`
      answers for, in the registry the constructors and `addtype` keep
      valid. */
  lemma TypeNamesAreLookupKeys(st: SectionType, n: string)
    requires st.types.Valid()
    ensures n in st.TypeNames() ==> st.GetType(n) == Ok(st.types.types[n])
    ensures st.GetType(n).Ok? <==> Lower(n) in st.TypeNames()
  {
    if n in st.TypeNames() {
      assert Lower(n) == n;
    }
  }

  // ---------------------------------------------------------------------------
  // Children and their indexes

  /** `getinfo` finds exactly the names `getchildnames` lists. */
  lemma GetInfoAgreesWithChildNames(st: SectionType, key: string)
    requires st.Valid()
    ensures st.GetInfo(key).Ok? <==> key != "" && key in st.ChildNames()
  {
    if key != "" && key in st.ChildNames() {
      var i :| 0 <= i < |st.ChildNames()| && st.ChildNames()[i] == key;
      assert st.children[i].key == key;
    }
  }

  /** A name is indexed at the one position that carries it. */
  lemma KeyIndexUnique(children: seq<Child>, keymap: map<string, nat>, attrmap: map<string, nat>,
                       i: nat, j: nat)
    requires Indexed(children, keymap, attrmap)
    requires i < |children| && j < |children| && children[i].key != ""
    requires children[i].key == children[j].key
    ensures i == j
  {
    assert keymap[children[i].key] == i;
    assert keymap[children[j].key] == j;
  }

  // ---------------------------------------------------------------------------
  // The section search

  /** The search succeeds exactly when some child matches and every child
      before it is skipped. */
  lemma {:induction false} ScanSucceedsIff(cs: seq<Child>, typeName: string, name: string)
    ensures Scan(cs, typeName, name).Ok? <==>
      exists i :: 0 <= i < |cs| && Step(cs[i], typeName, name) == Match &&
        forall j :: 0 <= j < i ==> Step(cs[j], typeName, name) == Skip
  {
    var r := Scan(cs, typeName, name);
    if r.Ok? {
      var i := r.value;
      assert 0 <= i < |cs| && Step(cs[i], typeName, name) == Match;
    } else if cs != [] {
      var first := Step(cs[0], typeName, name);
      if first == Skip {
        ScanSucceedsIff(cs[1..], typeName, name);
        if i :| 0 <= i < |cs| && Step(cs[i], typeName, name) == Match &&
               forall j :: 0 <= j < i ==> Step(cs[j], typeName, name) == Skip {
          assert i > 0;
          assert cs[1..][i - 1] == cs[i];
          forall j | 0 <= j < i - 1 ensures Step(cs[1..][j], typeName, name) == Skip {
            assert cs[1..][j] == cs[j + 1];
          }
          assert false;
        }
      }
    }
  }

  /** Adding a child after the one that matched never changes the outcome. */
  lemma {:induction false} LaterChildrenIgnored(cs: seq<Child>, c: Child, typeName: string, name: string)
    requires Scan(cs, typeName, name).Ok?
    ensures Scan(cs + [c], typeName, name) == Scan(cs, typeName, name)
  {
    assert (cs + [c])[0] == cs[0];
    if Step(cs[0], typeName, name) == Skip {
      assert (cs + [c])[1..] == cs[1..] + [c];
      LaterChildrenIgnored(cs[1..], c, typeName, name);
    }
  }

  /** Exactly when one round of the search moves on: a child added under
      another name, or an unnamed child that is a key or a slot not
      admitting the type. */
  lemma StepSkipsExactly(c: Child, typeName: string, name: string)
    ensures Step(c, typeName, name) == Skip <==>
      (c.key != "" && c.key != name) ||
      (c.key == "" && (c.info.KeyChild? || !Admits(c.info.section, typeName)))
  {
  }

  /** A named slot whose type is the section's type takes the section. */
  lemma NamedSlotOfTypeMatches(c: Child, typeName: string, name: string)
    requires c.key != "" && c.key == name && c.info.SectionChild? && c.info.section.sectiontype.Concrete?
    requires c.info.section.sectiontype.Name() == typeName
    ensures Step(c, typeName, name) == Match
  {
  }

  /** A named group slot takes the section when the group files a subtype
      of that name under its own name. */
  lemma NamedGroupSubtypeMatches(c: Child, typeName: string, name: string)
    requires c.key != "" && c.key == name && c.info.SectionChild? && c.info.section.sectiontype.Group?
    requires typeName in c.info.section.sectiontype.g.subtypes
    requires c.info.section.sectiontype.g.subtypes[typeName].name == typeName
    ensures Step(c, typeName, name) == Match
  {
  }

  /** An unnamed group slot that holds the type (and is not itself named
      like it) takes every instance, named or not: `allowUnnamed` is not
      consulted on this path. */
  lemma UnnamedGroupTakesAnyInstance(c: Child, typeName: string, name: string)
    requires c.key == "" && c.info.SectionChild? && c.info.section.sectiontype.Group?
    requires c.info.section.sectiontype.g.name != typeName
    requires typeName in c.info.section.sectiontype.g.subtypes
    ensures Step(c, typeName, name) == Match
  {
  }

  /** A slot named like the instance wins over every later slot, even an
      unnamed one that would also admit the type. */
  lemma NamedSlotTakesPrecedence(cs: seq<Child>, typeName: string, name: string)
    requires |cs| > 0 && cs[0].key != "" && cs[0].key == name
    requires cs[0].info.SectionChild? && cs[0].info.section.sectiontype.Concrete?
    requires cs[0].info.section.sectiontype.Name() == typeName
    ensures Scan(cs, typeName, name) == Ok(0)
  {
    NamedSlotOfTypeMatches(cs[0], typeName, name);
  }

  /** A child added under the instance's own name always decides: it is
      never skipped. */
  lemma NamedSlotNeverSkipped(c: Child, typeName: string, name: string)
    requires c.key != "" && c.key == name
    ensures Step(c, typeName, name) != Skip
  {
  }

  /** A named group slot that lacks the type refuses the section instead of
      letting the search move on. */
  lemma NamedGroupMissRefused(c: Child, typeName: string, name: string)
    requires c.key != "" && c.key == name && c.info.SectionChild? && c.info.section.sectiontype.Group?
    requires typeName !in c.info.section.sectiontype.g.subtypes
    ensures Step(c, typeName, name).Raise?
    ensures Step(c, typeName, name).error.ConfigurationError?
  {
  }

  /** A named slot of another type refuses the section. */
  lemma NamedTypeMismatchRefused(c: Child, typeName: string, name: string)
    requires c.key != "" && c.key == name && c.info.SectionChild? && c.info.section.sectiontype.Concrete?
    requires c.info.section.sectiontype.Name() != typeName
    ensures Step(c, typeName, name).Raise?
    ensures Step(c, typeName, name).error.ConfigurationError?
  {
  }

  /** An unnamed slot of the section's type takes every named instance. */
  lemma UnnamedSlotTakesNamedInstance(c: Child, typeName: string, name: string)
    requires c.key == "" && c.info.SectionChild? && c.info.section.sectiontype.Name() == typeName
    requires name != ""
    ensures Step(c, typeName, name) == Match
  {
  }

  /** A section named like a key child is refused. */
  lemma KeyNameRefused(c: Child, typeName: string, name: string)
    requires c.key != "" && c.key == name && c.info.KeyChild?
    ensures Step(c, typeName, name).Raise?
    ensures Step(c, typeName, name).error.ConfigurationError?
  {
  }

  /** An unnamed group slot without the type lets the search move on. */
  lemma GroupMissSkipped(c: Child, typeName: string, name: string)
    requires c.key == "" && c.info.SectionChild? && c.info.section.sectiontype.Group?
    requires c.info.section.sectiontype.g.name != typeName
    requires typeName !in c.info.section.sectiontype.g.subtypes
    ensures Step(c, typeName, name) == Skip
  {
  }

  /** An unnamed section of a type is refused by a matching slot unless the
      slot is a `*` slot. */
  lemma UnnamedNeedsStarSlot(c: Child, typeName: string)
    requires c.key == "" && c.info.SectionChild? && c.info.section.sectiontype.Name() == typeName
    ensures Step(c, typeName, "") == Match <==> AllowUnnamed(c.info.section)
    ensures Step(c, typeName, "") != Match ==> Step(c, typeName, "").Raise?
  {
  }

  // ---------------------------------------------------------------------------
  // Required types as the least closed set of names

  /** The names every closed set holds form a closed set themselves, so they
      are the least one. */
  lemma LeastClosedIsClosed(G: map<TypeRef, set<TypeRef>>, root: TypeRef)
    requires ClosedGraph(G) && root in G
    ensures NameClosed(G, root, LeastClosedNames(G, root))
  {
    var L := LeastClosedNames(G, root);
    if root.Name() != "" {
      assert root.Name() in Names(G.Keys);
    }
    forall y | y in G[root] ensures y.Name() in L {
      assert y in G;
      assert y.Name() in Names(G.Keys);
    }
    forall x | x in G && x.Name() in L ensures Covers(G, x, L) {
      forall y | y in G[x] ensures y.Name() in L {
        assert y in G;
        assert y.Name() in Names(G.Keys);
        forall S | NameClosed(G, root, S) ensures y.Name() in S {
          assert x.Name() in S;
        }
      }
    }
  }

  /** A name that is not the root's and that no slot refers to is never
      required. */
  lemma UnreferencedNotRequired(G: map<TypeRef, set<TypeRef>>, root: TypeRef, n: string)
    requires ClosedGraph(G) && root in G
    requires root.Name() != n
    requires forall x, y :: x in G && y in G[x] ==> y.Name() != n
    ensures n !in LeastClosedNames(G, root)
  {
    var S := Names(G.Keys) - {n};
    assert root.Name() in Names(G.Keys);
    forall x | x in G ensures Covers(G, x, S) {
      forall y | y in G[x] ensures y.Name() in S {
        assert y in G;
        assert y.Name() in Names(G.Keys);
      }
    }
    assert NameClosed(G, root, S);
  }
}
