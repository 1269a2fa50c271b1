/**
 What the linter's dotted paths say about the schemas themselves. When names hold
 no separator, the flat comparison is exactly a comparison of the two trees.
 */
module CrdMeaning {
  import opened Options
  import opened CrdLint

  // ---------------------------------------------------------------------------
  // Compatibility of trees
  // ---------------------------------------------------------------------------

  ghost predicate PropertyKept(p: Property, q: Property)
    decreases p.schema, 1
  {
    && p.name == q.name && TypeOf(p.schema) == TypeOf(q.schema)
    && PropertiesKept(p.schema, q.schema)
    && (p.schema.items.Some? ==>
          if q.schema.items.Some? then PropertiesKept(p.schema.items.value, q.schema.items.value)
          else p.schema.items.value.properties == [])
  }

  /** Every property, at every depth and inside array items, is still there with its type. */
  ghost predicate PropertiesKept(prev: Schema, next: Schema)
    decreases prev, 0
  {
    forall i | 0 <= i < |prev.properties| ::
      exists j :: 0 <= j < |next.properties| && PropertyKept(prev.properties[i], next.properties[j])
  }

  ghost predicate HasProperty(s: Schema, name: string) {
    exists i :: 0 <= i < |s.properties| && s.properties[i].name == name
  }

  /** No property that existed became required, outside array items. */
  ghost predicate OptionalKept(prev: Schema, next: Schema)
    decreases prev
  {
    && (forall n | n in next.required && HasProperty(prev, n) :: n in prev.required)
    && forall i, j | 0 <= i < |prev.properties| && 0 <= j < |next.properties| ::
         prev.properties[i].name == next.properties[j].name ==>
           OptionalKept(prev.properties[i].schema, next.properties[j].schema)
  }

  // ---------------------------------------------------------------------------
  // Names and paths
  // ---------------------------------------------------------------------------

  ghost predicate Plain(name: string) {
    name != "" && '.' !in name && '[' !in name
  }

  /** Names are plain, and distinct within one object as they are keys of one mapping. */
  ghost predicate PlainSchema(s: Schema) {
    && (forall n | n in s.required :: Plain(n))
    && (forall i | 0 <= i < |s.properties| :: Plain(s.properties[i].name) && PlainSchema(s.properties[i].schema))
    && (forall i, j | 0 <= i < j < |s.properties| :: s.properties[i].name != s.properties[j].name)
    && (s.items.Some? ==> PlainSchema(s.items.value))
  }

  /** `k` is `path`, or continues it at a separator. */
  ghost predicate Under(k: string, path: string) {
    path <= k && (|path| < |k| ==> k[|path|] == '.' || k[|path|] == '[')
  }

  lemma NamesSplit(prefix: string, m: string, n: string, k: string)
    requires Plain(m) && Plain(n) && Under(k, PathTo(prefix, m)) && Under(k, PathTo(prefix, n))
    ensures m == n
  {
    var at := if prefix == "" then 0 else |prefix| + 1;
    NameAt(prefix, m, k, at);
    NameAt(prefix, n, k, at);
  }

  lemma NameAt(prefix: string, n: string, k: string, at: nat)
    requires Under(k, PathTo(prefix, n)) && at == if prefix == "" then 0 else |prefix| + 1
    ensures at + |n| <= |k| && k[at..at + |n|] == n
    ensures at + |n| < |k| ==> k[at + |n|] == '.' || k[at + |n|] == '['
  {
  }

  lemma {:induction false} KeysUnder(s: Schema, prefix: string, n: nat, k: string) returns (i: nat)
    requires PlainSchema(s) && n <= |s.properties| && k in WalkedUpTo(s, prefix, n)
    ensures i < n && k in Entry(s.properties[i], prefix) && Under(k, PathTo(prefix, s.properties[i].name))
    decreases s, n
  {
    var last := s.properties[n - 1];
    if k in Entry(last, prefix) {
      i := n - 1;
      EntryUnder(last, prefix, k);
    } else {
      i := KeysUnder(s, prefix, n - 1, k);
    }
  }

  lemma {:induction false} ChildKeys(s: Schema, base: string, k: string)
    requires PlainSchema(s) && base != "" && k in Walked(s, base)
    ensures base <= k && |base| < |k| && k[|base|] == '.'
    decreases s, |s.properties| + 1
  {
    var i := KeysUnder(s, base, |s.properties|, k);
    var path := PathTo(base, s.properties[i].name);
    assert base <= path && path[|base|] == '.';
  }

  lemma {:induction false} ItemKeys(s: Schema, path: string, k: string)
    requires PlainSchema(s) && k in Walked(s, ItemsPath(path))
    ensures path <= k && |path| < |k| && k[|path|] == '['
    decreases s, |s.properties| + 2
  {
    ChildKeys(s, ItemsPath(path), k);
    assert ItemsPath(path)[|path|] == '[';
  }

  lemma {:induction false} EntryUnder(p: Property, prefix: string, k: string)
    requires Plain(p.name) && PlainSchema(p.schema) && k in Entry(p, prefix)
    ensures Under(k, PathTo(prefix, p.name))
    decreases p.schema, |p.schema.properties| + 3
  {
    var path := PathTo(prefix, p.name);
    if k in Walked(p.schema, path) {
      ChildKeys(p.schema, path, k);
    } else if k != path {
      ItemKeys(p.schema.items.value, path, k);
    }
  }

  // ---------------------------------------------------------------------------
  // One property at a time
  // ---------------------------------------------------------------------------

  /** Under the path of one property, the whole map says what that property's entry says. */
  lemma {:induction false} Lookup(s: Schema, prefix: string, n: nat, i: nat, k: string)
    requires PlainSchema(s) && i < n <= |s.properties| && Under(k, PathTo(prefix, s.properties[i].name))
    ensures k in WalkedUpTo(s, prefix, n) <==> k in Entry(s.properties[i], prefix)
    ensures k in Entry(s.properties[i], prefix) ==>
              WalkedUpTo(s, prefix, n)[k] == Entry(s.properties[i], prefix)[k]
    decreases n
  {
    var last := s.properties[n - 1];
    if i < n - 1 {
      Lookup(s, prefix, n - 1, i, k);
      if k in Entry(last, prefix) {
        EntryUnder(last, prefix, k);
        NamesSplit(prefix, s.properties[i].name, last.name, k);
        assert false;
      }
    } else if k in WalkedUpTo(s, prefix, n - 1) {
      var j := KeysUnder(s, prefix, n - 1, k);
      NamesSplit(prefix, s.properties[i].name, s.properties[j].name, k);
      assert false;
    }
  }

  lemma EntryHasPath(p: Property, prefix: string)
    requires Plain(p.name) && PlainSchema(p.schema)
    ensures PathTo(prefix, p.name) in Entry(p, prefix)
    ensures Entry(p, prefix)[PathTo(prefix, p.name)] == TypeOf(p.schema)
  {
    var path := PathTo(prefix, p.name);
    if path in Walked(p.schema, path) { ChildKeys(p.schema, path, path); }
    if p.schema.items.Some? && path in Walked(p.schema.items.value, ItemsPath(path)) {
      ItemKeys(p.schema.items.value, path, path);
    }
  }

  lemma EntryBelow(p: Property, prefix: string, k: string)
    requires Plain(p.name) && PlainSchema(p.schema)
    ensures k in Walked(p.schema, PathTo(prefix, p.name)) ==>
              k in Entry(p, prefix) && Entry(p, prefix)[k] == Walked(p.schema, PathTo(prefix, p.name))[k]
  {
    var path := PathTo(prefix, p.name);
    if k in Walked(p.schema, path) {
      ChildKeys(p.schema, path, k);
      if p.schema.items.Some? && k in Walked(p.schema.items.value, ItemsPath(path)) {
        ItemKeys(p.schema.items.value, path, k);
        assert false;
      }
    }
  }

  /** Which part of an entry a key belongs to shows in the character after the path. */
  lemma EntryParts(p: Property, prefix: string, k: string)
    requires Plain(p.name) && PlainSchema(p.schema) && k in Entry(p, prefix)
    ensures var path := PathTo(prefix, p.name);
            path <= k && if k == path then true
                         else if |path| < |k| && k[|path|] == '.' then k in Walked(p.schema, path)
                         else p.schema.items.Some? && k in Walked(p.schema.items.value, ItemsPath(path))
  {
    var path := PathTo(prefix, p.name);
    EntryUnder(p, prefix, k);
    if p.schema.items.Some? && k in Walked(p.schema.items.value, ItemsPath(path)) {
      ItemKeys(p.schema.items.value, path, k);
    }
    if k in Walked(p.schema, path) { ChildKeys(p.schema, path, k); }
  }

  lemma EntryItems(p: Property, prefix: string, k: string)
    requires p.schema.items.Some? && k in Walked(p.schema.items.value, ItemsPath(PathTo(prefix, p.name)))
    ensures k in Entry(p, prefix)
    ensures Entry(p, prefix)[k] == Walked(p.schema.items.value, ItemsPath(PathTo(prefix, p.name)))[k]
  {
  }

  // ---------------------------------------------------------------------------
  // Flat inclusion is tree inclusion
  // ---------------------------------------------------------------------------

  /** A property of `prev` survives flat inclusion as a property of the same name, entry by entry. */
  lemma EntrySurvives(prev: Schema, next: Schema, prefix: string, i: nat) returns (j: nat)
    requires PlainSchema(prev) && PlainSchema(next) && i < |prev.properties|
    requires Included(Walked(prev, prefix), Walked(next, prefix))
    ensures j < |next.properties| && next.properties[j].name == prev.properties[i].name
    ensures Included(Entry(prev.properties[i], prefix), Entry(next.properties[j], prefix))
  {
    var p := prev.properties[i];
    var path := PathTo(prefix, p.name);
    EntryHasPath(p, prefix);
    Lookup(prev, prefix, |prev.properties|, i, path);
    j := KeysUnder(next, prefix, |next.properties|, path);
    NamesSplit(prefix, p.name, next.properties[j].name, path);
    forall k | k in Entry(p, prefix)
      ensures k in Entry(next.properties[j], prefix) && Entry(next.properties[j], prefix)[k] == Entry(p, prefix)[k]
    {
      EntryUnder(p, prefix, k);
      Lookup(prev, prefix, |prev.properties|, i, k);
      Lookup(next, prefix, |next.properties|, j, k);
    }
  }

  lemma EntriesCover(prev: Schema, next: Schema, prefix: string, k: string)
    requires PlainSchema(prev) && PlainSchema(next) && k in Walked(prev, prefix)
    requires forall i | 0 <= i < |prev.properties| ::
               exists j :: 0 <= j < |next.properties| && prev.properties[i].name == next.properties[j].name
                           && Included(Entry(prev.properties[i], prefix), Entry(next.properties[j], prefix))
    ensures k in Walked(next, prefix) && Walked(next, prefix)[k] == Walked(prev, prefix)[k]
  {
    var i := KeysUnder(prev, prefix, |prev.properties|, k);
    Lookup(prev, prefix, |prev.properties|, i, k);
    var j :| 0 <= j < |next.properties| && prev.properties[i].name == next.properties[j].name
      && Included(Entry(prev.properties[i], prefix), Entry(next.properties[j], prefix));
    Lookup(next, prefix, |next.properties|, j, k);
  }

  lemma EntryGives(p: Property, q: Property, prefix: string)
    requires Plain(p.name) && p.name == q.name && PlainSchema(p.schema) && PlainSchema(q.schema)
    requires Included(Entry(p, prefix), Entry(q, prefix))
    ensures TypeOf(p.schema) == TypeOf(q.schema)
    ensures var path := PathTo(prefix, p.name); Included(Walked(p.schema, path), Walked(q.schema, path))
  {
    var path := PathTo(prefix, p.name);
    EntryHasPath(p, prefix);
    EntryHasPath(q, prefix);
    forall k | k in Walked(p.schema, path)
      ensures k in Walked(q.schema, path) && Walked(q.schema, path)[k] == Walked(p.schema, path)[k]
    {
      ChildKeys(p.schema, path, k);
      EntryBelow(p, prefix, k);
      EntryParts(q, prefix, k);
      EntryBelow(q, prefix, k);
    }
  }

  /** The paths of the items of a property. */
  ghost function ItemPaths(p: Property, prefix: string): PathTypes {
    if p.schema.items.Some? then Walked(p.schema.items.value, ItemsPath(PathTo(prefix, p.name))) else map[]
  }

  lemma EntryGivesItems(p: Property, q: Property, prefix: string)
    requires Plain(p.name) && p.name == q.name && PlainSchema(p.schema) && PlainSchema(q.schema)
    requires Included(Entry(p, prefix), Entry(q, prefix))
    ensures Included(ItemPaths(p, prefix), ItemPaths(q, prefix))
  {
    var path := PathTo(prefix, p.name);
    forall k | k in ItemPaths(p, prefix)
      ensures k in ItemPaths(q, prefix) && ItemPaths(q, prefix)[k] == ItemPaths(p, prefix)[k]
    {
      ItemKeys(p.schema.items.value, path, k);
      EntryItems(p, prefix, k);
      EntryParts(q, prefix, k);
      EntryItems(q, prefix, k);
    }
  }

  lemma EntryMade(p: Property, q: Property, prefix: string)
    requires Plain(p.name) && p.name == q.name && PlainSchema(p.schema) && PlainSchema(q.schema)
    requires TypeOf(p.schema) == TypeOf(q.schema)
    requires var path := PathTo(prefix, p.name); Included(Walked(p.schema, path), Walked(q.schema, path))
    requires Included(ItemPaths(p, prefix), ItemPaths(q, prefix))
    ensures Included(Entry(p, prefix), Entry(q, prefix))
  {
    var path := PathTo(prefix, p.name);
    EntryHasPath(p, prefix);
    EntryHasPath(q, prefix);
    forall k | k in Entry(p, prefix) ensures k in Entry(q, prefix) && Entry(q, prefix)[k] == Entry(p, prefix)[k] {
      EntryParts(p, prefix, k);
      EntryBelow(p, prefix, k);
      EntryBelow(q, prefix, k);
      if k in ItemPaths(p, prefix) {
        EntryItems(p, prefix, k);
        EntryItems(q, prefix, k);
      }
    }
  }

  lemma NoPaths(s: Schema, prefix: string)
    requires PlainSchema(s)
    ensures Walked(s, prefix) == map[] <==> s.properties == []
  {
    if s.properties != [] {
      EntryHasPath(s.properties[0], prefix);
      Lookup(s, prefix, |s.properties|, 0, PathTo(prefix, s.properties[0].name));
    }
  }

  lemma {:induction false} EntryIncludedIffKept(p: Property, q: Property, prefix: string)
    requires Plain(p.name) && p.name == q.name && PlainSchema(p.schema) && PlainSchema(q.schema)
    ensures Included(Entry(p, prefix), Entry(q, prefix)) <==> PropertyKept(p, q)
    decreases p.schema, 1
  {
    var path := PathTo(prefix, p.name);
    IncludedIffKept(p.schema, q.schema, path);
    if p.schema.items.Some? {
      NoPaths(p.schema.items.value, ItemsPath(path));
      if q.schema.items.Some? { IncludedIffKept(p.schema.items.value, q.schema.items.value, ItemsPath(path)); }
    }
    if Included(Entry(p, prefix), Entry(q, prefix)) {
      EntryGives(p, q, prefix);
      EntryGivesItems(p, q, prefix);
      assert ItemPaths(q, prefix) == map[] ==> ItemPaths(p, prefix) == map[];
    }
    if PropertyKept(p, q) { EntryMade(p, q, prefix); }
  }

  /** For plain names, comparing flattened paths compares the trees, at any depth. */
  lemma {:induction false} IncludedIffKept(prev: Schema, next: Schema, prefix: string)
    requires PlainSchema(prev) && PlainSchema(next)
    ensures Included(Walked(prev, prefix), Walked(next, prefix)) <==> PropertiesKept(prev, next)
    decreases prev, 0
  {
    forall i, j | 0 <= i < |prev.properties| && 0 <= j < |next.properties|
      && prev.properties[i].name == next.properties[j].name
    {
      EntryIncludedIffKept(prev.properties[i], next.properties[j], prefix);
    }
    if Included(Walked(prev, prefix), Walked(next, prefix)) {
      forall i | 0 <= i < |prev.properties|
        ensures exists j :: 0 <= j < |next.properties| && PropertyKept(prev.properties[i], next.properties[j])
      {
        var j := EntrySurvives(prev, next, prefix, i);
      }
    }
    if PropertiesKept(prev, next) {
      forall i | 0 <= i < |prev.properties|
        ensures exists j :: 0 <= j < |next.properties| && prev.properties[i].name == next.properties[j].name
                            && Included(Entry(prev.properties[i], prefix), Entry(next.properties[j], prefix))
      {
        var j :| 0 <= j < |next.properties| && PropertyKept(prev.properties[i], next.properties[j]);
      }
      forall k | k in Walked(prev, prefix)
        ensures k in Walked(next, prefix) && Walked(next, prefix)[k] == Walked(prev, prefix)[k]
      {
        EntriesCover(prev, next, prefix, k);
      }
    }
  }

  // ---------------------------------------------------------------------------
  // Newly required paths are newly required fields
  // ---------------------------------------------------------------------------

  /** `k` lies strictly below `path`, inside the object there. */
  ghost predicate Inside(k: string, path: string) {
    path <= k && |path| < |k| && k[|path|] == '.'
  }

  lemma {:induction false} RequiredKeys(s: Schema, prefix: string, n: nat, k: string)
    requires n <= |s.properties| && k in RequiredUpTo(s, prefix, n)
    ensures k in RequiredHere(s.required, prefix) || exists i :: 0 <= i < n && k in RequiredOf(s.properties[i], prefix)
    decreases n
  {
    if n > 0 && k !in RequiredOf(s.properties[n - 1], prefix) { RequiredKeys(s, prefix, n - 1, k); }
  }

  lemma {:induction false} RequiredHas(s: Schema, prefix: string, n: nat)
    requires n <= |s.properties|
    ensures RequiredHere(s.required, prefix) <= RequiredUpTo(s, prefix, n)
    ensures forall i | 0 <= i < n :: RequiredOf(s.properties[i], prefix) <= RequiredUpTo(s, prefix, n)
    decreases n
  {
    if n > 0 { RequiredHas(s, prefix, n - 1); }
  }

  lemma {:induction false} RequiredBelow(s: Schema, base: string, k: string)
    requires PlainSchema(s) && base != "" && k in Required(s, base)
    ensures Inside(k, base)
    decreases s
  {
    RequiredKeys(s, base, |s.properties|, k);
    if k in RequiredHere(s.required, base) {
      var m :| m in s.required && k == PathTo(base, m);
    } else {
      var i :| 0 <= i < |s.properties| && k in RequiredOf(s.properties[i], base);
      var path := PathTo(base, s.properties[i].name);
      RequiredBelow(s.properties[i].schema, path, k);
      assert base <= path && path[|base|] == '.';
    }
  }

  /** A path one name long is required exactly when the name is. */
  lemma RequiredAt(s: Schema, prefix: string, m: string)
    requires PlainSchema(s) && Plain(m)
    ensures PathTo(prefix, m) in Required(s, prefix) <==> m in s.required
  {
    var k := PathTo(prefix, m);
    RequiredHas(s, prefix, |s.properties|);
    if m in s.required { assert k in RequiredHere(s.required, prefix); }
    if k in Required(s, prefix) {
      RequiredKeys(s, prefix, |s.properties|, k);
      if k in RequiredHere(s.required, prefix) {
        var m' :| m' in s.required && k == PathTo(prefix, m');
        NamesSplit(prefix, m, m', k);
      } else {
        var i :| 0 <= i < |s.properties| && k in RequiredOf(s.properties[i], prefix);
        RequiredBelow(s.properties[i].schema, PathTo(prefix, s.properties[i].name), k);
        NamesSplit(prefix, m, s.properties[i].name, k);
        assert false;
      }
    }
  }

  lemma InsideIsNotHere(s: Schema, prefix: string, i: nat, k: string)
    requires PlainSchema(s) && i < |s.properties| && Inside(k, PathTo(prefix, s.properties[i].name))
    ensures k !in RequiredHere(s.required, prefix)
  {
    if k in RequiredHere(s.required, prefix) {
      var m :| m in s.required && k == PathTo(prefix, m);
      NamesSplit(prefix, m, s.properties[i].name, k);
      assert false;
    }
  }

  /** Inside one property, what is required is what that property requires. */
  lemma RequiredInside(s: Schema, prefix: string, i: nat, k: string)
    requires PlainSchema(s) && i < |s.properties| && Inside(k, PathTo(prefix, s.properties[i].name))
    ensures k in Required(s, prefix) <==> k in RequiredOf(s.properties[i], prefix)
  {
    RequiredHas(s, prefix, |s.properties|);
    if k in Required(s, prefix) {
      RequiredKeys(s, prefix, |s.properties|, k);
      InsideIsNotHere(s, prefix, i, k);
      var j :| 0 <= j < |s.properties| && k in RequiredOf(s.properties[j], prefix);
      RequiredBelow(s.properties[j].schema, PathTo(prefix, s.properties[j].name), k);
      NamesSplit(prefix, s.properties[j].name, s.properties[i].name, k);
    }
  }

  lemma WalkedAt(s: Schema, prefix: string, m: string)
    requires PlainSchema(s) && Plain(m)
    ensures PathTo(prefix, m) in Walked(s, prefix) <==> HasProperty(s, m)
  {
    var k := PathTo(prefix, m);
    if k in Walked(s, prefix) {
      var i := KeysUnder(s, prefix, |s.properties|, k);
      NamesSplit(prefix, m, s.properties[i].name, k);
    }
    if HasProperty(s, m) {
      var i :| 0 <= i < |s.properties| && s.properties[i].name == m;
      EntryHasPath(s.properties[i], prefix);
      Lookup(s, prefix, |s.properties|, i, k);
    }
  }

  lemma WalkedInside(s: Schema, prefix: string, i: nat, k: string)
    requires PlainSchema(s) && i < |s.properties| && Inside(k, PathTo(prefix, s.properties[i].name))
    ensures k in Walked(s, prefix) <==> k in Walked(s.properties[i].schema, PathTo(prefix, s.properties[i].name))
  {
    Lookup(s, prefix, |s.properties|, i, k);
    EntryBelow(s.properties[i], prefix, k);
    if k in Entry(s.properties[i], prefix) { EntryParts(s.properties[i], prefix, k); }
  }

  ghost predicate NoneNewlyRequired(prev: Schema, next: Schema, prefix: string) {
    forall k | k in Required(next, prefix) && k in Walked(prev, prefix) :: k in Required(prev, prefix)
  }

  /** The fields one level down are compared on their own. */
  lemma NewlyRequiredInside(prev: Schema, next: Schema, prefix: string, i: nat, j: nat)
    requires PlainSchema(prev) && PlainSchema(next) && i < |prev.properties| && j < |next.properties|
    requires prev.properties[i].name == next.properties[j].name && NoneNewlyRequired(prev, next, prefix)
    ensures NoneNewlyRequired(prev.properties[i].schema, next.properties[j].schema,
                              PathTo(prefix, prev.properties[i].name))
  {
    var path := PathTo(prefix, prev.properties[i].name);
    forall k | k in Required(next.properties[j].schema, path) && k in Walked(prev.properties[i].schema, path)
      ensures k in Required(prev.properties[i].schema, path)
    {
      RequiredBelow(next.properties[j].schema, path, k);
      RequiredInside(next, prefix, j, k);
      RequiredInside(prev, prefix, i, k);
      WalkedInside(prev, prefix, i, k);
    }
  }

  lemma RequiredFromParts(prev: Schema, next: Schema, prefix: string, k: string)
    requires PlainSchema(prev) && PlainSchema(next) && k in Required(next, prefix) && k in Walked(prev, prefix)
    requires forall n | n in next.required && HasProperty(prev, n) :: n in prev.required
    requires forall i, j | 0 <= i < |prev.properties| && 0 <= j < |next.properties| ::
               prev.properties[i].name == next.properties[j].name ==>
                 NoneNewlyRequired(prev.properties[i].schema, next.properties[j].schema,
                                   PathTo(prefix, prev.properties[i].name))
    ensures k in Required(prev, prefix)
  {
    RequiredKeys(next, prefix, |next.properties|, k);
    if k in RequiredHere(next.required, prefix) {
      var m :| m in next.required && k == PathTo(prefix, m);
      WalkedAt(prev, prefix, m);
      RequiredAt(prev, prefix, m);
    } else {
      var j :| 0 <= j < |next.properties| && k in RequiredOf(next.properties[j], prefix);
      RequiredBelow(next.properties[j].schema, PathTo(prefix, next.properties[j].name), k);
      var i := KeysUnder(prev, prefix, |prev.properties|, k);
      NamesSplit(prefix, prev.properties[i].name, next.properties[j].name, k);
      WalkedInside(prev, prefix, i, k);
      RequiredInside(prev, prefix, i, k);
    }
  }

  lemma {:induction false} NewlyRequiredIff(prev: Schema, next: Schema, prefix: string)
    requires PlainSchema(prev) && PlainSchema(next)
    ensures NoneNewlyRequired(prev, next, prefix) <==> OptionalKept(prev, next)
    decreases prev
  {
    forall i, j | 0 <= i < |prev.properties| && 0 <= j < |next.properties|
      && prev.properties[i].name == next.properties[j].name
    {
      NewlyRequiredIff(prev.properties[i].schema, next.properties[j].schema, PathTo(prefix, prev.properties[i].name));
    }
    if NoneNewlyRequired(prev, next, prefix) {
      forall n | n in next.required && HasProperty(prev, n) ensures n in prev.required {
        WalkedAt(prev, prefix, n);
        RequiredAt(next, prefix, n);
        RequiredAt(prev, prefix, n);
      }
      forall i, j | 0 <= i < |prev.properties| && 0 <= j < |next.properties|
        && prev.properties[i].name == next.properties[j].name
      {
        NewlyRequiredInside(prev, next, prefix, i, j);
      }
    }
    if OptionalKept(prev, next) {
      forall k | k in Required(next, prefix) && k in Walked(prev, prefix) ensures k in Required(prev, prefix) {
        RequiredFromParts(prev, next, prefix, k);
      }
    }
  }

  /**
   For plain names, an empty report means exactly that every property is kept with
   its type, inside array items too, and that no existing field became required
   outside array items.
   */
  lemma CompatibleMeansTreesCompatible(prev: Schema, next: Schema)
    requires PlainSchema(prev) && PlainSchema(next)
    ensures Compatible(prev, next) <==> PropertiesKept(prev, next) && OptionalKept(prev, next)
  {
    IncludedIffKept(prev, next, "");
    NewlyRequiredIff(prev, next, "");
    assert Compatible(prev, next) <==>
             Included(Walked(prev, ""), Walked(next, "")) && NoneNewlyRequired(prev, next, "");
  }

  // ---------------------------------------------------------------------------
  // Where the report and the trees part
  // ---------------------------------------------------------------------------

  function Leaf(t: string): Schema {
    Schema(Some(t), [], [], None)
  }

  /** The array property `name` with the given item schema. */
  function ArrayOf(name: string, item: Schema): Schema {
    Schema(None, [], [Property(name, Schema(Some("array"), [], [], Some(item)))], None)
  }

  /** Whatever array items newly require, and whatever type they change to, is not reported. */
  lemma ItemChangesUnreported(name: string, item: Schema, required: seq<string>, t: Option<string>)
    ensures Compatible(ArrayOf(name, item), ArrayOf(name, item.(required := required, declaredType := t)))
  {
    var item' := item.(required := required, declaredType := t);
    ItemsWalkAlike(item, item', ItemsPath(name), |item.properties|);
    var a, b := ArrayOf(name, item), ArrayOf(name, item');
    var pa, pb := a.properties[0], b.properties[0];
    assert PathTo("", name) == name;
    assert WalkedUpTo(pa.schema, name, 0) == WalkedUpTo(pb.schema, name, 0) == map[];
    assert Entry(pa, "") == Entry(pb, "");
    assert WalkedUpTo(a, "", 0) == WalkedUpTo(b, "", 0) == map[];
    assert WalkedUpTo(a, "", 1) == WalkedUpTo(b, "", 1);
    assert RequiredUpTo(b, "", 0) == {} && RequiredOf(pb, "") == RequiredUpTo(pb.schema, name, 0) == {};
    assert RequiredUpTo(b, "", 1) == {};
  }

  /** A dotted name is mistaken for a nested one: the report is empty although the property is gone. */
  lemma DottedNamesConfused(x: string, y: string, t: string)
    requires Plain(x) && Plain(y)
    ensures var prev := Schema(None, [], [Property(PathTo(x, y), Leaf(t))], None);
            var next := Schema(None, [], [Property(x, Schema(None, [], [Property(y, Leaf(t))], None))], None);
            Compatible(prev, next) && !PropertiesKept(prev, next)
  {
    var prev := Schema(None, [], [Property(PathTo(x, y), Leaf(t))], None);
    var inner := Schema(None, [], [Property(y, Leaf(t))], None);
    var next := Schema(None, [], [Property(x, inner)], None);
    LeafEntry(PathTo(x, y), t, "");
    LeafEntry(y, t, x);
    assert WalkedUpTo(prev, "", 0) == WalkedUpTo(inner, x, 0) == WalkedUpTo(next, "", 0) == map[];
    assert WalkedUpTo(prev, "", 1) == map[PathTo(x, y) := t];
    assert WalkedUpTo(inner, x, 1) == map[PathTo(x, y) := t];
    assert PathTo(x, y) in Entry(next.properties[0], "");
    assert RequiredUpTo(inner, x, 1) == {} by { assert RequiredUpTo(inner, x, 0) == {}; }
    assert RequiredUpTo(next, "", 1) == {} by { assert RequiredUpTo(next, "", 0) == {}; }
    assert |PathTo(x, y)| > |x|;
    assert !PropertyKept(prev.properties[0], next.properties[0]);
  }

  lemma LeafEntry(name: string, t: string, prefix: string)
    ensures Entry(Property(name, Leaf(t)), prefix) == map[PathTo(prefix, name) := t]
    ensures RequiredOf(Property(name, Leaf(t)), prefix) == {}
  {
  }

  lemma {:induction false} ItemsWalkAlike(s: Schema, s': Schema, prefix: string, n: nat)
    requires s.properties == s'.properties && n <= |s.properties|
    ensures WalkedUpTo(s, prefix, n) == WalkedUpTo(s', prefix, n)
    decreases n
  {
    if n > 0 { ItemsWalkAlike(s, s', prefix, n - 1); }
  }
}
