/** The permission register: its name and alias index, the default-deny clearance
    check, and the scan of a text for names that are not cleared. */
module Register {
  import opened Common

  /** Python's str.strip and str.lower; nothing here depends on what they do. */
  datatype Py = Py(strip: string -> string, lower: string -> string)

  datatype Entry = Entry(name: string, aliases: seq<string>, status: string)

  /** The dictionary from lower-cased names and aliases to entries, with its key order. */
  datatype Index = Index(keys: seq<string>, entries: map<string, Entry>) {
    predicate Has(key: string) { key in entries }

    function Get(key: string): Option<Entry> { if key in entries then Some(entries[key]) else None }

    ghost predicate Keyed() { forall k :: k in keys <==> k in entries }
  }

  function Put(ix: Index, key: string, e: Entry): Index {
    Index(if key in ix.entries then ix.keys else ix.keys + [key], ix.entries[key := e])
  }

  /** The key of a name or alias. */
  function KeyOf(py: Py, name: string): string { py.lower(py.strip(name)) }

  function WithAliases(py: Py, ix: Index, e: Entry, aliases: seq<string>): Index {
    if aliases == [] then ix
    else
      var before := WithAliases(py, ix, e, aliases[..|aliases| - 1]);
      var alias := aliases[|aliases| - 1];
      var key := KeyOf(py, alias);
      if py.strip(alias) == "" || before.Has(key) then before else Put(before, key, e)
  }

  function WithEntry(py: Py, ix: Index, e: Entry): Index {
    if py.strip(e.name) == "" then ix
    else WithAliases(py, Put(ix, KeyOf(py, e.name), e), e, e.aliases)
  }

  function Load(py: Py, clients: seq<Entry>): Index {
    if clients == [] then Index([], map[])
    else WithEntry(py, Load(py, clients[..|clients| - 1]), clients[|clients| - 1])
  }

  /** _load_register, for the mappings in the document's client list. */
  method LoadRegister(py: Py, clients: seq<Entry>) returns (ix: Index)
    ensures ix == Load(py, clients)
  {
    ix := Index([], map[]);
    for i := 0 to |clients|
      invariant ix == Load(py, clients[..i])
    {
      var e := clients[i];
      assert clients[..i + 1][..i] == clients[..i];
      if py.strip(e.name) != "" {
        ix := Put(ix, KeyOf(py, e.name), e);
        ghost var named := ix;
        for j := 0 to |e.aliases|
          invariant ix == WithAliases(py, named, e, e.aliases[..j])
        {
          assert e.aliases[..j + 1][..j] == e.aliases[..j];
          var key := KeyOf(py, e.aliases[j]);
          if py.strip(e.aliases[j]) != "" && !ix.Has(key) { ix := Put(ix, key, e); }
        }
        assert e.aliases[..|e.aliases|] == e.aliases;
      }
    }
    assert clients[..|clients|] == clients;
  }

  // -- What the index maps a key to ---------------------------------------------------------

  /** This entry is registered under this canonical name. */
  predicate Named(py: Py, e: Entry, key: string) {
    py.strip(e.name) != "" && KeyOf(py, e.name) == key
  }

  /** This entry is registered and has this alias. */
  predicate Aliased(py: Py, e: Entry, key: string) {
    py.strip(e.name) != "" && exists i | 0 <= i < |e.aliases| :: py.strip(e.aliases[i]) != "" && KeyOf(py, e.aliases[i]) == key
  }

  /** The last client with this canonical name. */
  function LastNamed(py: Py, clients: seq<Entry>, key: string): Option<Entry> {
    if clients == [] then None
    else if Named(py, clients[|clients| - 1], key) then Some(clients[|clients| - 1])
    else LastNamed(py, clients[..|clients| - 1], key)
  }

  /** The first client with this alias. */
  function FirstAliased(py: Py, clients: seq<Entry>, key: string): Option<Entry> {
    if clients == [] then None
    else if Aliased(py, clients[0], key) then Some(clients[0])
    else FirstAliased(py, clients[1..], key)
  }

  /** The entry that decides about a key: canonical names go before aliases. */
  function Governor(py: Py, clients: seq<Entry>, key: string): Option<Entry> {
    var named := LastNamed(py, clients, key);
    if named.Some? then named else FirstAliased(py, clients, key)
  }

  lemma {:induction false} FirstAliasedAppend(py: Py, clients: seq<Entry>, e: Entry, key: string)
    ensures FirstAliased(py, clients + [e], key) ==
              if FirstAliased(py, clients, key).Some? then FirstAliased(py, clients, key)
              else if Aliased(py, e, key) then Some(e) else None
  {
    if clients == [] {
      assert (clients + [e])[1..] == [];
    } else {
      assert (clients + [e])[1..] == clients[1..] + [e];
      FirstAliasedAppend(py, clients[1..], e, key);
    }
  }

  lemma {:induction false} AliasesAdd(py: Py, ix: Index, e: Entry, aliases: seq<string>, key: string)
    ensures var after := WithAliases(py, ix, e, aliases);
            && (ix.Has(key) ==> after.Has(key) && after.entries[key] == ix.entries[key])
            && (!ix.Has(key) ==>
                  && (after.Has(key) <==>
                        exists i | 0 <= i < |aliases| :: py.strip(aliases[i]) != "" && KeyOf(py, aliases[i]) == key)
                  && (after.Has(key) ==> after.entries[key] == e))
    decreases |aliases|
  {
    if aliases != [] {
      var init, last := aliases[..|aliases| - 1], |aliases| - 1;
      AliasesAdd(py, ix, e, init, key);
      assert forall i | 0 <= i < last :: init[i] == aliases[i];
      if py.strip(aliases[last]) != "" && KeyOf(py, aliases[last]) == key {
        assert exists i | 0 <= i < |aliases| :: py.strip(aliases[i]) != "" && KeyOf(py, aliases[i]) == key;
      }
    }
  }

  lemma EntryAdds(py: Py, ix: Index, e: Entry, key: string)
    ensures var after := WithEntry(py, ix, e);
            if Named(py, e, key) then after.Has(key) && after.entries[key] == e
            else if ix.Has(key) then after.Has(key) && after.entries[key] == ix.entries[key]
            else (after.Has(key) <==> Aliased(py, e, key)) && (after.Has(key) ==> after.entries[key] == e)
  {
    if py.strip(e.name) != "" {
      AliasesAdd(py, Put(ix, KeyOf(py, e.name), e), e, e.aliases, key);
    }
  }

  /** After loading, a key maps to the last client with that canonical name, else to
      the first with that alias, and is absent when there is neither. */
  lemma {:induction false} IndexMeaning(py: Py, clients: seq<Entry>, key: string)
    ensures Load(py, clients).Get(key) == Governor(py, clients, key)
    decreases |clients|
  {
    if clients != [] {
      var init, e := clients[..|clients| - 1], clients[|clients| - 1];
      assert clients == init + [e];
      IndexMeaning(py, init, key);
      EntryAdds(py, Load(py, init), e, key);
      FirstAliasedAppend(py, init, e, key);
    }
  }

  // -- The same, by the entries' own names and aliases ----------------------------------------

  /** Client i is registered under this canonical name. */
  ghost predicate NamedAt(py: Py, clients: seq<Entry>, i: nat, key: string) {
    i < |clients| && py.strip(clients[i].name) != "" && py.lower(py.strip(clients[i].name)) == key
  }

  /** Client i is registered and has this alias. */
  ghost predicate AliasedAt(py: Py, clients: seq<Entry>, i: nat, key: string) {
    && i < |clients| && py.strip(clients[i].name) != ""
    && exists a :: a in clients[i].aliases && py.strip(a) != "" && py.lower(py.strip(a)) == key
  }

  /** Client i decides about this key: the last with that canonical name, or, when there
      is none, the first with that alias. */
  ghost predicate Governs(py: Py, clients: seq<Entry>, i: nat, key: string) {
    || (NamedAt(py, clients, i, key) && forall j: nat | j > i :: !NamedAt(py, clients, j, key))
    || (AliasedAt(py, clients, i, key) && (forall j: nat :: !NamedAt(py, clients, j, key))
        && forall j: nat | j < i :: !AliasedAt(py, clients, j, key))
  }

  lemma AliasedIs(py: Py, clients: seq<Entry>, i: nat, key: string)
    requires i < |clients|
    ensures Aliased(py, clients[i], key) <==> AliasedAt(py, clients, i, key)
  {
    if Aliased(py, clients[i], key) {
      var j :| 0 <= j < |clients[i].aliases| && py.strip(clients[i].aliases[j]) != "" && KeyOf(py, clients[i].aliases[j]) == key;
      assert clients[i].aliases[j] in clients[i].aliases;
    }
    if AliasedAt(py, clients, i, key) {
      var a :| a in clients[i].aliases && py.strip(a) != "" && py.lower(py.strip(a)) == key;
      var j :| 0 <= j < |clients[i].aliases| && clients[i].aliases[j] == a;
      assert KeyOf(py, clients[i].aliases[j]) == key;
    }
  }

  lemma {:induction false} LastNamedIs(py: Py, clients: seq<Entry>, key: string) returns (i: nat)
    ensures var named := LastNamed(py, clients, key);
            && (named.None? ==> forall j: nat :: !NamedAt(py, clients, j, key))
            && (named.Some? ==> NamedAt(py, clients, i, key) && clients[i] == named.value
                                && forall j: nat | j > i :: !NamedAt(py, clients, j, key))
    decreases |clients|
  {
    i := 0;
    if clients != [] {
      var init, last := clients[..|clients| - 1], |clients| - 1;
      var before := LastNamedIs(py, init, key);
      i := if Named(py, clients[last], key) then last else before;
      assert forall j: nat | j < last :: NamedAt(py, init, j, key) <==> NamedAt(py, clients, j, key);
      forall j: nat | NamedAt(py, clients, j, key) && !Named(py, clients[last], key) ensures NamedAt(py, init, j, key) {
        assert j != last;
      }
    }
  }

  lemma {:induction false} FirstAliasedIs(py: Py, clients: seq<Entry>, key: string, from: nat) returns (i: nat)
    requires from <= |clients|
    ensures var aliased := FirstAliased(py, clients[from..], key);
            && (aliased.None? ==> forall j: nat | j >= from :: !AliasedAt(py, clients, j, key))
            && (aliased.Some? ==> from <= i && AliasedAt(py, clients, i, key) && clients[i] == aliased.value
                                  && forall j: nat | from <= j < i :: !AliasedAt(py, clients, j, key))
    decreases |clients| - from
  {
    i := from;
    if from < |clients| {
      AliasedIs(py, clients, from, key);
      assert clients[from..][1..] == clients[from + 1..];
      if !Aliased(py, clients[from], key) { i := FirstAliasedIs(py, clients, key, from + 1); }
    }
  }

  /** After loading, a key maps to the entry of the client that governs it, and to nothing
      exactly when no client does. */
  lemma IndexIsGoverned(py: Py, clients: seq<Entry>, key: string)
    ensures Load(py, clients).Get(key).None? <==> forall i: nat :: !Governs(py, clients, i, key)
    ensures forall i: nat | Governs(py, clients, i, key) :: Load(py, clients).Get(key) == Some(clients[i])
  {
    IndexMeaning(py, clients, key);
    assert clients[0..] == clients;
    var named := LastNamedIs(py, clients, key);
    var aliased := FirstAliasedIs(py, clients, key, 0);
    if LastNamed(py, clients, key).Some? {
      assert Governs(py, clients, named, key);
    } else if FirstAliased(py, clients, key).Some? {
      assert Governs(py, clients, aliased, key);
    }
    forall i: nat | Governs(py, clients, i, key) ensures Governor(py, clients, key) == Some(clients[i]) {
      if NamedAt(py, clients, i, key) {
        assert !(i < named) && !(named < i);
      } else {
        assert !(i < aliased) && !(aliased < i);
      }
    }
  }

  // -- Clearance ------------------------------------------------------------------------------

  datatype Clearance = Clearance(name: string, allowed: bool, status: string)

  /** check_clearance; the reason text is not modelled. */
  function CheckClearance(py: Py, ix: Index, client: string): Clearance {
    var name := py.strip(client);
    if name == "" || !ix.Has(py.lower(name)) then Clearance(name, false, "ABSENT")
    else
      var status := py.strip(ix.entries[py.lower(name)].status);
      if status == "CLEARED" then Clearance(name, true, "CLEARED")
      else Clearance(name, false, if status == "" then "UNCLEARED" else status)
  }

  /** Default deny: a name may be used exactly when some client governs it and that entry
      says CLEARED.  The answer carries the trimmed name; its status is that of the entry,
      UNCLEARED when that is blank, and ABSENT when no client governs a name. */
  lemma AllowedIffCleared(py: Py, clients: seq<Entry>, client: string)
    ensures var c := CheckClearance(py, Load(py, clients), client);
            var name := py.strip(client);
            var key := py.lower(name);
            && c.name == name
            && (c.allowed <==>
                  name != "" && exists i: nat :: Governs(py, clients, i, key) && py.strip(clients[i].status) == "CLEARED")
            && (c.allowed ==> c.status == "CLEARED")
            && (name == "" || (forall i: nat :: !Governs(py, clients, i, key)) ==> c.status == "ABSENT")
            && forall i: nat | name != "" && Governs(py, clients, i, key) ::
                 c.status == if py.strip(clients[i].status) == "" then "UNCLEARED" else py.strip(clients[i].status)
  {
    IndexIsGoverned(py, clients, py.lower(py.strip(client)));
  }

  // -- The text scan ----------------------------------------------------------------------------

  function InsertByLength(name: string, names: seq<string>): seq<string> {
    if names == [] || |name| >= |names[0]| then [name] + names
    else [names[0]] + InsertByLength(name, names[1..])
  }

  /** sorted(keys, key=len, reverse=True), stable. */
  function LongestFirst(keys: seq<string>): seq<string> {
    if keys == [] then [] else InsertByLength(keys[0], LongestFirst(keys[1..]))
  }

  lemma {:induction false} InsertByLengthKeeps(name: string, names: seq<string>, k: string)
    ensures k in InsertByLength(name, names) <==> k == name || k in names
  {
    if names != [] && |name| < |names[0]| {
      InsertByLengthKeeps(name, names[1..], k);
      assert k in names <==> k == names[0] || k in names[1..];
    }
  }

  lemma {:induction false} LongestFirstKeeps(keys: seq<string>, k: string)
    ensures k in LongestFirst(keys) <==> k in keys
  {
    if keys != [] {
      LongestFirstKeeps(keys[1..], k);
      InsertByLengthKeeps(keys[0], LongestFirst(keys[1..]), k);
      assert k in keys <==> k == keys[0] || k in keys[1..];
    }
  }

  ghost predicate LengthsDescend(names: seq<string>) {
    forall i, j | 0 <= i < j < |names| :: |names[i]| >= |names[j]|
  }

  lemma {:induction false} InsertByLengthOrders(name: string, names: seq<string>)
    requires LengthsDescend(names)
    ensures LengthsDescend(InsertByLength(name, names))
  {
    if names != [] && |name| < |names[0]| {
      InsertByLengthOrders(name, names[1..]);
      var rest := InsertByLength(name, names[1..]);
      forall i | 0 <= i < |rest| ensures |rest[i]| <= |names[0]| {
        InsertByLengthKeeps(name, names[1..], rest[i]);
        assert rest[i] in rest;
      }
    }
  }

  lemma {:induction false} LongestFirstOrders(keys: seq<string>)
    ensures LengthsDescend(LongestFirst(keys))
  {
    if keys != [] {
      LongestFirstOrders(keys[1..]);
      InsertByLengthOrders(keys[0], LongestFirst(keys[1..]));
    }
  }

  /** The names of one length, in order. */
  function OfLength(n: nat, names: seq<string>): seq<string> {
    if names == [] then []
    else if |names[0]| == n then [names[0]] + OfLength(n, names[1..])
    else OfLength(n, names[1..])
  }

  lemma {:induction false} InsertByLengthIsStable(name: string, names: seq<string>, n: nat)
    ensures OfLength(n, InsertByLength(name, names)) == OfLength(n, [name] + names)
  {
    assert ([name] + names)[1..] == names;
    if names != [] && |name| < |names[0]| {
      var rest := InsertByLength(name, names[1..]);
      InsertByLengthIsStable(name, names[1..], n);
      assert ([names[0]] + rest)[1..] == rest;
      assert ([name] + names[1..])[1..] == names[1..];
    }
  }

  /** Names of one length stay in the order of the index. */
  lemma {:induction false} LongestFirstIsStable(keys: seq<string>, n: nat)
    ensures OfLength(n, LongestFirst(keys)) == OfLength(n, keys)
  {
    if keys != [] {
      LongestFirstIsStable(keys[1..], n);
      var tail := LongestFirst(keys[1..]);
      InsertByLengthIsStable(keys[0], tail, n);
      assert ([keys[0]] + tail)[1..] == tail;
    }
  }

  lemma PutKeyed(ix: Index, key: string, e: Entry)
    requires ix.Keyed()
    ensures Put(ix, key, e).Keyed()
  {
  }

  lemma {:induction false} AliasKeys(py: Py, ix: Index, e: Entry, aliases: seq<string>)
    requires ix.Keyed()
    ensures WithAliases(py, ix, e, aliases).Keyed()
    decreases |aliases|
  {
    if aliases != [] {
      var before := WithAliases(py, ix, e, aliases[..|aliases| - 1]);
      AliasKeys(py, ix, e, aliases[..|aliases| - 1]);
      PutKeyed(before, KeyOf(py, aliases[|aliases| - 1]), e);
    }
  }

  /** The listed keys of a loaded register are its keys. */
  lemma {:induction false} LoadKeys(py: Py, clients: seq<Entry>)
    ensures Load(py, clients).Keyed()
    decreases |clients|
  {
    if clients != [] {
      LoadKeys(py, clients[..|clients| - 1]);
      var e := clients[|clients| - 1];
      var ix := Load(py, clients[..|clients| - 1]);
      PutKeyed(ix, KeyOf(py, e.name), e);
      AliasKeys(py, Put(ix, KeyOf(py, e.name), e), e, e.aliases);
    }
  }

  lemma {:induction false} AliasesGrow(py: Py, ix: Index, e: Entry, aliases: seq<string>)
    ensures ix.keys <= WithAliases(py, ix, e, aliases).keys
    decreases |aliases|
  {
    if aliases != [] { AliasesGrow(py, ix, e, aliases[..|aliases| - 1]); }
  }

  /** A key keeps the place it got when it first appeared. */
  lemma KeysGrow(py: Py, clients: seq<Entry>)
    requires clients != []
    ensures Load(py, clients[..|clients| - 1]).keys <= Load(py, clients).keys
  {
    var e, ix := clients[|clients| - 1], Load(py, clients[..|clients| - 1]);
    AliasesGrow(py, Put(ix, KeyOf(py, e.name), e), e, e.aliases);
  }

  /** The name an entry goes by in a report. */
  function Canonical(ix: Index, key: string): string
    requires ix.Has(key)
  {
    ix.entries[key].name
  }

  /** A registered key whose entry bears this name occurs in the text. */
  ghost predicate Occurs(ix: Index, found: string -> bool, name: string) {
    exists key :: ix.Has(key) && found(key) && ix.entries[key].name == name
  }

  /** This report is about this name, which occurs and is not cleared. */
  ghost predicate Justified(py: Py, ix: Index, found: string -> bool, report: Clearance, name: string) {
    report == CheckClearance(py, ix, name) && !report.allowed && Occurs(ix, found, name)
  }

  /** This key occurs in the text and its entry goes by this name. */
  predicate LedTo(ix: Index, found: string -> bool, key: string, name: string) {
    ix.Has(key) && found(key) && ix.entries[key].name == name
  }

  ghost predicate Apart(py: Py, names: seq<string>) {
    forall i, j | 0 <= i < j < |names| :: py.lower(names[i]) != py.lower(names[j])
  }

  ghost predicate Lists(py: Py, names: seq<string>, key: string) {
    exists i | 0 <= i < |names| :: py.lower(names[i]) == key
  }

  /** This key needs no report, or its entry's name has one. */
  ghost predicate Covered(py: Py, ix: Index, found: string -> bool, names: seq<string>, key: string) {
    ix.Has(key) && found(key) && !CheckClearance(py, ix, Canonical(ix, key)).allowed ==>
      Lists(py, names, py.lower(Canonical(ix, key)))
  }

  lemma ListsMore(py: Py, names: seq<string>, name: string, key: string)
    ensures Lists(py, names + [name], key) <==> Lists(py, names, key) || py.lower(name) == key
  {
    if i :| 0 <= i < |names| && py.lower(names[i]) == key { assert py.lower((names + [name])[i]) == key; }
    if py.lower(name) == key { assert py.lower((names + [name])[|names|]) == key; }
  }

  ghost predicate Tracks(py: Py, names: seq<string>, seen: set<string>) {
    forall s :: s in seen <==> Lists(py, names, s)
  }

  lemma ListsAllMore(py: Py, names: seq<string>, name: string, seen: set<string>)
    requires Tracks(py, names, seen)
    ensures Tracks(py, names + [name], seen + {py.lower(name)})
  {
    forall s ensures Lists(py, names + [name], s) <==> s in seen + {py.lower(name)} {
      ListsMore(py, names, name, s);
    }
  }

  /** None of the first n keys still needs a report. */
  ghost predicate CoversAll(py: Py, ix: Index, found: string -> bool, names: seq<string>, keys: seq<string>, n: nat)
    requires n <= |keys|
  {
    forall m | 0 <= m < n :: Covered(py, ix, found, names, keys[m])
  }

  lemma CoversMore(py: Py, ix: Index, found: string -> bool, names: seq<string>, name: string, keys: seq<string>, n: nat)
    requires n < |keys| && ix.Has(keys[n]) && Canonical(ix, keys[n]) == name && CoversAll(py, ix, found, names, keys, n)
    ensures CoversAll(py, ix, found, names + [name], keys, n + 1)
  {
    forall m | 0 <= m < n + 1 ensures Covered(py, ix, found, names + [name], keys[m]) {
      if ix.Has(keys[m]) { ListsMore(py, names, name, py.lower(Canonical(ix, keys[m]))); }
      if m < n { assert Covered(py, ix, found, names, keys[m]); }
    }
  }

  lemma NoneMissed(py: Py, ix: Index, found: string -> bool, names: seq<string>)
    requires ix.Keyed()
    requires CoversAll(py, ix, found, names, LongestFirst(ix.keys), |LongestFirst(ix.keys)|)
    ensures forall name :: Occurs(ix, found, name) && !CheckClearance(py, ix, name).allowed ==> Lists(py, names, py.lower(name))
  {
    var keys := LongestFirst(ix.keys);
    forall name | Occurs(ix, found, name) && !CheckClearance(py, ix, name).allowed
      ensures Lists(py, names, py.lower(name))
    {
      var key :| ix.Has(key) && found(key) && Canonical(ix, key) == name;
      LongestFirstKeeps(ix.keys, key);
      var m :| 0 <= m < |keys| && keys[m] == key;
      assert Covered(py, ix, found, names, keys[m]);
    }
  }

  /** Each report is of an uncleared entry that occurs, no canonical name comes twice,
      and longer matches come first. */
  ghost predicate Sound(py: Py, ix: Index, found: string -> bool,
                        report: seq<Clearance>, names: seq<string>, matched: seq<string>) {
    && |report| == |names| == |matched|
    && (forall i | 0 <= i < |report| :: Justified(py, ix, found, report[i], names[i]))
    && (forall i | 0 <= i < |matched| :: LedTo(ix, found, matched[i], names[i]))
    && Apart(py, names) && LengthsDescend(matched)
  }

  lemma SoundMore(py: Py, ix: Index, found: string -> bool,
                  report: seq<Clearance>, names: seq<string>, matched: seq<string>, key: string)
    requires Sound(py, ix, found, report, names, matched)
    requires ix.Has(key) && found(key) && forall i | 0 <= i < |matched| :: |matched[i]| >= |key|
    requires !CheckClearance(py, ix, Canonical(ix, key)).allowed
    requires !Lists(py, names, py.lower(Canonical(ix, key)))
    ensures var name := Canonical(ix, key);
            Sound(py, ix, found, report + [CheckClearance(py, ix, name)], names + [name], matched + [key])
  {
    assert Occurs(ix, found, Canonical(ix, key));
  }

  /** find_uncleared_in_text; found(key) says that the key occurs as a whole word, names
      are the canonical names reported and matched the keys that led to them.  The
      reports are sound, and no uncleared name that occurs is missed. */
  method FindUnclearedInText(py: Py, ix: Index, found: string -> bool)
    returns (report: seq<Clearance>, names: seq<string>, matched: seq<string>)
    requires ix.Keyed()
    ensures Sound(py, ix, found, report, names, matched)
    ensures forall name :: Occurs(ix, found, name) && !CheckClearance(py, ix, name).allowed ==> Lists(py, names, py.lower(name))
  {
    var keys := LongestFirst(ix.keys);
    var seen: set<string> := {};
    report, names, matched := [], [], [];
    LongestFirstOrders(ix.keys);
    for n := 0 to |keys|
      invariant Sound(py, ix, found, report, names, matched)
      invariant forall i, m | 0 <= i < |matched| && n <= m < |keys| :: |matched[i]| >= |keys[m]|
      invariant Tracks(py, names, seen) && CoversAll(py, ix, found, names, keys, n)
    {
      LongestFirstKeeps(ix.keys, keys[n]);
      assert keys[n] in keys;
      if !found(keys[n]) { continue; }
      var canonical := Canonical(ix, keys[n]);
      if py.lower(canonical) in seen { continue; }
      var clearance := CheckClearance(py, ix, canonical);
      if clearance.allowed { continue; }
      SoundMore(py, ix, found, report, names, matched, keys[n]);
      ListsAllMore(py, names, canonical, seen);
      CoversMore(py, ix, found, names, canonical, keys, n);
      seen := seen + {py.lower(canonical)};
      report, names, matched := report + [clearance], names + [canonical], matched + [keys[n]];
    }
    NoneMissed(py, ix, found, names);
  }
}
