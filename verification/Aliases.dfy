/** Model aliases: the desktop app prints its alias map as a router flag, the router
    parses it; a live update builds the same configuration from the map directly. */
module Aliases {
  import opened Protocol
  import opened Ordering
  import opened Text

  datatype AliasTarget = AliasTarget(canonical: string)

  /** Alias to target; None switches aliasing off. */
  type Config = Option<map<string, AliasTarget>>

  datatype Entry = Entry(alias: string, canonical: string)

  // strings.Split, strings.Join and strings.Index for one-character separators.

  function Split(s: string, sep: char): seq<string> {
    if sep !in s then [s]
    else [s[..Index(s, sep)]] + Split(s[Index(s, sep) + 1..], sep)
  }

  function Index(s: string, c: char): (i: nat)
    requires c in s
    ensures i < |s| && s[i] == c && c !in s[..i]
  {
    if s[0] == c then 0 else 1 + Index(s[1..], c)
  }

  function Join(parts: seq<string>, sep: char): string {
    if parts == [] then ""
    else if |parts| == 1 then parts[0]
    else parts[0] + [sep] + Join(parts[1..], sep)
  }

  lemma {:induction false} IndexIsFirst(s: string, c: char, i: nat)
    requires i < |s| && s[i] == c && c !in s[..i]
    ensures Index(s, c) == i
  {
    if i > 0 {
      assert s[0] in s[..i] && s[1..][..i - 1] == s[..i][1..];
      IndexIsFirst(s[1..], c, i - 1);
    }
  }

  lemma IndexOfSeparator(a: string, c: char, b: string)
    requires c !in a
    ensures Index(a + [c] + b, c) == |a|
  {
    var s := a + [c] + b;
    assert s[|a|] == c && s[..|a|] == a;
    IndexIsFirst(s, c, |a|);
  }

  lemma SplitFirst(a: string, sep: char, rest: string)
    requires sep !in a
    ensures Split(a + [sep] + rest, sep) == [a] + Split(rest, sep)
  {
    var s := a + [sep] + rest;
    IndexOfSeparator(a, sep, rest);
    assert s[|a|] == sep;
    assert s[..|a|] == a && s[|a| + 1..] == rest;
  }

  /** Splitting undoes joining when no part holds the separator. */
  lemma {:induction false} SplitJoin(parts: seq<string>, sep: char)
    requires parts != [] && forall p | p in parts :: sep !in p
    ensures Split(Join(parts, sep), sep) == parts
  {
    if |parts| > 1 {
      SplitJoin(parts[1..], sep);
      SplitFirst(parts[0], sep, Join(parts[1..], sep));
      assert parts == [parts[0]] + parts[1..];
    }
  }

  // What one map entry, or one part of the flag, contributes.

  function Cleaned(alias: string, canonical: string): Option<Entry> {
    var a, c := Trim(alias), Trim(canonical);
    if a == "" || c == "" then None else Some(Entry(a, c))
  }

  function ParsePart(part: string): Option<Entry> {
    var p := Trim(part);
    if p == "" || '=' !in p then None
    else Cleaned(p[..Index(p, '=')], p[Index(p, '=') + 1..])
  }

  lemma TrimPrinted(alias: string, canonical: string)
    ensures Trim(alias + "=" + canonical) == TrimLeft(alias) + "=" + TrimRight(canonical)
  {
    var left := TrimLeft(alias);
    assert alias + "=" + canonical == alias + ("=" + canonical);
    TrimLeftConcat(alias, "=" + canonical);
    assert left + ("=" + canonical) == (left + "=") + canonical;
    TrimRightConcat(left + "=", canonical);
  }

  /** A printed entry parses to the cleaned entry, however it is padded with blanks and
      even when the canonical name holds more "=" signs. */
  lemma ParsePrinted(alias: string, canonical: string)
    requires '=' !in alias
    ensures ParsePart(alias + "=" + canonical) == Cleaned(alias, canonical)
  {
    var left, right := TrimLeft(alias), TrimRight(canonical);
    TrimPrinted(alias, canonical);
    TrimLeftStart(alias);
    CutAtSign(left, right);
    TrimAfterOneSide(alias);
    TrimAfterOneSide(canonical);
  }

  lemma CutAtSign(left: string, right: string)
    requires '=' !in left
    ensures var p := left + "=" + right;
      '=' in p && p[..Index(p, '=')] == left && p[Index(p, '=') + 1..] == right
  {
    var p := left + "=" + right;
    IndexOfSeparator(left, '=', right);
    assert p[|left|] == '=';
  }

  /** Later entries overwrite earlier ones. */
  function Collect(entries: seq<Option<Entry>>): map<string, AliasTarget> {
    if entries == [] then map[]
    else With(Collect(entries[..|entries| - 1]), entries[|entries| - 1])
  }

  function With(aliases: map<string, AliasTarget>, e: Option<Entry>): map<string, AliasTarget> {
    if e.None? then aliases else aliases[e.value.alias := AliasTarget(e.value.canonical)]
  }

  lemma CollectStep(entries: seq<Option<Entry>>, i: nat)
    requires i < |entries|
    ensures Collect(entries[..i + 1]) == With(Collect(entries[..i]), entries[i])
  {
    assert entries[..i + 1][..i] == entries[..i];
  }

  function NilIfEmpty(aliases: map<string, AliasTarget>): Config {
    if aliases == map[] then None else Some(aliases)
  }

  /** No alias is given two different targets. */
  ghost predicate Agreeing(entries: seq<Option<Entry>>) {
    forall x: Entry, y: Entry | Some(x) in entries && Some(y) in entries && x.alias == y.alias :: x == y
  }

  /** Then the result holds exactly the entries, whatever their order. */
  lemma {:induction false} CollectMembers(entries: seq<Option<Entry>>)
    requires Agreeing(entries)
    ensures forall e: Entry :: Some(e) in entries <==> Holds(Collect(entries), e)
  {
    if entries != [] {
      var n := |entries| - 1;
      assert entries == entries[..n] + [entries[n]];
      CollectMembers(entries[..n]);
    }
  }

  predicate Holds(aliases: map<string, AliasTarget>, e: Entry) {
    e.alias in aliases && aliases[e.alias] == AliasTarget(e.canonical)
  }

  lemma SameEntriesSameMap(a: seq<Option<Entry>>, b: seq<Option<Entry>>)
    requires Agreeing(a) && forall e: Entry :: Some(e) in a <==> Some(e) in b
    ensures Collect(a) == Collect(b)
  {
    CollectMembers(a);
    CollectMembers(b);
    var m, n := Collect(a), Collect(b);
    forall k
      ensures k in m <==> k in n
      ensures k in m ==> m[k] == n[k]
    {
      if k in m {
        assert Holds(m, Entry(k, m[k].canonical));
        assert Holds(n, Entry(k, m[k].canonical));
      }
      if k in n {
        assert Holds(n, Entry(k, n[k].canonical));
        assert Holds(m, Entry(k, n[k].canonical));
      }
    }
  }

  // The three operations as functions.

  /** The entries of the map in iteration order. */
  function Entries(raw: map<string, string>, order: seq<string>): (entries: seq<Option<Entry>>)
    requires forall k | k in order :: k in raw
  {
    seq(|order|, i requires 0 <= i < |order| => Cleaned(order[i], raw[order[i]]))
  }

  function Built(raw: map<string, string>, order: seq<string>): Config
    requires forall k | k in order :: k in raw
  {
    NilIfEmpty(Collect(Entries(raw, order)))
  }

  function PrintedParts(raw: map<string, string>, order: seq<string>): seq<string>
    requires forall k | k in order :: k in raw
  {
    if order == [] then []
    else
      var n := |order| - 1;
      var before := PrintedParts(raw, order[..n]);
      if order[n] == "" || raw[order[n]] == "" then before else before + [order[n] + "=" + raw[order[n]]]
  }

  function Parts(parts: seq<string>): seq<Option<Entry>> {
    seq(|parts|, i requires 0 <= i < |parts| => ParsePart(parts[i]))
  }

  function Parsed(s: string): Config {
    if Trim(s) == "" then None else NilIfEmpty(Collect(Parts(Split(s, ','))))
  }

  /** The value the router sees: an omitted flag reads as the empty string. */
  function FlagValue(flag: Option<string>): string {
    if flag.None? then "" else flag.value
  }

  function Printed(raw: map<string, string>, order: seq<string>): Option<string>
    requires forall k | k in order :: k in raw
  {
    if PrintedParts(raw, order) == [] then None else Some(Join(PrintedParts(raw, order), ','))
  }

  // The loops of the source.

  /** The alias part of buildRouterArgs. */
  method PrintAliases(raw: map<string, string>, order: seq<string>) returns (flag: Option<string>)
    requires IsOrder(order, raw.Keys)
    ensures flag == Printed(raw, order)
  {
    flag := None;
    NothingToOrder(order, raw.Keys);
    if |raw| > 0 {
      var parts: seq<string> := [];
      for i := 0 to |order|
        invariant parts == PrintedParts(raw, order[..i])
      {
        var alias, canonical := order[i], raw[order[i]];
        assert order[..i + 1][..i] == order[..i];
        if alias == "" || canonical == "" {
          continue;
        }
        parts := parts + [alias + "=" + canonical];
      }
      assert order[..|order|] == order;
      if |parts| > 0 {
        flag := Some(Join(parts, ','));
      }
    }
  }

  method ParseModelAliases(s: string) returns (cfg: Config)
    ensures cfg == Parsed(s)
  {
    if Trim(s) == "" {
      return None;
    }
    var aliases: map<string, AliasTarget> := map[];
    var parts := Split(s, ',');
    ghost var entries := Parts(parts);
    for i := 0 to |parts|
      invariant aliases == Collect(entries[..i])
    {
      var part := Trim(parts[i]);
      CollectStep(entries, i);
      if part == "" {
        continue;
      }
      if '=' !in part {
        continue;
      }
      var idx := Index(part, '=');
      var key, canonical := Trim(part[..idx]), Trim(part[idx + 1..]);
      if key == "" || canonical == "" {
        continue;
      }
      aliases := aliases[key := AliasTarget(canonical)];
    }
    assert entries[..|parts|] == entries;
    cfg := if aliases == map[] then None else Some(aliases);
  }

  method BuildAliasConfig(raw: map<string, string>, order: seq<string>) returns (cfg: Config)
    requires IsOrder(order, raw.Keys)
    ensures cfg == Built(raw, order)
  {
    NothingToOrder(order, raw.Keys);
    if |raw| == 0 {
      return None;
    }
    var aliases: map<string, AliasTarget> := map[];
    ghost var entries := Entries(raw, order);
    for i := 0 to |order|
      invariant aliases == Collect(entries[..i])
    {
      var alias, canonical := Trim(order[i]), Trim(raw[order[i]]);
      CollectStep(entries, i);
      if alias == "" || canonical == "" {
        continue;
      }
      aliases := aliases[alias := AliasTarget(canonical)];
    }
    assert entries[..|order|] == entries;
    cfg := if aliases == map[] then None else Some(aliases);
  }

  // The law that ties them together.

  predicate Emitted(raw: map<string, string>, k: string) {
    k in raw && k != "" && raw[k] != ""
  }

  /** The flag syntax can carry every entry that is printed. */
  ghost predicate Printable(raw: map<string, string>) {
    forall k | Emitted(raw, k) :: ',' !in k && ',' !in raw[k] && '=' !in k
  }

  /** Aliases that trimming makes equal have equal targets; in particular when aliases
      stay distinct after trimming. */
  ghost predicate Coherent(raw: map<string, string>) {
    forall j, k | j in raw && k in raw && Clash(raw, j, k) :: Trim(raw[j]) == Trim(raw[k])
  }

  predicate Clash(raw: map<string, string>, j: string, k: string)
    requires j in raw && k in raw
  {
    Trim(j) == Trim(k) != "" && Trim(raw[j]) != "" && Trim(raw[k]) != ""
  }

  lemma EntriesMembers(raw: map<string, string>, order: seq<string>, e: Entry)
    requires forall k :: k in order <==> k in raw
    ensures Some(e) in Entries(raw, order) <==> exists k :: k in raw && Cleaned(k, raw[k]) == Some(e)
  {
    var entries := Entries(raw, order);
    if k :| k in raw && Cleaned(k, raw[k]) == Some(e) {
      var i :| 0 <= i < |order| && order[i] == k;
      assert entries[i] == Some(e);
    }
    if Some(e) in entries {
      var i :| 0 <= i < |entries| && entries[i] == Some(e);
      assert order[i] in order;
    }
  }

  lemma EntriesAgree(raw: map<string, string>, order: seq<string>)
    requires Coherent(raw) && forall k :: k in order <==> k in raw
    ensures Agreeing(Entries(raw, order))
  {
    var entries := Entries(raw, order);
    forall x: Entry, y: Entry | Some(x) in entries && Some(y) in entries && x.alias == y.alias
      ensures x == y
    {
      EntriesMembers(raw, order, x);
      EntriesMembers(raw, order, y);
      var j :| j in raw && Cleaned(j, raw[j]) == Some(x);
      var k :| k in raw && Cleaned(k, raw[k]) == Some(y);
      assert Clash(raw, j, k);
    }
  }

  lemma {:induction false} PartsMembers(raw: map<string, string>, order: seq<string>, p: string)
    requires forall k | k in order :: k in raw
    ensures p in PrintedParts(raw, order) <==> exists k :: k in order && Emitted(raw, k) && p == k + "=" + raw[k]
  {
    if order != [] {
      var n := |order| - 1;
      assert order == order[..n] + [order[n]];
      PartsMembers(raw, order[..n], p);
      var k := order[n];
      assert k in order;
    }
  }

  lemma PartGivesEntry(raw: map<string, string>, order: seq<string>, e: Entry)
    requires Printable(raw) && (forall k | k in order :: k in raw) && Some(e) in Parts(PrintedParts(raw, order))
    ensures exists k :: k in raw && Cleaned(k, raw[k]) == Some(e)
  {
    var parts := PrintedParts(raw, order);
    var i :| 0 <= i < |parts| && ParsePart(parts[i]) == Some(e);
    PartsMembers(raw, order, parts[i]);
    var k :| k in order && Emitted(raw, k) && parts[i] == k + "=" + raw[k];
    ParsePrinted(k, raw[k]);
  }

  lemma EntryHasPart(raw: map<string, string>, order: seq<string>, k: string, e: Entry)
    requires Printable(raw) && (forall k | k in order :: k in raw) && k in order && Cleaned(k, raw[k]) == Some(e)
    ensures Some(e) in Parts(PrintedParts(raw, order))
  {
    var parts := PrintedParts(raw, order);
    assert Emitted(raw, k);
    PartsMembers(raw, order, k + "=" + raw[k]);
    var i :| 0 <= i < |parts| && parts[i] == k + "=" + raw[k];
    ParsePrinted(k, raw[k]);
    assert Parts(parts)[i] == Some(e);
  }

  /** The parsed parts and the map's entries are the same entries. */
  lemma PartsCarryEntries(raw: map<string, string>, order: seq<string>, order': seq<string>, e: Entry)
    requires Printable(raw) && (forall k :: k in order <==> k in raw) && (forall k :: k in order' <==> k in raw)
    ensures Some(e) in Parts(PrintedParts(raw, order)) <==> Some(e) in Entries(raw, order')
  {
    EntriesMembers(raw, order', e);
    if Some(e) in Parts(PrintedParts(raw, order)) {
      PartGivesEntry(raw, order, e);
    }
    if k :| k in raw && Cleaned(k, raw[k]) == Some(e) {
      EntryHasPart(raw, order, k, e);
    }
  }

  lemma {:induction false} BlankHoldsOnlySpaces(s: string, c: char)
    requires c in s && !IsSpace(c)
    ensures Trim(s) != ""
  {
    TrimLeftKeeps(s, c);
    TrimRightKeeps(TrimLeft(s), c);
  }

  lemma {:induction false} TrimLeftKeeps(s: string, c: char)
    requires c in s && !IsSpace(c)
    ensures c in TrimLeft(s)
  {
    if IsSpace(s[0]) {
      assert s == [s[0]] + s[1..];
      TrimLeftKeeps(s[1..], c);
    }
  }

  lemma {:induction false} TrimRightKeeps(s: string, c: char)
    requires c in s && !IsSpace(c)
    ensures c in TrimRight(s)
  {
    var n := |s| - 1;
    if IsSpace(s[n]) {
      assert s == s[..n] + [s[n]];
      TrimRightKeeps(s[..n], c);
    }
  }

  /** A flag that was printed parses to what its parts parse to, one by one. */
  lemma FlagParses(raw: map<string, string>, order: seq<string>)
    requires Printable(raw) && forall k | k in order :: k in raw
    ensures Parsed(FlagValue(Printed(raw, order))) == NilIfEmpty(Collect(Parts(PrintedParts(raw, order))))
  {
    var parts := PrintedParts(raw, order);
    if parts != [] {
      forall p | p in parts
        ensures ',' !in p && '=' in p
      {
        PartsMembers(raw, order, p);
        var k :| k in order && Emitted(raw, k) && p == k + "=" + raw[k];
        assert p[|k|] == '=';
      }
      SplitJoin(parts, ',');
      assert '=' in Join(parts, ',') by { assert '=' in parts[0]; }
      BlankHoldsOnlySpaces(Join(parts, ','), '=');
    }
  }

  /** Restarting the router with the printed flag and updating it live give the same
      configuration, for every pair of map iteration orders, nil included. */
  lemma ParsePrintAgreesWithBuild(raw: map<string, string>, order: seq<string>, order': seq<string>)
    requires IsOrder(order, raw.Keys) && IsOrder(order', raw.Keys)
    requires Printable(raw) && Coherent(raw)
    ensures Parsed(FlagValue(Printed(raw, order))) == Built(raw, order')
  {
    FlagParses(raw, order);
    var a, b := Entries(raw, order'), Parts(PrintedParts(raw, order));
    EntriesAgree(raw, order');
    forall e: Entry
      ensures Some(e) in a <==> Some(e) in b
    {
      PartsCarryEntries(raw, order, order', e);
    }
    SameEntriesSameMap(a, b);
  }

  // Without coherence the outcome depends on the iteration order.

  lemma LastEntryWins(raw: map<string, string>, order: seq<string>)
    requires IsOrder(order, raw.Keys) && order != []
    ensures var e := Cleaned(order[|order| - 1], raw[order[|order| - 1]]);
      e.Some? ==> Built(raw, order).Some? && Holds(Built(raw, order).value, e.value)
  {
    var n, entries := |order| - 1, Entries(raw, order);
    assert Collect(entries) == With(Collect(entries[..n]), entries[n]);
    if entries[n].Some? {
      assert entries[n].value.alias in Collect(entries);
      assert Collect(entries) != map[];
    }
  }

  lemma IncoherentIsOrderDependent(raw: map<string, string>) returns (order: seq<string>, order': seq<string>)
    requires !Coherent(raw)
    ensures IsOrder(order, raw.Keys) && IsOrder(order', raw.Keys) && Built(raw, order) != Built(raw, order')
  {
    var j, k :| j in raw && k in raw && Clash(raw, j, k) && Trim(raw[j]) != Trim(raw[k]);
    var _, endsWithJ := OrdersAround(raw.Keys, j);
    var _, endsWithK := OrdersAround(raw.Keys, k);
    order, order' := endsWithJ, endsWithK;
    LastEntryWins(raw, order);
    LastEntryWins(raw, order');
  }

  ghost predicate AgreesAlways(raw: map<string, string>) {
    forall order, order' | IsOrder(order, raw.Keys) && IsOrder(order', raw.Keys) ::
      Parsed(FlagValue(Printed(raw, order))) == Built(raw, order')
  }

  /** Printable maps survive the restart in every order exactly when they are coherent. */
  lemma AgreesExactlyWhenCoherent(raw: map<string, string>)
    requires Printable(raw)
    ensures AgreesAlways(raw) <==> Coherent(raw)
  {
    if Coherent(raw) {
      forall order, order' | IsOrder(order, raw.Keys) && IsOrder(order', raw.Keys)
        ensures Parsed(FlagValue(Printed(raw, order))) == Built(raw, order')
      {
        ParsePrintAgreesWithBuild(raw, order, order');
      }
    } else {
      var a, b := IncoherentIsOrderDependent(raw);
      assert Parsed(FlagValue(Printed(raw, a))) != Built(raw, a) || Parsed(FlagValue(Printed(raw, a))) != Built(raw, b);
    }
  }

  // What printing, parsing and building do, spelled out.

  /** The map has, blanks aside, this alias with this target. */
  predicate Gives(raw: map<string, string>, k: string, alias: string, target: string) {
    k in raw && Trim(k) == alias != "" && Trim(raw[k]) == target != ""
  }

  lemma {:induction false} CollectLast(entries: seq<Option<Entry>>, i: nat)
    requires i < |entries| && entries[i].Some?
    requires forall j | i < j < |entries| && entries[j].Some? :: entries[j].value.alias != entries[i].value.alias
    ensures Holds(Collect(entries), entries[i].value)
  {
    var n := |entries| - 1;
    if i < n {
      assert forall j | 0 <= j < n :: entries[..n][j] == entries[j];
      CollectLast(entries[..n], i);
    }
  }

  lemma {:induction false} CollectOnly(entries: seq<Option<Entry>>, alias: string)
    ensures alias in Collect(entries) <==> exists e: Entry :: Some(e) in entries && e.alias == alias
  {
    if entries != [] {
      var n := |entries| - 1;
      assert entries == entries[..n] + [entries[n]];
      CollectOnly(entries[..n], alias);
    }
  }

  /** What the builder makes of a map: an alias is there exactly when some key gives it, with
      the target of the last such key in iteration order; nil when no key gives any. */
  lemma BuiltMeans(raw: map<string, string>, order: seq<string>, alias: string)
    requires IsOrder(order, raw.Keys)
    ensures var cfg := Built(raw, order);
      (cfg.Some? && alias in cfg.value) <==> exists k: string, target: string :: Gives(raw, k, alias, target)
    ensures forall i: nat, target: string | i < |order| && Gives(raw, order[i], alias, target)
      && (forall j: nat, other: string | i < j < |order| :: !Gives(raw, order[j], alias, other)) ::
        Built(raw, order).Some? && alias in Built(raw, order).value
        && Built(raw, order).value[alias] == AliasTarget(target)
    ensures Built(raw, order).Some? ==> Built(raw, order).value != map[]
  {
    var entries := Entries(raw, order);
    CollectOnly(entries, alias);
    EntriesGive(raw, order, alias);
    forall i: nat, target: string | i < |order| && Gives(raw, order[i], alias, target)
      && (forall j: nat, other: string | i < j < |order| :: !Gives(raw, order[j], alias, other))
      ensures Built(raw, order).Some? && alias in Built(raw, order).value
        && Built(raw, order).value[alias] == AliasTarget(target)
    {
      forall j | i < j < |entries| && entries[j].Some?
        ensures entries[j].value.alias != alias
      {
        assert !Gives(raw, order[j], alias, Trim(raw[order[j]]));
      }
      CollectLast(entries, i);
    }
  }

  lemma EntriesGive(raw: map<string, string>, order: seq<string>, alias: string)
    requires IsOrder(order, raw.Keys)
    ensures (exists e: Entry :: Some(e) in Entries(raw, order) && e.alias == alias)
      <==> exists k: string, target: string :: Gives(raw, k, alias, target)
  {
    if e: Entry :| Some(e) in Entries(raw, order) && e.alias == alias {
      EntriesMembers(raw, order, e);
      var k :| k in raw && Cleaned(k, raw[k]) == Some(e);
      assert Gives(raw, k, alias, e.canonical);
    }
    if k: string, target: string :| Gives(raw, k, alias, target) {
      EntriesMembers(raw, order, Entry(alias, target));
    }
  }

  /** One part of the flag: split at its first "=", blanks around either side aside. */
  ghost predicate PartGives(part: string, alias: string, target: string) {
    exists l: string, r: string :: part == l + "=" + r && '=' !in l && Trim(l) == alias != "" && Trim(r) == target != ""
  }

  lemma PartMeans(part: string, alias: string, target: string)
    ensures ParsePart(part) == Some(Entry(alias, target)) <==> PartGives(part, alias, target)
  {
    if PartGives(part, alias, target) {
      var l: string, r: string :| part == l + "=" + r && '=' !in l && Trim(l) == alias != "" && Trim(r) == target != "";
      ParsePrinted(l, r);
    }
    if ParsePart(part) == Some(Entry(alias, target)) {
      ParsedGives(part, alias, target);
    }
  }

  lemma ParsedGives(part: string, alias: string, target: string)
    requires ParsePart(part) == Some(Entry(alias, target))
    ensures PartGives(part, alias, target)
  {
    TrimIsTrimmed(part);
    var i := Index(part, '=');
    var l, r := part[..i], part[i + 1..];
    assert part == l + "=" + r;
    ParsePrinted(l, r);
  }

  /** The flag's parts, put together with commas, are the flag, and hold no comma. */
  lemma {:induction false} SplitMeans(s: string, sep: char)
    ensures Split(s, sep) != [] && Join(Split(s, sep), sep) == s && forall p | p in Split(s, sep) :: sep !in p
  {
    if sep in s {
      var i := Index(s, sep);
      SplitMeans(s[i + 1..], sep);
      var rest := Split(s[i + 1..], sep);
      assert Split(s, sep) == [s[..i]] + rest && ([s[..i]] + rest)[1..] == rest;
      assert s == s[..i] + [sep] + s[i + 1..];
    }
  }

  /** What the parser makes of a flag: an alias is there exactly when some part gives it,
      with the target of the last such part. */
  lemma ParsedMeans(s: string, alias: string)
    ensures var cfg, parts := Parsed(s), Split(s, ',');
      (cfg.Some? && alias in cfg.value) <==> exists p: string, target: string :: p in parts && PartGives(p, alias, target)
    ensures forall i: nat, target: string | i < |Split(s, ',')| && PartGives(Split(s, ',')[i], alias, target)
      && (forall j: nat, other: string | i < j < |Split(s, ',')| :: !PartGives(Split(s, ',')[j], alias, other)) ::
        Parsed(s).Some? && alias in Parsed(s).value && Parsed(s).value[alias] == AliasTarget(target)
  {
    var parts := Split(s, ',');
    var entries := Parts(parts);
    BlankFlag(s);
    CollectOnly(entries, alias);
    PartsGive(parts, alias);
    forall i: nat, target: string | i < |parts| && PartGives(parts[i], alias, target)
      && (forall j: nat, other: string | i < j < |parts| :: !PartGives(parts[j], alias, other))
      ensures Parsed(s).Some? && alias in Parsed(s).value && Parsed(s).value[alias] == AliasTarget(target)
    {
      PartMeans(parts[i], alias, target);
      forall j: nat | i < j < |entries| && entries[j].Some?
        ensures entries[j].value.alias != alias
      {
        PartMeans(parts[j], entries[j].value.alias, entries[j].value.canonical);
        assert !PartGives(parts[j], alias, entries[j].value.canonical);
      }
      CollectLast(entries, i);
    }
  }

  lemma PartsGive(parts: seq<string>, alias: string)
    ensures (exists e: Entry :: Some(e) in Parts(parts) && e.alias == alias)
      <==> exists p: string, target: string :: p in parts && PartGives(p, alias, target)
  {
    if e: Entry :| Some(e) in Parts(parts) && e.alias == alias {
      var i :| 0 <= i < |parts| && ParsePart(parts[i]) == Some(e);
      PartMeans(parts[i], alias, e.canonical);
      assert parts[i] in parts;
    }
    if p: string, target: string :| p in parts && PartGives(p, alias, target) {
      PartMeans(p, alias, target);
      var i :| 0 <= i < |parts| && parts[i] == p;
      assert Parts(parts)[i] == Some(Entry(alias, target));
    }
  }

  /** A blank flag has one blank part, which gives nothing. */
  lemma BlankFlag(s: string)
    ensures Trim(s) == "" ==> Collect(Parts(Split(s, ','))) == map[]
  {
    if Trim(s) == "" {
      if ',' in s {
        BlankHoldsOnlySpaces(s, ',');
      }
      assert Split(s, ',') == [s] && Parts([s]) == [None];
      assert Collect([None]) == Collect([None][..0]);
    }
  }

  /** The flag is printed exactly when some entry has both an alias and a target, and holds
      those entries, one part each, as they are. */
  lemma PrintedMeans(raw: map<string, string>, order: seq<string>)
    requires IsOrder(order, raw.Keys)
    ensures Printed(raw, order).Some? <==> exists k :: k in raw && k != "" && raw[k] != ""
    ensures forall p :: p in PrintedParts(raw, order) <==> exists k :: k in raw && k != "" && raw[k] != "" && p == k + "=" + raw[k]
    ensures Printed(raw, order).Some? ==> Printed(raw, order).value == Join(PrintedParts(raw, order), ',')
  {
    var parts := PrintedParts(raw, order);
    forall p
      ensures p in parts <==> exists k :: k in raw && k != "" && raw[k] != "" && p == k + "=" + raw[k]
    {
      PartsMembers(raw, order, p);
      if k :| k in raw && k != "" && raw[k] != "" && p == k + "=" + raw[k] {
        assert Emitted(raw, k);
      }
    }
    if parts != [] {
      assert parts[0] in parts;
    }
    if k :| k in raw && k != "" && raw[k] != "" {
      assert k + "=" + raw[k] in parts;
    }
  }
}
