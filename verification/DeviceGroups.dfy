/**
  Device-name groups of an account: the expandable list that is built in memory, and the count that
  is left to the database.
*/
module DeviceGroups {
  import opened Finite
  import opened Text

  datatype Device = Device(user: string, id: string, name: string, blocked: int)
  datatype Kind = ByName | ById
  datatype Key = Key(user: string, kind: Kind, value: string)
  datatype Group = Group(name: string, kind: Kind, recordCount: int, unblockedCount: int, devices: seq<Device>)

  const KELVIN := '\U{212A}'

  const UNKNOWN_NAMES: set<string> :=
    {"", "unknown", "unknown device", ['\U{672A}', '\U{77E5}'], ['\U{672A}', '\U{77E5}', '\U{8BBE}', '\U{5907}']}

  /** SQLite's LOWER knows only ASCII. */
  function LowerSql(c: char): char {
    if 'A' <= c <= 'Z' then (c as int + 32) as char else c
  }

  /** Python's lower, as far as it can produce a character of an unknown label: it also maps the Kelvin sign. */
  function LowerPython(c: char): char {
    if c == KELVIN then 'k' else LowerSql(c)
  }

  function Map(f: char -> char, s: string): (r: string)
    ensures |r| == |s| && forall i :: 0 <= i < |s| ==> r[i] == f(s[i])
  {
    if s == "" then "" else [f(s[0])] + Map(f, s[1..])
  }

  predicate UnknownInPython(name: string) { Map(LowerPython, name) in UNKNOWN_NAMES }
  predicate UnknownInSql(name: string) { Map(LowerSql, name) in UNKNOWN_NAMES }

  function NameOf(d: Device): string { Strip(d.name) }

  /** A record is grouped by its name, or by its own id if the name says nothing. */
  function KeyOf(unknown: string -> bool, d: Device): Key {
    if unknown(NameOf(d)) then Key(d.user, ById, d.id) else Key(d.user, ByName, NameOf(d))
  }

  function KeyBy(unknown: string -> bool): Device -> Key { (d: Device) => KeyOf(unknown, d) }

  /** How a list is grouped: by which key and under which name. */
  datatype Rule = Rule(key: Device -> Key, title: Device -> string)

  function ByNames(): Rule { Rule(KeyBy(UnknownInPython), NameOf) }

  // ---------------------------------------------------------------- the list

  /** The keys of the groups, in order of first appearance. */
  function Keys(r: Rule, devices: seq<Device>): seq<Key> {
    if devices == [] then []
    else
      var keys, k := Keys(r, devices[..|devices| - 1]), r.key(devices[|devices| - 1]);
      if k in keys then keys else keys + [k]
  }

  /** The records of one group, in input order. */
  function Records(r: Rule, devices: seq<Device>, k: Key): seq<Device> {
    if devices == [] then []
    else
      var before, d := Records(r, devices[..|devices| - 1], k), devices[|devices| - 1];
      if r.key(d) == k then before + [d] else before
  }

  function UnblockedIn(devices: seq<Device>): int {
    if devices == [] then 0
    else UnblockedIn(devices[..|devices| - 1]) + if devices[|devices| - 1].blocked == 0 then 1 else 0
  }

  function GroupOf(r: Rule, devices: seq<Device>, k: Key): Group {
    var records := Records(r, devices, k);
    Group(if records == [] then "" else r.title(records[0]), k.kind, |records|, UnblockedIn(records), records)
  }

  lemma GroupGrows(r: Rule, devices: seq<Device>, d: Device, k: Key)
    ensures Records(r, devices + [d], k) == if r.key(d) == k then Records(r, devices, k) + [d] else Records(r, devices, k)
  {
    assert (devices + [d])[..|devices|] == devices;
  }

  lemma KeysGrow(r: Rule, devices: seq<Device>, d: Device)
    ensures var keys := Keys(r, devices);
            Keys(r, devices + [d]) == if r.key(d) in keys then keys else keys + [r.key(d)]
  {
    assert (devices + [d])[..|devices|] == devices;
  }

  lemma UnblockedGrows(devices: seq<Device>, d: Device)
    ensures UnblockedIn(devices + [d]) == UnblockedIn(devices) + if d.blocked == 0 then 1 else 0
  {
    assert (devices + [d])[..|devices|] == devices;
  }

  ghost predicate Keyed(r: Rule, devices: seq<Device>, k: Key) { exists d :: d in devices && r.key(d) == k }

  lemma KeyedGrows(r: Rule, devices: seq<Device>, d: Device, k: Key)
    ensures Keyed(r, devices + [d], k) <==> Keyed(r, devices, k) || r.key(d) == k
  {
  }

  /** A key is listed exactly if some record has it, and then its group has a record. */
  lemma {:induction false} KeysExactly(r: Rule, devices: seq<Device>, k: Key)
    ensures k in Keys(r, devices) <==> Keyed(r, devices, k)
    ensures k in Keys(r, devices) <==> Records(r, devices, k) != []
  {
    if devices != [] {
      var init, last := devices[..|devices| - 1], devices[|devices| - 1];
      KeysExactly(r, init, k);
      assert devices == init + [last];
      KeysGrow(r, init, last);
      GroupGrows(r, init, last, k);
      KeyedGrows(r, init, last, k);
    }
  }

  /** Groups are listed, and records within them, in the order in which they first appear. */
  lemma {:induction false} FirstSeenFirst(r: Rule, devices: seq<Device>, n: nat, k: Key)
    requires n <= |devices|
    ensures Keys(r, devices[..n]) <= Keys(r, devices) && Records(r, devices[..n], k) <= Records(r, devices, k)
    decreases |devices|
  {
    if n == |devices| {
      assert devices[..n] == devices;
    } else {
      assert devices[..|devices| - 1][..n] == devices[..n];
      FirstSeenFirst(r, devices[..|devices| - 1], n, k);
    }
  }

  /** A name spells a label if it is the same up to the case of letters; a k may also be the Kelvin sign. */
  ghost predicate Spells(name: string, title: string) {
    && |name| == |title|
    && forall i :: 0 <= i < |name| ==>
         || (name[i] == title[i] && !('A' <= title[i] <= 'Z'))
         || ('a' <= title[i] <= 'z' && name[i] as int == title[i] as int - 32)
         || (title[i] == 'k' && name[i] == KELVIN)
  }

  lemma SpellsExactly(name: string, title: string)
    requires KELVIN !in title
    ensures Map(LowerPython, name) == title <==> Spells(name, title)
  {
    if Spells(name, title) {
      forall i | 0 <= i < |name| ensures LowerPython(name[i]) == title[i] {}
    }
  }

  lemma UnknownExactly(name: string)
    ensures UnknownInPython(name) <==>
              || Spells(name, "") || Spells(name, "unknown") || Spells(name, "unknown device")
              || Spells(name, ['\U{672A}', '\U{77E5}']) || Spells(name, ['\U{672A}', '\U{77E5}', '\U{8BBE}', '\U{5907}'])
  {
    SpellsExactly(name, "");
    SpellsExactly(name, "unknown");
    SpellsExactly(name, "unknown device");
    SpellsExactly(name, ['\U{672A}', '\U{77E5}']);
    SpellsExactly(name, ['\U{672A}', '\U{77E5}', '\U{8BBE}', '\U{5907}']);
  }

  /** Two records share a group exactly if they are one user's and bear the same known name, or unknown ones and the same id. */
  lemma SameGroupExactly(d: Device, e: Device)
    ensures ByNames().key(d) == ByNames().key(e) <==>
              && d.user == e.user && (UnknownInPython(Strip(d.name)) <==> UnknownInPython(Strip(e.name)))
              && if UnknownInPython(Strip(d.name)) then d.id == e.id else Strip(d.name) == Strip(e.name)
  {
  }

  ghost predicate Collected(r: Rule, groups: map<Key, Group>, order: seq<Key>, devices: seq<Device>) {
    && order == Keys(r, devices) && (forall k :: k in groups <==> k in order)
    && forall k :: k in groups ==> groups[k] == GroupOf(r, devices, k)
  }

  function WithRecord(g: Group, d: Device): Group {
    Group(g.name, g.kind, g.recordCount + 1, g.unblockedCount + (if d.blocked == 0 then 1 else 0), g.devices + [d])
  }

  lemma CollectOne(r: Rule, groups: map<Key, Group>, order: seq<Key>, devices: seq<Device>, d: Device)
    requires Collected(r, groups, order, devices)
    ensures var k := r.key(d);
            var g := if k in groups then groups[k] else Group(r.title(d), k.kind, 0, 0, []);
            Collected(r, groups[k := WithRecord(g, d)], if k in groups then order else order + [k], devices + [d])
  {
    var k := r.key(d);
    KeysExactly(r, devices, k);
    KeysGrow(r, devices, d);
    GroupGrows(r, devices, d, k);
    UnblockedGrows(Records(r, devices, k), d);
    forall j | j in groups && j != k ensures GroupOf(r, devices + [d], j) == GroupOf(r, devices, j) {
      GroupGrows(r, devices, d, j);
    }
  }

  method Classify(d: Device) returns (name: string, key: Key)
    ensures key == ByNames().key(d) && name == ByNames().title(d)
  {
    name := Strip(d.name);
    var byId := UnknownInPython(name);
    var kind := if byId then ById else ByName;
    var value := if byId then d.id else name;
    key := Key(d.user, kind, value);
  }

  /** Puts one record into its group, a new one if need be. */
  method Place(ghost r: Rule, groups0: map<Key, Group>, order0: seq<Key>, ghost seen: seq<Device>, d: Device,
               name: string, key: Key)
      returns (groups: map<Key, Group>, order: seq<Key>)
    requires Collected(r, groups0, order0, seen) && key == r.key(d) && name == r.title(d)
    ensures Collected(r, groups, order, seen + [d])
  {
    ghost var was := if key in groups0 then groups0[key] else Group(name, key.kind, 0, 0, []);
    groups, order := groups0, order0;
    if key !in groups {
      groups := groups[key := Group(name, key.kind, 0, 0, [])];
      order := order + [key];
    }
    var group := groups[key];
    group := group.(devices := group.devices + [d]);
    group := group.(recordCount := group.recordCount + 1);
    group := group.(unblockedCount := group.unblockedCount + if d.blocked == 0 then 1 else 0);
    groups := groups[key := group];
    assert groups == groups0[key := WithRecord(was, d)];
    CollectOne(r, groups0, order0, seen, d);
  }

  method Values(groups: map<Key, Group>, order: seq<Key>) returns (result: seq<Group>)
    requires forall k :: k in order ==> k in groups
    ensures |result| == |order| && forall i :: 0 <= i < |order| ==> result[i] == groups[order[i]]
  {
    result := [];
    for i := 0 to |order|
      invariant |result| == i && forall j :: 0 <= j < i ==> result[j] == groups[order[j]]
    {
      result := result + [groups[order[i]]];
    }
  }

  /** One group per key, in order of first appearance, with its records in input order. */
  method GroupRecords(devices: seq<Device>) returns (result: seq<Group>)
    ensures |result| == |Keys(ByNames(), devices)|
    ensures forall i :: 0 <= i < |result| ==> result[i] == GroupOf(ByNames(), devices, Keys(ByNames(), devices)[i])
  {
    ghost var r := ByNames();
    var groups: map<Key, Group> := map[];
    var order: seq<Key> := [];
    ghost var seen: seq<Device> := [];
    for n := 0 to |devices|
      invariant seen == devices[..n] && Collected(r, groups, order, seen)
    {
      var d := devices[n];
      assert devices[..n + 1] == seen + [d];
      var name, key := Classify(d);
      groups, order := Place(r, groups, order, seen, d, name, key);
      seen := seen + [d];
    }
    assert seen == devices;
    result := Values(groups, order);
  }

  // ---------------------------------------------------------------- the groups are a partition

  ghost predicate Distinct(keys: seq<Key>) { forall i, j :: 0 <= i < j < |keys| ==> keys[i] != keys[j] }

  lemma {:induction false} KeysDistinct(r: Rule, devices: seq<Device>)
    ensures Distinct(Keys(r, devices))
  {
    if devices != [] {
      KeysDistinct(r, devices[..|devices| - 1]);
    }
  }

  /** The records of the given groups, group after group. */
  function Listed(r: Rule, devices: seq<Device>, keys: seq<Key>): seq<Device> {
    if keys == [] then [] else Listed(r, devices, keys[..|keys| - 1]) + Records(r, devices, keys[|keys| - 1])
  }

  lemma {:induction false} ListOne(r: Rule, devices: seq<Device>, d: Device, keys: seq<Key>)
    requires Distinct(keys)
    ensures multiset(Listed(r, devices + [d], keys)) ==
              multiset(Listed(r, devices, keys)) + if r.key(d) in keys then multiset{d} else multiset{}
  {
    if keys != [] {
      var init, k := keys[..|keys| - 1], keys[|keys| - 1];
      ListOne(r, devices, d, init);
      GroupGrows(r, devices, d, k);
      assert keys == init + [k];
    }
  }

  /** Every record is in exactly one group: nothing is lost and nothing is shown twice. */
  lemma {:induction false} Partition(r: Rule, devices: seq<Device>)
    ensures multiset(Listed(r, devices, Keys(r, devices))) == multiset(devices)
  {
    if devices != [] {
      var init, d := devices[..|devices| - 1], devices[|devices| - 1];
      assert devices == init + [d];
      Partition(r, init);
      ListMore(r, init, d);
    }
  }

  lemma ListMore(r: Rule, devices: seq<Device>, d: Device)
    ensures multiset(Listed(r, devices + [d], Keys(r, devices + [d]))) ==
              multiset(Listed(r, devices, Keys(r, devices))) + multiset{d}
  {
    KeysDistinct(r, devices + [d]);
    KeysGrow(r, devices, d);
    ListOne(r, devices, d, Keys(r, devices + [d]));
    if r.key(d) !in Keys(r, devices) {
      NewKeyIsEmpty(r, devices, r.key(d));
    }
  }

  lemma NewKeyIsEmpty(r: Rule, devices: seq<Device>, k: Key)
    requires k !in Keys(r, devices)
    ensures Listed(r, devices, Keys(r, devices) + [k]) == Listed(r, devices, Keys(r, devices))
  {
    KeysExactly(r, devices, k);
    assert (Keys(r, devices) + [k])[..|Keys(r, devices)|] == Keys(r, devices);
  }

  function RecordCounts(groups: seq<Group>): int {
    if groups == [] then 0 else RecordCounts(groups[..|groups| - 1]) + groups[|groups| - 1].recordCount
  }

  lemma {:induction false} CountsAre(r: Rule, devices: seq<Device>, keys: seq<Key>, groups: seq<Group>)
    requires |groups| == |keys| && forall i :: 0 <= i < |keys| ==> groups[i] == GroupOf(r, devices, keys[i])
    ensures RecordCounts(groups) == |Listed(r, devices, keys)|
  {
    if keys != [] {
      CountsAre(r, devices, keys[..|keys| - 1], groups[..|groups| - 1]);
    }
  }

  /** The record counts of the returned groups add up to the number of records. */
  lemma CountsAddUp(r: Rule, devices: seq<Device>, groups: seq<Group>)
    requires |groups| == |Keys(r, devices)|
    requires forall i :: 0 <= i < |groups| ==> groups[i] == GroupOf(r, devices, Keys(r, devices)[i])
    ensures RecordCounts(groups) == |devices|
  {
    Partition(r, devices);
    CountsAre(r, devices, Keys(r, devices), groups);
    assert |multiset(devices)| == |multiset(Listed(r, devices, Keys(r, devices)))|;
  }

  // ---------------------------------------------------------------- the count

  ghost function Active(devices: seq<Device>): set<Device> { set d | d in devices && d.blocked == 0 }

  /** SELECT COUNT(*) over the groups of the given rows with blocked = 0. */
  ghost function SqlCount(devices: seq<Device>): nat { |Image(Active(devices), KeyBy(UnknownInSql))| }

  /** The keys of the listed groups that have an unblocked record. */
  ghost function ActiveKeys(r: Rule, devices: seq<Device>): set<Key> {
    set k | k in Keys(r, devices) && 0 < GroupOf(r, devices, k).unblockedCount
  }

  ghost predicate KeyedActive(r: Rule, devices: seq<Device>, k: Key) { exists d :: d in Active(devices) && r.key(d) == k }

  lemma {:induction false} UnblockedExactly(devices: seq<Device>)
    ensures 0 <= UnblockedIn(devices)
    ensures 0 < UnblockedIn(devices) <==> Active(devices) != {}
  {
    if devices != [] {
      var init, last := devices[..|devices| - 1], devices[|devices| - 1];
      UnblockedExactly(init);
      assert devices == init + [last];
      assert Active(devices) == Active(init) + if last.blocked == 0 then {last} else {};
    }
  }

  lemma {:induction false} RecordsExactly(r: Rule, devices: seq<Device>, k: Key, d: Device)
    ensures d in Records(r, devices, k) <==> d in devices && r.key(d) == k
  {
    if devices != [] {
      var init, last := devices[..|devices| - 1], devices[|devices| - 1];
      RecordsExactly(r, init, k, d);
      assert devices == init + [last];
    }
  }

  lemma ActiveKeysAre(r: Rule, devices: seq<Device>)
    ensures ActiveKeys(r, devices) == Image(Active(devices), r.key)
  {
    forall k ensures k in ActiveKeys(r, devices) <==> KeyedActive(r, devices, k) {
      KeysExactly(r, devices, k);
      var records := Records(r, devices, k);
      UnblockedExactly(records);
      forall d ensures d in records <==> d in devices && r.key(d) == k { RecordsExactly(r, devices, k, d); }
      if k in ActiveKeys(r, devices) {
        var d := Pick(Active(records));
        assert d in Active(devices);
      }
      if KeyedActive(r, devices, k) {
        var d :| d in Active(devices) && r.key(d) == k;
        assert d in Active(records);
      }
    }
  }

  // ---------------------------------------------------------------- where list and count differ

  lemma KelvinIsKnown(s: string, i: nat)
    requires i < |s| && s[i] == KELVIN
    ensures s !in UNKNOWN_NAMES
  {
  }

  lemma SameWithoutKelvin(name: string)
    requires KELVIN !in name
    ensures Map(LowerPython, name) == Map(LowerSql, name)
  {
  }

  /** The two rules for unknown names part ways exactly over the Kelvin sign. */
  lemma UnknownAgreesExactly(name: string)
    ensures UnknownInSql(name) <==> UnknownInPython(name) && KELVIN !in name
  {
    if KELVIN in name {
      var i :| 0 <= i < |name| && name[i] == KELVIN;
      KelvinIsKnown(Map(LowerSql, name), i);
    } else {
      SameWithoutKelvin(name);
    }
  }

  /** The table's primary key. */
  ghost predicate UniqueIds(devices: seq<Device>) {
    forall d, e :: d in devices && e in devices && d.user == e.user && d.id == e.id ==> d == e
  }

  /** Two records of a user under one unknown label that is spelt with a Kelvin sign. */
  ghost predicate Clash(unknown: string -> bool, d: Device, e: Device) {
    d != e && d.user == e.user && NameOf(d) == NameOf(e) && KELVIN in NameOf(d) && unknown(NameOf(d))
  }

  /** q is p without the names that hold a Kelvin sign. */
  ghost predicate Narrower(p: string -> bool, q: string -> bool) { forall n :: q(n) <==> p(n) && KELVIN !in n }

  /** The narrower rule never splits a group, and it merges two records of different groups exactly if they clash. */
  lemma MergesExactly(p: string -> bool, q: string -> bool, devices: seq<Device>, d: Device, e: Device)
    requires Narrower(p, q) && UniqueIds(devices) && d in devices && e in devices
    ensures KeyOf(p, d) == KeyOf(p, e) ==> KeyOf(q, d) == KeyOf(q, e)
    ensures KeyOf(q, d) == KeyOf(q, e) && KeyOf(p, d) != KeyOf(p, e) <==> Clash(p, d, e)
  {
  }

  lemma FewerExactly(p: string -> bool, q: string -> bool, devices: seq<Device>)
    requires Narrower(p, q) && UniqueIds(devices)
    ensures var active, f, g := Active(devices), KeyBy(p), KeyBy(q);
            && |Image(active, g)| <= |Image(active, f)|
            && (|Image(active, g)| == |Image(active, f)| <==> forall d, e :: d in active && e in active ==> !Clash(p, d, e))
  {
    forall d, e | d in devices && e in devices
      ensures KeyOf(p, d) == KeyOf(p, e) ==> KeyOf(q, d) == KeyOf(q, e)
      ensures KeyOf(q, d) == KeyOf(q, e) && KeyOf(p, d) != KeyOf(p, e) <==> Clash(p, d, e)
    {
      MergesExactly(p, q, devices, d, e);
    }
    ImageFactors(Active(devices), KeyBy(p), KeyBy(q));
  }

  ghost predicate NoClash(devices: seq<Device>) {
    forall d, e :: d in Active(devices) && e in Active(devices) ==> !Clash(UnknownInPython, d, e)
  }

  /**
    The number of listed groups with an unblocked record is never below the database's count, and is
    equal to it exactly if no two unblocked records clash.
  */
  lemma CountAgreesExactly(devices: seq<Device>)
    requires UniqueIds(devices)
    ensures SqlCount(devices) <= |ActiveKeys(ByNames(), devices)|
    ensures SqlCount(devices) == |ActiveKeys(ByNames(), devices)| <==> NoClash(devices)
  {
    forall n ensures UnknownInSql(n) <==> UnknownInPython(n) && KELVIN !in n { UnknownAgreesExactly(n); }
    ActiveKeysAre(ByNames(), devices);
    FewerExactly(UnknownInPython, UnknownInSql, devices);
  }

  /** They do differ: two devices of one account whose name spells the last label with a Kelvin sign. */
  lemma CountsMayDiffer()
    ensures exists devices :: UniqueIds(devices) && SqlCount(devices) < |ActiveKeys(ByNames(), devices)|
  {
    var name := "un" + [KELVIN] + "nown";
    var devices := [Device("u", "1", name, 0), Device("u", "2", name, 0)];
    assert name[2] == KELVIN && Map(LowerPython, name) == "unknown";
    assert Strip(name) == name;
    assert devices[0] in Active(devices) && devices[1] in Active(devices) && Clash(UnknownInPython, devices[0], devices[1]);
    CountAgreesExactly(devices);
  }
}
