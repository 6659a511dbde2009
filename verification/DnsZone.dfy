// The update script of dns/updater.go and what a name server does with it.
// Records follow RFC 2136, sections 2.5.1 (add to an RRset) and 2.5.2 (delete
// an RRset); the updates queued before a send are applied together or not at
// all (section 3.4.1: every name must lie in the zone).
module DnsZone {
  import opened Text
  import opened ManagedNames

  datatype Record = Record(ttl: int, target: string)

  datatype Key = Key(name: string, rtype: string)

  type Records = map<Key, set<Record>>

  datatype Command =
    | ServerIs(address: string)
    | ZoneIs(zone: string)
    | DeleteAll(name: string, rtype: string)
    | AddRecord(name: string, ttl: int, rtype: string, target: string)
    | Send

  /** Record types are tokens without case. */
  function TypeOf(text: string): string { ToUpper(TrimSpace(text)) }

  function KeyOf(name: string, rtype: string): Key { Key(name, TypeOf(rtype)) }

  const ADDRESS_TYPES := ["A", "AAAA"]

  predicate IsAddress(rtype: string) { TypeOf(rtype) in ADDRESS_TYPES }

  // ----- the script ----------------------------------------------------------

  function DeletedTypes(rtype: string): seq<string> {
    if IsAddress(rtype) then ADDRESS_TYPES else [rtype]
  }

  function Names(hostLabel: string, zone: string, wildcard: bool): seq<string> {
    var name := Join(hostLabel, zone);
    if wildcard then [name, Join("*", name)] else [name]
  }

  function DeletesOf(names: seq<string>, rtype: string): seq<Command> {
    if names == [] then [] else [DeleteAll(names[0], rtype)] + DeletesOf(names[1..], rtype)
  }

  function Deletions(names: seq<string>, types: seq<string>): seq<Command> {
    if types == [] then [] else DeletesOf(names, types[0]) + Deletions(names, types[1..])
  }

  function Additions(names: seq<string>, rtype: string, rr: Record): seq<Command> {
    if names == [] then [] else [AddRecord(names[0], rr.ttl, rtype, rr.target)] + Additions(names[1..], rtype, rr)
  }

  function UpsertScript(server: string, hostLabel: string, zone: string, rtype: string, rr: Record,
                        wildcard: bool): seq<Command> {
    var names := Names(hostLabel, zone, wildcard);
    [ServerIs(server), ZoneIs(zone)] + Deletions(names, DeletedTypes(rtype)) + Additions(names, rtype, rr) + [Send]
  }

  method BuildUpsertScript(server: string, hostLabel: string, zone: string, rtype: string, target: string, ttl: int,
                           wildcard: bool)
    returns (script: seq<Command>)
    ensures script == UpsertScript(server, hostLabel, zone, rtype, Record(ttl, target), wildcard)
  {
    var name := hostLabel + "." + zone;
    ghost var names := Names(hostLabel, zone, wildcard);
    script := [ServerIs(server)];
    script := script + [ZoneIs(zone)];
    var deleteTypes := [rtype];
    var normalized := TypeOf(rtype);
    if normalized == "A" || normalized == "AAAA" { deleteTypes := ["A", "AAAA"]; }
    assert deleteTypes == DeletedTypes(rtype) by { AddressTypes(normalized); }
    ghost var deletions, additions := Deletions(names, deleteTypes), Additions(names, rtype, Record(ttl, target));
    assert UpsertScript(server, hostLabel, zone, rtype, Record(ttl, target), wildcard)
        == [ServerIs(server), ZoneIs(zone)] + deletions + additions + [Send];
    assert script == [ServerIs(server), ZoneIs(zone)];
    ghost var all := script + deletions;
    for i := 0 to |deleteTypes|
      invariant script + Deletions(names, deleteTypes[i..]) == all
    {
      ghost var before := script;
      script := script + [DeleteAll(name, deleteTypes[i])];
      if wildcard { script := script + [DeleteAll("*." + name, deleteTypes[i])]; }
      assert script == before + Twice(DeleteAll(name, deleteTypes[i]), DeleteAll("*." + name, deleteTypes[i]), wildcard);
      OneTypeDeleted(before, hostLabel, zone, deleteTypes, i, wildcard);
    }
    assert script + [] == script;
    ghost var deleted := script;
    script := script + [AddRecord(name, ttl, rtype, target)];
    if wildcard { script := script + [AddRecord("*." + name, ttl, rtype, target)]; }
    AdditionsWritten(hostLabel, zone, rtype, Record(ttl, target), wildcard);
    assert script == deleted + additions;
    script := script + [Send];
  }

  lemma AddressTypes(token: string)
    ensures token in ADDRESS_TYPES <==> token == "A" || token == "AAAA"
  {
    assert ADDRESS_TYPES[0] == "A" && ADDRESS_TYPES[1] == "AAAA";
  }

  /** A command and its wildcard companion. */
  function Twice(c: Command, companion: Command, wildcard: bool): seq<Command> {
    if wildcard then [c, companion] else [c]
  }

  lemma OneTypeDeleted(script: seq<Command>, hostLabel: string, zone: string, types: seq<string>, i: nat,
                       wildcard: bool)
    requires i < |types|
    ensures var name, names := hostLabel + "." + zone, Names(hostLabel, zone, wildcard);
            script + Deletions(names, types[i..])
            == script + Twice(DeleteAll(name, types[i]), DeleteAll("*." + name, types[i]), wildcard) + Deletions(names, types[i + 1..])
  {
    assert types[i..][0] == types[i] && types[i..][1..] == types[i + 1..];
    DeletesWritten(hostLabel, zone, types[i], wildcard);
  }

  lemma DeletesWritten(hostLabel: string, zone: string, rtype: string, wildcard: bool)
    ensures var name := hostLabel + "." + zone;
            DeletesOf(Names(hostLabel, zone, wildcard), rtype)
            == Twice(DeleteAll(name, rtype), DeleteAll("*." + name, rtype), wildcard)
  {
    var name := Join(hostLabel, zone);
    assert "*." + name == Join("*", name);
    assert DeletesOf([Join("*", name)], rtype) == [DeleteAll(Join("*", name), rtype)] + [];
    assert [name, Join("*", name)][1..] == [Join("*", name)] && [name][1..] == [];
  }

  lemma AdditionsWritten(hostLabel: string, zone: string, rtype: string, rr: Record, wildcard: bool)
    ensures var name := hostLabel + "." + zone;
            Additions(Names(hostLabel, zone, wildcard), rtype, rr)
            == Twice(AddRecord(name, rr.ttl, rtype, rr.target), AddRecord("*." + name, rr.ttl, rtype, rr.target), wildcard)
  {
    var name := Join(hostLabel, zone);
    assert "*." + name == Join("*", name);
    assert Additions([Join("*", name)], rtype, rr) == [AddRecord(Join("*", name), rr.ttl, rtype, rr.target)] + [];
    assert [name, Join("*", name)][1..] == [Join("*", name)] && [name][1..] == [];
  }

  // ----- a name server ----------------------------------------------------------

  predicate IsUpdate(c: Command) { c.DeleteAll? || c.AddRecord? }

  function ApplyUpdate(records: Records, c: Command): Records {
    match c
    case DeleteAll(name, rtype) => records - {KeyOf(name, rtype)}
    case AddRecord(name, ttl, rtype, target) =>
      var key := KeyOf(name, rtype);
      var kept := if key in records then set r | r in records[key] && r.target != target else {};
      records[key := kept + {Record(ttl, target)}]
    case _ => records
  }

  function ApplyAll(records: Records, updates: seq<Command>): Records
    decreases |updates|
  {
    if updates == [] then records else ApplyAll(ApplyUpdate(records, updates[0]), updates[1..])
  }

  predicate InZone(c: Command, zone: string) {
    IsUpdate(c) ==> c.name == zone || HasSuffix(c.name, "." + zone)
  }

  datatype Session = Session(zone: string, queue: seq<Command>, records: Records)

  function Feed(s: Session, c: Command): Session {
    match c
    case ServerIs(_) => s
    case ZoneIs(zone) => s.(zone := zone)
    case Send =>
      if forall u :: u in s.queue ==> InZone(u, s.zone) then Session(s.zone, [], ApplyAll(s.records, s.queue))
      else s.(queue := [])
    case _ => s.(queue := s.queue + [c])
  }

  function Play(s: Session, script: seq<Command>): Session
    decreases |script|
  {
    if script == [] then s else Play(Feed(s, script[0]), script[1..])
  }

  function Execute(records: Records, script: seq<Command>): Records {
    Play(Session("", [], records), script).records
  }

  // ----- what the script does -----------------------------------------------------

  /** The names now hold exactly one record of type rtype and none of the other
      types; nothing else has changed. */
  function Upserted(records: Records, names: seq<string>, types: seq<string>, rtype: string, rr: Record): Records {
    (map k | k in records && !(k.name in names && k.rtype in types) :: records[k])
    + (map name | name in names :: Key(name, rtype) := {rr})
  }

  lemma {:induction false} PlayQueues(s: Session, updates: seq<Command>, rest: seq<Command>)
    requires forall c :: c in updates ==> IsUpdate(c)
    ensures Play(s, updates + rest) == Play(s.(queue := s.queue + updates), rest)
    decreases |updates|
  {
    if updates == [] {
      assert updates + rest == rest && s.queue + updates == s.queue;
    } else {
      var first, script := updates[0], updates + rest;
      assert first in updates && script[0] == first && script[1..] == updates[1..] + rest;
      assert Play(s, script) == Play(Feed(s, first), updates[1..] + rest);
      PlayQueues(Feed(s, first), updates[1..], rest);
      assert s.queue + [first] + updates[1..] == s.queue + updates;
    }
  }

  lemma {:induction false} ApplyInTurn(records: Records, first: seq<Command>, second: seq<Command>)
    ensures ApplyAll(records, first + second) == ApplyAll(ApplyAll(records, first), second)
    decreases |first|
  {
    if first == [] {
      assert first + second == second;
    } else {
      assert (first + second)[1..] == first[1..] + second;
      ApplyInTurn(ApplyUpdate(records, first[0]), first[1..], second);
    }
  }

  /** Whether one of the delete commands for these names and types hits key k. */
  predicate Hit(k: Key, names: seq<string>, types: seq<string>) {
    k.name in names && exists t :: t in types && k.rtype == TypeOf(t)
  }

  function Without(records: Records, names: seq<string>, types: seq<string>): Records {
    map k | k in records && !Hit(k, names, types) :: records[k]
  }

  lemma {:induction false} DeletesMean(records: Records, names: seq<string>, rtype: string)
    ensures ApplyAll(records, DeletesOf(names, rtype)) == Without(records, names, [rtype])
    decreases |names|
  {
    if names == [] {
      assert Without(records, names, [rtype]) == records;
    } else {
      var fewer := records - {KeyOf(names[0], rtype)};
      DeletesMean(fewer, names[1..], rtype);
      forall k ensures Hit(k, names, [rtype]) <==> k == KeyOf(names[0], rtype) || Hit(k, names[1..], [rtype]) {
        assert rtype in [rtype];
        assert k.name in names <==> k.name == names[0] || k.name in names[1..];
      }
      assert Without(fewer, names[1..], [rtype]) == Without(records, names, [rtype]);
    }
  }

  lemma {:induction false} DeletionsMean(records: Records, names: seq<string>, types: seq<string>)
    ensures ApplyAll(records, Deletions(names, types)) == Without(records, names, types)
    decreases |types|
  {
    if types == [] {
      assert Without(records, names, types) == records;
    } else {
      var fewer := Without(records, names, [types[0]]);
      ApplyInTurn(records, DeletesOf(names, types[0]), Deletions(names, types[1..]));
      DeletesMean(records, names, types[0]);
      DeletionsMean(fewer, names, types[1..]);
      forall k ensures Hit(k, names, types) <==> Hit(k, names, [types[0]]) || Hit(k, names, types[1..]) {
        assert types[0] in [types[0]];
        assert forall t :: t in types <==> t == types[0] || t in types[1..];
      }
      assert Without(fewer, names, types[1..]) == Without(records, names, types);
    }
  }

  function Added(records: Records, names: seq<string>, rtype: string, rr: Record): Records {
    records + map name | name in names :: Key(name, rtype) := {rr}
  }

  lemma AddedOneMore(records: Records, names: seq<string>, rtype: string, rr: Record)
    requires names != []
    ensures Added(records[Key(names[0], rtype) := {rr}], names[1..], rtype, rr) == Added(records, names, rtype, rr)
  {
    assert forall name :: name in names <==> name == names[0] || name in names[1..];
  }

  lemma {:induction false} AdditionsMean(records: Records, names: seq<string>, rtype: string, rr: Record)
    requires forall i, j :: 0 <= i < j < |names| ==> names[i] != names[j]
    requires forall name :: name in names ==> Key(name, TypeOf(rtype)) !in records
    ensures ApplyAll(records, Additions(names, rtype, rr)) == Added(records, names, TypeOf(rtype), rr)
    decreases |names|
  {
    if names == [] {
      assert Added(records, names, TypeOf(rtype), rr) == records;
    } else {
      var key := Key(names[0], TypeOf(rtype));
      var more := ApplyUpdate(records, AddRecord(names[0], rr.ttl, rtype, rr.target));
      assert names[0] in names && Record(rr.ttl, rr.target) == rr;
      assert {} + {rr} == {rr};
      assert more == records[key := {rr}];
      AdditionsMean(more, names[1..], rtype, rr);
      AddedOneMore(records, names, TypeOf(rtype), rr);
    }
  }

  lemma {:induction false} DeletesInZone(names: seq<string>, rtype: string, zone: string)
    requires forall name :: name in names ==> HasSuffix(name, "." + zone)
    ensures forall c :: c in DeletesOf(names, rtype) ==> IsUpdate(c) && InZone(c, zone)
    decreases |names|
  {
    if names != [] { DeletesInZone(names[1..], rtype, zone); }
  }

  lemma {:induction false} DeletionsInZone(names: seq<string>, types: seq<string>, zone: string)
    requires forall name :: name in names ==> HasSuffix(name, "." + zone)
    ensures forall c :: c in Deletions(names, types) ==> IsUpdate(c) && InZone(c, zone)
    decreases |types|
  {
    if types != [] {
      DeletesInZone(names, types[0], zone);
      DeletionsInZone(names, types[1..], zone);
    }
  }

  lemma {:induction false} AdditionsInZone(names: seq<string>, rtype: string, rr: Record, zone: string)
    requires forall name :: name in names ==> HasSuffix(name, "." + zone)
    ensures forall c :: c in Additions(names, rtype, rr) ==> IsUpdate(c) && InZone(c, zone)
    decreases |names|
  {
    if names != [] { AdditionsInZone(names[1..], rtype, rr, zone); }
  }

  lemma NamesInZone(hostLabel: string, zone: string, wildcard: bool)
    ensures var names := Names(hostLabel, zone, wildcard);
            && (forall name :: name in names ==> HasSuffix(name, "." + zone))
            && (forall i, j :: 0 <= i < j < |names| ==> names[i] != names[j])
  {
    var name := Join(hostLabel, zone);
    assert name[|name| - |"." + zone|..] == "." + zone;
    assert Join("*", name)[|name| + 2 - |"." + zone|..] == "." + zone;
    assert |Join("*", name)| == |name| + 2;
  }

  /** The tokens of the types a script deletes. */
  function DeletedTokens(rtype: string): seq<string> {
    if IsAddress(rtype) then ADDRESS_TYPES else [TypeOf(rtype)]
  }

  lemma TokensHit(k: Key, names: seq<string>, rtype: string)
    ensures Hit(k, names, DeletedTypes(rtype)) <==> k.name in names && k.rtype in DeletedTokens(rtype)
  {
    assert TypeOf("A") == "A" && TypeOf("AAAA") == "AAAA";
    assert "A" in ADDRESS_TYPES && "AAAA" in ADDRESS_TYPES && rtype in [rtype];
  }

  lemma ScriptApplies(records: Records, server: string, zone: string, updates: seq<Command>)
    requires forall c :: c in updates ==> IsUpdate(c) && InZone(c, zone)
    ensures Execute(records, [ServerIs(server), ZoneIs(zone)] + updates + [Send]) == ApplyAll(records, updates)
  {
    var script := [ServerIs(server), ZoneIs(zone)] + updates + [Send];
    var s := Session("", [], records);
    assert script[0] == ServerIs(server) && script[1..] == [ZoneIs(zone)] + updates + [Send];
    assert script[1..][0] == ZoneIs(zone) && script[1..][1..] == updates + [Send];
    assert Play(s, script) == Play(s, script[1..]);
    assert Play(s, script[1..]) == Play(s.(zone := zone), updates + [Send]);
    PlayQueues(s.(zone := zone), updates, [Send]);
    var queued := Session(zone, updates, records);
    assert [] + updates == updates;
    assert Play(queued, [Send]) == Play(Feed(queued, Send), [Send][1..]) == Feed(queued, Send);
  }

  /** The server accepts every upsert script, and the script does just that: one
      record at the host name and, with a wildcard, at its companion; for an
      address no record of the other family is left behind. */
  lemma UpsertMeans(records: Records, server: string, hostLabel: string, zone: string, rtype: string, rr: Record,
                    wildcard: bool)
    ensures Execute(records, UpsertScript(server, hostLabel, zone, rtype, rr, wildcard))
         == Upserted(records, Names(hostLabel, zone, wildcard), DeletedTokens(rtype), TypeOf(rtype), rr)
  {
    var names := Names(hostLabel, zone, wildcard);
    var deletes, adds := Deletions(names, DeletedTypes(rtype)), Additions(names, rtype, rr);
    NamesInZone(hostLabel, zone, wildcard);
    DeletionsInZone(names, DeletedTypes(rtype), zone);
    AdditionsInZone(names, rtype, rr, zone);
    ScriptApplies(records, server, zone, deletes + adds);
    assert UpsertScript(server, hostLabel, zone, rtype, rr, wildcard)
        == [ServerIs(server), ZoneIs(zone)] + (deletes + adds) + [Send];
    UpdatesMean(records, names, rtype, rr);
  }

  lemma UpdatesMean(records: Records, names: seq<string>, rtype: string, rr: Record)
    requires forall i, j :: 0 <= i < j < |names| ==> names[i] != names[j]
    ensures ApplyAll(records, Deletions(names, DeletedTypes(rtype)) + Additions(names, rtype, rr))
         == Upserted(records, names, DeletedTokens(rtype), TypeOf(rtype), rr)
  {
    var fewer := Without(records, names, DeletedTypes(rtype));
    ApplyInTurn(records, Deletions(names, DeletedTypes(rtype)), Additions(names, rtype, rr));
    DeletionsMean(records, names, DeletedTypes(rtype));
    WithoutIs(records, names, rtype);
    AdditionsMean(fewer, names, rtype, rr);
  }

  lemma WithoutIs(records: Records, names: seq<string>, rtype: string)
    ensures Without(records, names, DeletedTypes(rtype))
         == map k | k in records && !(k.name in names && k.rtype in DeletedTokens(rtype)) :: records[k]
    ensures forall name :: name in names ==> Key(name, TypeOf(rtype)) !in Without(records, names, DeletedTypes(rtype))
  {
    forall k ensures Hit(k, names, DeletedTypes(rtype)) <==> k.name in names && k.rtype in DeletedTokens(rtype) {
      TokensHit(k, names, rtype);
    }
    assert TypeOf(rtype) in DeletedTokens(rtype);
  }
}
