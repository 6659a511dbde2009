// The update script of dns/updater.go as text, and a reader that takes it apart
// into lines and words again: exactly when it reads the commands that were meant.
module ScriptText {
  import opened Wrappers
  import opened Text
  import opened ManagedNames
  import opened DnsZone
  import opened HostTables
  import opened HostSoundness
  import opened HostZones

  // ----- numbers ---------------------------------------------------------------

  function Digit(n: nat): char
    requires n < 10
  {
    "0123456789"[n]
  }

  predicate IsDigit(c: char) { '0' <= c <= '9' }

  function DigitValue(c: char): nat
    requires IsDigit(c)
  {
    (c - '0') as nat
  }

  function Digits(n: nat): (r: string)
    ensures r != "" && forall c :: c in r ==> IsDigit(c)
  {
    if n < 10 then [Digit(n)] else Digits(n / 10) + [Digit(n % 10)]
  }

  function Number(s: string): Option<nat> {
    if s == "" || !IsDigit(s[|s| - 1]) then None
    else if |s| == 1 then Some(DigitValue(s[0]))
    else
      match Number(s[..|s| - 1])
      case None => None
      case Some(n) => Some(10 * n + DigitValue(s[|s| - 1]))
  }

  /** %d */
  function Decimal(i: int): string { if i < 0 then "-" + Digits(-i) else Digits(i) }

  function ReadDecimal(s: string): Option<int> {
    var negative := s != "" && s[0] == '-';
    match Number(if negative then s[1..] else s)
    case None => None
    case Some(n) =>
      var i: int := n;
      Some(if negative then -i else i)
  }

  lemma DigitReads(n: nat)
    requires n < 10
    ensures IsDigit(Digit(n)) && DigitValue(Digit(n)) == n
  {
  }

  lemma {:induction false} DigitsRead(n: nat)
    ensures Number(Digits(n)) == Some(n)
  {
    DigitReads(n % 10);
    if n >= 10 {
      var s := Digits(n);
      assert s[..|s| - 1] == Digits(n / 10) && s[|s| - 1] == Digit(n % 10);
      DigitsRead(n / 10);
    }
  }

  lemma NegativeReads(i: int)
    requires i < 0
    ensures ReadDecimal(Decimal(i)) == Some(i)
  {
    var n: nat := -i;
    DigitsRead(n);
    assert Decimal(i) == "-" + Digits(n) && ("-" + Digits(n))[1..] == Digits(n);
  }

  lemma PositiveReads(n: nat)
    ensures ReadDecimal(Decimal(n)) == Some(n)
  {
    DigitsRead(n);
    assert Digits(n)[0] in Digits(n);
  }

  lemma DecimalReads(i: int)
    ensures ReadDecimal(Decimal(i)) == Some(i)
  {
    if i < 0 { NegativeReads(i); } else { PositiveReads(i); }
  }

  // ----- words and lines ------------------------------------------------------------

  predicate IsWord(s: string) { s != "" && forall c :: c in s ==> !IsSpace(c) }

  lemma DecimalIsWord(i: int)
    ensures IsWord(Decimal(i))
  {
  }

  /** Words with single spaces between them. */
  function Line(words: seq<string>): string {
    if words == [] then "" else if |words| == 1 then words[0] else words[0] + (" " + Line(words[1..]))
  }

  function Lines(lines: seq<seq<string>>): string {
    if lines == [] then "" else Line(lines[0]) + ("\n" + Lines(lines[1..]))
  }

  /** How many characters come before the first that is one of stops. */
  function Before(s: string, stops: char -> bool): (n: nat)
    ensures n <= |s| && (forall i :: 0 <= i < n ==> !stops(s[i])) && (n < |s| ==> stops(s[n]))
  {
    if s == "" || stops(s[0]) then 0 else 1 + Before(s[1..], stops)
  }

  lemma BeforeIs(s: string, stops: char -> bool, n: nat)
    requires n <= |s| && (forall i :: 0 <= i < n ==> !stops(s[i])) && (n < |s| ==> stops(s[n]))
    ensures Before(s, stops) == n
  {
  }

  /** Words are separated by white space, any amount of it. */
  function ReadWords(s: string): seq<string>
    decreases |s|
  {
    if s == "" then []
    else if IsSpace(s[0]) then ReadWords(s[1..])
    else
      var n := Before(s, IsSpace);
      [s[..n]] + ReadWords(s[n..])
  }

  predicate IsBreak(c: char) { c == '\n' }

  function ReadLines(s: string): seq<seq<string>>
    decreases |s|
  {
    if s == "" then []
    else
      var n := Before(s, IsBreak);
      [ReadWords(s[..n])] + (if n < |s| then ReadLines(s[n + 1..]) else [])
  }

  lemma WordReads(word: string, rest: string)
    requires IsWord(word) && (rest != "" ==> IsSpace(rest[0]))
    ensures ReadWords(word + rest) == [word] + ReadWords(rest)
  {
    var s := word + rest;
    assert forall i :: 0 <= i < |word| ==> s[i] in word;
    BeforeIs(s, IsSpace, |word|);
    assert s[..|word|] == word && s[|word|..] == rest;
  }

  lemma {:induction false} LineReads(words: seq<string>)
    requires forall w :: w in words ==> IsWord(w)
    ensures ReadWords(Line(words)) == words
    decreases |words|
  {
    if words != [] {
      var rest := Line(words[1..]);
      assert words[0] in words && words == [words[0]] + words[1..];
      LineReads(words[1..]);
      if |words| == 1 {
        WordReads(words[0], "");
        assert words[0] + "" == words[0];
      } else {
        WordReads(words[0], " " + rest);
        assert (" " + rest)[1..] == rest;
      }
    }
  }

  lemma {:induction false} LineHasNoBreak(words: seq<string>)
    requires forall w :: w in words ==> IsWord(w)
    ensures forall c :: c in Line(words) ==> !IsBreak(c)
    decreases |words|
  {
    if words != [] {
      assert words[0] in words;
      LineHasNoBreak(words[1..]);
    }
  }

  lemma {:induction false} LinesRead(lines: seq<seq<string>>)
    requires forall l, w :: l in lines && w in l ==> IsWord(w)
    ensures ReadLines(Lines(lines)) == lines
    decreases |lines|
  {
    if lines != [] {
      var first, rest := Line(lines[0]), Lines(lines[1..]);
      var s := first + ("\n" + rest);
      assert lines[0] in lines && lines == [lines[0]] + lines[1..];
      LineReads(lines[0]);
      LineHasNoBreak(lines[0]);
      assert forall i :: 0 <= i < |first| ==> s[i] in first;
      BeforeIs(s, IsBreak, |first|);
      assert s[..|first|] == first && s[|first| + 1..] == rest;
      LinesRead(lines[1..]);
    }
  }

  /** Whatever is read, it consists of words. */
  lemma {:induction false} WordsAreRead(s: string)
    ensures forall w :: w in ReadWords(s) ==> IsWord(w)
    decreases |s|
  {
    if s != "" {
      if IsSpace(s[0]) {
        WordsAreRead(s[1..]);
      } else {
        var n := Before(s, IsSpace);
        WordsAreRead(s[n..]);
        assert IsWord(s[..n]) by {
          forall c | c in s[..n] ensures !IsSpace(c) {
            var i :| 0 <= i < n && s[i] == c;
          }
        }
      }
    }
  }

  lemma {:induction false} LinesHoldWords(s: string)
    ensures forall l, w :: l in ReadLines(s) && w in l ==> IsWord(w)
    decreases |s|
  {
    if s != "" {
      var n := Before(s, IsBreak);
      WordsAreRead(s[..n]);
      if n < |s| { LinesHoldWords(s[n + 1..]); }
    }
  }

  // ----- commands ------------------------------------------------------------------------

  function WordsOf(c: Command): seq<string> {
    match c
    case ServerIs(address) => ["server", address]
    case ZoneIs(zone) => ["zone", zone]
    case DeleteAll(name, rtype) => ["update", "delete", name, rtype]
    case AddRecord(name, ttl, rtype, target) => ["update", "add", name, Decimal(ttl), rtype, target]
    case Send => ["send"]
  }

  function AllWords(script: seq<Command>): seq<seq<string>> {
    seq(|script|, i requires 0 <= i < |script| => WordsOf(script[i]))
  }

  /** The script as it is written to the file. */
  function Written(script: seq<Command>): string { Lines(AllWords(script)) }

  function ReadCommand(words: seq<string>): Option<Command> {
    if |words| == 2 && words[0] == "server" then Some(ServerIs(words[1]))
    else if |words| == 2 && words[0] == "zone" then Some(ZoneIs(words[1]))
    else if |words| == 4 && words[0] == "update" && words[1] == "delete" then Some(DeleteAll(words[2], words[3]))
    else if |words| == 6 && words[0] == "update" && words[1] == "add" && ReadDecimal(words[3]).Some? then
      Some(AddRecord(words[2], ReadDecimal(words[3]).value, words[4], words[5]))
    else if |words| == 1 && words[0] == "send" then Some(Send)
    else None
  }

  function ReadCommands(lines: seq<seq<string>>): Option<seq<Command>> {
    if lines == [] then Some([])
    else
      match (ReadCommand(lines[0]), ReadCommands(lines[1..]))
      case (Some(c), Some(rest)) => Some([c] + rest)
      case _ => None
  }

  function ReadScript(text: string): Option<seq<Command>> { ReadCommands(ReadLines(text)) }

  /** Every text in the command is a word. */
  predicate IsPlain(c: Command) {
    match c
    case ServerIs(address) => IsWord(address)
    case ZoneIs(zone) => IsWord(zone)
    case DeleteAll(name, rtype) => IsWord(name) && IsWord(rtype)
    case AddRecord(name, _, rtype, target) => IsWord(name) && IsWord(rtype) && IsWord(target)
    case Send => true
  }

  lemma CommandReads(c: Command)
    ensures ReadCommand(WordsOf(c)) == Some(c)
    ensures IsPlain(c) ==> forall w :: w in WordsOf(c) ==> IsWord(w)
  {
    if c.AddRecord? {
      DecimalReads(c.ttl);
      DecimalIsWord(c.ttl);
    }
  }

  lemma {:induction false} CommandsRead(script: seq<Command>)
    ensures ReadCommands(AllWords(script)) == Some(script)
    decreases |script|
  {
    if script != [] {
      CommandReads(script[0]);
      assert AllWords(script)[1..] == AllWords(script[1..]);
      CommandsRead(script[1..]);
      assert script == [script[0]] + script[1..];
    }
  }

  lemma ReadIsPlain(words: seq<string>)
    requires (forall w :: w in words ==> IsWord(w)) && ReadCommand(words).Some?
    ensures IsPlain(ReadCommand(words).value)
  {
    assert forall i :: 0 <= i < |words| ==> words[i] in words;
  }

  lemma {:induction false} ReadsPlain(lines: seq<seq<string>>)
    requires (forall l, w :: l in lines && w in l ==> IsWord(w)) && ReadCommands(lines).Some?
    ensures forall c :: c in ReadCommands(lines).value ==> IsPlain(c)
    decreases |lines|
  {
    if lines != [] {
      assert lines[0] in lines;
      ReadIsPlain(lines[0]);
      ReadsPlain(lines[1..]);
    }
  }

  /** A script is read back as it was meant if and only if every text in it is a
      word: not empty and without white space. */
  lemma ReadsBackIff(script: seq<Command>)
    ensures ReadScript(Written(script)) == Some(script) <==> forall c :: c in script ==> IsPlain(c)
  {
    var lines := AllWords(script);
    if forall c :: c in script ==> IsPlain(c) {
      forall l, w | l in lines && w in l ensures IsWord(w) {
        var i :| 0 <= i < |lines| && lines[i] == l;
        assert script[i] in script;
        CommandReads(script[i]);
      }
      LinesRead(lines);
      CommandsRead(script);
    }
    if ReadScript(Written(script)) == Some(script) {
      LinesHoldWords(Written(script));
      ReadsPlain(ReadLines(Written(script)));
    }
  }

  // ----- the script of an update ------------------------------------------------------------

  lemma JoinIsWordIff(hostLabel: string, zone: string)
    requires zone != ""
    ensures IsWord(Join(hostLabel, zone)) <==> (forall c :: c in hostLabel ==> !IsSpace(c)) && IsWord(zone)
    ensures IsWord(Join("*", Join(hostLabel, zone))) <==> IsWord(Join(hostLabel, zone))
  {
    var name := Join(hostLabel, zone);
    assert forall c :: c in name <==> c in hostLabel || c == '.' || c in zone;
    assert forall c :: c in Join("*", name) <==> c == '*' || c == '.' || c in name;
  }

  /** With a server, a zone and an address that are words, the script of a host is
      read back if and only if the host's label has no white space in it. */
  lemma UpsertReadsBackIff(server: string, hostLabel: string, zone: string, v4: bool, rr: Record, wildcard: bool)
    requires IsWord(server) && IsWord(zone) && IsWord(rr.target)
    ensures var script := UpsertScript(server, hostLabel, zone, if v4 then "A" else "AAAA", rr, wildcard);
            ReadScript(Written(script)) == Some(script) <==> forall c :: c in hostLabel ==> !IsSpace(c)
  {
    var rtype := if v4 then "A" else "AAAA";
    var script, names := UpsertScript(server, hostLabel, zone, rtype, rr, wildcard), Names(hostLabel, zone, wildcard);
    ReadsBackIff(script);
    JoinIsWordIff(hostLabel, zone);
    NamesArePlainIff(hostLabel, zone, wildcard);
    AddressTypesAreWords(rtype);
    DeletionsPlainIff(names, DeletedTypes(rtype));
    AdditionsPlainIff(names, rtype, rr);
    ScriptParts(server, hostLabel, zone, rtype, rr, wildcard);
  }

  predicate AllPlain(script: seq<Command>) { forall c :: c in script ==> IsPlain(c) }

  lemma BothPlain(a: seq<Command>, b: seq<Command>)
    ensures AllPlain(a + b) <==> AllPlain(a) && AllPlain(b)
  {
    assert forall c :: c in a ==> c in a + b;
    assert forall c :: c in b ==> c in a + b;
  }

  lemma OnePlain(c: Command, rest: seq<Command>)
    ensures AllPlain([c] + rest) <==> IsPlain(c) && AllPlain(rest)
  {
    BothPlain([c], rest);
    assert c in [c];
  }

  lemma ScriptParts(server: string, hostLabel: string, zone: string, rtype: string, rr: Record, wildcard: bool)
    ensures var names := Names(hostLabel, zone, wildcard);
            AllPlain(UpsertScript(server, hostLabel, zone, rtype, rr, wildcard)) <==>
              && IsWord(server) && IsWord(zone)
              && AllPlain(Deletions(names, DeletedTypes(rtype))) && AllPlain(Additions(names, rtype, rr))
  {
    var names := Names(hostLabel, zone, wildcard);
    var script := UpsertScript(server, hostLabel, zone, rtype, rr, wildcard);
    var deletes, adds := Deletions(names, DeletedTypes(rtype)), Additions(names, rtype, rr);
    var begin := [ServerIs(server), ZoneIs(zone)];
    assert script == begin + deletes + adds + [Send];
    BothPlain(begin + deletes + adds, [Send]);
    BothPlain(begin + deletes, adds);
    BothPlain(begin, deletes);
    assert begin[0] in begin && begin[1] in begin;
  }

  lemma AddressTypesAreWords(rtype: string)
    requires rtype == "A" || rtype == "AAAA"
    ensures IsWord(rtype) && DeletedTypes(rtype) == ADDRESS_TYPES && forall t :: t in ADDRESS_TYPES ==> IsWord(t)
  {
    assert TypeOf("A") == "A" && TypeOf("AAAA") == "AAAA" && ADDRESS_TYPES[0] == "A" && ADDRESS_TYPES[1] == "AAAA";
  }

  lemma NamesArePlainIff(hostLabel: string, zone: string, wildcard: bool)
    requires zone != ""
    ensures var names := Names(hostLabel, zone, wildcard);
            names != [] && ((forall name :: name in names ==> IsWord(name)) <==> IsWord(Join(hostLabel, zone)))
  {
    JoinIsWordIff(hostLabel, zone);
    assert Names(hostLabel, zone, wildcard)[0] == Join(hostLabel, zone);
  }

  lemma {:induction false} DeletesPlainIff(names: seq<string>, rtype: string)
    requires IsWord(rtype)
    ensures AllPlain(DeletesOf(names, rtype)) <==> forall name :: name in names ==> IsWord(name)
    decreases |names|
  {
    if names != [] {
      DeletesPlainIff(names[1..], rtype);
      assert forall name :: name in names <==> name == names[0] || name in names[1..];
      OnePlain(DeleteAll(names[0], rtype), DeletesOf(names[1..], rtype));
    }
  }

  lemma {:induction false} DeletionsPlainIff(names: seq<string>, types: seq<string>)
    requires (forall t :: t in types ==> IsWord(t)) && types != []
    ensures AllPlain(Deletions(names, types)) <==> forall name :: name in names ==> IsWord(name)
    decreases |types|
  {
    assert types[0] in types;
    DeletesPlainIff(names, types[0]);
    if types[1..] == [] {
      assert Deletions(names, types) == DeletesOf(names, types[0]) + [];
    } else {
      DeletionsPlainIff(names, types[1..]);
      BothPlain(DeletesOf(names, types[0]), Deletions(names, types[1..]));
    }
  }

  lemma {:induction false} AdditionsPlainIff(names: seq<string>, rtype: string, rr: Record)
    requires IsWord(rtype) && IsWord(rr.target)
    ensures AllPlain(Additions(names, rtype, rr)) <==> forall name :: name in names ==> IsWord(name)
    decreases |names|
  {
    if names != [] {
      AdditionsPlainIff(names[1..], rtype, rr);
      assert forall name :: name in names <==> name == names[0] || name in names[1..];
      OnePlain(AddRecord(names[0], rr.ttl, rtype, rr.target), Additions(names[1..], rtype, rr));
    }
  }

  /** A request can ask for such a label: splitting checks only for dots. */
  lemma SpacedLabelIsSplit(c: Config, zone: string, v4: bool, rr: Record, wildcard: bool)
    requires Splittable(zone, Zones(c)) && IsWord(c.server) && IsWord(zone) && IsWord(rr.target)
    ensures Split(Join("a b", zone) + ".", c.allowedDomains) == Some(Managed("a b", zone))
    ensures var script := UpsertScript(c.server, "a b", zone, if v4 then "A" else "AAAA", rr, wildcard);
            ReadScript(Written(script)) != Some(script)
  {
    assert ToLower("a b") == "a b";
    RequestSplits(c, "a b", zone);
    UpsertReadsBackIff(c.server, "a b", zone, v4, rr, wildcard);
    assert "a b"[1] in "a b" && IsSpace("a b"[1]);
  }
}
