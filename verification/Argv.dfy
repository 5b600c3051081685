/** The two scanners of the command line: one extracts the `--prefill` entries, the other strips them. */
module Argv {
  import opened Text

  const PREFILL := "--prefill"

  /** `to_lowercase() == "none"`; no other letters have these as their lower case. */
  predicate IsNone(s: string) {
    |s| == 4 && s[0] in {'n', 'N'} && s[1] in {'o', 'O'} && s[2] in {'n', 'N'} && s[3] in {'e', 'E'}
  }

  /** How an argument is read as a port: `parse::<u16>()`, and the test for the word none. */
  datatype Reader = Reader(parse: string -> Option<nat>, none: string -> bool) {
    predicate IsPortArg(s: string) {
      !StartsWith(s, "--") && (parse(s).Some? || none(s))
    }
  }

  const RUST := Reader(s => ParseU16(s), s => IsNone(s))

  type Entry = (string, Option<nat>)

  /** What both scanners take an argument, or a run of arguments, to be. */
  datatype Token = Plain(arg: string) | Group(url: string, port: Option<string>) {
    function Args(): (args: seq<string>)
      ensures |args| > 0
    {
      match this
      case Plain(arg) => [arg]
      case Group(url, port) => if port.Some? then [PREFILL, url, port.value] else [PREFILL, url]
    }
  }

  /** The token that starts at index `i`: the flag needs a URL, and takes a port if one follows. */
  function TokenAt(rd: Reader, args: seq<string>, i: nat): Token
    requires i < |args|
  {
    if args[i] == PREFILL && i + 1 < |args| then
      Group(args[i + 1], if i + 2 < |args| && rd.IsPortArg(args[i + 2]) then Some(args[i + 2]) else None)
    else Plain(args[i])
  }

  function Next(rd: Reader, args: seq<string>, i: nat): (next: nat)
    requires i < |args|
    ensures i < next <= |args| && TokenAt(rd, args, i).Args() == args[i..next]
  {
    i + |TokenAt(rd, args, i).Args()|
  }

  /** The indices at which the tokens start. */
  function Starts(rd: Reader, args: seq<string>, i: nat): seq<nat>
    decreases |args| - i
  {
    if i >= |args| then [] else [i] + Starts(rd, args, Next(rd, args, i))
  }

  function EntryOf(rd: Reader, t: Token): seq<Entry> {
    if t.Group? then [(t.url, if t.port.Some? then rd.parse(t.port.value) else None)] else []
  }

  function Entries(rd: Reader, args: seq<string>, i: nat): seq<Entry>
    decreases |args| - i
  {
    if i >= |args| then [] else EntryOf(rd, TokenAt(rd, args, i)) + Entries(rd, args, Next(rd, args, i))
  }

  function PlainOf(t: Token): seq<string> {
    if t.Plain? then [t.arg] else []
  }

  function Filtered(rd: Reader, args: seq<string>, i: nat): seq<string>
    decreases |args| - i
  {
    if i >= |args| then [] else PlainOf(TokenAt(rd, args, i)) + Filtered(rd, args, Next(rd, args, i))
  }

  // ---------------------------------------------------------------- the scanners

  /** Extracts the entries; `visited` are the indices its loop stops at. */
  method ParsePrefillArgs(rd: Reader, args: seq<string>) returns (entries: seq<Entry>, ghost visited: seq<nat>)
    ensures entries == Entries(rd, args, 0)
    ensures visited == Starts(rd, args, 0)
  {
    entries, visited := [], [];
    ghost var all, starts := Entries(rd, args, 0), Starts(rd, args, 0);
    var i := 0;
    while i < |args|
      invariant all == entries + Entries(rd, args, i)
      invariant starts == visited + Starts(rd, args, i)
      decreases |args| - i
    {
      ghost var t, next := TokenAt(rd, args, i), Next(rd, args, i);
      Regroup(visited, [i], Starts(rd, args, next));
      Regroup(entries, EntryOf(rd, t), Entries(rd, args, next));
      visited := visited + [i];
      if args[i] == PREFILL && i + 1 < |args| {
        var url, port := args[i + 1], None;
        if i + 2 < |args| && !StartsWith(args[i + 2], "--") {
          if rd.parse(args[i + 2]).Some? {
            port := rd.parse(args[i + 2]);
            i := i + 1;
          } else if rd.none(args[i + 2]) {
            i := i + 1;
          }
        }
        entries := entries + [(url, port)];
        i := i + 2;
      } else {
        i := i + 1;
      }
      assert i == next;
    }
  }

  /** Strips the entries; `visited` are the indices its loop stops at. */
  method FilterArgs(rd: Reader, args: seq<string>) returns (filtered: seq<string>, ghost visited: seq<nat>)
    ensures filtered == Filtered(rd, args, 0)
    ensures visited == Starts(rd, args, 0)
  {
    filtered, visited := [], [];
    ghost var all, starts := Filtered(rd, args, 0), Starts(rd, args, 0);
    var i := 0;
    while i < |args|
      invariant all == filtered + Filtered(rd, args, i)
      invariant starts == visited + Starts(rd, args, i)
      decreases |args| - i
    {
      ghost var t, next := TokenAt(rd, args, i), Next(rd, args, i);
      Regroup(visited, [i], Starts(rd, args, next));
      Regroup(filtered, PlainOf(t), Filtered(rd, args, next));
      visited := visited + [i];
      if args[i] == PREFILL && i + 1 < |args| {
        i := i + 2;
        if i < |args| && !StartsWith(args[i], "--") && (rd.parse(args[i]).Some? || rd.none(args[i])) {
          i := i + 1;
        }
      } else {
        filtered := filtered + [args[i]];
        i := i + 1;
      }
      assert i == next;
    }
  }

  // ---------------------------------------------------------------- they partition the command line

  function Tokens(rd: Reader, args: seq<string>, i: nat): seq<Token>
    decreases |args| - i
  {
    if i >= |args| then [] else [TokenAt(rd, args, i)] + Tokens(rd, args, Next(rd, args, i))
  }

  function Flatten(tokens: seq<Token>): seq<string> {
    if tokens == [] then [] else tokens[0].Args() + Flatten(tokens[1..])
  }

  function Groups(rd: Reader, tokens: seq<Token>): seq<Entry> {
    if tokens == [] then [] else EntryOf(rd, tokens[0]) + Groups(rd, tokens[1..])
  }

  function Plains(tokens: seq<Token>): seq<string> {
    if tokens == [] then [] else PlainOf(tokens[0]) + Plains(tokens[1..])
  }

  /** One list of tokens, which is the command line in order, gives both results: its groups and the rest. */
  lemma {:induction false} ScannersPartition(rd: Reader, args: seq<string>, i: nat)
    requires i <= |args|
    ensures Flatten(Tokens(rd, args, i)) == args[i..]
    ensures Groups(rd, Tokens(rd, args, i)) == Entries(rd, args, i)
    ensures Plains(Tokens(rd, args, i)) == Filtered(rd, args, i)
    ensures |Starts(rd, args, i)| == |Tokens(rd, args, i)|
    decreases |args| - i
  {
    if i < |args| {
      var t, next := TokenAt(rd, args, i), Next(rd, args, i);
      ScannersPartition(rd, args, next);
      assert args[i..] == args[i..next] + args[next..];
      assert ([t] + Tokens(rd, args, next))[1..] == Tokens(rd, args, next);
    }
  }

  // ---------------------------------------------------------------- what survives

  lemma {:induction false} SurvivorIsLast(rd: Reader, args: seq<string>, i: nat, j: nat)
    requires i <= |args| && j < |Filtered(rd, args, i)| && Filtered(rd, args, i)[j] == PREFILL
    ensures j == |Filtered(rd, args, i)| - 1 && i < |args| && args[|args| - 1] == PREFILL
    decreases |args| - i
  {
    var t, next := TokenAt(rd, args, i), Next(rd, args, i);
    if t.Group? {
      SurvivorIsLast(rd, args, next, j);
    } else if j > 0 {
      SurvivorIsLast(rd, args, next, j - 1);
    }
  }

  lemma {:induction false} PlainWithoutPrefill(rd: Reader, args: seq<string>, i: nat)
    requires i <= |args| && forall j :: i <= j < |args| - 1 ==> args[j] != PREFILL
    ensures Filtered(rd, args, i) == args[i..] && Entries(rd, args, i) == []
    decreases |args| - i
  {
    if i < |args| {
      assert TokenAt(rd, args, i) == Plain(args[i]) && Next(rd, args, i) == i + 1;
      PlainWithoutPrefill(rd, args, i + 1);
      SplitHead(args, i);
    }
  }

  lemma SplitHead<T>(s: seq<T>, i: nat)
    requires i < |s|
    ensures s[i..] == [s[i]] + s[i + 1..]
  {
  }

  /** After filtering, the flag is left at most as a lone last argument; nothing is left to extract or to strip. */
  lemma FilteringIsFinal(rd: Reader, args: seq<string>)
    ensures var f := Filtered(rd, args, 0);
            && (forall j :: 0 <= j < |f| && f[j] == PREFILL ==>
                j == |f| - 1 && |args| > 0 && args[|args| - 1] == PREFILL)
            && Filtered(rd, f, 0) == f
            && Entries(rd, f, 0) == []
  {
    var f := Filtered(rd, args, 0);
    forall j | 0 <= j < |f| && f[j] == PREFILL
      ensures j == |f| - 1 && |args| > 0 && args[|args| - 1] == PREFILL
    {
      SurvivorIsLast(rd, args, 0, j);
    }
    PlainWithoutPrefill(rd, f, 0);
    assert f[0..] == f;
  }

  // ---------------------------------------------------------------- writing a command line and scanning it

  datatype Item = WithPort(url: string, port: Option<nat>) | Bare(url: string) | Other(arg: string) {
    predicate Writable() {
      match this
      case WithPort(_, port) => port.Some? ==> port.value <= 65535
      case Bare(_) => true
      case Other(arg) => arg != "--prefill"
    }

    /** A port is written out, or `none` stands for it; a bare entry leaves it out. */
    function Written(): seq<string> {
      match this
      case WithPort(url, port) => ["--prefill", url, PortText(port)]
      case Bare(url) => ["--prefill", url]
      case Other(arg) => [arg]
    }

    function Entry(): seq<Entry> {
      match this
      case WithPort(url, port) => [(url, port)]
      case Bare(url) => [(url, None)]
      case Other(_) => []
    }
  }

  function PortText(port: Option<nat>): string {
    if port.Some? then Decimal(port.value) else "none"
  }

  function WrittenAll(items: seq<Item>): seq<string> {
    if items == [] then [] else items[0].Written() + WrittenAll(items[1..])
  }

  function EntriesOf(items: seq<Item>): seq<Entry> {
    if items == [] then [] else items[0].Entry() + EntriesOf(items[1..])
  }

  function OthersOf(items: seq<Item>): seq<string> {
    if items == [] then [] else (if items[0].Other? then [items[0].arg] else []) + OthersOf(items[1..])
  }

  /** A bare entry takes the argument after it for its port if that looks like one. */
  predicate Swallows(rd: Reader, items: seq<Item>, i: nat) {
    i + 1 < |items| && items[i].Bare? && items[i + 1].Other? && rd.IsPortArg(items[i + 1].arg)
  }

  predicate NothingSwallowed(rd: Reader, items: seq<Item>) {
    forall i: nat :: i < |items| ==> !Swallows(rd, items, i)
  }

  /** Ports are read back as written, and `none` as no port. */
  ghost predicate ReadsPorts(rd: Reader) {
    && (forall n: nat :: n <= 65535 ==> rd.parse(Decimal(n)) == Some(n) && rd.IsPortArg(Decimal(n)))
    && rd.parse("none") == None && rd.IsPortArg("none")
  }

  lemma RustReadsPorts()
    ensures ReadsPorts(RUST)
  {
    forall n: nat | n <= 65535
      ensures RUST.parse(Decimal(n)) == Some(n) && RUST.IsPortArg(Decimal(n))
    {
      PortRoundTrip(n);
    }
    assert !IsDigit("none"[0]) && "--"[0] != "none"[0];
  }

  function Lower(c: char): char {
    if 'A' <= c <= 'Z' then (c as int + 32) as char else c
  }

  /** The word none in any capitals. */
  ghost predicate SpellsNone(s: string) {
    |s| == 4 && forall i :: 0 <= i < 4 ==> Lower(s[i]) == "none"[i]
  }

  /** What the command line takes for a port: a number below 65536, or the word none. */
  lemma RustPortArgIff(s: string)
    ensures RUST.IsPortArg(s) <==> SpellsNone(s) || exists n: nat :: WritesPort(s, n)
    ensures forall n: nat :: RUST.parse(s) == Some(n) <==> WritesPort(s, n)
  {
    forall n: nat
      ensures RUST.parse(s) == Some(n) <==> WritesPort(s, n)
    {
      ParsedIff(s, n);
    }
    assert "none"[0] == 'n' && "none"[1] == 'o' && "none"[2] == 'n' && "none"[3] == 'e';
    assert IsNone(s) <==> SpellsNone(s);
    if RUST.parse(s).Some? {
      assert WritesPort(s, RUST.parse(s).value);
      assert !StartsWith(s, "--");
    }
  }

  /** The items the scanners take the written command line for: swallowed arguments become ports. */
  function AsScanned(rd: Reader, items: seq<Item>): seq<Item> {
    if items == [] then []
    else if Swallows(rd, items, 0) then [WithPort(items[0].url, rd.parse(items[1].arg))] + AsScanned(rd, items[2..])
    else [items[0]] + AsScanned(rd, items[1..])
  }

  lemma WrittenToken(rd: Reader, items: seq<Item>, args: seq<string>, i: nat)
    requires ReadsPorts(rd) && items != [] && items[0].Writable()
    requires i <= |args| && args[i..] == WrittenAll(items)
    ensures i < |args|
    ensures var w := items[0].Written();
            && i + |w| <= |args| && args[i + |w|..] == WrittenAll(items[1..])
            && (Swallows(rd, items, 0) ==> TokenAt(rd, args, i) == Group(items[0].url, Some(items[1].arg)))
            && (!Swallows(rd, items, 0) ==>
                TokenAt(rd, args, i).Args() == w && EntryOf(rd, TokenAt(rd, args, i)) == items[0].Entry())
  {
    var w, rest := items[0].Written(), WrittenAll(items[1..]);
    assert forall k :: 0 <= k < |w| ==> args[i + k] == (w + rest)[k];
    assert args[i + |w|..] == args[i..][|w|..] == rest;
    if items[1..] != [] {
      assert args[i + |w|] == rest[0];
      assert rest[0] == if items[1].Other? then items[1].arg else PREFILL;
      assert StartsWith(PREFILL, "--");
    }
  }

  lemma AfterSwallowed(items: seq<Item>, args: seq<string>, i: nat)
    requires |items| > 1 && items[1].Other? && i + 2 <= |args| && args[i + 2..] == WrittenAll(items[1..])
    ensures i + 3 <= |args| && args[i + 3..] == WrittenAll(items[2..])
  {
    assert items[1..][1..] == items[2..];
    assert args[i + 3..] == args[i + 2..][1..];
  }

  lemma ItemsCons(item: Item, rest: seq<Item>)
    ensures EntriesOf([item] + rest) == item.Entry() + EntriesOf(rest)
    ensures OthersOf([item] + rest) == (if item.Other? then [item.arg] else []) + OthersOf(rest)
  {
    assert ([item] + rest)[1..] == rest;
  }

  /** One step of both scanners. */
  lemma ScanStep(rd: Reader, args: seq<string>, i: nat)
    requires i < |args|
    ensures Entries(rd, args, i) == EntryOf(rd, TokenAt(rd, args, i)) + Entries(rd, args, Next(rd, args, i))
    ensures Filtered(rd, args, i) == PlainOf(TokenAt(rd, args, i)) + Filtered(rd, args, Next(rd, args, i))
  {
  }

  lemma SwallowStep(rd: Reader, items: seq<Item>, args: seq<string>, i: nat)
    requires ReadsPorts(rd) && items != [] && items[0].Writable() && Swallows(rd, items, 0)
    requires i <= |args| && args[i..] == WrittenAll(items)
    ensures i + 3 <= |args| && args[i + 3..] == WrittenAll(items[2..])
    ensures Entries(rd, args, i) == [(items[0].url, rd.parse(items[1].arg))] + Entries(rd, args, i + 3)
    ensures Filtered(rd, args, i) == Filtered(rd, args, i + 3)
  {
    WrittenToken(rd, items, args, i);
    AfterSwallowed(items, args, i);
    ScanStep(rd, args, i);
  }

  lemma KeepStep(rd: Reader, items: seq<Item>, args: seq<string>, i: nat) returns (next: nat)
    requires ReadsPorts(rd) && items != [] && items[0].Writable() && !Swallows(rd, items, 0)
    requires i <= |args| && args[i..] == WrittenAll(items)
    ensures next <= |args| && args[next..] == WrittenAll(items[1..])
    ensures Entries(rd, args, i) == items[0].Entry() + Entries(rd, args, next)
    ensures Filtered(rd, args, i) == (if items[0].Other? then [items[0].arg] else []) + Filtered(rd, args, next)
  {
    WrittenToken(rd, items, args, i);
    ScanStep(rd, args, i);
    next := i + |items[0].Written()|;
  }

  lemma {:induction false} WrittenScans(rd: Reader, items: seq<Item>, args: seq<string>, i: nat)
    requires ReadsPorts(rd) && forall k :: 0 <= k < |items| ==> items[k].Writable()
    requires i <= |args| && args[i..] == WrittenAll(items)
    ensures Entries(rd, args, i) == EntriesOf(AsScanned(rd, items))
    ensures Filtered(rd, args, i) == OthersOf(AsScanned(rd, items))
    decreases |items|
  {
    if items == [] {
    } else if Swallows(rd, items, 0) {
      SwallowStep(rd, items, args, i);
      WrittenScans(rd, items[2..], args, i + 3);
      ItemsCons(WithPort(items[0].url, rd.parse(items[1].arg)), AsScanned(rd, items[2..]));
    } else {
      var next := KeepStep(rd, items, args, i);
      WrittenScans(rd, items[1..], args, next);
      ItemsCons(items[0], AsScanned(rd, items[1..]));
    }
  }

  lemma {:induction false} ScannedOthers(rd: Reader, items: seq<Item>)
    ensures |OthersOf(AsScanned(rd, items))| <= |OthersOf(items)|
    ensures NothingSwallowed(rd, items) ==> AsScanned(rd, items) == items
    ensures !NothingSwallowed(rd, items) ==> |OthersOf(AsScanned(rd, items))| < |OthersOf(items)|
    decreases |items|
  {
    if items == [] {
    } else {
      if Swallows(rd, items, 0) {
        ScannedOthers(rd, items[2..]);
        assert OthersOf(items) == OthersOf(items[1..]) == [items[1].arg] + OthersOf(items[2..]);
      } else {
        ScannedOthers(rd, items[1..]);
        if NothingSwallowed(rd, items) {
          assert forall i: nat :: i < |items| - 1 ==> (Swallows(rd, items[1..], i) <==> Swallows(rd, items, i + 1));
        } else {
          var i: nat :| i < |items| && Swallows(rd, items, i);
          assert Swallows(rd, items[1..], i - 1);
        }
      }
    }
  }

  /**
   * Writing entries among other arguments and scanning the result gives back exactly the entries and
   * exactly the other arguments, if and only if no bare entry stands before something like a port.
   */
  lemma CommandLineRoundTrip(rd: Reader, items: seq<Item>)
    requires ReadsPorts(rd) && forall k :: 0 <= k < |items| ==> items[k].Writable()
    ensures var args := WrittenAll(items);
            Entries(rd, args, 0) == EntriesOf(items) && Filtered(rd, args, 0) == OthersOf(items)
            <==> NothingSwallowed(rd, items)
  {
    var args := WrittenAll(items);
    assert args[0..] == args;
    WrittenScans(rd, items, args, 0);
    ScannedOthers(rd, items);
  }
}
