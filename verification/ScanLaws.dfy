/** What the whole-vector scan guarantees, whatever the tables are. */
module ScanLaws {
  import opened Wrappers
  import opened OptionTable
  import opened ScanSpec

  // ----- nothing is lost, and order is kept

  /** `c` is `a` and `b` merged, each kept in order. */
  ghost predicate Shuffle<T(!new)>(a: seq<T>, b: seq<T>, c: seq<T>) {
    if c == [] then a == [] && b == []
    else
      || (a != [] && a[0] == c[0] && Shuffle(a[1..], b, c[1..]))
      || (b != [] && b[0] == c[0] && Shuffle(a, b[1..], c[1..]))
  }

  lemma {:induction false} ShuffleFirst<T(!new)>(front: seq<T>, a: seq<T>, b: seq<T>, c: seq<T>)
    requires Shuffle(a, b, c)
    ensures Shuffle(front + a, b, front + c)
  {
    if front == [] {
      assert front + a == a && front + c == c;
    } else {
      ShuffleFirst(front[1..], a, b, c);
      assert (front + a)[1..] == front[1..] + a && (front + c)[1..] == front[1..] + c;
    }
  }

  lemma {:induction false} ShuffleLast<T(!new)>(a: seq<T>, b: seq<T>, c: seq<T>, end: seq<T>)
    requires Shuffle(a, b, c)
    ensures Shuffle(a + end, b, c + end)
  {
    if c == [] {
      ShuffleFirst(end, [], [], []);
      assert end + [] == end == [] + end;
    } else if a != [] && a[0] == c[0] && Shuffle(a[1..], b, c[1..]) {
      ShuffleLast(a[1..], b, c[1..], end);
      assert (a + end)[1..] == a[1..] + end && (c + end)[1..] == c[1..] + end;
    } else {
      ShuffleLast(a, b[1..], c[1..], end);
      assert (c + end)[1..] == c[1..] + end;
    }
  }

  lemma {:induction false} ShuffleCommutes<T(!new)>(a: seq<T>, b: seq<T>, c: seq<T>)
    requires Shuffle(a, b, c)
    ensures Shuffle(b, a, c)
  {
    if c == [] {
    } else if a != [] && a[0] == c[0] && Shuffle(a[1..], b, c[1..]) {
      ShuffleCommutes(a[1..], b, c[1..]);
    } else {
      ShuffleCommutes(a, b[1..], c[1..]);
    }
  }

  lemma {:induction false} ShuffleAll<T(!new)>(b: seq<T>)
    ensures Shuffle([], b, b)
  {
    if b == [] {
    } else {
      ShuffleAll(b[1..]);
    }
  }

  /** The elements of `c` that `choice` marks `which`. */
  function Picked<T>(c: seq<T>, choice: seq<bool>, which: bool): seq<T>
    requires |choice| == |c|
  {
    if c == [] then []
    else (if choice[0] == which then [c[0]] else []) + Picked(c[1..], choice[1..], which)
  }

  lemma {:induction false} ShuffleOfPicked<T(!new)>(c: seq<T>, choice: seq<bool>)
    requires |choice| == |c|
    ensures Shuffle(Picked(c, choice, true), Picked(c, choice, false), c)
  {
    if c == [] {
    } else {
      ShuffleOfPicked(c[1..], choice[1..]);
      var mine, other := Picked(c[1..], choice[1..], choice[0]), Picked(c[1..], choice[1..], !choice[0]);
      assert Picked(c, choice, choice[0]) == [c[0]] + mine && ([c[0]] + mine)[1..] == mine;
      assert Picked(c, choice, !choice[0]) == [] + other == other;
    }
  }

  lemma {:induction false} PickedOfShuffle<T(!new)>(a: seq<T>, b: seq<T>, c: seq<T>) returns (choice: seq<bool>)
    requires Shuffle(a, b, c)
    ensures |choice| == |c| && Picked(c, choice, true) == a && Picked(c, choice, false) == b
  {
    if c == [] {
      choice := [];
    } else if a != [] && a[0] == c[0] && Shuffle(a[1..], b, c[1..]) {
      var rest := PickedOfShuffle(a[1..], b, c[1..]);
      choice := [true] + rest;
      assert choice[1..] == rest && a == [c[0]] + a[1..] && [] + b == b;
    } else {
      var rest := PickedOfShuffle(a, b[1..], c[1..]);
      choice := [false] + rest;
      assert choice[1..] == rest && b == [c[0]] + b[1..] && [] + a == a;
    }
  }

  /** A shuffle is a choice, element by element, of which of the two it belongs to. */
  lemma ShuffleIff<T(!new)>(a: seq<T>, b: seq<T>, c: seq<T>)
    ensures Shuffle(a, b, c) <==>
      exists choice :: |choice| == |c| && Picked(c, choice, true) == a && Picked(c, choice, false) == b
  {
    if Shuffle(a, b, c) { var choice := PickedOfShuffle(a, b, c); }
    if choice :| |choice| == |c| && Picked(c, choice, true) == a && Picked(c, choice, false) == b {
      ShuffleOfPicked(c, choice);
    }
  }

  lemma PartitionGrows(front: seq<string>, consumed: seq<string>, operands: seq<string>, args: seq<string>)
    requires Shuffle(consumed, operands, args)
    ensures Shuffle(front + consumed, operands, front + args)
    ensures consumed + operands == args ==> (front + consumed) + operands == front + args
  {
    ShuffleFirst(front, consumed, operands, args);
    assert (front + consumed) + operands == front + (consumed + operands);
  }

  /** Consumed elements and operands together are exactly the arguments, both in their original order;
      unless permuting, the arguments are not even interleaved. */
  lemma {:induction false} ScanPartitions(cfg: Config, args: seq<string>)
    ensures var r := ScanAll(cfg, args);
      && Shuffle(r.consumed, r.operands, args)
      && (cfg.ordering != Permute ==> r.consumed + r.operands == args)
    decreases |args|
  {
    if args == [] {
    } else if args[0] == "--" {
      ShuffleAll(args[1..]);
      PartitionGrows(args[..1], [], args[1..], args[1..]);
      assert args[..1] + [] == args[..1] && args[..1] + args[1..] == args;
    } else if !NonOption(args[0]) || cfg.ordering == ReturnInOrder {
      var used := if NonOption(args[0]) then 1 else ElementOf(cfg, args).used;
      ScanPartitions(cfg, args[used..]);
      var t := ScanAll(cfg, args[used..]);
      PartitionGrows(args[..used], t.consumed, t.operands, args[used..]);
      assert args[..used] + args[used..] == args;
    } else if cfg.ordering == Permute {
      ScanPartitions(cfg, args[1..]);
      assert (args[..1] + ScanAll(cfg, args[1..]).operands)[1..] == ScanAll(cfg, args[1..]).operands;
    } else {
      ShuffleAll(args);
    }
  }

  // ----- operands a further call leaves alone

  /** Calling once more finds nothing to do: every remaining operand is one the mode leaves alone. */
  predicate Quiet(ordering: Ordering, operands: seq<string>) {
    match ordering
    case Permute => forall a :: a in operands ==> NonOption(a)
    case RequireOrder => operands == [] || NonOption(operands[0])
    case ReturnInOrder => operands == []
  }

  lemma {:induction false} QuietIffNothingScanned(cfg: Config, operands: seq<string>)
    ensures var r := ScanAll(cfg, operands);
      && (r.events == [] && r.consumed == [] <==> Quiet(cfg.ordering, operands))
      && (r.consumed == [] ==> r.operands == operands && !r.terminated)
  {
    if operands == [] {
    } else {
      assert operands[0] in operands && |operands[..1]| == 1;
      if operands[0] != "--" && NonOption(operands[0]) && cfg.ordering == Permute {
        QuietIffNothingScanned(cfg, operands[1..]);
        assert operands == [operands[0]] + operands[1..];
      }
    }
  }

  /** A permuting scan that no "--" ended leaves operands that a further call leaves alone. */
  lemma {:induction false} UnterminatedIsQuiet(cfg: Config, args: seq<string>)
    requires cfg.ordering == Permute && !ScanAll(cfg, args).terminated
    ensures Quiet(Permute, ScanAll(cfg, args).operands)
    decreases |args|
  {
    if args == [] {
    } else {
      UnterminatedIsQuiet(cfg, args[if NonOption(args[0]) then 1 else ElementOf(cfg, args).used..]);
    }
  }

  /** Under RETURN_IN_ORDER only a "--" can end the scan before the last argument. */
  lemma {:induction false} OnlyTerminatorStops(cfg: Config, args: seq<string>)
    requires cfg.ordering == ReturnInOrder && ScanAll(cfg, args).operands != []
    ensures ScanAll(cfg, args).terminated
    decreases |args|
  {
    if args == [] || args[0] == "--" {
    } else {
      OnlyTerminatorStops(cfg, args[if NonOption(args[0]) then 1 else ElementOf(cfg, args).used..]);
    }
  }

  // ----- events are well formed

  lemma {:induction false} ClusterWellFormed(cfg: Config, text: string, rest: seq<string>)
    ensures forall e :: e in Cluster(cfg.shorts, text, rest).events ==> WellFormed(cfg, e) && !e.NonOpt?
  {
    if text == "" {
    } else {
      ClusterWellFormed(cfg, text[1..], rest);
    }
  }

  lemma ElementWellFormed(cfg: Config, args: seq<string>)
    requires args != [] && !NonOption(args[0])
    ensures forall e :: e in ElementOf(cfg, args).events ==> WellFormed(cfg, e) && !e.NonOpt?
  {
    if !LongSyntax(cfg, args[0]) { ClusterWellFormed(cfg, args[0][1..], args[1..]); }
  }

  /** Every event names options of the tables only, with an argument exactly as its option asks. */
  lemma {:induction false} EventsWellFormed(cfg: Config, args: seq<string>)
    ensures forall e :: e in ScanAll(cfg, args).events ==> WellFormed(cfg, e)
    decreases |args|
  {
    if args == [] || args[0] == "--" {
    } else {
      if NonOption(args[0]) {
        EventsWellFormed(cfg, args[1..]);
      } else {
        ElementWellFormed(cfg, args);
        EventsWellFormed(cfg, args[ElementOf(cfg, args).used..]);
      }
    }
  }

  // ----- the three orderings compared

  function OptionEvents(es: seq<Event>): seq<Event> {
    if es == [] then []
    else if es[0].NonOpt? then OptionEvents(es[1..])
    else [es[0]] + OptionEvents(es[1..])
  }

  function NonOptionTexts(es: seq<Event>): seq<string> {
    if es == [] then []
    else if es[0].NonOpt? then [es[0].text] + NonOptionTexts(es[1..])
    else NonOptionTexts(es[1..])
  }

  lemma {:induction false} OptionsPassThrough(a: seq<Event>, b: seq<Event>)
    requires forall e :: e in a ==> !e.NonOpt?
    ensures OptionEvents(a + b) == a + OptionEvents(b) && NonOptionTexts(a + b) == NonOptionTexts(b)
  {
    if a == [] {
      assert a + b == b;
    } else {
      OptionsPassThrough(a[1..], b);
      assert (a + b)[1..] == a[1..] + b;
    }
  }

  /** PERMUTE reports what RETURN_IN_ORDER reports less the operands, and sets aside just those. */
  lemma {:induction false} ModesAgree(cfg: Config, args: seq<string>)
    ensures var p := ScanAll(cfg.(ordering := Permute), args);
      var r := ScanAll(cfg.(ordering := ReturnInOrder), args);
      && p.events == OptionEvents(r.events)
      && p.operands == NonOptionTexts(r.events) + r.operands
      && p.terminated == r.terminated
    decreases |args|
  {
    if args == [] || args[0] == "--" {
    } else {
      var cp, cr := cfg.(ordering := Permute), cfg.(ordering := ReturnInOrder);
      if NonOption(args[0]) {
        ModesAgree(cfg, args[1..]);
        var r := ScanAll(cr, args[1..]);
        var es := [NonOpt(args[0])] + r.events;
        assert es[1..] == r.events && args[..1] == [args[0]];
        assert [args[0]] + (NonOptionTexts(r.events) + r.operands)
            == ([args[0]] + NonOptionTexts(r.events)) + r.operands;
      } else {
        var e := ElementOf(cr, args);
        assert e == ElementOf(cp, args);
        ModesAgree(cfg, args[e.used..]);
        ElementWellFormed(cr, args);
        OptionsPassThrough(e.events, ScanAll(cr, args[e.used..]).events);
      }
    }
  }

  /** `q` first, then `p` on what `q` left. */
  function Followed(q: Scan, p: Scan): Scan {
    Scan(q.events + p.events, q.consumed + p.consumed, p.operands, p.terminated)
  }

  /** REQUIRE_ORDER is PERMUTE cut off at the first operand or "--": PERMUTE goes on from there. */
  lemma {:induction false} RequireOrderIsPrefix(cfg: Config, args: seq<string>)
    ensures var cp := cfg.(ordering := Permute);
      var q := ScanAll(cfg.(ordering := RequireOrder), args);
      && ScanAll(cp, args) == (if q.terminated then q else Followed(q, ScanAll(cp, q.operands)))
      && (!q.terminated && q.operands != [] ==> NonOption(q.operands[0]))
    decreases |args|
  {
    if args == [] || args[0] == "--" {
    } else {
      var cp, cq := cfg.(ordering := Permute), cfg.(ordering := RequireOrder);
      if NonOption(args[0]) {
        var p := ScanAll(cp, args);
        assert [] + p.events == p.events && [] + p.consumed == p.consumed;
      } else {
        var e := ElementOf(cq, args);
        assert e == ElementOf(cp, args);
        RequireOrderIsPrefix(cfg, args[e.used..]);
        var q := ScanAll(cq, args[e.used..]);
        var p := ScanAll(cp, q.operands);
        assert e.events + (q.events + p.events) == (e.events + q.events) + p.events;
        assert args[..e.used] + (q.consumed + p.consumed) == (args[..e.used] + q.consumed) + p.consumed;
      }
    }
  }

  // ----- an element's scan depends on the element and the arguments it takes, no more

  predicate NoneMissing(es: seq<Event>) {
    forall e :: e in es ==> !Missing(e)
  }

  lemma {:induction false} ClusterIsLocal(shorts: string, text: string, r1: seq<string>, r2: seq<string>)
    requires var e := Cluster(shorts, text, r1);
      NoneMissing(e.events) && e.used - 1 <= |r2| && r2[..e.used - 1] == r1[..e.used - 1]
    ensures Cluster(shorts, text, r2) == Cluster(shorts, text, r1)
  {
    if text == "" {
    } else {
      var c, tail, k := text[0], text[1..], KindOf(shorts, text[0]);
      if k.Invalid? || k.arg.NoArgument? {
        var t, e := Cluster(shorts, tail, r1), Cluster(shorts, text, r1);
        assert e.events[1..] == t.events;
        assert NoneMissing(t.events);
        ClusterIsLocal(shorts, tail, r1, r2);
      } else if k.arg.RequiredArgument? && tail == "" {
        assert Cluster(shorts, text, []).events == [Error(ShortArgumentMissing(c))];
        assert Missing(Cluster(shorts, text, []).events[0]);
        assert r1 != [] && r2[..1][0] == r1[..1][0];
      }
    }
  }

  lemma LongIsLocal(longs: seq<LongOption>, text: string, r1: seq<string>, r2: seq<string>)
    requires var e := LongElement(longs, text, r1);
      NoneMissing(e.events) && e.used - 1 <= |r2| && r2[..e.used - 1] == r1[..e.used - 1]
    ensures LongElement(longs, text, r2) == LongElement(longs, text, r1)
  {
    var e := LongElement(longs, text, r1);
    assert !Missing(e.events[0]);
    if e.used == 2 { assert r2[..1][0] == r1[..1][0]; }
  }

  lemma ElementIsLocal(cfg: Config, a1: seq<string>, a2: seq<string>)
    requires a1 != [] && !NonOption(a1[0])
    requires var e := ElementOf(cfg, a1);
      NoneMissing(e.events) && e.used <= |a2| && a2[..e.used] == a1[..e.used]
    ensures ElementOf(cfg, a2) == ElementOf(cfg, a1)
  {
    var e, r1, r2 := ElementOf(cfg, a1), a1[1..], a2[1..];
    assert a2[0] == a2[..e.used][0] == a1[0];
    assert r2[..e.used - 1] == a2[..e.used][1..] == r1[..e.used - 1];
    if LongSyntax(cfg, a1[0]) {
      LongIsLocal(cfg.longs.value, a1[0][2..], r1, r2);
    } else {
      ClusterIsLocal(cfg.shorts, a1[0][1..], r1, r2);
    }
  }

  lemma {:induction false} MissingOnlyAtEnd(shorts: string, text: string, rest: seq<string>)
    requires rest != []
    ensures NoneMissing(Cluster(shorts, text, rest).events)
  {
    if text == "" {
    } else {
      MissingOnlyAtEnd(shorts, text[1..], rest);
    }
  }

  lemma ElementMissingOnlyAtEnd(cfg: Config, args: seq<string>)
    requires |args| > 1 && !NonOption(args[0])
    ensures NoneMissing(ElementOf(cfg, args).events)
  {
    if !LongSyntax(cfg, args[0]) { MissingOnlyAtEnd(cfg.shorts, args[0][1..], args[1..]); }
  }

  // ----- where operands stand makes no difference

  /** A command line in pieces: an operand, or an option element with the separate argument it takes. */
  datatype Item = Operand(text: string) | Unit(words: seq<string>)

  predicate Complete(cfg: Config, w: seq<string>) {
    && w != [] && w[0] != "--" && !NonOption(w[0])
    && ElementOf(cfg, w).used == |w| && NoneMissing(ElementOf(cfg, w).events)
  }

  predicate Proper(cfg: Config, items: seq<Item>) {
    forall i :: i in items ==> if i.Operand? then NonOption(i.text) else Complete(cfg, i.words)
  }

  function Flat(items: seq<Item>): seq<string> {
    if items == [] then []
    else Words(items[0]) + Flat(items[1..])
  }

  function Words(i: Item): seq<string> {
    if i.Operand? then [i.text] else i.words
  }

  function Operands(items: seq<Item>): seq<string> {
    if items == [] then []
    else (if items[0].Operand? then [items[0].text] else []) + Operands(items[1..])
  }

  function Units(items: seq<Item>): (us: seq<seq<string>>) {
    if items == [] then []
    else (if items[0].Unit? then [items[0].words] else []) + Units(items[1..])
  }

  function Concat(us: seq<seq<string>>): seq<string> {
    if us == [] then [] else us[0] + Concat(us[1..])
  }

  function EventsOf(cfg: Config, us: seq<seq<string>>): seq<Event>
    requires forall u :: u in us ==> Complete(cfg, u)
  {
    if us == [] then []
    else
      assert Complete(cfg, us[0]);
      ElementOf(cfg, us[0]).events + EventsOf(cfg, us[1..])
  }

  lemma {:induction false} UnitsComplete(cfg: Config, items: seq<Item>)
    requires Proper(cfg, items)
    ensures forall u :: u in Units(items) ==> Complete(cfg, u)
  {
    if items == [] {
    } else {
      UnitsComplete(cfg, items[1..]);
      assert items[0].Unit? ==> Complete(cfg, items[0].words);
    }
  }

  /** What units `us` and operands `ops` come to, in front of a part that scans to `r`. */
  function Gathered(cfg: Config, us: seq<seq<string>>, ops: seq<string>, r: Scan): Scan
    requires forall u :: u in us ==> Complete(cfg, u)
  {
    Scan(EventsOf(cfg, us) + r.events, Concat(us) + r.consumed, ops + r.operands, r.terminated)
  }

  lemma ScanOfOperand(cfg: Config, text: string, more: seq<string>)
    requires cfg.ordering == Permute && NonOption(text)
    ensures var r := ScanAll(cfg, more);
      ScanAll(cfg, [text] + more) == r.(operands := [text] + r.operands)
  {}

  lemma ScanOfUnit(cfg: Config, w: seq<string>, more: seq<string>)
    requires Complete(cfg, w)
    ensures var r := ScanAll(cfg, more);
      ScanAll(cfg, w + more) == r.(events := ElementOf(cfg, w).events + r.events, consumed := w + r.consumed)
  {
    assert (w + more)[0] == w[0];
    assert (w + more)[..|w|] == w == w[..|w|] && (w + more)[|w|..] == more;
    ElementIsLocal(cfg, w, w + more);
  }

  lemma GatherUnit(cfg: Config, w: seq<string>, us: seq<seq<string>>, ops: seq<string>, r: Scan)
    requires forall u :: u in us ==> Complete(cfg, u)
    requires forall u :: u in [w] + us ==> Complete(cfg, u)
    requires Complete(cfg, w)
    ensures var g := Gathered(cfg, us, ops, r);
      g.(events := ElementOf(cfg, w).events + g.events, consumed := w + g.consumed) == Gathered(cfg, [w] + us, ops, r)
  {
    var e := ElementOf(cfg, w).events;
    assert ([w] + us)[1..] == us;
    assert e + (EventsOf(cfg, us) + r.events) == (e + EventsOf(cfg, us)) + r.events;
    assert w + (Concat(us) + r.consumed) == (w + Concat(us)) + r.consumed;
  }

  lemma GatherOperand(cfg: Config, text: string, us: seq<seq<string>>, ops: seq<string>, r: Scan)
    requires forall u :: u in us ==> Complete(cfg, u)
    ensures var g := Gathered(cfg, us, ops, r);
      g.(operands := [text] + g.operands) == Gathered(cfg, us, [text] + ops, r)
  {}

  lemma Regroup(a: seq<string>, b: seq<string>, c: seq<string>)
    ensures (a + b) + c == a + (b + c)
  {}

  lemma FlatHead(items: seq<Item>, tail: seq<string>)
    requires items != []
    ensures Flat(items) + tail == Words(items[0]) + (Flat(items[1..]) + tail)
  {
    Regroup(Words(items[0]), Flat(items[1..]), tail);
    hide Words;
  }

  lemma PartsOfHead(items: seq<Item>)
    requires items != []
    ensures Units(items) == if items[0].Unit? then [items[0].words] + Units(items[1..]) else Units(items[1..])
    ensures Operands(items) == if items[0].Unit? then Operands(items[1..]) else [items[0].text] + Operands(items[1..])
  {}

  /** A permuting scan of pieces followed by `tail` sees units and operands separately. */
  lemma {:induction false} ScanOfItems(cfg: Config, items: seq<Item>, tail: seq<string>)
    requires cfg.ordering == Permute && Proper(cfg, items)
    ensures forall u :: u in Units(items) ==> Complete(cfg, u)
    ensures ScanAll(cfg, Flat(items) + tail) == Gathered(cfg, Units(items), Operands(items), ScanAll(cfg, tail))
  {
    UnitsComplete(cfg, items);
    if items == [] {
      assert [] + tail == tail;
    } else {
      var i, more := items[0], Flat(items[1..]) + tail;
      ScanOfItems(cfg, items[1..], tail);
      FlatHead(items, tail);
      PartsOfHead(items);
      var us, ops, r := Units(items[1..]), Operands(items[1..]), ScanAll(cfg, tail);
      hide Complete, Gathered, ScanAll, ElementOf, Flat, Units, Operands;
      if i.Operand? {
        ScanOfOperand(cfg, i.text, more);
        GatherOperand(cfg, i.text, us, ops, r);
      } else {
        ScanOfUnit(cfg, i.words, more);
        GatherUnit(cfg, i.words, us, ops, r);
      }
    }
  }

  /** Interleaving invariance: the same options and the same operands, each in the same order, scan
      alike however they are mixed. */
  lemma InterleavingIrrelevant(cfg: Config, i1: seq<Item>, i2: seq<Item>, tail: seq<string>)
    requires cfg.ordering == Permute && Proper(cfg, i1) && Proper(cfg, i2)
    requires Units(i1) == Units(i2) && Operands(i1) == Operands(i2)
    ensures ScanAll(cfg, Flat(i1) + tail) == ScanAll(cfg, Flat(i2) + tail)
  {
    ScanOfItems(cfg, i1, tail);
    ScanOfItems(cfg, i2, tail);
  }

  // ----- scanning the arranged vector again

  /** What pieces can leave over: nothing, a "--" with the rest, or a last option lacking its argument. */
  predicate Leftover(cfg: Config, tail: seq<string>) {
    || tail == []
    || tail[0] == "--"
    || (|tail| == 1 && !NonOption(tail[0]) && !NoneMissing(ElementOf(cfg, tail).events))
  }

  lemma FirstUnit(cfg: Config, args: seq<string>)
    requires args != [] && args[0] != "--" && !NonOption(args[0]) && NoneMissing(ElementOf(cfg, args).events)
    ensures Complete(cfg, args[..ElementOf(cfg, args).used])
  {
    var w := args[..ElementOf(cfg, args).used];
    assert w[..|w|] == w && w[0] == args[0];
    ElementIsLocal(cfg, args, w);
  }

  /** Every command line is pieces and a leftover. */
  lemma {:induction false} InPieces(cfg: Config, args: seq<string>) returns (items: seq<Item>, tail: seq<string>)
    ensures Proper(cfg, items) && Leftover(cfg, tail) && args == Flat(items) + tail
    decreases |args|
  {
    if args == [] || args[0] == "--" {
      items, tail := [], args;
    } else if NonOption(args[0]) {
      items, tail := InPieces(cfg, args[1..]);
      FlatHead([Operand(args[0])] + items, tail);
      items := [Operand(args[0])] + items;
    } else {
      var e := ElementOf(cfg, args);
      if !NoneMissing(e.events) {
        if |args| > 1 { ElementMissingOnlyAtEnd(cfg, args); }
        items, tail := [], args;
      } else {
        FirstUnit(cfg, args);
        items, tail := InPieces(cfg, args[e.used..]);
        hide Leftover, Complete, NonOption, ElementOf;
        FlatHead([Unit(args[..e.used])] + items, tail);
        items := [Unit(args[..e.used])] + items;
      }
    }
  }

  function AsUnits(us: seq<seq<string>>): seq<Item> {
    if us == [] then [] else [Unit(us[0])] + AsUnits(us[1..])
  }

  lemma {:induction false} UnitsAlone(cfg: Config, us: seq<seq<string>>)
    requires forall u :: u in us ==> Complete(cfg, u)
    ensures var items := AsUnits(us);
      Proper(cfg, items) && Flat(items) == Concat(us) && Units(items) == us && Operands(items) == []
  {
    if us == [] {
    } else {
      UnitsAlone(cfg, us[1..]);
      assert AsUnits(us)[1..] == AsUnits(us[1..]);
    }
  }

  lemma ScanOfUnits(cfg: Config, us: seq<seq<string>>, tail: seq<string>)
    requires cfg.ordering == Permute && forall u :: u in us ==> Complete(cfg, u)
    ensures ScanAll(cfg, Concat(us) + tail) == Gathered(cfg, us, [], ScanAll(cfg, tail))
  {
    UnitsAlone(cfg, us);
    ScanOfItems(cfg, AsUnits(us), tail);
  }

  lemma {:induction false} UnitsLackNothing(cfg: Config, us: seq<seq<string>>)
    requires forall u :: u in us ==> Complete(cfg, u)
    ensures NoneMissing(EventsOf(cfg, us))
  {
    if us == [] {
    } else {
      assert Complete(cfg, us[0]);
      UnitsLackNothing(cfg, us[1..]);
    }
  }

  lemma {:induction false} OperandsOfItems(cfg: Config, items: seq<Item>)
    requires Proper(cfg, items)
    ensures Quiet(Permute, Operands(items))
  {
    if items == [] {
    } else {
      OperandsOfItems(cfg, items[1..]);
      assert items[0].Operand? ==> NonOption(items[0].text);
    }
  }

  /** A lacking option in front of operands takes the first of them: nothing is missing any more. */
  lemma LackingTakesOperand(cfg: Config, last: string, ops: seq<string>)
    requires cfg.ordering == Permute && !NonOption(last) && last != "--" && ops != [] && Quiet(Permute, ops)
    ensures NoneMissing(ScanAll(cfg, [last] + ops).events)
  {
    var args := [last] + ops;
    ElementMissingOnlyAtEnd(cfg, args);
    var rest := args[ElementOf(cfg, args).used..];
    assert forall a :: a in rest ==> a in ops;
    QuietIffNothingScanned(cfg, rest);
  }

  lemma RescanAfterTerminator(cfg: Config, us: seq<seq<string>>, ops: seq<string>, rest: seq<string>)
    requires cfg.ordering == Permute && forall u :: u in us ==> Complete(cfg, u)
    ensures var r := Gathered(cfg, us, ops, ScanAll(cfg, ["--"] + rest)); ScanAll(cfg, r.consumed + r.operands) == r
  {
    var tail, again := ["--"] + rest, ["--"] + (ops + rest);
    assert tail[1..] == rest && again[1..] == ops + rest && again[..1] == ["--"] == tail[..1];
    var r := Gathered(cfg, us, ops, ScanAll(cfg, tail));
    assert r.consumed + r.operands == Concat(us) + again;
    ScanOfUnits(cfg, us, again);
    assert [] + (ops + rest) == ops + rest;
  }

  lemma RescanAfterAll(cfg: Config, us: seq<seq<string>>, ops: seq<string>)
    requires cfg.ordering == Permute && (forall u :: u in us ==> Complete(cfg, u)) && Quiet(Permute, ops)
    ensures var r := Gathered(cfg, us, ops, ScanAll(cfg, [])); ScanAll(cfg, r.consumed + r.operands) == r
  {
    var r := Gathered(cfg, us, ops, ScanAll(cfg, []));
    assert r.consumed + r.operands == Concat(us) + ops;
    QuietIffNothingScanned(cfg, ops);
    ScanOfUnits(cfg, us, ops);
    assert [] + ops == ops == ops + [];
  }

  lemma RescanAfterLacking(cfg: Config, us: seq<seq<string>>, ops: seq<string>, last: string)
    requires cfg.ordering == Permute && (forall u :: u in us ==> Complete(cfg, u)) && Quiet(Permute, ops)
    requires !NonOption(last) && last != "--" && !NoneMissing(ElementOf(cfg, [last]).events)
    ensures var r := Gathered(cfg, us, ops, ScanAll(cfg, [last]));
      !NoneMissing(r.events) && (ScanAll(cfg, r.consumed + r.operands) == r <==> r.operands == [])
  {
    var args, el := [last], ElementOf(cfg, [last]);
    var t := el.events;
    assert args[0] == last && el.used == 1 && args[1..] == [] && args[..1] == args;
    assert ScanAll(cfg, args[el.used..]) == Scan([], [], [], false);
    assert Joined(cfg, el, args) == Scan(t, args, [], false);
    assert ScanAll(cfg, args) == Scan(t, args, [], false);
    var r := Gathered(cfg, us, ops, ScanAll(cfg, [last]));
    assert r.events == EventsOf(cfg, us) + t && r.operands == ops;
    var m :| m in t && Missing(m);
    assert m in r.events;
    assert r.consumed + r.operands == Concat(us) + ([last] + ops);
    ScanOfUnits(cfg, us, [last] + ops);
    if ops == [] {
      assert [last] + ops == [last];
    } else {
      LackingTakesOperand(cfg, last, ops);
      UnitsLackNothing(cfg, us);
      assert NoneMissing(ScanAll(cfg, r.consumed + r.operands).events);
    }
  }

  lemma LackNothingMore(cfg: Config, us: seq<seq<string>>, ops: seq<string>, tail: seq<string>)
    requires (forall u :: u in us ==> Complete(cfg, u)) && NoneMissing(EventsOf(cfg, us))
    ensures tail == [] || tail[0] == "--" ==> NoneMissing(Gathered(cfg, us, ops, ScanAll(cfg, tail)).events)
  {}

  /** With "a:" declared: an option by itself, and before an operand that it takes. */
  lemma DashA(cfg: Config)
    requires cfg == Config(Permute, "a:", None)
    ensures ScanAll(cfg, ["-a"]) == Scan([Error(ShortArgumentMissing('a'))], ["-a"], [], false)
    ensures ScanAll(cfg, ["-a", "op"]) == Scan([ShortOpt('a', Some("op"))], ["-a", "op"], [], false)
  {
    assert KindOf("a:", 'a') == Takes(RequiredArgument);
    assert "-a"[1..] == "a" && "a"[1..] == "";
    assert ["-a"][1..] == [] && ["-a"][..1] == ["-a"];
    assert ["-a", "op"][1..] == ["op"] && ["-a", "op"][2..] == [] && ["-a", "op"][..2] == ["-a", "op"];
    assert Cluster("a:", "a", []) == Element([Error(ShortArgumentMissing('a'))], 1);
    assert Cluster("a:", "a", ["op"]) == Element([ShortOpt('a', Some("op"))], 2);
    assert ElementOf(cfg, ["-a"]) == Element([Error(ShortArgumentMissing('a'))], 1);
    assert ElementOf(cfg, ["-a", "op"]) == Element([ShortOpt('a', Some("op"))], 2);
    assert ScanAll(cfg, []) == Scan([], [], [], false);
  }

  /** A command line whose operands are not left alone: the -a behind "--" is an operand, and a further call
      reports it as an option. */
  lemma TerminatorLeavesOption()
    ensures var cfg := Config(Permute, "a:", None);
      var r := ScanAll(cfg, ["--", "-a"]);
      && r == Scan([], ["--"], ["-a"], true) && !Quiet(Permute, r.operands)
      && ScanAll(cfg, r.operands).events == [Error(ShortArgumentMissing('a'))]
  {
    DashA(Config(Permute, "a:", None));
    assert ["--", "-a"][..1] == ["--"] && ["--", "-a"][1..] == ["-a"];
    assert "-a" in ["-a"];
  }

  /** A command line whose arranged form means something else: -a lacks its argument, is moved before the
      operand, and takes it when scanned again. */
  lemma LackingOptionTakesOperand()
    ensures var cfg := Config(Permute, "a:", None);
      var r := ScanAll(cfg, ["op", "-a"]);
      && r == Scan([Error(ShortArgumentMissing('a'))], ["-a"], ["op"], false)
      && ScanAll(cfg, r.consumed + r.operands) == Scan([ShortOpt('a', Some("op"))], ["-a", "op"], [], false)
  {
    DashA(Config(Permute, "a:", None));
    assert ["op", "-a"][..1] == ["op"] && ["op", "-a"][1..] == ["-a"];
    assert ["-a"] + ["op"] == ["-a", "op"];
  }

  /** The arranged vector scans to what the original one did, operands staying where they are, except
      exactly when the last option lacked its argument and there is an operand for it to take. */
  lemma RescanIffNothingMissing(cfg: Config, args: seq<string>)
    requires cfg.ordering == Permute
    ensures var r := ScanAll(cfg, args);
      ScanAll(cfg, r.consumed + r.operands) == r <==> r.operands == [] || NoneMissing(r.events)
  {
    var items, tail := InPieces(cfg, args);
    ScanOfItems(cfg, items, tail);
    OperandsOfItems(cfg, items);
    var us, ops := Units(items), Operands(items);
    UnitsLackNothing(cfg, us);
    LackNothingMore(cfg, us, ops, tail);
    hide Complete, Gathered, EventsOf, ElementOf, ScanAll;
    if tail == [] {
      RescanAfterAll(cfg, us, ops);
    } else if tail[0] == "--" {
      assert tail == ["--"] + tail[1..];
      RescanAfterTerminator(cfg, us, ops, tail[1..]);
    } else {
      assert tail == [tail[0]];
      RescanAfterLacking(cfg, us, ops, tail[0]);
    }
  }
}
