/** The tables a caller hands to the scanner: option characters and long-option names. */
module OptionTable {
  import opened Wrappers

  datatype HasArg = NoArgument | RequiredArgument | OptionalArgument

  /** `flag` names the integer cell the option stores `val` into, if it has one. */
  datatype LongOption = LongOption(name: string, hasArg: HasArg, flag: Option<int>, val: int)

  /** Position of the first `x` in `s`, or |s|: what a strchr or a scan for a delimiter finds. */
  function IndexOf(s: string, x: char): (i: nat)
    ensures i <= |s| && (i < |s| ==> s[i] == x) && x !in s[..i]
  {
    if s == [] then 0
    else if s[0] == x then 0
    else
      var i := 1 + IndexOf(s[1..], x);
      assert s[..i] == [s[0]] + s[1..][..i - 1];
      i
  }

  lemma IndexIsUnique(s: string, x: char, n: nat)
    requires n <= |s| && x !in s[..n] && (n < |s| ==> s[n] == x)
    ensures n == IndexOf(s, x)
  {}

  // ----- option characters

  datatype CharKind = Invalid | Takes(arg: HasArg)

  predicate ColonAt(shorts: string, i: nat) {
    i < |shorts| && shorts[i] == ':'
  }

  function KindOf(shorts: string, c: char): CharKind {
    var i := IndexOf(shorts, c);
    if i == |shorts| || c == ':' || c == ';' then Invalid
    else if !ColonAt(shorts, i + 1) then Takes(NoArgument)
    else if ColonAt(shorts, i + 2) then Takes(OptionalArgument)
    else Takes(RequiredArgument)
  }

  /** What an option-character string declares: the first occurrence of a character counts, one colon
      after it asks for an argument, two make the argument optional. */
  lemma FirstDeclarationCounts(before: string, c: char, after: string)
    requires c !in before && c != ':' && c != ';'
    ensures KindOf(before + [c] + after, c) ==
      Takes(if "::" <= after then OptionalArgument else if ":" <= after then RequiredArgument else NoArgument)
  {
    var shorts := before + [c] + after;
    assert shorts[..|before|] == before && shorts[|before| + 1..] == after;
    IndexIsUnique(shorts, c, |before|);
  }

  /** Any other character is not an option, and neither are ':' and ';' themselves. */
  lemma OthersAreInvalid(shorts: string, c: char)
    ensures KindOf(shorts, c).Invalid? <==> c !in shorts || c == ':' || c == ';'
  {
    var i := IndexOf(shorts, c);
    assert i == |shorts| ==> shorts[..i] == shorts;
    assert i < |shorts| ==> c in shorts;
  }

  /** The string never asks for the `-W foo` spelling of `--foo`. */
  predicate NoLongW(shorts: string) {
    var i := IndexOf(shorts, 'W');
    i + 1 < |shorts| ==> shorts[i + 1] != ';'
  }

  // ----- long options

  /** Same effect: an abbreviation matching both is not ambiguous. */
  predicate Alike(a: LongOption, b: LongOption) {
    a.hasArg == b.hasArg && a.flag == b.flag && a.val == b.val
  }

  datatype Match = Found(index: nat) | Ambiguous | Unrecognized

  predicate Exact(longs: seq<LongOption>, key: string, i: nat) {
    i < |longs| && longs[i].name == key
  }

  predicate Prefix(longs: seq<LongOption>, key: string, i: nat) {
    i < |longs| && key <= longs[i].name
  }

  ghost predicate HasExact(longs: seq<LongOption>, key: string) {
    exists i: nat :: Exact(longs, key, i)
  }

  ghost predicate HasPrefix(longs: seq<LongOption>, key: string) {
    exists i: nat :: Prefix(longs, key, i)
  }

  ghost predicate Clash(longs: seq<LongOption>, key: string) {
    exists i: nat, j: nat :: Prefix(longs, key, i) && Prefix(longs, key, j) && !Alike(longs[i], longs[j])
  }

  /** What the search owes its caller. */
  ghost predicate Answers(longs: seq<LongOption>, key: string, m: Match) {
    if HasExact(longs, key) then
      m.Found? && Exact(longs, key, m.index) && forall j: nat :: j < m.index ==> !Exact(longs, key, j)
    else if Clash(longs, key) then
      m.Ambiguous?
    else if HasPrefix(longs, key) then
      m.Found? && Prefix(longs, key, m.index) && forall j: nat :: j < m.index ==> !Prefix(longs, key, j)
    else
      m.Unrecognized?
  }

  lemma AnswerIsUnique(longs: seq<LongOption>, key: string, m: Match, n: Match)
    requires Answers(longs, key, m) && Answers(longs, key, n)
    ensures m == n
  {}

  /** First long option from `i` on whose name is `key` (exact) or starts with it. */
  function FirstHit(longs: seq<LongOption>, key: string, exact: bool, i: nat): (k: nat)
    requires i <= |longs|
    ensures i <= k <= |longs|
    ensures k < |longs| ==> if exact then Exact(longs, key, k) else Prefix(longs, key, k)
    ensures forall j: nat :: i <= j < k ==> if exact then !Exact(longs, key, j) else !Prefix(longs, key, j)
    decreases |longs| - i
  {
    if i == |longs| then i
    else if if exact then longs[i].name == key else key <= longs[i].name then i
    else FirstHit(longs, key, exact, i + 1)
  }

  function Lookup(longs: seq<LongOption>, key: string): (m: Match)
    ensures Answers(longs, key, m)
  {
    var e := FirstHit(longs, key, true, 0);
    if e < |longs| then
      assert Exact(longs, key, e);
      Found(e)
    else
      assert forall j: nat :: !Exact(longs, key, j);
      var p := FirstHit(longs, key, false, 0);
      if p == |longs| then
        assert forall j: nat :: !Prefix(longs, key, j);
        Unrecognized
      else if j: nat :| j < |longs| && key <= longs[j].name && !Alike(longs[p], longs[j]) then
        assert Prefix(longs, key, p) && Prefix(longs, key, j);
        Ambiguous
      else
        assert Prefix(longs, key, p);
        assert forall j: nat :: Prefix(longs, key, j) ==> Alike(longs[p], longs[j]);
        Found(p)
  }

  /** The answer in terms of the entries alone: a name is ambiguous if it is no option's full name, and two
      options it abbreviates differ in what they do. */
  lemma AmbiguousIff(longs: seq<LongOption>, key: string)
    ensures Lookup(longs, key) == Ambiguous <==>
      && (forall o :: o in longs ==> o.name != key)
      && exists a, b :: a in longs && b in longs && key <= a.name && key <= b.name
           && (a.hasArg != b.hasArg || a.flag != b.flag || a.val != b.val)
  {
    forall o | o in longs && o.name == key ensures HasExact(longs, key) {
      var i: nat :| i < |longs| && longs[i] == o;
      assert Exact(longs, key, i);
    }
    forall a, b | a in longs && b in longs && key <= a.name && key <= b.name && !Alike(a, b)
      ensures Clash(longs, key)
    {
      var i: nat :| i < |longs| && longs[i] == a;
      var j: nat :| j < |longs| && longs[j] == b;
      assert Prefix(longs, key, i) && Prefix(longs, key, j);
    }
  }

  lemma UnrecognizedIff(longs: seq<LongOption>, key: string)
    ensures Lookup(longs, key) == Unrecognized <==> forall o :: o in longs ==> !(key <= o.name)
  {
    forall o | o in longs && key <= o.name ensures HasPrefix(longs, key) {
      var i: nat :| i < |longs| && longs[i] == o;
      assert Prefix(longs, key, i);
    }
  }

  /** And it stands for option `i` if that is the first of that name, or if there is none of that name and
      it is the first that the name abbreviates, all of which do the same. */
  lemma FoundIff(longs: seq<LongOption>, key: string, i: nat)
    ensures Lookup(longs, key) == Found(i) <==>
      && i < |longs|
      && (|| (longs[i].name == key && forall j :: 0 <= j < i ==> longs[j].name != key)
          || (&& (forall o :: o in longs ==> o.name != key)
              && key <= longs[i].name && (forall j :: 0 <= j < i ==> !(key <= longs[j].name))
              && forall o :: o in longs && key <= o.name ==>
                   o.hasArg == longs[i].hasArg && o.flag == longs[i].flag && o.val == longs[i].val))
  {
    AmbiguousIff(longs, key);
    UnrecognizedIff(longs, key);
    var m := Lookup(longs, key);
    if i < |longs| && longs[i].name == key { assert Exact(longs, key, i); }
    if i < |longs| && key <= longs[i].name { assert Prefix(longs, key, i); }
    forall j: nat ensures Exact(longs, key, j) <==> j < |longs| && longs[j].name == key {}
    forall j: nat ensures Prefix(longs, key, j) <==> j < |longs| && key <= longs[j].name {}
  }

  /** The scanner's own search: one pass, stopping early only at an exact name. */
  method FindLong(longs: seq<LongOption>, key: string) returns (m: Match)
    ensures m == Lookup(longs, key)
  {
    var pfound: Option<nat>, ambiguous, i := None, false, 0;
    while i < |longs|
      invariant 0 <= i <= |longs|
      invariant forall j: nat :: j < i ==> !Exact(longs, key, j)
      invariant pfound.None? ==> !ambiguous && forall j: nat :: j < i ==> !Prefix(longs, key, j)
      invariant pfound.Some? ==> pfound.value < i && Prefix(longs, key, pfound.value)
      invariant pfound.Some? ==> forall j: nat :: j < pfound.value ==> !Prefix(longs, key, j)
      invariant pfound.Some? ==>
        (ambiguous <==> exists j: nat :: j < i && Prefix(longs, key, j) && !Alike(longs[pfound.value], longs[j]))
    {
      if key <= longs[i].name {
        assert Prefix(longs, key, i);
        if |key| == |longs[i].name| {
          assert Exact(longs, key, i);
          AnswerIsUnique(longs, key, Found(i), Lookup(longs, key));
          return Found(i);
        } else if pfound.None? {
          pfound := Some(i);
        } else if !Alike(longs[pfound.value], longs[i]) {
          ambiguous := true;
        }
      }
      i := i + 1;
    }
    m := if ambiguous then Ambiguous else if pfound.Some? then Found(pfound.value) else Unrecognized;
    AnswerIsUnique(longs, key, m, Lookup(longs, key));
  }

  // ----- the order of the table

  /** What the rest of the program sees of an answer: its kind, and the chosen option's effect. */
  ghost predicate SameAnswer(l1: seq<LongOption>, m1: Match, l2: seq<LongOption>, m2: Match) {
    match (m1, m2)
    case (Found(i), Found(j)) => i < |l1| && j < |l2| && Alike(l1[i], l2[j])
    case _ => m1 == m2
  }

  lemma PrefixMoves(l1: seq<LongOption>, l2: seq<LongOption>, key: string, i: nat) returns (j: nat)
    requires forall o :: o in l1 ==> o in l2
    requires Prefix(l1, key, i)
    ensures Prefix(l2, key, j) && l2[j] == l1[i]
  {
    assert l1[i] in l2;
    j :| j < |l2| && l2[j] == l1[i];
  }

  lemma HitsMove(l1: seq<LongOption>, l2: seq<LongOption>, key: string)
    requires forall o :: o in l1 ==> o in l2
    ensures HasExact(l1, key) ==> HasExact(l2, key)
    ensures HasPrefix(l1, key) ==> HasPrefix(l2, key)
    ensures Clash(l1, key) ==> Clash(l2, key)
  {
    if i: nat :| Exact(l1, key, i) {
      var j := PrefixMoves(l1, l2, key, i);
      assert Exact(l2, key, j);
    }
    if i: nat :| Prefix(l1, key, i) {
      var j := PrefixMoves(l1, l2, key, i);
    }
    if i: nat, i': nat :| Prefix(l1, key, i) && Prefix(l1, key, i') && !Alike(l1[i], l1[i']) {
      var j := PrefixMoves(l1, l2, key, i);
      var j' := PrefixMoves(l1, l2, key, i');
    }
  }

  /** Options that share the name `key` have the same effect (in particular when names are distinct). */
  ghost predicate Agreed(longs: seq<LongOption>, key: string) {
    forall a, b :: a in longs && b in longs && a.name == key && b.name == key ==> Alike(a, b)
  }

  /** Two tables with the same entries answer alike for a name their options agree on. */
  lemma OrderIrrelevant(l1: seq<LongOption>, l2: seq<LongOption>, key: string)
    requires (forall o :: o in l1 <==> o in l2) && Agreed(l1, key)
    ensures SameAnswer(l1, Lookup(l1, key), l2, Lookup(l2, key))
    ensures var m1, m2 := Lookup(l1, key), Lookup(l2, key);
      && (m1 == Ambiguous <==> m2 == Ambiguous) && (m1 == Unrecognized <==> m2 == Unrecognized)
      && (m1.Found? ==>
            && m1.index < |l1| && m2.index < |l2|
            && var a, b := l1[m1.index], l2[m2.index]; a.hasArg == b.hasArg && a.flag == b.flag && a.val == b.val)
  {
    HitsMove(l1, l2, key);
    HitsMove(l2, l1, key);
    var m1, m2 := Lookup(l1, key), Lookup(l2, key);
    if HasExact(l1, key) {
      assert l1[m1.index] in l1 && l2[m2.index] in l1;
    } else if m1.Found? {
      var i := PrefixMoves(l1, l2, key, m1.index);
      assert Alike(l2[i], l2[m2.index]);
    }
  }

  ghost predicate Reorders(l1: seq<LongOption>, l2: seq<LongOption>) {
    multiset(l1) == multiset(l2)
  }

  lemma ReorderingHasSameEntries(l1: seq<LongOption>, l2: seq<LongOption>)
    requires Reorders(l1, l2)
    ensures forall o :: o in l1 <==> o in l2
  {
    forall o ensures o in l1 <==> o in l2 {
      assert o in multiset(l1) <==> o in multiset(l2);
    }
  }

  lemma UnlikeTheFound(longs: seq<LongOption>, key: string) returns (k: nat)
    requires !Agreed(longs, key)
    ensures Exact(longs, key, k)
    ensures var m := Lookup(longs, key);
      m.Found? && m.index < |longs| && !Alike(longs[m.index], longs[k])
  {
    var a, b :| a in longs && b in longs && a.name == key && b.name == key && !Alike(a, b);
    var i: nat :| i < |longs| && longs[i] == a;
    var j: nat :| j < |longs| && longs[j] == b;
    assert Exact(longs, key, i) && Exact(longs, key, j);
    k := if Alike(longs[Lookup(longs, key).index], a) then j else i;
  }

  lemma MovedToFront(longs: seq<LongOption>, key: string, k: nat) returns (reordered: seq<LongOption>)
    requires Exact(longs, key, k)
    ensures Reorders(longs, reordered)
    ensures reordered != [] && reordered[0] == longs[k] && Lookup(reordered, key) == Found(0)
  {
    reordered := [longs[k]] + (longs[..k] + longs[k + 1..]);
    assert longs == longs[..k] + [longs[k]] + longs[k + 1..];
    assert Exact(reordered, key, 0);
    AnswerIsUnique(reordered, key, Found(0), Lookup(reordered, key));
  }

  /** Options of one name that differ can be told apart by order: put to the front, one unlike the
      option found answers instead of it. */
  lemma ClashIsExposed(longs: seq<LongOption>, key: string) returns (reordered: seq<LongOption>)
    requires !Agreed(longs, key)
    ensures Reorders(longs, reordered)
    ensures !SameAnswer(longs, Lookup(longs, key), reordered, Lookup(reordered, key))
    ensures var m1, m2 := Lookup(longs, key), Lookup(reordered, key);
      && m1.Found? && m2.Found? && m1.index < |longs| && m2.index < |reordered|
      && var a, b := longs[m1.index], reordered[m2.index]; a.hasArg != b.hasArg || a.flag != b.flag || a.val != b.val
  {
    var k := UnlikeTheFound(longs, key);
    reordered := MovedToFront(longs, key, k);
  }

  /** Reordering a table never changes the answer for a name exactly when its options agree on it. */
  lemma OrderIrrelevantIffAgreed(longs: seq<LongOption>, key: string)
    ensures (forall l2 :: Reorders(longs, l2) ==> SameAnswer(longs, Lookup(longs, key), l2, Lookup(l2, key)))
      <==> forall a, b :: a in longs && b in longs && a.name == key && b.name == key ==>
             a.hasArg == b.hasArg && a.flag == b.flag && a.val == b.val
  {
    if Agreed(longs, key) {
      forall l2 | Reorders(longs, l2) ensures SameAnswer(longs, Lookup(longs, key), l2, Lookup(l2, key)) {
        ReorderingHasSameEntries(longs, l2);
        OrderIrrelevant(longs, l2, key);
      }
    } else {
      var l2 := ClashIsExposed(longs, key);
    }
  }
}
