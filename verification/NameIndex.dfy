/** Name indexes: vectors sorted by name and searched by bisection. */
module NameIndex {
  import opened Wrappers

  /** Anything with a coin name: a backend, or a statistic database. `id` tells apart equal names. */
  datatype Entry = Entry(name: string, id: nat)

  /** Byte-wise lexicographic order of strings. */
  predicate Less(a: string, b: string) {
    if b == "" then false
    else if a == "" then true
    else if a[0] != b[0] then a[0] < b[0]
    else Less(a[1..], b[1..])
  }

  lemma {:induction false} LessIsTotal(a: string, b: string)
    ensures !Less(a, a)
    ensures Less(a, b) ==> !Less(b, a)
    ensures !Less(a, b) && !Less(b, a) ==> a == b
  {
    if a == "" {
    } else if b == "" {
      LessIsTotal(a[1..], b);
    } else {
      LessIsTotal(a[1..], b[1..]);
      assert a == [a[0]] + a[1..] && b == [b[0]] + b[1..];
    }
  }

  /** One string comes before another if it ends where they first differ, or has the smaller character there. */
  lemma {:induction false} LessIff(a: string, b: string)
    ensures Less(a, b) <==> exists k :: 0 <= k <= |a| && k < |b| && a[..k] == b[..k] && (k == |a| || a[k] < b[k])
  {
    if a == "" || b == "" {
      assert a[..0] == b[..0];
    } else if a[0] != b[0] {
      assert a[..0] == b[..0];
      forall k | 0 < k <= |a| && k < |b| ensures a[..k] != b[..k] {
        assert a[..k][0] != b[..k][0];
      }
    } else {
      LessIff(a[1..], b[1..]);
      forall k | 0 <= k < |a| && k < |b| - 1 ensures a[1..][..k] == b[1..][..k] <==> a[..k + 1] == b[..k + 1] {
        assert a[..k + 1] == [a[0]] + a[1..][..k] && b[..k + 1] == [b[0]] + b[1..][..k];
      }
      if k :| 0 <= k <= |a| && k < |b| && a[..k] == b[..k] && (k == |a| || a[k] < b[k]) {
        assert k > 0 && a[1..][..k - 1] == b[1..][..k - 1];
      }
      if k :| 0 <= k < |a| && k < |b| - 1 && a[1..][..k] == b[1..][..k] && (k == |a| - 1 || a[1..][k] < b[1..][k]) {
        assert a[..k + 1] == b[..k + 1];
      }
    }
  }

  lemma {:induction false} NotLessTransitive(a: string, b: string, c: string)
    requires !Less(b, a) && !Less(c, b)
    ensures !Less(c, a)
  {
    if a == "" || b == "" || c == "" {
    } else if a[0] == b[0] == c[0] {
      NotLessTransitive(a[1..], b[1..], c[1..]);
    }
  }

  predicate Sorted(s: seq<Entry>) {
    forall i, j :: 0 <= i < j < |s| ==> !Less(s[j].name, s[i].name)
  }

  /** Sorting by name: a sorted rearrangement. Entries of one name may come in any order. */
  method SortByName(s: seq<Entry>) returns (r: seq<Entry>)
    ensures Sorted(r) && multiset(r) == multiset(s)
  {
    r := [];
    for i := 0 to |s|
      invariant Sorted(r) && multiset(r) == multiset(s[..i])
    {
      var k := 0;
      while k < |r| && !Less(s[i].name, r[k].name)
        invariant 0 <= k <= |r|
        invariant forall j :: 0 <= j < k ==> !Less(s[i].name, r[j].name)
      {
        k := k + 1;
      }
      InsertedIsSorted(r, s[i], k);
      InsertedKeepsAll(r, s[i], k);
      assert s[..i + 1] == s[..i] + [s[i]];
      r := r[..k] + [s[i]] + r[k..];
    }
    assert s[..|s|] == s;
  }

  lemma InsertedKeepsAll(r: seq<Entry>, e: Entry, k: nat)
    requires k <= |r|
    ensures multiset(r[..k] + [e] + r[k..]) == multiset(r) + multiset{e}
  {
    assert r == r[..k] + r[k..];
  }

  lemma InsertedIsSorted(r: seq<Entry>, e: Entry, k: nat)
    requires Sorted(r) && k <= |r|
    requires forall j :: 0 <= j < k ==> !Less(e.name, r[j].name)
    requires k < |r| ==> Less(e.name, r[k].name)
    ensures Sorted(r[..k] + [e] + r[k..])
  {
    forall j | k <= j < |r| ensures !Less(r[j].name, e.name) {
      LessIsTotal(e.name, r[k].name);
      if j > k { NotLessTransitive(e.name, r[k].name, r[j].name); }
    }
  }

  /** Bisection on [first, first + count): the first position whose name is not below `name`. */
  function LowerBound(s: seq<Entry>, name: string, first: nat, count: nat): (k: nat)
    requires Sorted(s) && first + count <= |s|
    requires forall i :: 0 <= i < first ==> Less(s[i].name, name)
    requires forall i :: first + count <= i < |s| ==> !Less(s[i].name, name)
    ensures first <= k <= first + count
    ensures forall i :: 0 <= i < k ==> Less(s[i].name, name)
    ensures forall i :: k <= i < |s| ==> !Less(s[i].name, name)
    decreases count
  {
    if count == 0 then first
    else
      var step := count / 2;
      var mid := first + step;
      if Less(s[mid].name, name) then
        BelowStaysBelow(s, name, mid);
        LowerBound(s, name, mid + 1, count - step - 1)
      else
        AboveStaysAbove(s, name, mid);
        LowerBound(s, name, first, step)
  }

  lemma BelowStaysBelow(s: seq<Entry>, name: string, mid: nat)
    requires Sorted(s) && mid < |s| && Less(s[mid].name, name)
    ensures forall i :: 0 <= i <= mid ==> Less(s[i].name, name)
  {
    forall i | 0 <= i < mid ensures Less(s[i].name, name) {
      if !Less(s[i].name, name) { NotLessTransitive(name, s[i].name, s[mid].name); }
    }
  }

  lemma AboveStaysAbove(s: seq<Entry>, name: string, mid: nat)
    requires Sorted(s) && mid < |s| && !Less(s[mid].name, name)
    ensures forall i :: mid <= i < |s| ==> !Less(s[i].name, name)
  {
    forall i | mid < i < |s| ensures !Less(s[i].name, name) {
      NotLessTransitive(name, s[mid].name, s[i].name);
    }
  }

  predicate FirstOf(s: seq<Entry>, name: string, k: nat)
    requires k < |s|
  {
    s[k].name == name && forall i :: 0 <= i < k ==> s[i].name != name
  }

  /** The lookup agrees with a linear search of the sorted entries: the first of that name, if any. */
  function Find(s: seq<Entry>, name: string): (r: Option<Entry>)
    requires Sorted(s)
    ensures r.None? <==> forall e :: e in s ==> e.name != name
    ensures r.Some? ==> r.value.name == name && exists k :: 0 <= k < |s| && FirstOf(s, name, k) && s[k] == r.value
  {
    var k := LowerBound(s, name, 0, |s|);
    NotBelowAt(s, name, k);
    if k == |s| || s[k].name != name then None
    else
      assert s[k] in s && FirstOf(s, name, k);
      Some(s[k])
  }

  lemma NotBelowAt(s: seq<Entry>, name: string, k: nat)
    requires Sorted(s) && k <= |s|
    requires forall i :: 0 <= i < k ==> Less(s[i].name, name)
    requires forall i :: k <= i < |s| ==> !Less(s[i].name, name)
    ensures forall i :: 0 <= i < k ==> s[i].name != name
    ensures k < |s| && s[k].name != name ==> forall i :: k <= i < |s| ==> s[i].name != name
  {
    LessIsTotal(name, name);
    if k < |s| && s[k].name != name {
      forall i | k <= i < |s| ensures s[i].name != name {
        if i > k && s[i].name == name {
          assert !Less(s[i].name, s[k].name);
          LessIsTotal(s[k].name, name);
        }
      }
    }
  }

  /** A sorted rearrangement finds a name exactly when the original list has it, whatever order the
      sort left equal names in. */
  lemma FindInSorted(original: seq<Entry>, sorted: seq<Entry>, name: string)
    requires Sorted(sorted) && multiset(sorted) == multiset(original)
    ensures Find(sorted, name).Some? <==> exists e :: e in original && e.name == name
    ensures Find(sorted, name).Some? ==> Find(sorted, name).value in original
  {
    forall e ensures e in sorted <==> e in original {
      assert e in multiset(sorted) <==> e in multiset(original);
    }
  }

  /** What a linear search of the unsorted `original` allows as an answer. */
  ghost predicate LinearAnswer(original: seq<Entry>, name: string, r: Option<Entry>) {
    match r
    case Some(e) => e in original && e.name == name
    case None => forall e :: e in original ==> e.name != name
  }

  /** The HTTP server's two indexes, filled and sorted when it is built. */
  class Server {
    var backends: seq<Entry>
    var statistics: seq<Entry>
    ghost var allBackends: seq<Entry>  // as handed in
    ghost var allStatistics: seq<Entry>

    /** `own[i]` is the statistic database of `backends[i]`. */
    constructor (backends: seq<Entry>, own: seq<Entry>, algoStatistics: seq<Entry>)
      requires |own| == |backends|
      ensures Valid() && allBackends == backends && allStatistics == own + algoStatistics
    {
      var b, s := [], [];
      for i := 0 to |backends|
        invariant b == backends[..i] && s == own[..i]
      {
        b, s := b + [backends[i]], s + [own[i]];
      }
      for i := 0 to |algoStatistics|
        invariant s == own + algoStatistics[..i]
      {
        s := s + [algoStatistics[i]];
      }
      assert b == backends && s == own + algoStatistics;
      b := SortByName(b);
      s := SortByName(s);
      this.backends, statistics := b, s;
      allBackends, allStatistics := backends, own + algoStatistics;
    }

    ghost predicate Valid()
      reads this
    {
      && Sorted(backends) && multiset(backends) == multiset(allBackends)
      && Sorted(statistics) && multiset(statistics) == multiset(allStatistics)
    }

    function Backend(coin: string): (r: Option<Entry>)
      requires Valid()
      reads this
      ensures LinearAnswer(allBackends, coin, r)
    {
      FindInSorted(allBackends, backends, coin);
      Find(backends, coin)
    }

    function StatisticDb(name: string): (r: Option<Entry>)
      requires Valid()
      reads this
      ensures LinearAnswer(allStatistics, name, r)
    {
      FindInSorted(allStatistics, statistics, name);
      Find(statistics, name)
    }
  }
}
