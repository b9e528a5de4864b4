/** Comma-separated option values. */
module CommaList {
  import opened Wrappers
  import opened OptionTable

  function Split(s: string): (pieces: seq<string>)
    decreases |s|
  {
    var i := IndexOf(s, ',');
    if i == |s| then [s] else [s[..i]] + Split(s[i + 1..])
  }

  function Join(pieces: seq<string>): string {
    if pieces == [] then ""
    else if |pieces| == 1 then pieces[0]
    else pieces[0] + "," + Join(pieces[1..])
  }

  function Commas(s: string): nat {
    if s == "" then 0 else (if s[0] == ',' then 1 else 0) + Commas(s[1..])
  }

  predicate CommaFree(pieces: seq<string>) {
    forall p :: p in pieces ==> ',' !in p
  }

  /** The program's loop: a pointer hops from comma to comma, appending each piece to `list`. */
  method AppendPieces(list: seq<string>, text: string) returns (longer: seq<string>)
    ensures longer == list + Split(text)
  {
    longer := list;
    var p := Some(text);
    while p.Some?
      invariant longer + (if p.Some? then Split(p.value) else []) == list + Split(text)
      decreases if p.Some? then 1 + |p.value| else 0
    {
      var comma := IndexOf(p.value, ',');
      ghost var before := longer;
      longer := longer + [p.value[..comma]];
      if comma < |p.value| {
        assert longer + Split(p.value[comma + 1..]) == before + Split(p.value);
        p := Some(p.value[comma + 1..]);
      } else {
        assert p.value[..comma] == p.value;
        p := None;
      }
    }
  }

  lemma {:induction false} CommasUpTo(s: string, i: nat)
    requires i < |s| && ',' !in s[..i] && s[i] == ','
    ensures Commas(s) == 1 + Commas(s[i + 1..])
  {
    if i == 0 {
    } else {
      assert s[0] == s[..i][0] && s[1..][..i - 1] == s[..i][1..];
      CommasUpTo(s[1..], i - 1);
      assert s[1..][i..] == s[i + 1..];
    }
  }

  lemma {:induction false} NoCommas(s: string)
    requires ',' !in s
    ensures Commas(s) == 0
  {
    if s == "" {
    } else {
      NoCommas(s[1..]);
    }
  }

  lemma JoinCons(head: string, pieces: seq<string>)
    requires pieces != []
    ensures Join([head] + pieces) == head + "," + Join(pieces)
  {}

  lemma FirstPiece(s: string)
    ensures var i := IndexOf(s, ',');
      if i == |s| then Split(s) == [s] && ',' !in s
      else ',' !in s[..i] && Split(s) == [s[..i]] + Split(s[i + 1..])
  {
    assert s[..|s|] == s;
  }

  /** A piece ends at the first comma. */
  lemma SplitAtComma(piece: string, more: string)
    requires ',' !in piece
    ensures Split(piece) == [piece] && Split(piece + "," + more) == [piece] + Split(more)
  {
    IndexIsUnique(piece, ',', |piece|);
    var s := piece + "," + more;
    assert s[..|piece|] == piece && s[|piece| + 1..] == more && piece[..|piece|] == piece;
    IndexIsUnique(s, ',', |piece|);
  }

  lemma CommaFreeCons(head: string, pieces: seq<string>)
    requires ',' !in head && CommaFree(pieces)
    ensures CommaFree([head] + pieces)
  {}

  lemma {:induction false} PiecesCommaFree(s: string)
    ensures CommaFree(Split(s))
    decreases |s|
  {
    FirstPiece(s);
    hide Split, IndexOf;
    var i := IndexOf(s, ',');
    if i == |s| {
    } else {
      PiecesCommaFree(s[i + 1..]);
      CommaFreeCons(s[..i], Split(s[i + 1..]));
    }
  }

  lemma {:induction false} PiecesJoin(s: string)
    ensures Join(Split(s)) == s && Split(s) != []
    decreases |s|
  {
    FirstPiece(s);
    hide Split, IndexOf;
    var i := IndexOf(s, ',');
    if i == |s| {
    } else {
      PiecesJoin(s[i + 1..]);
      JoinCons(s[..i], Split(s[i + 1..]));
      assert s == s[..i] + "," + s[i + 1..];
    }
  }

  lemma {:induction false} PiecesCount(s: string)
    ensures |Split(s)| == 1 + Commas(s)
    decreases |s|
  {
    FirstPiece(s);
    hide Split, IndexOf;
    var i := IndexOf(s, ',');
    if i == |s| {
      NoCommas(s);
    } else {
      PiecesCount(s[i + 1..]);
      CommasUpTo(s, i);
    }
  }

  /** The pieces hold no comma, are one more than the commas, and join back to the text. */
  lemma {:induction false} SplitIsFaithful(s: string)
    ensures CommaFree(Split(s)) && |Split(s)| == 1 + Commas(s) && Join(Split(s)) == s
  {
    PiecesCommaFree(s);
    PiecesCount(s);
    PiecesJoin(s);
  }

  /** And splitting recovers any list of comma-free pieces from its joined form. */
  lemma {:induction false} SplitInvertsJoin(pieces: seq<string>)
    requires pieces != [] && CommaFree(pieces)
    ensures Split(Join(pieces)) == pieces
  {
    var head, s := pieces[0], Join(pieces);
    if |pieces| == 1 {
      assert s[..|s|] == s;
      IndexIsUnique(s, ',', |s|);
    } else {
      SplitInvertsJoin(pieces[1..]);
      JoinCons(head, pieces[1..]);
      assert pieces == [head] + pieces[1..];
      assert s[..|head|] == head && s[|head|] == ',' && s[|head| + 1..] == Join(pieces[1..]);
      IndexIsUnique(s, ',', |head|);
    }
  }
}
