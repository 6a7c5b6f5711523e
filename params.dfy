/** The parameter list of the AXI slave: the three bus parameters and the
    block's own, each passed through the `$...(X)` pattern, then `sort_uniq`:
    sorted in string order with duplicates dropped. */
module Params {
  import opened Block
  import opened Text

  /** Every element comes before every later one, so none repeats. */
  predicate StrictlySorted(s: seq<string>)
  {
    forall i, j :: 0 <= i < j < |s| ==> Below(s[i], s[j])
  }

  /** Puts x into a strictly sorted list unless it is already there. */
  function Insert(x: string, s: seq<string>): (r: seq<string>)
    requires StrictlySorted(s)
    ensures StrictlySorted(r)
    ensures forall y :: y in r <==> y == x || y in s
    decreases |s|
  {
    if s == [] then [x]
    else if x == s[0] then s
    else if Below(x, s[0]) then
      InsertFront(x, s);
      [x] + s
    else
      BelowTotal(x, s[0]);
      var rest := Insert(x, s[1..]);
      InsertBehind(x, s, rest);
      [s[0]] + rest
  }

  lemma InsertFront(x: string, s: seq<string>)
    requires StrictlySorted(s) && s != [] && Below(x, s[0])
    ensures StrictlySorted([x] + s)
  {
    forall j | 1 <= j < |s|
      ensures Below(x, s[j])
    {
      BelowTransitive(x, s[0], s[j]);
    }
  }

  lemma InsertBehind(x: string, s: seq<string>, rest: seq<string>)
    requires StrictlySorted(s) && s != [] && Below(s[0], x)
    requires StrictlySorted(rest)
    requires forall y :: y in rest <==> y == x || y in s[1..]
    ensures StrictlySorted([s[0]] + rest)
  {
    forall j | 0 <= j < |rest|
      ensures Below(s[0], rest[j])
    {
      assert rest[j] in rest;
      if rest[j] != x {
        var k :| 0 <= k < |s[1..]| && s[1..][k] == rest[j];
        assert s[k + 1] == rest[j];
      }
    }
  }

  /** `sort_uniq` (pyrg_axi.py:31-33): `sorted` followed by `groupby`, which
      keeps one copy of each run of equal strings. */
  function SortUniq(xs: seq<string>): (ys: seq<string>)
    ensures StrictlySorted(ys)
    ensures forall y :: y in ys <==> y in xs
  {
    if xs == [] then []
    else
      var front := xs[..|xs| - 1];
      assert xs == front + [xs[|xs| - 1]];
      Insert(xs[|xs| - 1], SortUniq(front))
  }

  /** Two strictly sorted lists with the same elements are the same list. */
  lemma {:induction false} StrictlySortedUnique(a: seq<string>, b: seq<string>)
    requires StrictlySorted(a) && StrictlySorted(b)
    requires forall y :: y in a <==> y in b
    ensures a == b
    decreases |a|
  {
    assert a != [] ==> a[0] in b;
    assert b != [] ==> b[0] in a;
    if a != [] && b != [] {
      if a[0] != b[0] {
        var k :| 0 <= k < |b| && b[k] == a[0];
        var m :| 0 <= m < |a| && a[m] == b[0];
        BelowTransitive(a[0], b[0], a[0]);
        BelowIrreflexive(a[0]);
      }
      forall y
        ensures y in a[1..] <==> y in b[1..]
      {
        if y in a[1..] {
          OnlyHeadIsHead(a, b, y);
        }
        if y in b[1..] {
          OnlyHeadIsHead(b, a, y);
        }
      }
      StrictlySortedUnique(a[1..], b[1..]);
      assert a == [a[0]] + a[1..] && b == [b[0]] + b[1..];
    }
  }

  lemma OnlyHeadIsHead(a: seq<string>, b: seq<string>, y: string)
    requires StrictlySorted(a) && StrictlySorted(b) && a != [] && b != [] && a[0] == b[0]
    requires y in a[1..] && y in b
    ensures y in b[1..]
  {
    var i :| 0 <= i < |a[1..]| && a[1..][i] == y;
    assert Below(a[0], a[i + 1]);
    BelowIrreflexive(y);
    var j :| 0 <= j < |b| && b[j] == y;
    assert j != 0;
    assert b[1..][j - 1] == y;
  }

  /** sort_uniq depends only on which strings occur: it is the one strictly
      sorted list of them, so reordering or repeating its input changes
      nothing and applying it twice is the same as once. */
  lemma SortUniqCanonical(xs: seq<string>, ys: seq<string>)
    requires forall y :: y in xs <==> y in ys
    ensures SortUniq(xs) == SortUniq(ys)
    ensures SortUniq(SortUniq(xs)) == SortUniq(xs)
  {
    StrictlySortedUnique(SortUniq(xs), SortUniq(ys));
    StrictlySortedUnique(SortUniq(SortUniq(xs)), SortUniq(xs));
  }

  /** The parameters every slave declares before the block's own. */
  const BusParameters: seq<string> := ["AXI_DATA_WIDTH_P", "AXI_ADDR_WIDTH_P", "AXI_ID_P"]

  /** A parameter after the `$...(X)` pattern: the captured group when the
      pattern matches, the parameter unchanged otherwise. The pattern itself is
      a parameter of the model. */
  function Extracted(p: string, extract: string -> Option<string>): string
  {
    match extract(p)
    case Some(group) => group
    case None => p
  }

  /** The loop of pyrg_axi.py:405-408, which overwrites each matching entry of
      the list in place and leaves the others alone. */
  method ExtractParameters(ps: seq<string>, extract: string -> Option<string>) returns (out: seq<string>)
    ensures |out| == |ps|
    ensures forall i :: 0 <= i < |ps| ==> out[i] == Extracted(ps[i], extract)
  {
    out := ps;
    for i := 0 to |out|
      invariant |out| == |ps|
      invariant forall k :: 0 <= k < i ==> out[k] == Extracted(ps[k], extract)
      invariant forall k :: i <= k < |ps| ==> out[k] == ps[k]
    {
      var m := extract(out[i]);
      if m.Some? {
        out := out[i := m.value];
      }
    }
  }

  /** The parameter list of the slave: each parameter once, in sorted order,
      and nothing that was not declared. */
  function Parameters(declared: seq<string>, extract: string -> Option<string>): (ps: seq<string>)
    ensures StrictlySorted(ps)
    ensures forall p :: p in ps <==>
      (exists i :: 0 <= i < |BusParameters + declared| && p == Extracted((BusParameters + declared)[i], extract))
  {
    var all := BusParameters + declared;
    var named := seq(|all|, i requires 0 <= i < |all| => Extracted(all[i], extract));
    NamedMembers(all, named, extract);
    SortUniq(named)
  }

  lemma NamedMembers(all: seq<string>, named: seq<string>, extract: string -> Option<string>)
    requires |named| == |all| && forall i :: 0 <= i < |all| ==> named[i] == Extracted(all[i], extract)
    ensures forall p :: p in named <==> (exists i :: 0 <= i < |all| && p == Extracted(all[i], extract))
  {
    forall p | p in named
      ensures exists i :: 0 <= i < |all| && p == Extracted(all[i], extract)
    {
      var i :| 0 <= i < |named| && named[i] == p;
    }
  }
}
