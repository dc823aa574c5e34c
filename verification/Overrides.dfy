/** The override file of one application: merging new parameters into the ones already there. */
module Overrides {
  import opened Common

  datatype Param = Param(name: string, value: string, forceString: bool)

  function Names(ps: seq<Param>): set<string> {
    set p | p in ps :: p.name
  }

  /** The first entry under this name, or |ps|. */
  function IndexOf(ps: seq<Param>, name: string): (i: nat)
    ensures i <= |ps|
    ensures i < |ps| ==> ps[i].name == name
    ensures forall j :: 0 <= j < i ==> ps[j].name != name
  {
    if ps == [] then 0
    else if ps[0].name == name then 0
    else
      1 + IndexOf(ps[1..], name)
  }

  function Lookup(ps: seq<Param>, name: string): Option<Param> {
    var i := IndexOf(ps, name);
    if i < |ps| then Some(ps[i]) else None
  }

  /** The last entry under this name. */
  function Last(ps: seq<Param>, name: string): Option<Param> {
    if ps == [] then None
    else if ps[|ps| - 1].name == name then Some(ps[|ps| - 1])
    else Last(ps[..|ps| - 1], name)
  }

  function Put(ps: seq<Param>, p: Param): seq<Param> {
    var i := IndexOf(ps, p.name);
    if i < |ps| then ps[i := p] else ps + [p]
  }

  function Merge(existing: seq<Param>, news: seq<Param>): seq<Param>
    decreases |news|
  {
    if news == [] then existing else Merge(Put(existing, news[0]), news[1..])
  }

  class OverrideFile {
    var parameters: seq<Param>

    constructor (content: seq<Param>)
      ensures parameters == content
    {
      parameters := content;
    }

    method MergeParameters(newContent: seq<Param>)
      modifies this
      ensures parameters == Merge(old(parameters), newContent)
    {
      for n := 0 to |newContent|
        invariant Merge(parameters, newContent[n..]) == Merge(old(parameters), newContent)
      {
        var newParam := newContent[n];
        var found := false;
        ghost var before := parameters;
        for idx := 0 to |parameters|
          invariant !found && parameters == before
          invariant forall j :: 0 <= j < idx ==> parameters[j].name != newParam.name
        {
          if parameters[idx].name == newParam.name {
            FirstIs(parameters, newParam.name, idx);
            parameters := parameters[idx := newParam];
            found := true;
            break;
          }
        }
        if !found {
          FirstIs(parameters, newParam.name, |parameters|);
          parameters := parameters + [newParam];
        }
        assert parameters == Put(before, newParam);
      }
    }
  }

  lemma FirstIs(ps: seq<Param>, name: string, i: nat)
    requires i <= |ps|
    requires i < |ps| ==> ps[i].name == name
    requires forall j :: 0 <= j < i ==> ps[j].name != name
    ensures IndexOf(ps, name) == i
  {
  }

  lemma RestOfConcat<T>(a: seq<T>, b: seq<T>)
    requires a != []
    ensures (a + b)[0] == a[0] && (a + b)[1..] == a[1..] + b
  {
  }

  /** Merging twice is merging the concatenation. */
  lemma {:induction false} MergeConcat(e: seq<Param>, a: seq<Param>, b: seq<Param>)
    ensures Merge(Merge(e, a), b) == Merge(e, a + b)
    decreases |a|
  {
    if a == [] {
      assert a + b == b;
    } else {
      var e' := Put(e, a[0]);
      MergeConcat(e', a[1..], b);
      RestOfConcat(a, b);
    }
  }

  lemma MergeOneMore(e: seq<Param>, b: seq<Param>, p: Param)
    ensures Merge(e, b + [p]) == Put(Merge(e, b), p)
  {
    MergeConcat(e, b, [p]);
    assert Merge(Put(Merge(e, b), p), []) == Merge(Merge(e, b), [p]);
  }

  /** The names of a that known lacks, in the order they first appear. */
  function Fresh(a: seq<Param>, known: set<string>): (names: seq<string>)
    ensures forall n :: n in names <==> n in Names(a) - known
  {
    if a == [] then []
    else
      var rest, last := a[..|a| - 1], a[|a| - 1];
      assert a == rest + [last];
      var names := Fresh(rest, known);
      if last.name in known || last.name in names then names else names + [last.name]
  }

  function Refreshed(e: seq<Param>, i: nat, a: seq<Param>): Param
    requires i < |e|
  {
    if IndexOf(e, e[i].name) == i && Last(a, e[i].name).Some? then Last(a, e[i].name).value else e[i]
  }

  lemma LastIn(a: seq<Param>, name: string)
    ensures Last(a, name).Some? <==> name in Names(a)
    ensures Last(a, name).Some? ==> Last(a, name).value in a && Last(a, name).value.name == name
  {
    if a != [] {
      LastIn(a[..|a| - 1], name);
      assert a == a[..|a| - 1] + [a[|a| - 1]];
    }
  }

  /**
   What a merge is, entry by entry: the first entry of each name takes the last new value
   for it, every other entry stays, and the names that were missing follow in the order
   they first appear, each with its last value.
   */
  ghost predicate MergedShape(e: seq<Param>, a: seq<Param>, r: seq<Param>) {
    var added := Fresh(a, Names(e));
    && |r| == |e| + |added|
    && (forall i :: 0 <= i < |e| ==> r[i] == Refreshed(e, i, a))
    && (forall j :: 0 <= j < |added| ==> Some(r[|e| + j]) == Last(a, added[j]))
  }

  lemma {:induction false} MergeHasShape(e: seq<Param>, a: seq<Param>)
    ensures MergedShape(e, a, Merge(e, a))
    decreases |a|
  {
    if a != [] {
      var b, p := a[..|a| - 1], a[|a| - 1];
      assert a == b + [p];
      MergeHasShape(e, b);
      MergeOneMore(e, b, p);
      PutKeepsShape(e, b, p, Merge(e, b));
    }
  }

  lemma NamesAt(ps: seq<Param>, name: string)
    ensures name in Names(ps) <==> IndexOf(ps, name) < |ps|
  {
    var i := IndexOf(ps, name);
    if i < |ps| { assert ps[i] in ps; }
  }

  lemma ShapeNames(e: seq<Param>, b: seq<Param>, r: seq<Param>)
    requires MergedShape(e, b, r)
    ensures forall i :: 0 <= i < |e| ==> r[i].name == e[i].name
    ensures forall j :: 0 <= j < |Fresh(b, Names(e))| ==> r[|e| + j].name == Fresh(b, Names(e))[j]
  {
    var added := Fresh(b, Names(e));
    forall i | 0 <= i < |e| ensures r[i].name == e[i].name { LastIn(b, e[i].name); }
    forall j | 0 <= j < |added| ensures r[|e| + j].name == added[j] { LastIn(b, added[j]); }
  }

  /** Where the next parameter lands. */
  lemma NextSlot(e: seq<Param>, b: seq<Param>, r: seq<Param>, name: string) returns (k: nat)
    requires MergedShape(e, b, r)
    ensures k == IndexOf(r, name)
    ensures name in Names(e) ==> k == IndexOf(e, name) < |e|
    ensures name !in Names(e) ==> |e| <= k
    ensures name !in Names(e) && name in Fresh(b, Names(e)) ==> k < |r| && Fresh(b, Names(e))[k - |e|] == name
    ensures name !in Names(e) && name !in Fresh(b, Names(e)) ==> k == |r|
  {
    var added := Fresh(b, Names(e));
    ShapeNames(e, b, r);
    NamesAt(e, name);
    k := IndexOf(r, name);
    if name in Names(e) {
      FirstIs(r, name, IndexOf(e, name));
    } else {
      assert forall i :: 0 <= i < |e| ==> r[i].name != name;
      if name in added {
        var j :| 0 <= j < |added| && added[j] == name;
        assert r[|e| + j].name == name;
      } else {
        forall i | |e| <= i < |r| ensures r[i].name != name {
          assert added[i - |e|] in added && r[|e| + (i - |e|)].name == added[i - |e|];
        }
      }
    }
  }

  lemma PutKeepsShape(e: seq<Param>, b: seq<Param>, p: Param, r: seq<Param>)
    requires MergedShape(e, b, r)
    ensures MergedShape(e, b + [p], Put(r, p))
  {
    var a, r' := b + [p], Put(r, p);
    assert a[..|a| - 1] == b;
    var added := Fresh(b, Names(e));
    var k := NextSlot(e, b, r, p.name);
    ShapeNames(e, b, r);
    forall i | 0 <= i < |e| ensures r'[i] == Refreshed(e, i, a) {
      LastOfMore(b, p, e[i].name);
      assert r[i] == Refreshed(e, i, b);
    }
    FreshDistinct(b, Names(e));
    forall j | 0 <= j < |added| ensures Some(r'[|e| + j]) == Last(a, added[j]) {
      LastOfMore(b, p, added[j]);
      assert Some(r[|e| + j]) == Last(b, added[j]);
      if added[j] == p.name {
        assert added[j] in added;
        assert added[k - |e|] == added[j];
        assert !(k - |e| < j) && !(j < k - |e|);
      }
    }
  }

  lemma LastOfMore(b: seq<Param>, p: Param, name: string)
    ensures Last(b + [p], name) == if name == p.name then Some(p) else Last(b, name)
  {
    assert (b + [p])[..|b|] == b;
  }

  lemma FreshDistinct(a: seq<Param>, known: set<string>)
    ensures forall i, j :: 0 <= i < j < |Fresh(a, known)| ==> Fresh(a, known)[i] != Fresh(a, known)[j]
  {
  }

  lemma {:induction false} DistinctCount(names: seq<string>)
    requires forall i, j :: 0 <= i < j < |names| ==> names[i] != names[j]
    ensures |set n | n in names| == |names|
  {
    if names != [] {
      var rest, last := names[..|names| - 1], names[|names| - 1];
      DistinctCount(rest);
      assert (set n | n in names) == (set n | n in rest) + {last};
    }
  }

  /** The file grows by exactly the number of names it did not have. */
  lemma MergeLength(e: seq<Param>, a: seq<Param>)
    ensures |Merge(e, a)| == |e| + |Names(a) - Names(e)|
  {
    MergeHasShape(e, a);
    var added := Fresh(a, Names(e));
    FreshDistinct(a, Names(e));
    DistinctCount(added);
    assert (set n | n in added) == Names(a) - Names(e);
  }

  /** Last write wins, and every parameter the new content does not name keeps its value. */
  lemma {:induction false} MergeLookup(e: seq<Param>, a: seq<Param>, name: string)
    ensures Lookup(Merge(e, a), name) == if name in Names(a) then Last(a, name) else Lookup(e, name)
    decreases |a|
  {
    if a != [] {
      var b, p := a[..|a| - 1], a[|a| - 1];
      assert a == b + [p];
      MergeLookup(e, b, name);
      MergeOneMore(e, b, p);
      PutLookup(Merge(e, b), p, name);
      assert Names(a) == Names(b) + {p.name};
    }
  }

  lemma PutLookup(ps: seq<Param>, p: Param, name: string)
    ensures Lookup(Put(ps, p), name) == if name == p.name then Some(p) else Lookup(ps, name)
  {
    var i, k := IndexOf(ps, p.name), IndexOf(ps, name);
    if name == p.name {
      FirstIs(Put(ps, p), name, i);
    } else {
      FirstIs(Put(ps, p), name, if k == |ps| then |Put(ps, p)| else k);
    }
  }

  /** Content whose every parameter the file already shows changes nothing. */
  lemma {:induction false} MergeOfHeld(e: seq<Param>, a: seq<Param>)
    requires forall p :: p in a ==> Lookup(e, p.name) == Some(p)
    ensures Merge(e, a) == e
  {
    if a != [] {
      assert a[0] in a;
      assert Put(e, a[0]) == e;
      MergeOfHeld(e, a[1..]);
    }
  }

  lemma {:induction false} NoneFresh(a: seq<Param>, known: set<string>)
    requires Names(a) <= known
    ensures Fresh(a, known) == []
  {
    if a != [] {
      var rest, last := a[..|a| - 1], a[|a| - 1];
      assert a == rest + [last] && last.name in Names(a);
      NoneFresh(rest, known);
    }
  }

  lemma NamesMerged(e: seq<Param>, a: seq<Param>)
    ensures Names(a) <= Names(Merge(e, a))
  {
    forall n | n in Names(a) ensures n in Names(Merge(e, a)) {
      MergeLookup(e, a, n);
      LastIn(a, n);
      NamesAt(Merge(e, a), n);
    }
  }

  /** Merging the same content again changes nothing, duplicates in it included. */
  lemma MergeTwice(e: seq<Param>, a: seq<Param>)
    ensures Merge(Merge(e, a), a) == Merge(e, a)
  {
    var r := Merge(e, a);
    MergeHasShape(r, a);
    NamesMerged(e, a);
    NoneFresh(a, Names(r));
    forall i | 0 <= i < |r| ensures Refreshed(r, i, a) == r[i] {
      MergeLookup(e, a, r[i].name);
      LastIn(a, r[i].name);
    }
  }
}
