/** Which parameters a deployment writes, from the annotations of its application. */
module OverrideContent {
  import opened Common
  import opened Overrides
  import opened GitTruth

  datatype Image = Image(image: string, tag: string)

  /** The annotations once split up: the image each alias manages, and the parameter its tag goes to. */
  datatype Annotations = Annotations(managed: map<string, string>, tagPaths: map<string, string>)

  datatype Content = Nothing | Missing(alias: string) | Parameters(params: seq<Param>)

  predicate Matches(an: Annotations, image: Image, alias: string) {
    alias in an.managed && an.managed[alias] == image.image
  }

  /** The parameter this alias carries for this image. */
  predicate Carries(an: Annotations, image: Image, alias: string, p: Param) {
    Matches(an, image, alias) && alias in an.tagPaths && p == Param(an.tagPaths[alias], image.tag, true)
  }

  ghost predicate CarriedBySome(an: Annotations, image: Image, aliases: set<string>, p: Param) {
    exists alias :: alias in aliases && Carries(an, image, alias, p)
  }

  /** The deployment asks for this parameter. */
  ghost predicate Wanted(an: Annotations, images: seq<Image>, p: Param) {
    exists image :: image in images && CarriedBySome(an, image, an.managed.Keys, p)
  }

  /** In terms of the annotations: some alias manages the image, and its tag path takes the image's tag as a string. */
  lemma WantedIs(an: Annotations, images: seq<Image>, p: Param)
    ensures Wanted(an, images, p) <==>
      exists image, alias ::
        && image in images && alias in an.managed && an.managed[alias] == image.image
        && alias in an.tagPaths && p.name == an.tagPaths[alias] && p.value == image.tag && p.forceString
  {
    if image, alias :|
      && image in images && alias in an.managed && an.managed[alias] == image.image
      && alias in an.tagPaths && p.name == an.tagPaths[alias] && p.value == image.tag && p.forceString
    {
      assert Carries(an, image, alias, p);
      assert CarriedBySome(an, image, an.managed.Keys, p);
    }
  }

  /** The parameters image by image, in the order of the images; those of one image in any order. */
  ghost predicate Arranged(an: Annotations, images: seq<Image>, params: seq<Param>) {
    if images == [] then params == []
    else
      exists n :: 0 <= n <= |params| && ArrangedUpTo(an, images, params, n)
  }

  ghost predicate ArrangedUpTo(an: Annotations, images: seq<Image>, params: seq<Param>, n: nat)
    requires images != [] && n <= |params|
  {
    && Arranged(an, images[..|images| - 1], params[..n])
    && forall p :: p in params[n..] <==> CarriedBySome(an, images[|images| - 1], an.managed.Keys, p)
  }

  lemma ArrangedOneMore(an: Annotations, images: seq<Image>, params: seq<Param>, image: Image, carried: seq<Param>)
    requires Arranged(an, images, params)
    requires forall p :: p in carried <==> CarriedBySome(an, image, an.managed.Keys, p)
    ensures Arranged(an, images + [image], params + carried)
  {
    var all, n := params + carried, |params|;
    assert (images + [image])[..|images|] == images && all[..n] == params && all[n..] == carried;
    assert ArrangedUpTo(an, images + [image], all, n);
  }

  /** Some managed image has nowhere to put its tag. */
  ghost predicate Lacking(an: Annotations, images: seq<Image>) {
    exists image, alias :: image in images && Matches(an, image, alias) && alias !in an.tagPaths
  }

  /**
   Every tag of a managed image becomes a parameter and nothing else does; one alias without a
   tag path fails the whole deployment. The aliases come in no particular order.
   */
  method GenerateOverrideFileContent(an: Annotations, images: seq<Image>) returns (content: Content)
    ensures content.Nothing? <==> an.managed == map[]
    ensures content.Missing? <==> Lacking(an, images)
    ensures content.Parameters? ==> forall p :: p in content.params <==> Wanted(an, images, p)
    ensures content.Parameters? ==> Arranged(an, images, content.params)
    ensures content.Parameters? ==> forall p :: p in content.params <==>
      exists image, alias ::
        && image in images && alias in an.managed && an.managed[alias] == image.image
        && alias in an.tagPaths && p.name == an.tagPaths[alias] && p.value == image.tag && p.forceString
    ensures content.Missing? ==>
      exists image, alias ::
        image in images && alias in an.managed && an.managed[alias] == image.image && alias !in an.tagPaths
  {
    if an.managed == map[] {
      return Nothing;
    }
    var params: seq<Param> := [];
    for i := 0 to |images|
      invariant !Lacking(an, images[..i])
      invariant forall p :: p in params <==> Wanted(an, images[..i], p)
      invariant Arranged(an, images[..i], params)
    {
      var missing, carried := Carried(an, images[i]);
      assert images[..i + 1] == images[..i] + [images[i]];
      if missing.Some? {
        assert images[i] in images;
        return Missing(missing.value);
      }
      forall p ensures p in params + carried <==> Wanted(an, images[..i + 1], p) {
        WantedOneMore(an, images[..i], images[i], p);
      }
      ArrangedOneMore(an, images[..i], params, images[i], carried);
      params := params + carried;
    }
    assert images[..|images|] == images;
    content := Parameters(params);
    forall p {
      WantedIs(an, images, p);
    }
  }

  /** The parameters one image contributes, or the alias that has no tag path for it. */
  method Carried(an: Annotations, image: Image) returns (missing: Option<string>, params: seq<Param>)
    ensures missing.Some? ==> Matches(an, image, missing.value) && missing.value !in an.tagPaths
    ensures missing.None? ==> forall alias :: Matches(an, image, alias) ==> alias in an.tagPaths
    ensures missing.None? ==> forall p :: p in params <==> CarriedBySome(an, image, an.managed.Keys, p)
  {
    var rest := an.managed.Keys;
    params := [];
    while rest != {}
      invariant rest <= an.managed.Keys
      invariant forall alias :: Matches(an, image, alias) ==> alias in rest || alias in an.tagPaths
      invariant forall p :: p in params <==> CarriedBySome(an, image, an.managed.Keys - rest, p)
      decreases |rest|
    {
      var alias :| alias in rest;
      ghost var before, seen := params, an.managed.Keys - rest;
      rest := rest - {alias};
      if an.managed[alias] == image.image {
        if alias !in an.tagPaths {
          return Some(alias), params;
        }
        params := params + [Param(an.tagPaths[alias], image.tag, true)];
      }
      assert an.managed.Keys - rest == seen + {alias};
      forall p ensures p in params <==> CarriedBySome(an, image, an.managed.Keys - rest, p) {
        CarriedByOneMore(an, image, seen, alias, p);
      }
    }
    assert an.managed.Keys - {} == an.managed.Keys;
    missing := None;
  }

  lemma CarriedByOneMore(an: Annotations, image: Image, aliases: set<string>, alias: string, p: Param)
    ensures CarriedBySome(an, image, aliases + {alias}, p)
      <==> CarriedBySome(an, image, aliases, p) || Carries(an, image, alias, p)
  {
    if a :| a in aliases && Carries(an, image, a, p) {
      assert a in aliases + {alias};
    }
    if Carries(an, image, alias, p) {
      assert alias in aliases + {alias};
    }
  }

  lemma WantedOneMore(an: Annotations, images: seq<Image>, image: Image, p: Param)
    ensures Wanted(an, images + [image], p) <==> Wanted(an, images, p) || CarriedBySome(an, image, an.managed.Keys, p)
  {
    if im :| im in images && CarriedBySome(an, im, an.managed.Keys, p) {
      assert im in images + [image];
    }
    if CarriedBySome(an, image, an.managed.Keys, p) {
      assert image in images + [image];
    }
  }

  predicate HasPath(an: Annotations, images: seq<Image>, image: Image, alias: string) {
    image in images && Matches(an, image, alias) && alias in an.tagPaths
  }

  /** Two managed images share a tag path and differ in their tag. */
  ghost predicate Clashing(an: Annotations, images: seq<Image>) {
    exists i, a, j, b ::
      HasPath(an, images, i, a) && HasPath(an, images, j, b) && an.tagPaths[a] == an.tagPaths[b] && i.tag != j.tag
  }

  /** The content contradicts itself exactly when two managed images share a tag path and differ in their tag. */
  lemma ConsistentExactly(an: Annotations, images: seq<Image>, params: seq<Param>)
    requires forall p :: p in params <==> Wanted(an, images, p)
    ensures Consistent(params) <==> !Clashing(an, images)
  {
    hide Wanted, Clashing, Consistent;
    if Clashing(an, images) { ClashContradicts(an, images, params); }
    if !Consistent(params) { ContradictionClashes(an, images, params); }
  }

  lemma ClashContradicts(an: Annotations, images: seq<Image>, params: seq<Param>)
    requires forall p :: p in params <==> Wanted(an, images, p)
    requires Clashing(an, images)
    ensures !Consistent(params)
  {
    hide Wanted, Matches;
    var i, a, j, b :| HasPath(an, images, i, a) && HasPath(an, images, j, b) && an.tagPaths[a] == an.tagPaths[b]
      && i.tag != j.tag;
    PathIsWanted(an, images, i, a);
    PathIsWanted(an, images, j, b);
    var p, q := Param(an.tagPaths[a], i.tag, true), Param(an.tagPaths[b], j.tag, true);
    assert p in params && q in params && p.name == q.name;
  }

  lemma ContradictionClashes(an: Annotations, images: seq<Image>, params: seq<Param>)
    requires forall p :: p in params <==> Wanted(an, images, p)
    requires !Consistent(params)
    ensures Clashing(an, images)
  {
    hide Wanted;
    var p, q :| p in params && q in params && p.name == q.name && p != q;
    var i, a := WantedHasPath(an, images, p);
    var j, b := WantedHasPath(an, images, q);
  }

  lemma PathIsWanted(an: Annotations, images: seq<Image>, image: Image, alias: string)
    requires HasPath(an, images, image, alias)
    ensures Wanted(an, images, Param(an.tagPaths[alias], image.tag, true))
  {
    assert Carries(an, image, alias, Param(an.tagPaths[alias], image.tag, true));
  }

  lemma WantedHasPath(an: Annotations, images: seq<Image>, p: Param) returns (image: Image, alias: string)
    requires Wanted(an, images, p)
    ensures HasPath(an, images, image, alias) && p == Param(an.tagPaths[alias], image.tag, true)
  {
    image :| image in images && CarriedBySome(an, image, an.managed.Keys, p);
    alias :| alias in an.managed.Keys && Carries(an, image, alias, p);
  }

  /** The image sets this parameter. */
  ghost predicate Fills(an: Annotations, image: Image, name: string) {
    CarriedBySome(an, image, an.managed.Keys, Param(name, image.tag, true))
  }

  lemma FillsOnly(an: Annotations, image: Image, p: Param)
    requires CarriedBySome(an, image, an.managed.Keys, p)
    ensures Fills(an, image, p.name) && p == Param(p.name, image.tag, true)
  {
    var alias :| alias in an.managed.Keys && Carries(an, image, alias, p);
    assert Carries(an, image, alias, Param(p.name, image.tag, true));
  }

  /** The tag the last image with this parameter gives it. */
  ghost function LastTag(an: Annotations, images: seq<Image>, name: string): Option<Param> {
    if images == [] then None
    else
      var n := |images| - 1;
      if Fills(an, images[n], name) then Some(Param(name, images[n].tag, true)) else LastTag(an, images[..n], name)
  }

  /** The tag the first image with this parameter gives it. */
  ghost function FirstTag(an: Annotations, images: seq<Image>, name: string): Option<Param> {
    if images == [] then None
    else
      var n := |images| - 1;
      match FirstTag(an, images[..n], name)
      case Some(p) => Some(p)
      case None => if Fills(an, images[n], name) then Some(Param(name, images[n].tag, true)) else None
  }

  lemma PartOfOne(an: Annotations, image: Image, part: seq<Param>, name: string)
    requires forall p :: p in part <==> CarriedBySome(an, image, an.managed.Keys, p)
    ensures Last(part, name) == Lookup(part, name) ==
      if Fills(an, image, name) then Some(Param(name, image.tag, true)) else None
  {
    LastIn(part, name);
    NamesAt(part, name);
    if Fills(an, image, name) {
      assert Param(name, image.tag, true) in part;
    }
    if name in Names(part) {
      var p, q := Last(part, name).value, part[IndexOf(part, name)];
      assert q in part;
      FillsOnly(an, image, p);
      FillsOnly(an, image, q);
    }
  }

  lemma {:induction false} LastOfBoth(a: seq<Param>, b: seq<Param>, name: string)
    ensures Last(a + b, name) == if Last(b, name).Some? then Last(b, name) else Last(a, name)
  {
    if b == [] {
      assert a + b == a;
    } else {
      LastOfBoth(a, b[..|b| - 1], name);
      assert (a + b)[..|a + b| - 1] == a + b[..|b| - 1];
    }
  }

  lemma LookupOfBoth(a: seq<Param>, b: seq<Param>, name: string)
    ensures Lookup(a + b, name) == if Lookup(a, name).Some? then Lookup(a, name) else Lookup(b, name)
  {
    var i, j := IndexOf(a, name), IndexOf(b, name);
    FirstIs(a + b, name, if i < |a| then i else |a| + j);
  }

  /** The values a content shows, first or last, depend on the images alone. */
  lemma {:induction false} ArrangedShows(an: Annotations, images: seq<Image>, params: seq<Param>, name: string)
    requires Arranged(an, images, params)
    ensures Last(params, name) == LastTag(an, images, name) && Lookup(params, name) == FirstTag(an, images, name)
  {
    if images != [] {
      var n :| 0 <= n <= |params| && ArrangedUpTo(an, images, params, n);
      var k := |images| - 1;
      ArrangedShows(an, images[..k], params[..n], name);
      PartOfOne(an, images[k], params[n..], name);
      assert params == params[..n] + params[n..];
      LastOfBoth(params[..n], params[n..], name);
      LookupOfBoth(params[..n], params[n..], name);
    }
  }

  /**
   The order the aliases came in shows in no value, neither in a merged file nor in a new one,
   even for content that contradicts itself: one image gives its aliases one tag, and the order
   of the images is the deployment's own.
   */
  lemma OrderIsHarmless(an: Annotations, images: seq<Image>, e: seq<Param>, a: seq<Param>, b: seq<Param>, name: string)
    requires Arranged(an, images, a) && Arranged(an, images, b)
    ensures Lookup(Merge(e, a), name) == Lookup(Merge(e, b), name)
    ensures Lookup(a, name) == Lookup(b, name)
  {
    ArrangedShows(an, images, a, name);
    ArrangedShows(an, images, b, name);
    MergeLookup(e, a, name);
    MergeLookup(e, b, name);
    LastIn(a, name);
    LastIn(b, name);
  }

  /** The order of the images does matter: content that contradicts itself reads differently in another one. */
  lemma SomeOrderMatters(e: seq<Param>, a: seq<Param>) returns (b: seq<Param>, c: seq<Param>, name: string)
    requires !Consistent(a)
    ensures multiset(b) == multiset(c) == multiset(a)
    ensures Lookup(Merge(e, b), name) != Lookup(Merge(e, c), name)
  {
    var p, q :| p in a && q in a && p.name == q.name && p != q;
    name := p.name;
    b := MovedLast(a, p);
    c := MovedLast(a, q);
    MergeLookup(e, b, name);
    MergeLookup(e, c, name);
    assert b[|b| - 1] in b && c[|c| - 1] in c;
  }

  lemma MovedLast(a: seq<Param>, p: Param) returns (b: seq<Param>)
    requires p in a
    ensures multiset(b) == multiset(a) && b != [] && b[|b| - 1] == p
  {
    var i :| 0 <= i < |a| && a[i] == p;
    b := a[..i] + a[i + 1..] + [p];
    assert a == a[..i] + [p] + a[i + 1..];
  }
}
