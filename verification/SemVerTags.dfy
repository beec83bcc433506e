/** Release tags: prefix handling, precedence, and the choice of the next tags. */
module SemVerTags {
  import opened Wrappers

  /** A parsed version. `pre` ranks the pre-release part among pre-releases of
      the same core version; a version without one ranks above all of them
      (section 11 of Semantic Versioning 2.0.0). Build metadata has no rank. */
  datatype Version = Version(original: string, major: nat, minor: nat, patch: nat, pre: Option<nat>)

  /** The library keeps the major number in 64 bits. */
  const MAJOR_LIMIT: nat := 0x1_0000_0000_0000_0000

  predicate LessThan(v: Version, o: Version) {
    if v.major != o.major then v.major < o.major
    else if v.minor != o.minor then v.minor < o.minor
    else if v.patch != o.patch then v.patch < o.patch
    else match (v.pre, o.pre)
      case (None, _) => false
      case (Some(_), None) => true
      case (Some(p), Some(q)) => p < q
  }

  predicate Ties(v: Version, o: Version) {
    !LessThan(v, o) && !LessThan(o, v)
  }

  /** Precedence compares major, minor and patch in this order, then a pre-release
      against the release it precedes or another one: a total preorder. */
  lemma Precedence(v: Version, o: Version, w: Version)
    ensures LessThan(v, o) <==>
            || v.major < o.major
            || (v.major == o.major && v.minor < o.minor)
            || (v.major == o.major && v.minor == o.minor && v.patch < o.patch)
            || (v.major == o.major && v.minor == o.minor && v.patch == o.patch
                && v.pre.Some? && (o.pre.None? || v.pre.value < o.pre.value))
    ensures Ties(v, o) <==> v == o.(original := v.original)
    ensures LessThan(v, o) && !LessThan(w, o) ==> LessThan(v, w)
  {
  }

  type Parser = string -> Option<Version>

  /** The parser keeps the text it was given. */
  ghost predicate KeepsOriginal(parse: Parser) {
    forall s :: parse(s).Some? ==> parse(s).value.original == s
  }

  function TagPrefix(prefix: string): string {
    if prefix == "" then "" else prefix + "/"
  }

  function TrimPrefix(s: string, prefix: string): string {
    if prefix <= s then s[|prefix|..] else s
  }

  function TagToSemver(parse: Parser, tag: string, prefix: string): Option<Version> {
    parse(TrimPrefix(tag, TagPrefix(prefix)))
  }

  function SemverToOrig(v: Version, prefix: string): string {
    TagPrefix(prefix) + v.original
  }

  /** Parsing a tag and printing it back restores the tag exactly when it carried the prefix. */
  lemma PrefixRoundTrip(parse: Parser, tag: string, prefix: string)
    requires KeepsOriginal(parse) && TagToSemver(parse, tag, prefix).Some?
    ensures SemverToOrig(TagToSemver(parse, tag, prefix).value, prefix) == tag
        <==> TagPrefix(prefix) <= tag
  {
  }

  /** What is parsed is what follows prefix and slash, or the whole tag without them. */
  lemma PrefixStripped(parse: Parser, tag: string, prefix: string)
    ensures prefix != "" && prefix + "/" <= tag ==> TagToSemver(parse, tag, prefix) == parse(tag[|prefix|+1..])
    ensures prefix == "" || !(prefix + "/" <= tag) ==> TagToSemver(parse, tag, prefix) == parse(tag)
    ensures TagPrefix(prefix) <= tag <==> prefix == "" || prefix + "/" <= tag
  {
  }

  /** What sort.Sort promises of a collection: ordered by precedence, ties in any order. */
  ghost predicate Sorted(vs: seq<Version>) {
    forall i, j :: 0 <= i < j < |vs| ==> !LessThan(vs[j], vs[i])
  }

  function Insert(r: seq<Version>, k: nat, v: Version): (s: seq<Version>)
    requires k <= |r|
    ensures |s| == |r| + 1
    ensures forall i :: 0 <= i < |s| ==> s[i] == if i < k then r[i] else if i == k then v else r[i-1]
  {
    r[..k] + [v] + r[k..]
  }

  lemma InsertSorted(r: seq<Version>, k: nat, v: Version)
    requires Sorted(r) && k <= |r| && (k > 0 ==> !LessThan(v, r[k-1]))
    requires forall j :: k <= j < |r| ==> LessThan(v, r[j])
    ensures Sorted(Insert(r, k, v))
  {
  }

  lemma InsertMembers(r: seq<Version>, k: nat, v: Version)
    requires k <= |r|
    ensures multiset(Insert(r, k, v)) == multiset(r) + multiset{v}
  {
    assert multiset(r) == multiset(r[..k]) + multiset(r[k..]) by { assert r == r[..k] + r[k..]; }
  }

  lemma LessAsymmetric(a: Version, b: Version)
    requires LessThan(a, b)
    ensures !LessThan(b, a)
  {
  }

  method SortVersions(vs: seq<Version>) returns (r: seq<Version>)
    ensures Sorted(r) && multiset(r) == multiset(vs)
  {
    r := [];
    for i := 0 to |vs|
      invariant Sorted(r) && multiset(r) == multiset(vs[..i])
    {
      var k := |r|;
      while k > 0 && LessThan(vs[i], r[k-1])
        invariant 0 <= k <= |r|
        invariant forall j :: k <= j < |r| ==> LessThan(vs[i], r[j])
      {
        k := k - 1;
      }
      assert vs[..i+1] == vs[..i] + [vs[i]];
      InsertSorted(r, k, vs[i]);
      InsertMembers(r, k, vs[i]);
      r := Insert(r, k, vs[i]);
    }
    assert vs[..|vs|] == vs;
  }

  /** The versions of a list of tags, or nothing when one of them does not parse. */
  ghost function Parsed(parse: Parser, tags: seq<string>, prefix: string): (r: Option<seq<Version>>)
    ensures r.Some? <==> forall t :: t in tags ==> TagToSemver(parse, t, prefix).Some?
    ensures r.Some? ==> |r.value| == |tags|
    ensures r.Some? ==> forall i :: 0 <= i < |tags| ==> TagToSemver(parse, tags[i], prefix) == Some(r.value[i])
  {
    if tags == [] then Some([])
    else match (TagToSemver(parse, tags[0], prefix), Parsed(parse, tags[1..], prefix))
      case (Some(v), Some(vs)) => Some([v] + vs)
      case _ => None
  }

  /** A possible result of sorting the versions of the tags. */
  ghost predicate IsSorting(parse: Parser, tags: seq<string>, prefix: string, sorted: seq<Version>) {
    var vs := Parsed(parse, tags, prefix);
    vs.Some? && Sorted(sorted) && multiset(sorted) == multiset(vs.value)
  }

  method SortedSemVers(parse: Parser, tags: seq<string>, prefix: string) returns (r: Reply<seq<Version>>)
    ensures r.Failed? <==> Parsed(parse, tags, prefix).None?
    ensures r.Answer? ==> IsSorting(parse, tags, prefix, r.value)
  {
    var tagSet: seq<Version> := [];
    for i := 0 to |tags|
      invariant Parsed(parse, tags[..i], prefix) == Some(tagSet)
    {
      var v := TagToSemver(parse, tags[i], prefix);
      assert tags[..i+1] == tags[..i] + [tags[i]];
      if v.None? {
        assert tags[i] in tags;
        return Failed;
      }
      tagSet := tagSet + [v.value];
      var next := Parsed(parse, tags[..i+1], prefix);
      assert next.value == tagSet;
    }
    assert tags[..|tags|] == tags;
    var sorted := SortVersions(tagSet);
    r := Answer(sorted);
  }

  /** Every member of a sorting is the version of some tag, and the other way round. */
  lemma SortingMembers(parse: Parser, tags: seq<string>, prefix: string, sorted: seq<Version>)
    requires IsSorting(parse, tags, prefix, sorted)
    ensures |sorted| == |tags| && Sorted(sorted)
    ensures forall t :: t in tags ==> TagToSemver(parse, t, prefix).Some?
                                      && TagToSemver(parse, t, prefix).value in sorted
    ensures forall v :: v in sorted ==> exists t :: t in tags && TagToSemver(parse, t, prefix) == Some(v)
  {
    var vs := Parsed(parse, tags, prefix).value;
    assert |sorted| == |multiset(sorted)| == |multiset(vs)| == |vs|;
    forall t | t in tags ensures TagToSemver(parse, t, prefix).value in sorted {
      var i :| 0 <= i < |tags| && tags[i] == t;
      assert vs[i] in multiset(vs);
      assert vs[i] in multiset(sorted);
    }
    forall v | v in sorted ensures exists t :: t in tags && TagToSemver(parse, t, prefix) == Some(v) {
      assert v in multiset(sorted);
      assert v in multiset(vs);
      var i :| 0 <= i < |vs| && vs[i] == v;
      assert tags[i] in tags;
    }
  }

  function Names(vs: seq<Version>, prefix: string): seq<string> {
    seq(|vs|, i requires 0 <= i < |vs| => SemverToOrig(vs[i], prefix))
  }

  lemma NamesAppend(vs: seq<Version>, prefix: string, lo: nat, i: nat)
    requires lo <= i < |vs|
    ensures Names(vs[lo..i+1], prefix) == Names(vs[lo..i], prefix) + [SemverToOrig(vs[i], prefix)]
  {
  }

  lemma WholeTail(vs: seq<Version>, k: nat)
    requires k <= |vs|
    ensures vs[k..|vs|] == vs[k..]
  {
  }

  /** The last version of the sorting that prints as the tag. */
  ghost predicate LastNamed(sorted: seq<Version>, prefix: string, tag: string, k: nat) {
    && k < |sorted| && SemverToOrig(sorted[k], prefix) == tag
    && tag !in Names(sorted[k+1..], prefix)
  }

  /** The first loop: the last tag that prints as the prior one. */
  method PriorTagIndex(tagSet: seq<Version>, prefix: string, priorTag: string) returns (found: bool, index: nat)
    ensures found <==> priorTag in Names(tagSet, prefix)
    ensures found ==> LastNamed(tagSet, prefix, priorTag, index)
  {
    found, index := false, 0;
    ghost var from := 0;  // nothing from here on prints as the prior tag
    for i := 0 to |tagSet|
      invariant from == (if found then index + 1 else 0) <= i
      invariant found ==> SemverToOrig(tagSet[index], prefix) == priorTag
      invariant priorTag !in Names(tagSet[from..i], prefix)
    {
      NamesAppend(tagSet, prefix, from, i);
      if SemverToOrig(tagSet[i], prefix) == priorTag {
        found, index := true, i;
        from := i + 1;
      }
    }
    WholeTail(tagSet, from);
    if found {
      NameAt(tagSet, prefix, index);
    }
  }

  lemma NameAt(vs: seq<Version>, prefix: string, k: nat)
    requires k < |vs|
    ensures k < |Names(vs, prefix)| && Names(vs, prefix)[k] == SemverToOrig(vs[k], prefix)
    ensures SemverToOrig(vs[k], prefix) in Names(vs, prefix)
  {
    assert Names(vs, prefix)[k] == SemverToOrig(vs[k], prefix);
  }

  method NextSemVerTags(parse: Parser, priorTag: string, prefix: string, tags: seq<string>)
    returns (r: Reply<seq<string>>, ghost sorted: seq<Version>, ghost k: nat)
    ensures Parsed(parse, tags, prefix).None? ==> r.Failed?
    ensures Parsed(parse, tags, prefix).Some? ==> IsSorting(parse, tags, prefix, sorted)
    ensures Parsed(parse, tags, prefix).Some? ==> (r.Failed? <==> priorTag !in Names(sorted, prefix))
    ensures r.Answer? ==> LastNamed(sorted, prefix, priorTag, k) && r.value == Names(sorted[k+1..], prefix)
  {
    hide Parsed, IsSorting;
    sorted, k := [], 0;
    var tagSetReply := SortedSemVers(parse, tags, prefix);
    if tagSetReply.Failed? {
      return Failed, [], 0;
    }
    var tagSet := tagSetReply.value;
    sorted := tagSet;
    var priorTagFound, priorTagIndex := PriorTagIndex(tagSet, prefix, priorTag);
    if !priorTagFound {
      return Failed, sorted, 0;
    }
    assert Names(tagSet, prefix)[priorTagIndex] == priorTag;
    var nextTags: seq<string> := [];
    for nextTagIndex := priorTagIndex + 1 to |tagSet|
      invariant nextTags == Names(tagSet[priorTagIndex+1..nextTagIndex], prefix)
    {
      NamesAppend(tagSet, prefix, priorTagIndex + 1, nextTagIndex);
      nextTags := nextTags + [SemverToOrig(tagSet[nextTagIndex], prefix)];
    }
    WholeTail(tagSet, priorTagIndex + 1);
    return Answer(nextTags), sorted, priorTagIndex;
  }

  /** Tags of one environment: every one carries the prefix and parses. */
  ghost predicate Environment(parse: Parser, tags: seq<string>, prefix: string) {
    && KeepsOriginal(parse)
    && forall t :: t in tags ==> TagPrefix(prefix) <= t && TagToSemver(parse, t, prefix).Some?
  }

  /** The first tag has a lower version than the second one. */
  ghost predicate Below(parse: Parser, prefix: string, s: string, t: string) {
    var p, v := TagToSemver(parse, s, prefix), TagToSemver(parse, t, prefix);
    p.Some? && v.Some? && LessThan(p.value, v.value)
  }

  ghost predicate Tied(parse: Parser, prefix: string, s: string, t: string) {
    var p, v := TagToSemver(parse, s, prefix), TagToSemver(parse, t, prefix);
    p.Some? && v.Some? && Ties(p.value, v.value)
  }

  /** Sorted versions print as tags of the repository and parse back to themselves. */
  lemma SortingSpelling(parse: Parser, tags: seq<string>, prefix: string, sorted: seq<Version>, v: Version)
    requires Environment(parse, tags, prefix)
    requires IsSorting(parse, tags, prefix, sorted) && v in sorted
    ensures SemverToOrig(v, prefix) in tags
    ensures TagToSemver(parse, SemverToOrig(v, prefix), prefix) == Some(v)
  {
    SortingMembers(parse, tags, prefix, sorted);
    var t :| t in tags && TagToSemver(parse, t, prefix) == Some(v);
    PrefixRoundTrip(parse, t, prefix);
  }

  /** Every tag is found among the sorted versions. */
  lemma TagIsNamed(parse: Parser, tags: seq<string>, prefix: string, sorted: seq<Version>, t: string)
    requires Environment(parse, tags, prefix) && IsSorting(parse, tags, prefix, sorted) && t in tags
    ensures t in Names(sorted, prefix)
  {
    hide IsSorting, LessThan;
    SortingMembers(parse, tags, prefix, sorted);
    var v := TagToSemver(parse, t, prefix).value;
    var j :| 0 <= j < |sorted| && sorted[j] == v;
    PrefixRoundTrip(parse, t, prefix);
    assert Names(sorted, prefix)[j] == t;
  }

  /** Every tag above the prior one is among the next tags, however ties were sorted. */
  lemma NextTagsComplete(parse: Parser, tags: seq<string>, prefix: string, sorted: seq<Version>,
                         priorTag: string, k: nat, t: string)
    requires Environment(parse, tags, prefix) && IsSorting(parse, tags, prefix, sorted)
    requires LastNamed(sorted, prefix, priorTag, k)
    requires t in tags && Below(parse, prefix, priorTag, t)
    ensures t in Names(sorted[k+1..], prefix)
  {
    hide IsSorting, LessThan;
    SortingMembers(parse, tags, prefix, sorted);
    SortingSpelling(parse, tags, prefix, sorted, sorted[k]);
    var v := TagToSemver(parse, t, prefix).value;
    var j :| 0 <= j < |sorted| && sorted[j] == v;
    PrefixRoundTrip(parse, t, prefix);
    LessAsymmetric(sorted[k], v);
    assert j > k;
    assert Names(sorted[k+1..], prefix)[j-k-1] == t;
  }

  /** The next tags are tags of the repository, none below the prior one; one
      of them is above it exactly when it does not tie with it. */
  lemma NextTagsSound(parse: Parser, tags: seq<string>, prefix: string, sorted: seq<Version>,
                      priorTag: string, k: nat, t: string)
    requires Environment(parse, tags, prefix) && IsSorting(parse, tags, prefix, sorted)
    requires LastNamed(sorted, prefix, priorTag, k) && t in Names(sorted[k+1..], prefix)
    ensures t in tags && t != priorTag && !Below(parse, prefix, t, priorTag)
    ensures Below(parse, prefix, priorTag, t) <==> !Tied(parse, prefix, priorTag, t)
  {
    var j :| 0 <= j < |sorted| - k - 1 && Names(sorted[k+1..], prefix)[j] == t;
    assert sorted[k+1..][j] == sorted[k+1+j];
    SortingSpelling(parse, tags, prefix, sorted, sorted[k]);
    SortingSpelling(parse, tags, prefix, sorted, sorted[k+1+j]);
  }

  /** Tags of distinct precedence are listed strictly increasing. */
  lemma NextTagsIncrease(parse: Parser, tags: seq<string>, prefix: string, sorted: seq<Version>, k: nat, i: nat, j: nat)
    requires Environment(parse, tags, prefix) && IsSorting(parse, tags, prefix, sorted)
    requires forall a, b :: 0 <= a < b < |tags| ==> !Tied(parse, prefix, tags[a], tags[b])
    requires k < |sorted| && i < j < |sorted| - k - 1
    ensures Below(parse, prefix, Names(sorted[k+1..], prefix)[i], Names(sorted[k+1..], prefix)[j])
  {
    hide Environment, IsSorting, Tied;
    assert sorted[k+1..][i] == sorted[k+1+i] && sorted[k+1..][j] == sorted[k+1+j];
    SortingSpelling(parse, tags, prefix, sorted, sorted[k+1+i]);
    SortingSpelling(parse, tags, prefix, sorted, sorted[k+1+j]);
    SortingStrict(parse, tags, prefix, sorted, k+1+i, k+1+j);
  }

  lemma SortingStrict(parse: Parser, tags: seq<string>, prefix: string, sorted: seq<Version>, i: nat, j: nat)
    requires IsSorting(parse, tags, prefix, sorted) && i < j < |sorted|
    requires forall a, b :: 0 <= a < b < |tags| ==> !Tied(parse, prefix, tags[a], tags[b])
    ensures LessThan(sorted[i], sorted[j])
  {
    var a, b := TwoPositions(sorted, Parsed(parse, tags, prefix).value, i, j);
    assert !Tied(parse, prefix, tags[a], tags[b]);
  }

  /** Two positions of one arrangement have two counterparts in any rearrangement of it. */
  lemma TwoPositions(s: seq<Version>, t: seq<Version>, i: nat, j: nat) returns (a: nat, b: nat)
    requires multiset(s) == multiset(t) && i < j < |s|
    ensures a < b < |t|
    ensures (t[a] == s[i] && t[b] == s[j]) || (t[a] == s[j] && t[b] == s[i])
  {
    if s[i] == s[j] {
      assert s[i] in s[..j] && s[j] in s[j..];
      assert multiset(s) == multiset(s[..j]) + multiset(s[j..]) by { assert s == s[..j] + s[j..]; }
      a, b := TwoOccurrences(t, s[i]);
    } else {
      assert s[i] in multiset(t) && s[j] in multiset(t);
      a :| a < |t| && t[a] == s[i];
      b :| b < |t| && t[b] == s[j];
      if b < a { a, b := b, a; }
    }
  }

  lemma {:induction false} TwoOccurrences(t: seq<Version>, v: Version) returns (a: nat, b: nat)
    requires multiset(t)[v] >= 2
    ensures a < b < |t| && t[a] == v && t[b] == v
  {
    assert t == [t[0]] + t[1..];
    if t[0] != v {
      a, b := TwoOccurrences(t[1..], v);
      a, b := a + 1, b + 1;
    } else {
      assert v in multiset(t[1..]);
      a := 0;
      var c :| 0 <= c < |t[1..]| && t[1..][c] == v;
      b := c + 1;
    }
  }

  /** Automatic tagging increments the major version in 64 bits. */
  function IncMajor(v: Version, original: string): Version {
    Version(original, (v.major + 1) % MAJOR_LIMIT, 0, 0, None)
  }

  /** The tag made from the latest one exceeds every tag of the environment
      exactly when the latest major version is not the largest of 64 bits. */
  lemma AutoTagExceedsAll(parse: Parser, tags: seq<string>, prefix: string, sorted: seq<Version>, name: string)
    requires IsSorting(parse, tags, prefix, sorted) && |sorted| > 0
    requires sorted[|sorted|-1].major < MAJOR_LIMIT
    ensures (forall v :: v in sorted ==> LessThan(v, IncMajor(sorted[|sorted|-1], name)))
        <==> sorted[|sorted|-1].major + 1 < MAJOR_LIMIT
    ensures sorted[|sorted|-1].major + 1 < MAJOR_LIMIT ==>
              IncMajor(sorted[|sorted|-1], name) == Version(name, sorted[|sorted|-1].major + 1, 0, 0, None)
  {
    var last := sorted[|sorted|-1];
    if last.major + 1 < MAJOR_LIMIT {
      assert (last.major + 1) % MAJOR_LIMIT == last.major + 1;
    } else {
      assert (last.major + 1) % MAJOR_LIMIT == 0;
      assert last in sorted;
    }
  }

  /** Adding the new tag: it is above all the others, and ties with none. */
  lemma AutoTagAbove(parse: Parser, tags: seq<string>, prefix: string, sorted: seq<Version>, newTag: string, t: string)
    requires Environment(parse, tags, prefix) && IsSorting(parse, tags, prefix, sorted)
    requires |sorted| > 0 && sorted[|sorted|-1].major + 1 < MAJOR_LIMIT
    requires TagToSemver(parse, newTag, prefix).Some?
    requires var v := TagToSemver(parse, newTag, prefix).value; v == IncMajor(sorted[|sorted|-1], v.original)
    requires t in tags
    ensures Below(parse, prefix, t, newTag) && !Below(parse, prefix, SemverToOrig(sorted[|sorted|-1], prefix), t)
  {
    hide IsSorting, IncMajor;
    var last := sorted[|sorted|-1];
    SortingMembers(parse, tags, prefix, sorted);
    SortingSpelling(parse, tags, prefix, sorted, last);
    AutoTagExceedsAll(parse, tags, prefix, sorted, TagToSemver(parse, newTag, prefix).value.original);
    var v := TagToSemver(parse, t, prefix).value;
    var i :| 0 <= i < |sorted| && sorted[i] == v;
  }

  /** Once added to the repository, the new tag is the only one after the old
      latest tag, provided no other tag ties with that one. */
  lemma AutoTagIsOnlyNext(parse: Parser, tags: seq<string>, prefix: string, sorted: seq<Version>,
                          newTag: string, sorted': seq<Version>, k: nat, t: string)
    requires Environment(parse, tags, prefix) && IsSorting(parse, tags, prefix, sorted)
    requires |sorted| > 0 && sorted[|sorted|-1].major + 1 < MAJOR_LIMIT
    requires Environment(parse, tags + [newTag], prefix) && newTag in tags + [newTag]
    requires var v := TagToSemver(parse, newTag, prefix).value; v == IncMajor(sorted[|sorted|-1], v.original)
    requires IsSorting(parse, tags + [newTag], prefix, sorted')
    requires LastNamed(sorted', prefix, SemverToOrig(sorted[|sorted|-1], prefix), k)
    requires forall u :: u in tags && u != SemverToOrig(sorted[|sorted|-1], prefix) ==>
                           !Tied(parse, prefix, SemverToOrig(sorted[|sorted|-1], prefix), u)
    ensures t in Names(sorted'[k+1..], prefix) <==> t == newTag
  {
    var prior := SemverToOrig(sorted[|sorted|-1], prefix);
    var all := tags + [newTag];
    SortingSpelling(parse, tags, prefix, sorted, sorted[|sorted|-1]);
    AutoTagAbove(parse, tags, prefix, sorted, newTag, prior);
    NextTagsComplete(parse, all, prefix, sorted', prior, k, newTag);
    if t in Names(sorted'[k+1..], prefix) && t != newTag {
      NextTagsSound(parse, all, prefix, sorted', prior, k, t);
      assert t in tags;
      AutoTagAbove(parse, tags, prefix, sorted, newTag, t);
    }
  }
}
