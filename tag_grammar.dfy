/** `parse_tags`: the tag text of a test case read as `category value`
    pairs, grouped by category. The pattern
    `(\S+)\s*(?::|\s)\s*(\S+)` is written out as a scan, with the
    backtracking Python's `re` performs spelled out case by case. */
module TagGrammar {
  import opened Wrappers
  import opened TextOps

  datatype Pair = Pair(category: string, value: string)

  /** The largest `g` in `[lo, hi)` with `s[g] == ':'`. */
  function LastColon(s: string, lo: nat, hi: nat): (r: Option<nat>)
    requires hi <= |s|
    decreases hi
    ensures r.Some? ==> lo <= r.value < hi && s[r.value] == ':'
    ensures r.Some? ==> forall g :: r.value < g < hi ==> s[g] != ':'
    ensures r.None? ==> forall g :: lo <= g < hi ==> s[g] != ':'
  {
    if hi <= lo then None
    else if s[hi - 1] == ':' then Some(hi - 1)
    else LastColon(s, lo, hi - 1)
  }

  /** The pattern tried at the start of `s`: the pair it captures and the
      length of the match.
      - the first group is greedy, so it first takes the whole non-space run
        `s[..e]`; then `\s*` takes the spaces up to `a`;
      - if a `:` stands at `a` with a non-space character somewhere after
        it, the separator is that colon and the value is the next run;
      - otherwise, if anything is left, `\s*` gives back one space, that
        space is the separator and the value is the run at `a`;
      - at the end of the text the first group gives back characters until
        it stops before a colon that has at least one non-space character
        after it within the run. */
  function PairAt(s: string): (r: Option<(Pair, nat)>)
    ensures r.Some? ==> 0 < r.value.1 <= |s|
    ensures r.Some? ==> r.value.0.category != [] && r.value.0.value != []
  {
    if s == [] || IsSpace(s[0]) then None
    else
      var e := SkipNonSpaces(s, 0);
      var a := SkipSpaces(s, e);
      if a < |s| then
        if s[a] == ':' && SkipSpaces(s, a + 1) < |s| then
          var b := SkipSpaces(s, a + 1);
          var f := SkipNonSpaces(s, b);
          Some((Pair(s[..e], s[b..f]), f))
        else
          var f := SkipNonSpaces(s, a);
          Some((Pair(s[..e], s[a..f]), f))
      else
        match LastColon(s, 1, e - 1)
        case None => None
        case Some(g) => Some((Pair(s[..g], s[g + 1..e]), e))
  }

  /** `re.findall` of the pattern: a failed attempt moves on by one
      character, a match resumes right after itself. */
  function Pairs(s: string): seq<Pair>
    decreases |s|
  {
    if s == [] then []
    else
      match PairAt(s)
      case None => Pairs(s[1..])
      case Some((p, n)) => [p] + Pairs(s[n..])
  }

  function Categories(ps: seq<Pair>): set<string> {
    set i | 0 <= i < |ps| :: ps[i].category
  }

  /** The values paired with category `c`, left to right. */
  function ValuesOf(ps: seq<Pair>, c: string): seq<string> {
    if ps == [] then []
    else
      var init := ValuesOf(ps[..|ps| - 1], c);
      if ps[|ps| - 1].category == c then init + [ps[|ps| - 1].value] else init
  }

  /** `parse_tags`: each category found maps to every value paired with it,
      in the order they appear; a repeated category accumulates. */
  method ParseTags(tagString: string) returns (tagDict: map<string, seq<string>>)
    ensures tagDict.Keys == Categories(Pairs(tagString))
    ensures forall c :: c in tagDict ==> tagDict[c] == ValuesOf(Pairs(tagString), c)
  {
    var pairs := Pairs(tagString);
    tagDict := map[];
    var i := 0;
    while i < |pairs|
      invariant 0 <= i <= |pairs|
      invariant tagDict.Keys == Categories(pairs[..i])
      invariant forall c :: c in tagDict ==> tagDict[c] == ValuesOf(pairs[..i], c)
    {
      var p := pairs[i];
      ValuesOfSnoc(pairs[..i], p);
      CategoriesSnoc(pairs[..i], p);
      assert pairs[..i + 1] == pairs[..i] + [p];
      if p.category !in tagDict {
        ValuesOfAbsent(pairs[..i], p.category);
        tagDict := tagDict[p.category := []];
      }
      tagDict := tagDict[p.category := tagDict[p.category] + [p.value]];
      i := i + 1;
    }
    assert pairs[..i] == pairs;
  }

  /** `tags.get(key, [])`. */
  function Lookup(tags: map<string, seq<string>>, key: string): seq<string> {
    if key in tags then tags[key] else []
  }

  const UserStoryCategory: string := "UserStory"
  const BugCategory: string := "Bug"

  /** The work items a test case is linked to: its UserStory values followed
      by its Bug values. */
  function LinkedIds(tags: map<string, seq<string>>): (r: seq<string>)
    ensures |r| == |Lookup(tags, UserStoryCategory)| + |Lookup(tags, BugCategory)|
  {
    Lookup(tags, UserStoryCategory) + Lookup(tags, BugCategory)
  }

  // ----- properties -----

  lemma ValuesOfSnoc(ps: seq<Pair>, p: Pair)
    ensures forall c :: ValuesOf(ps + [p], c) == if p.category == c then ValuesOf(ps, c) + [p.value] else ValuesOf(ps, c)
  {
    assert (ps + [p])[..|ps|] == ps;
  }

  lemma CategoriesSnoc(ps: seq<Pair>, p: Pair)
    ensures Categories(ps + [p]) == Categories(ps) + {p.category}
  {
    var qs := ps + [p];
    assert qs[|ps|] == p;
    forall c | c in Categories(ps)
      ensures c in Categories(qs)
    {
      var i :| 0 <= i < |ps| && ps[i].category == c;
      assert qs[i] == ps[i];
    }
  }

  /** A category that never occurs has no values. */
  lemma {:induction false} ValuesOfAbsent(ps: seq<Pair>, c: string)
    requires c !in Categories(ps)
    ensures ValuesOf(ps, c) == []
  {
    if ps != [] {
      var init := ps[..|ps| - 1];
      assert Categories(init) <= Categories(ps) by {
        forall d | d in Categories(init)
          ensures d in Categories(ps)
        {
          var i :| 0 <= i < |init| && init[i].category == d;
          assert ps[i] == init[i];
        }
      }
      ValuesOfAbsent(init, c);
    }
  }

  /** The linked ids of a parsed tag text are the UserStory values followed
      by the Bug values, each in the order they are written. */
  lemma LinkedIdsOfParse(ps: seq<Pair>, tags: map<string, seq<string>>)
    requires tags.Keys == Categories(ps)
    requires forall c :: c in tags ==> tags[c] == ValuesOf(ps, c)
    ensures LinkedIds(tags) == ValuesOf(ps, UserStoryCategory) + ValuesOf(ps, BugCategory)
  {
    if UserStoryCategory !in tags {
      ValuesOfAbsent(ps, UserStoryCategory);
    }
    if BugCategory !in tags {
      ValuesOfAbsent(ps, BugCategory);
    }
  }

  /** A pair as a tag line writes it: category, one space, value. */
  function PairText(p: Pair): string {
    p.category + " " + p.value
  }

  /** Pairs written one after the other with `sep` between them. */
  function TagText(ps: seq<Pair>, sep: string): string {
    if ps == [] then ""
    else if |ps| == 1 then PairText(ps[0])
    else PairText(ps[0]) + sep + TagText(ps[1..], sep)
  }

  /** A pair the pattern reads back as written: both parts are non-empty
      runs without white space and the value does not start with a colon. */
  predicate Readable(p: Pair) {
    p.category != [] && NoSpace(p.category) && p.value != [] && NoSpace(p.value) && p.value[0] != ':'
  }

  lemma PairAtText(p: Pair, rest: string)
    requires Readable(p)
    requires rest == [] || IsSpace(rest[0])
    ensures PairAt(PairText(p) + rest) == Some((p, |PairText(p)|))
  {
    var c, v := p.category, p.value;
    var s := PairText(p) + rest;
    assert forall k :: 0 <= k < |c| ==> s[k] == c[k];
    assert s[|c|] == ' ';
    SkipNonSpacesTo(s, 0, |c|);
    assert s[|c| + 1] == v[0];
    SkipSpacesTo(s, |c|, |c| + 1);
    assert forall k :: |c| + 1 <= k < |c| + 1 + |v| ==> s[k] == v[k - |c| - 1];
    if rest != [] {
      assert s[|c| + 1 + |v|] == rest[0];
    }
    SkipNonSpacesTo(s, |c| + 1, |c| + 1 + |v|);
    assert s[..|c|] == c;
    assert s[|c| + 1..|c| + 1 + |v|] == v;
  }

  /** Leading white space is skipped over. */
  lemma {:induction false} PairsSkipSpaces(sep: string, rest: string)
    requires forall k :: 0 <= k < |sep| ==> IsSpace(sep[k])
    ensures Pairs(sep + rest) == Pairs(rest)
  {
    if sep != [] {
      var s := sep + rest;
      assert s[0] == sep[0];
      assert s[1..] == sep[1..] + rest;
      PairsSkipSpaces(sep[1..], rest);
    } else {
      assert sep + rest == rest;
    }
  }

  /** Reading a tag text written from readable pairs, separated by white
      space, gives the pairs back in order. */
  lemma {:induction false} PairsOfTagText(ps: seq<Pair>, sep: string)
    requires sep != [] && forall k :: 0 <= k < |sep| ==> IsSpace(sep[k])
    requires forall i :: 0 <= i < |ps| ==> Readable(ps[i])
    ensures Pairs(TagText(ps, sep)) == ps
  {
    if |ps| == 1 {
      PairAtText(ps[0], []);
      assert PairText(ps[0]) + [] == PairText(ps[0]);
      assert PairText(ps[0])[|PairText(ps[0])|..] == [];
    } else if |ps| > 1 {
      var t := PairText(ps[0]);
      var rest := sep + TagText(ps[1..], sep);
      var s := t + rest;
      assert TagText(ps, sep) == s;
      assert rest[0] == sep[0];
      PairAtText(ps[0], rest);
      assert s[|t|..] == rest;
      PairsSkipSpaces(sep, TagText(ps[1..], sep));
      PairsOfTagText(ps[1..], sep);
    }
  }
}
