/**
 * The tag list of the discover window: the tags scraped from the links of
 * Bandcamp's tag page, normalised (prefix removed, first letter capitalised,
 * sorted, duplicates removed, only alphanumeric names kept), and the
 * `tag.cache` file that stores them one per line.
 */
module Discover {
  import opened Wrappers
  import opened Text

  /** The path prefix of a tag link. */
  const TagPrefix: string := "/tag/"

  /** `char::to_uppercase`, for ASCII letters. */
  function UpperChar(c: char): char
  {
    if 'a' <= c <= 'z' then (c as int - 'a' as int + 'A' as int) as char else c
  }

  /** `char::is_alphanumeric`, for ASCII. */
  predicate IsAlphanumeric(c: char)
  {
    ('a' <= c <= 'z') || ('A' <= c <= 'Z') || ('0' <= c <= '9')
  }

  /** The first character upper-cased, the rest unchanged; the empty string stays empty. */
  function Capitalize(s: string): (r: string)
    ensures |r| == |s|
    ensures |s| > 0 ==> r[1..] == s[1..] && r[0] == UpperChar(s[0]) && !('a' <= r[0] <= 'z')
  {
    if |s| == 0 then "" else [UpperChar(s[0])] + s[1..]
  }

  /** Capitalising twice is capitalising once. */
  lemma CapitalizeIdempotent(s: string)
    ensures Capitalize(Capitalize(s)) == Capitalize(s)
  {
  }

  /** An anchor's link names a tag when it starts with `/tag/`. */
  predicate Qualifies(href: string)
  {
    StartsWith(href, TagPrefix)
  }

  /** The tag a qualifying link contributes: every `/tag/` removed, then capitalised. */
  function TagOf(href: string): (r: string)
    ensures |r| <= |href|
    ensures |r| > 0 ==> !('a' <= r[0] <= 'z')
  {
    Capitalize(RemoveAll(href, TagPrefix))
  }

  /** A link `/tag/name` contributes the capitalised `name` when `name` holds no further `/tag/`. */
  lemma TagOfPlainLink(name: string)
    requires !Contains(name, TagPrefix)
    ensures Qualifies(TagPrefix + name) && TagOf(TagPrefix + name) == Capitalize(name)
  {
    var href := TagPrefix + name;
    assert href[..|TagPrefix|] == TagPrefix;
    assert href[|TagPrefix|..] == name;
    RemoveAllAbsent(name, TagPrefix);
  }

  /** The tag kept of a name: non-empty and alphanumeric throughout. */
  predicate ValidTag(t: string)
  {
    |t| > 0 && forall i :: 0 <= i < |t| ==> IsAlphanumeric(t[i])
  }

  /**
   * The `filter_map`/`map` chain over the `href` attributes of the page's
   * anchors (`None` for an anchor without one).
   */
  function Collected(hrefs: seq<Option<string>>): (r: seq<string>)
    ensures |r| <= |hrefs|
  {
    if |hrefs| == 0 then []
    else
      (if hrefs[0].Some? && Qualifies(hrefs[0].value) then [TagOf(hrefs[0].value)] else [])
      + Collected(hrefs[1..])
  }

  /** A name is collected exactly when some anchor has a qualifying link contributing it. */
  lemma {:induction false} CollectedMembers(hrefs: seq<Option<string>>, t: string)
    ensures t in Collected(hrefs) <==>
      exists i :: 0 <= i < |hrefs| && hrefs[i].Some? && Qualifies(hrefs[i].value) && t == TagOf(hrefs[i].value)
  {
    if |hrefs| > 0 {
      CollectedMembers(hrefs[1..], t);
      if t in Collected(hrefs[1..]) {
        var i :| 0 <= i < |hrefs[1..]| && hrefs[1..][i].Some? && Qualifies(hrefs[1..][i].value) && t == TagOf(hrefs[1..][i].value);
        assert hrefs[i + 1] == hrefs[1..][i];
      }
      if exists i :: 0 <= i < |hrefs| && hrefs[i].Some? && Qualifies(hrefs[i].value) && t == TagOf(hrefs[i].value) {
        var i :| 0 <= i < |hrefs| && hrefs[i].Some? && Qualifies(hrefs[i].value) && t == TagOf(hrefs[i].value);
        if i > 0 {
          assert hrefs[1..][i - 1] == hrefs[i];
        }
      }
    }
  }

  // ----- the order of `String`: lexicographic by character -----

  /** `a < b` for Rust strings: the first differing character decides; a proper prefix is smaller. */
  predicate Less(a: string, b: string)
    decreases |a|
  {
    |b| > 0 && (|a| == 0 || a[0] < b[0] || (a[0] == b[0] && Less(a[1..], b[1..])))
  }

  predicate LessEq(a: string, b: string)
  {
    a == b || Less(a, b)
  }

  lemma {:induction false} LessIrreflexive(a: string)
    ensures !Less(a, a)
  {
    if |a| > 0 {
      LessIrreflexive(a[1..]);
    }
  }

  lemma {:induction false} LessTransitive(a: string, b: string, c: string)
    requires Less(a, b) && Less(b, c)
    ensures Less(a, c)
    decreases |a|
  {
    if |a| > 0 && a[0] == b[0] && b[0] == c[0] {
      LessTransitive(a[1..], b[1..], c[1..]);
    }
  }

  lemma {:induction false} LessTotal(a: string, b: string)
    ensures a == b || Less(a, b) || Less(b, a)
    decreases |a|
  {
    if |a| > 0 && |b| > 0 && a[0] == b[0] {
      LessTotal(a[1..], b[1..]);
      if a[1..] == b[1..] {
        assert a == [a[0]] + a[1..] && b == [b[0]] + b[1..];
      }
    }
  }

  lemma LessAsymmetric(a: string, b: string)
    requires Less(a, b)
    ensures !Less(b, a)
  {
    if Less(b, a) {
      LessTransitive(a, b, a);
      LessIrreflexive(a);
    }
  }

  /** `a <= b` in both directions only for equal strings. */
  lemma LessEqAntisymmetric(a: string, b: string)
    requires LessEq(a, b) && LessEq(b, a)
    ensures a == b
  {
    if a != b {
      LessAsymmetric(a, b);
    }
  }

  predicate Sorted(s: seq<string>)
  {
    forall i, j :: 0 <= i < j < |s| ==> LessEq(s[i], s[j])
  }

  predicate StrictlySorted(s: seq<string>)
  {
    forall i, j :: 0 <= i < j < |s| ==> Less(s[i], s[j])
  }

  // ----- `tags.sort()` -----

  /** Insertion of `x` into a sorted list. */
  function Insert(s: seq<string>, x: string): (r: seq<string>)
    requires Sorted(s)
    ensures Sorted(r)
    ensures multiset(r) == multiset(s) + multiset{x}
  {
    if |s| == 0 then [x]
    else if LessEq(x, s[0]) then
      assert forall j :: 0 <= j < |s| ==> LessEq(x, s[j]) by {
        forall j | 0 <= j < |s| ensures LessEq(x, s[j]) {
          if x != s[0] && s[0] != s[j] {
            LessTransitive(x, s[0], s[j]);
          }
        }
      }
      [x] + s
    else
      var rest := Insert(s[1..], x);
      LessTotal(x, s[0]);
      assert s == [s[0]] + s[1..];
      assert forall y :: y in rest ==> y in s[1..] || y == x by {
        forall y | y in rest ensures y in s[1..] || y == x {
          assert y in multiset(rest);
        }
      }
      assert forall j :: 0 <= j < |rest| ==> LessEq(s[0], rest[j]) by {
        forall j | 0 <= j < |rest| ensures LessEq(s[0], rest[j]) {
          assert rest[j] in rest;
          if rest[j] != x {
            var k :| 0 <= k < |s[1..]| && s[1..][k] == rest[j];
            assert s[k + 1] == rest[j];
          }
        }
      }
      [s[0]] + rest
  }

  /** `tags.sort()`: the same tags in ascending order. */
  method Sort(a: seq<string>) returns (r: seq<string>)
    ensures Sorted(r) && multiset(r) == multiset(a)
  {
    r := [];
    var i := 0;
    while i < |a|
      invariant 0 <= i <= |a|
      invariant Sorted(r) && multiset(r) == multiset(a[..i])
    {
      assert a[..i + 1] == a[..i] + [a[i]];
      r := Insert(r, a[i]);
      i := i + 1;
    }
    assert a[..|a|] == a;
  }

  /** The first tag of a sorted list is at most each of its tags. */
  lemma SortedFirstLeast(s: seq<string>, x: string)
    requires Sorted(s) && x in s
    ensures LessEq(s[0], x)
  {
    var k :| 0 <= k < |s| && s[k] == x;
    if k > 0 {
      assert LessEq(s[0], s[k]);
    }
  }

  /** The rest of a sorted list is sorted. */
  lemma SortedTail(s: seq<string>)
    requires Sorted(s) && |s| > 0
    ensures Sorted(s[1..])
  {
    forall i, j | 0 <= i < j < |s| - 1 ensures LessEq(s[1..][i], s[1..][j]) {
      assert LessEq(s[i + 1], s[j + 1]);
    }
  }

  /** The order is total, so the sorted list is determined by its tags: any two sortings of the same tags agree. */
  lemma {:induction false} SortedUnique(s: seq<string>, t: seq<string>)
    requires Sorted(s) && Sorted(t) && multiset(s) == multiset(t)
    ensures s == t
    decreases |s|
  {
    assert |s| == |multiset(s)| == |multiset(t)| == |t|;
    if |s| > 0 {
      assert s[0] in multiset(t) && t[0] in multiset(s);
      SortedFirstLeast(t, s[0]);
      SortedFirstLeast(s, t[0]);
      LessEqAntisymmetric(s[0], t[0]);
      assert s == [s[0]] + s[1..] && t == [t[0]] + t[1..];
      assert multiset(s[1..]) == multiset(s) - multiset{s[0]};
      assert multiset(t[1..]) == multiset(t) - multiset{t[0]};
      SortedTail(s);
      SortedTail(t);
      SortedUnique(s[1..], t[1..]);
    }
  }

  // ----- `tags.dedup()` -----

  /** Consecutive repeats collapsed to one occurrence, read from the left. */
  function Deduplicated(s: seq<string>): (r: seq<string>)
    ensures |s| > 0 ==> |r| > 0 && r[|r| - 1] == s[|s| - 1]
    ensures |r| <= |s|
  {
    if |s| == 0 then []
    else
      var d := Deduplicated(s[..|s| - 1]);
      if |d| > 0 && d[|d| - 1] == s[|s| - 1] then d else d + [s[|s| - 1]]
  }

  /** `tags.dedup()`: each run of equal neighbours kept once. */
  method Dedup(a: seq<string>) returns (r: seq<string>)
    ensures r == Deduplicated(a)
  {
    r := [];
    var i := 0;
    while i < |a|
      invariant 0 <= i <= |a|
      invariant r == Deduplicated(a[..i])
    {
      assert a[..i + 1][..i] == a[..i];
      if |r| == 0 || r[|r| - 1] != a[i] {
        r := r + [a[i]];
      }
      i := i + 1;
    }
    assert a[..|a|] == a;
  }

  /** On a sorted list, `dedup` leaves each tag exactly once, in strictly ascending order. */
  lemma {:induction false} DedupSorted(s: seq<string>)
    requires Sorted(s)
    ensures StrictlySorted(Deduplicated(s))
    ensures forall x :: x in Deduplicated(s) <==> x in s
  {
    if |s| > 0 {
      var p := s[..|s| - 1];
      var x := s[|s| - 1];
      assert Sorted(p);
      DedupSorted(p);
      var d := Deduplicated(p);
      assert s == p + [x];
      if |d| > 0 && d[|d| - 1] != x {
        var last := d[|d| - 1];
        assert last == s[|s| - 2];
        assert Less(last, x);
        forall i | 0 <= i < |d| ensures Less(d[i], x) {
          if i < |d| - 1 {
            LessTransitive(d[i], last, x);
          }
        }
      }
    }
  }

  // ----- `tags.retain(...)` -----

  /** The tags that pass `retain`'s test, in their order. */
  function Retained(s: seq<string>): (r: seq<string>)
    ensures |r| <= |s|
  {
    if |s| == 0 then []
    else Retained(s[..|s| - 1]) + (if ValidTag(s[|s| - 1]) then [s[|s| - 1]] else [])
  }

  /** `tags.retain(|x| x.chars().all(char::is_alphanumeric) && !x.is_empty())`. */
  method Retain(a: seq<string>) returns (r: seq<string>)
    ensures r == Retained(a)
  {
    r := [];
    var i := 0;
    while i < |a|
      invariant 0 <= i <= |a|
      invariant r == Retained(a[..i])
    {
      assert a[..i + 1][..i] == a[..i];
      if ValidTag(a[i]) {
        r := r + [a[i]];
      }
      i := i + 1;
    }
    assert a[..|a|] == a;
  }

  /** `retain` keeps exactly the valid tags and, keeping their order, keeps a strictly sorted list strictly sorted. */
  lemma {:induction false} RetainedProps(s: seq<string>)
    ensures forall x :: x in Retained(s) <==> x in s && ValidTag(x)
    ensures StrictlySorted(s) ==> StrictlySorted(Retained(s))
    ensures forall i :: 0 <= i < |Retained(s)| ==> ValidTag(Retained(s)[i])
  {
    if |s| > 0 {
      var p := s[..|s| - 1];
      var x := s[|s| - 1];
      RetainedProps(p);
      assert s == p + [x];
      if StrictlySorted(s) {
        assert StrictlySorted(p);
        forall y | y in Retained(p) ensures Less(y, x) {
          var k :| 0 <= k < |p| && p[k] == y;
          assert s[k] == y;
        }
      }
    }
  }

  /** What `get_tags_from_internet` returns for the links `hrefs`: the valid collected tags, each once, ascending. */
  ghost predicate NormalisedFrom(tags: seq<string>, hrefs: seq<Option<string>>)
  {
    && StrictlySorted(tags)
    && (forall t :: t in tags <==> t in Collected(hrefs) && ValidTag(t))
  }

  /**
   * `get_tags_from_internet`: `page` is `None` when the request failed,
   * otherwise the `href` attributes of the anchors of the page.
   */
  method GetTagsFromInternet(page: Option<seq<Option<string>>>) returns (r: Option<seq<string>>)
    ensures page.None? <==> r.None?
    ensures r.Some? ==> NormalisedFrom(r.value, page.value)
    ensures r.Some? ==> forall i :: 0 <= i < |r.value| ==> ValidTag(r.value[i])
  {
    if page.None? {
      return None;
    }
    var tags := Collected(page.value);
    tags := Sort(tags);
    assert forall x :: x in tags <==> x in Collected(page.value) by {
      forall x ensures x in tags <==> x in Collected(page.value) {
        assert x in tags <==> x in multiset(tags);
      }
    }
    var sorted := tags;
    tags := Dedup(sorted);
    DedupSorted(sorted);
    var unique := tags;
    tags := Retain(unique);
    RetainedProps(unique);
    return Some(tags);
  }

  /**
   * Every normalised tag is the capitalised form of a qualifying link, starts
   * with no lower-case letter, and every qualifying link whose form is valid
   * is represented.
   */
  lemma NormalisedTags(tags: seq<string>, hrefs: seq<Option<string>>, t: string)
    requires NormalisedFrom(tags, hrefs)
    ensures t in tags ==> ValidTag(t) && !('a' <= t[0] <= 'z')
    ensures t in tags <==> (ValidTag(t) &&
      exists i :: 0 <= i < |hrefs| && hrefs[i].Some? && Qualifies(hrefs[i].value) && t == TagOf(hrefs[i].value))
  {
    CollectedMembers(hrefs, t);
    if t in tags {
      var i :| 0 <= i < |hrefs| && hrefs[i].Some? && Qualifies(hrefs[i].value) && t == TagOf(hrefs[i].value);
      assert t[0] == UpperChar(RemoveAll(hrefs[i].value, TagPrefix)[0]);
    }
  }

  /**
   * `get_tags`: the cached list when `tag.cache` can be read (`cache`), else
   * the fetched list, which is then written to the cache (`written`), else
   * nothing.
   */
  method GetTags(cache: Option<string>, page: Option<seq<Option<string>>>)
    returns (tags: seq<string>, written: Option<string>)
    ensures cache.Some? ==> tags == Split(cache.value, '\n') && written.None?
    ensures cache.None? && page.None? ==> tags == [] && written.None?
    ensures cache.None? && page.Some? ==> NormalisedFrom(tags, page.value) && written == Some(Join(tags, '\n'))
    ensures written.Some? && |tags| > 0 ==> Split(written.value, '\n') == tags
  {
    if cache.Some? {
      return Split(cache.value, '\n'), None;
    }
    var fetched := GetTagsFromInternet(page);
    if fetched.Some? {
      tags := fetched.value;
      written := Some(Join(tags, '\n'));
      if |tags| > 0 {
        forall i | 0 <= i < |tags| ensures '\n' !in tags[i] {
          assert ValidTag(tags[i]);
        }
        SplitJoin(tags, '\n');
      }
      return;
    }
    return [], None;
  }

  /** A fetched empty list is cached as an empty file, which reads back as one empty tag. */
  lemma EmptyCacheReadsOneTag()
    ensures Split(Join([], '\n'), '\n') == [""]
  {
  }
}
