/** The slide list `loadSlides` builds from the slides directory: keep the
    file names that end in `.png` in any letter case, sort them, and turn
    each into the URL path under which the server serves it. The directory
    itself is an input: either absent, or present with its file names. */
module Slides {
  import NameOrder

  /** URL path under which the slides directory is served. */
  const UrlPrefix: string := "/slides/"

  /** Extension, in lower case, that marks a slide image. */
  const PngSuffix: string := ".png"

  /** What the filesystem holds: no slides directory (the server creates
      it and loads nothing), or a directory with these entries. */
  datatype Listing = NoDirectory | Directory(names: seq<string>)

  function LowerChar(c: char): char {
    if 'A' <= c <= 'Z' then (c as int - 'A' as int + 'a' as int) as char else c
  }

  function ToLower(s: string): string {
    seq(|s|, i requires 0 <= i < |s| => LowerChar(s[i]))
  }

  predicate EndsWith(s: string, suffix: string) {
    |suffix| <= |s| && s[|s| - |suffix|..] == suffix
  }

  /** The filter of `loadSlides`: the lower-cased name ends in `.png`. */
  predicate IsPng(name: string) {
    EndsWith(ToLower(name), PngSuffix)
  }

  /** Keeps the slide images of a directory listing, in listing order. */
  function KeepPng(names: seq<string>): (r: seq<string>)
    ensures |r| <= |names|
    ensures forall n :: multiset(r)[n] == if IsPng(n) then multiset(names)[n] else 0
  {
    if |names| == 0 then []
    else
      assert names == [names[0]] + names[1..];
      (if IsPng(names[0]) then [names[0]] else []) + KeepPng(names[1..])
  }

  /** Turns file names into the URL paths of the slides. */
  function WithPrefix(names: seq<string>): (r: seq<string>)
    ensures |r| == |names|
    ensures forall i :: 0 <= i < |r| ==> r[i] == UrlPrefix + names[i]
  {
    if |names| == 0 then [] else [UrlPrefix + names[0]] + WithPrefix(names[1..])
  }

  lemma PrefixedEqual(a: string, b: string)
    requires UrlPrefix + a == UrlPrefix + b
    ensures a == b
  {
    assert a == (UrlPrefix + a)[|UrlPrefix|..];
    assert b == (UrlPrefix + b)[|UrlPrefix|..];
  }

  /** Prefixing is one to one, so each URL path counts once per file name. */
  lemma {:induction false} WithPrefixCounts(names: seq<string>, n: string)
    ensures multiset(WithPrefix(names))[UrlPrefix + n] == multiset(names)[n]
  {
    if |names| > 0 {
      WithPrefixCounts(names[1..], n);
      assert names == [names[0]] + names[1..];
      assert WithPrefix(names) == [UrlPrefix + names[0]] + WithPrefix(names[1..]);
      if UrlPrefix + names[0] == UrlPrefix + n {
        PrefixedEqual(names[0], n);
      }
    }
  }

  lemma WithPrefixSorted(names: seq<string>)
    requires NameOrder.Sorted(names)
    ensures NameOrder.Sorted(WithPrefix(names))
  {
    var r := WithPrefix(names);
    forall i, j | 0 <= i < j < |r| ensures NameOrder.LessEq(r[i], r[j]) {
      NameOrder.CommonPrefixKeepsOrder(UrlPrefix, names[i], names[j]);
    }
  }

  /** Every `/slides/` path of a prefixed list counts as often as its name. */
  lemma PrefixedCounts(names: seq<string>)
    ensures forall n :: multiset(WithPrefix(names))[UrlPrefix + n] == multiset(names)[n]
  {
    forall n ensures multiset(WithPrefix(names))[UrlPrefix + n] == multiset(names)[n] {
      WithPrefixCounts(names, n);
    }
  }

  /** `loadSlides`: the sorted URL paths of exactly the `.png` files of the
      directory, or nothing when there is no directory. */
  function LoadSlides(listing: Listing): (r: seq<string>)
    ensures listing.NoDirectory? ==> r == []
    ensures listing.Directory? ==> |r| <= |listing.names|
    ensures forall i :: 0 <= i < |r| ==> UrlPrefix <= r[i]
    ensures listing.Directory? ==>
      forall n :: multiset(r)[UrlPrefix + n] == if IsPng(n) then multiset(listing.names)[n] else 0
    ensures NameOrder.Sorted(r)
  {
    match listing
    case NoDirectory => []
    case Directory(names) =>
      var images := NameOrder.Sort(KeepPng(names));
      WithPrefixSorted(images);
      PrefixedCounts(images);
      WithPrefix(images)
  }

  /** Two lists of slide paths that count every `/slides/` path alike hold
      the same paths, duplicates included. */
  lemma SamePrefixedCounts(t: seq<string>, u: seq<string>)
    requires forall i :: 0 <= i < |t| ==> UrlPrefix <= t[i]
    requires forall i :: 0 <= i < |u| ==> UrlPrefix <= u[i]
    requires forall n :: multiset(t)[UrlPrefix + n] == multiset(u)[UrlPrefix + n]
    ensures multiset(t) == multiset(u)
  {
    forall x ensures multiset(t)[x] == multiset(u)[x] {
      if UrlPrefix <= x {
        assert x == UrlPrefix + x[|UrlPrefix|..];
      } else {
        assert x !in t;
        assert x !in u;
      }
    }
  }

  /** The contract of `LoadSlides` pins its result down completely: any list
      of prefixed, sorted paths with the same counts is that result. */
  lemma LoadSlidesDetermined(listing: Listing, t: seq<string>)
    requires listing.Directory?
    requires forall i :: 0 <= i < |t| ==> UrlPrefix <= t[i]
    requires forall n :: multiset(t)[UrlPrefix + n] == if IsPng(n) then multiset(listing.names)[n] else 0
    requires NameOrder.Sorted(t)
    ensures t == LoadSlides(listing)
  {
    var r := LoadSlides(listing);
    SamePrefixedCounts(t, r);
    NameOrder.SortedPermutationUnique(t, r);
  }
}
