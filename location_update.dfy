/**
 * The save step of the admin action that edits a location: it overwrites the
 * location's switch, root directory and charset with the submitted values and
 * replaces its index-file list with the submitted one, cleaned.
 */
module Locations {
  import opened Lists
  import opened Teaconfigs

  /** The submitted form of the location update action. */
  datatype UpdateParams = UpdateParams(
    server: string, locationId: string, pattern: string, patternType: int,
    root: string, charset: string, index: seq<string>,
    on: bool, isReverse: bool, isCaseInsensitive: bool)

  /** A list of index files with no empty entry and no repeat. */
  predicate IsClean(s: seq<string>)
  {
    (forall k :: 0 <= k < |s| ==> s[k] != "") &&
    (forall i, j :: 0 <= i < j < |s| ==> s[i] != s[j])
  }

  /** The submitted list with empty entries and repeats dropped, first occurrences kept in order. */
  function CleanedIndex(s: seq<string>): seq<string>
    decreases |s|
  {
    if |s| == 0 then []
    else
      var p, x := CleanedIndex(s[..|s| - 1]), s[|s| - 1];
      if |x| > 0 && x !in p then p + [x] else p
  }

  /** The cleaned list is clean and holds exactly the non-empty submitted entries. */
  lemma {:induction false} CleanedIndexContents(s: seq<string>)
    ensures IsClean(CleanedIndex(s))
    ensures forall x :: x in CleanedIndex(s) <==> x in s && x != ""
    decreases |s|
  {
    if |s| > 0 {
      var s', x := s[..|s| - 1], s[|s| - 1];
      assert s == s' + [x];
      CleanedIndexContents(s');
    }
  }

  /** Entries keep the order of their first occurrence in the submitted list. */
  lemma {:induction false} CleanedIndexOrder(s: seq<string>)
    ensures forall i, j :: 0 <= i < j < |CleanedIndex(s)| ==>
      IndexOf(s, CleanedIndex(s)[i]) < IndexOf(s, CleanedIndex(s)[j])
    decreases |s|
  {
    if |s| > 0 {
      var s', x := s[..|s| - 1], s[|s| - 1];
      assert s == s' + [x];
      var r, r' := CleanedIndex(s), CleanedIndex(s');
      CleanedIndexOrder(s');
      CleanedIndexContents(s');
      forall k | 0 <= k < |r'|
        ensures IndexOf(s, r'[k]) == IndexOf(s', r'[k]) < |s'|
      {
        IndexOfAppend(s', x, r'[k]);
      }
      if r != r' {
        assert x !in s';
        IndexOfAppend(s', x, x);
        assert r == r' + [x];
      }
    }
  }

  /** Cleaning a list that is already clean returns it unchanged. */
  lemma {:induction false} CleanedIndexOfClean(s: seq<string>)
    requires IsClean(s)
    ensures CleanedIndex(s) == s
    decreases |s|
  {
    if |s| > 0 {
      var s', x := s[..|s| - 1], s[|s| - 1];
      assert IsClean(s');
      CleanedIndexOfClean(s');
      assert x !in s' && x != "";
    }
  }

  /** Cleaning twice is cleaning once. */
  lemma CleanedIndexIdempotent(s: seq<string>)
    ensures CleanedIndex(CleanedIndex(s)) == CleanedIndex(s)
  {
    CleanedIndexContents(s);
    CleanedIndexOfClean(CleanedIndex(s));
  }

  /** The cleaning loop of the update action. */
  method CleanIndex(submitted: seq<string>) returns (index: seq<string>)
    ensures index == CleanedIndex(submitted)
  {
    index := [];
    var k := 0;
    while k < |submitted|
      invariant 0 <= k <= |submitted|
      invariant index == CleanedIndex(submitted[..k])
    {
      var i := submitted[k];
      assert submitted[..k + 1][..k] == submitted[..k];
      if |i| > 0 && i !in index {
        index := index + [i];
      }
      k := k + 1;
    }
    assert submitted[..k] == submitted;
  }

  /**
   * Saves the submitted form into `location`: fails, changing nothing, when the
   * location was not found; otherwise sets its switch, root and charset and
   * its cleaned index list, and no other field.
   */
  method RunPost(location: LocationConfig?, params: UpdateParams) returns (ok: bool)
    modifies location
    ensures ok <==> location != null
    ensures location != null ==>
      location.on == params.on && location.root == params.root &&
      location.charset == params.charset && location.index == CleanedIndex(params.index)
  {
    if location == null {
      return false;
    }
    location.on := params.on;
    location.root := params.root;
    location.charset := params.charset;
    var index := CleanIndex(params.index);
    location.index := index;
    return true;
  }
}
