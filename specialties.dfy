/**
 * The specialty tag list of the instructor form: adding a typed tag, removing a tag,
 * and one-click adding of a fixed suggestion.
 */
module Specialties {
  import opened Text

  /** The suggestions offered for one-click adding, in display order. */
  const CommonSpecialties: seq<string> := [
    "Hatha Yoga", "Vinyasa Flow", "Power Yoga", "Restorative Yoga",
    "Yin Yoga", "Ashtanga", "Bikram", "Hot Yoga", "Prenatal Yoga",
    "Meditation", "Breathwork", "Yoga Therapy", "Corporate Wellness"
  ]

  /** No tag occurs twice. */
  ghost predicate NoDuplicates(tags: seq<string>) {
    forall i, j :: 0 <= i < j < |tags| ==> tags[i] != tags[j]
  }

  /** `r` is `s` with some elements left out and the rest kept in their order. */
  ghost predicate IsSubsequence(r: seq<string>, s: seq<string>)
    decreases |s|
  {
    if r == [] then true
    else if s == [] then false
    else if r[0] == s[0] then IsSubsequence(r[1..], s[1..])
    else IsSubsequence(r, s[1..])
  }

  /**
   * The add button (or Enter) with `pending` in the text box: the trimmed text is appended
   * at the end and the box is cleared when it is not blank and not yet listed; otherwise
   * both the list and the box are left as they were. Returns the new list and box text.
   */
  function AddSpecialty(tags: seq<string>, pending: string): (r: (seq<string>, string))
    ensures AllSpace(pending) ==> r == (tags, pending)
    ensures Trim(pending) in tags ==> r == (tags, pending)
    ensures !AllSpace(pending) && Trim(pending) !in tags ==> r == (tags + [Trim(pending)], "")
  {
    var t := Trim(pending);
    if t != "" && t !in tags then (tags + [t], "") else (tags, pending)
  }

  /** The tag list after the remove button of `x`: every copy of `x` dropped, the rest in order. */
  function RemoveSpecialty(tags: seq<string>, x: string): (r: seq<string>)
    ensures x !in r
    ensures multiset(r) == multiset(tags)[x := 0]
    ensures IsSubsequence(r, tags)
  {
    if tags == [] then []
    else
      assert tags == [tags[0]] + tags[1..];
      if tags[0] == x then RemoveSpecialty(tags[1..], x)
      else [tags[0]] + RemoveSpecialty(tags[1..], x)
  }

  /**
   * A suggestion button: appends the suggestion as it is, unless it is already listed
   * (the button is then also disabled, which has the same effect).
   */
  function QuickAdd(tags: seq<string>, suggestion: string): (r: seq<string>)
    ensures suggestion in r
    ensures suggestion in tags ==> r == tags
    ensures suggestion !in tags ==> r == tags + [suggestion]
  {
    if suggestion !in tags then tags + [suggestion] else tags
  }

  // ---------------------------------------------------------------------------
  // Properties

  /** Adding keeps a duplicate-free list duplicate-free. */
  lemma AddPreservesNoDuplicates(tags: seq<string>, pending: string)
    requires NoDuplicates(tags)
    ensures NoDuplicates(AddSpecialty(tags, pending).0)
  {
    var r := AddSpecialty(tags, pending).0;
    if r != tags {
      assert r == tags + [Trim(pending)];
      forall i, j | 0 <= i < j < |r| ensures r[i] != r[j] {
        if j == |tags| { assert r[i] == tags[i]; }
      }
    }
  }

  /** Adding grows the list by at most one and never loses a tag. */
  lemma AddGrowsByAtMostOne(tags: seq<string>, pending: string)
    ensures var r := AddSpecialty(tags, pending).0;
      tags <= r && |r| <= |tags| + 1
  {
  }

  /** Adding is idempotent: submitting the same text again changes nothing further. */
  lemma AddIdempotent(tags: seq<string>, pending: string)
    ensures var r := AddSpecialty(tags, pending).0;
      AddSpecialty(r, pending).0 == r
  {
    var r := AddSpecialty(tags, pending).0;
    if !AllSpace(pending) && Trim(pending) !in tags {
      assert Trim(pending) == r[|tags|];
    }
  }

  /** A tag that is added is stored trimmed. */
  lemma AddedTagIsTrimmed(tags: seq<string>, pending: string)
    requires !AllSpace(pending) && Trim(pending) !in tags
    ensures var r := AddSpecialty(tags, pending).0;
      |r| == |tags| + 1 && Trim(r[|tags|]) == r[|tags|] && r[|tags|] != ""
  {
    TrimIdempotent(pending);
  }

  /** On a duplicate-free list a listed tag occurs exactly once. */
  lemma {:induction false} NoDuplicatesCountsOne(tags: seq<string>, x: string)
    requires NoDuplicates(tags) && x in tags
    ensures multiset(tags)[x] == 1
  {
    if tags[0] == x {
      assert x !in tags[1..] by {
        forall j | 0 <= j < |tags[1..]| ensures tags[1..][j] != x {
          assert tags[1..][j] == tags[j + 1];
        }
      }
      assert tags == [tags[0]] + tags[1..];
    } else {
      assert x in tags[1..];
      assert NoDuplicates(tags[1..]) by {
        forall i, j | 0 <= i < j < |tags[1..]| ensures tags[1..][i] != tags[1..][j] {
          assert tags[1..][i] == tags[i + 1] && tags[1..][j] == tags[j + 1];
        }
      }
      NoDuplicatesCountsOne(tags[1..], x);
      assert tags == [tags[0]] + tags[1..];
    }
  }

  /**
   * On a duplicate-free list, removing a listed tag shrinks the list by exactly one and
   * removing an absent tag leaves it unchanged.
   */
  lemma RemoveSize(tags: seq<string>, x: string)
    requires NoDuplicates(tags)
    ensures x in tags ==> |RemoveSpecialty(tags, x)| == |tags| - 1
    ensures x !in tags ==> RemoveSpecialty(tags, x) == tags
  {
    var r := RemoveSpecialty(tags, x);
    if x in tags {
      NoDuplicatesCountsOne(tags, x);
      assert |multiset(r)| == |multiset(tags)| - 1;
    } else {
      RemoveAbsent(tags, x);
    }
  }

  /** Removing a tag that is not listed leaves the list unchanged. */
  lemma {:induction false} RemoveAbsent(tags: seq<string>, x: string)
    requires x !in tags
    ensures RemoveSpecialty(tags, x) == tags
  {
    if tags != [] {
      assert x !in tags[1..];
      RemoveAbsent(tags[1..], x);
      assert tags == [tags[0]] + tags[1..];
    }
  }

  /** Removing keeps every other tag: `y` is listed afterwards exactly when it was before. */
  lemma RemoveKeepsOthers(tags: seq<string>, x: string, y: string)
    requires y != x
    ensures y in RemoveSpecialty(tags, x) <==> y in tags
  {
    var r := RemoveSpecialty(tags, x);
    assert multiset(r)[y] == multiset(tags)[y];
  }

  /** A suggestion is always already trimmed, so one-click adding matches typing it in. */
  lemma QuickAddAgreesWithAdd(tags: seq<string>, i: nat)
    requires i < |CommonSpecialties|
    ensures QuickAdd(tags, CommonSpecialties[i]) == AddSpecialty(tags, CommonSpecialties[i]).0
  {
    var s := CommonSpecialties[i];
    assert !IsSpace(s[0]) && !IsSpace(s[|s| - 1]);
    assert SkipSpaceForward(s, 0) == 0;
    assert SkipSpaceBackward(s, 0, |s|) == |s|;
    assert Trim(s) == s;
  }

  /** One-click adding keeps a duplicate-free list duplicate-free. */
  lemma QuickAddPreservesNoDuplicates(tags: seq<string>, suggestion: string)
    requires NoDuplicates(tags)
    ensures NoDuplicates(QuickAdd(tags, suggestion))
  {
    var r := QuickAdd(tags, suggestion);
    if suggestion !in tags {
      forall i, j | 0 <= i < j < |r| ensures r[i] != r[j] {
        if j == |tags| { assert r[i] == tags[i]; }
      }
    }
  }
}
