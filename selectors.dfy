/** The selector functions that refine an upstream output on a connection
    of the pipeline: `get_aparc_aseg`, `first_element` and `second_element`. */
module Selectors {
  import opened Wrappers

  /** The substring that names FreeSurfer's aparc+aseg segmentation. */
  const AparcAsegPattern: string := "aparc+aseg"

  /** `sub` starts at position `i` of `s`. */
  ghost predicate OccursAt(s: string, sub: string, i: int) {
    0 <= i && i + |sub| <= |s| && s[i..i + |sub|] == sub
  }

  /** Python's `sub in s` on two strings: a scan over every start position. */
  function Contains(s: string, sub: string): bool
    decreases |s|
  {
    if |sub| > |s| then false
    else s[..|sub|] == sub || Contains(s[1..], sub)
  }

  /** The scan finds `sub` exactly when `sub` occurs somewhere in `s`. */
  lemma {:induction false} ContainsIff(s: string, sub: string)
    ensures Contains(s, sub) <==> exists i :: OccursAt(s, sub, i)
    decreases |s|
  {
    if |sub| <= |s| {
      if s[..|sub|] == sub {
        assert OccursAt(s, sub, 0);
      } else {
        ContainsIff(s[1..], sub);
        if Contains(s[1..], sub) {
          var i :| OccursAt(s[1..], sub, i);
          assert s[1..][i..i + |sub|] == s[i + 1..i + 1 + |sub|];
          assert OccursAt(s, sub, i + 1);
        } else {
          forall i | 0 <= i ensures !OccursAt(s, sub, i) {
            if i == 0 {
              assert s[0..|sub|] == s[..|sub|];
            } else if i + |sub| <= |s| {
              assert s[1..][i - 1..i - 1 + |sub|] == s[i..i + |sub|];
              assert !OccursAt(s[1..], sub, i - 1);
            }
          }
        }
      }
    }
  }

  /** Position `k` holds the first name of `files` that contains `pattern`. */
  ghost predicate IsFirstMatch(files: seq<string>, pattern: string, k: int) {
    && 0 <= k < |files|
    && Contains(files[k], pattern)
    && forall j :: 0 <= j < k ==> !Contains(files[j], pattern)
  }

  /** The first name of `files` that contains `pattern`, or `None`. */
  function FirstMatch(files: seq<string>, pattern: string): Option<string>
  {
    if files == [] then None
    else if Contains(files[0], pattern) then Some(files[0])
    else FirstMatch(files[1..], pattern)
  }

  /** `FirstMatch` is `None` exactly when no name matches, and otherwise
      the name at the first matching position. */
  lemma {:induction false} FirstMatchSpec(files: seq<string>, pattern: string)
    ensures FirstMatch(files, pattern).None? <==>
              forall j :: 0 <= j < |files| ==> !Contains(files[j], pattern)
    ensures FirstMatch(files, pattern).Some? ==>
              exists k :: IsFirstMatch(files, pattern, k) && files[k] == FirstMatch(files, pattern).value
  {
    if files != [] && !Contains(files[0], pattern) {
      FirstMatchSpec(files[1..], pattern);
      if FirstMatch(files, pattern).Some? {
        var k :| IsFirstMatch(files[1..], pattern, k) && files[1..][k] == FirstMatch(files, pattern).value;
        assert IsFirstMatch(files, pattern, k + 1);
      } else {
        forall j | 0 <= j < |files| ensures !Contains(files[j], pattern) {
          if j > 0 { assert files[j] == files[1..][j - 1]; }
        }
      }
    } else if files != [] {
      assert IsFirstMatch(files, pattern, 0);
    }
  }

  /** `get_aparc_aseg`: walk the list and return the first name containing
      "aparc+aseg"; falling off the end of the loop returns `None`. */
  method GetAparcAseg(files: seq<string>) returns (r: Option<string>)
    ensures r == FirstMatch(files, AparcAsegPattern)
    ensures r.None? <==> forall j :: 0 <= j < |files| ==> !Contains(files[j], AparcAsegPattern)
    ensures r.Some? ==> exists k :: IsFirstMatch(files, AparcAsegPattern, k) && files[k] == r.value
  {
    FirstMatchSpec(files, AparcAsegPattern);
    var i := 0;
    while i < |files|
      invariant 0 <= i <= |files|
      invariant FirstMatch(files[i..], AparcAsegPattern) == FirstMatch(files, AparcAsegPattern)
    {
      if Contains(files[i], AparcAsegPattern) {
        return Some(files[i]);
      }
      assert files[i..][1..] == files[i + 1..];
      i := i + 1;
    }
    return None;
  }

  /** `first_element`: `file_list[0]`, an IndexError on an empty list. */
  function FirstElement<T>(xs: seq<T>): (r: Result<T>)
    ensures r.Ok? <==> |xs| >= 1
    ensures r.Ok? ==> r.value == xs[0]
    ensures r.Err? ==> r.error == IndexError
  {
    if |xs| >= 1 then Ok(xs[0]) else Err(IndexError)
  }

  /** `second_element`: `file_list[1]`, an IndexError on a list shorter than two. */
  function SecondElement<T>(xs: seq<T>): (r: Result<T>)
    ensures r.Ok? <==> |xs| >= 2
    ensures r.Ok? ==> r.value == xs[1]
    ensures r.Err? ==> r.error == IndexError
  {
    if |xs| >= 2 then Ok(xs[1]) else Err(IndexError)
  }

  /** Whenever `second_element` succeeds, `first_element` does too, and the
      two selected values followed by the rest rebuild the whole list. */
  lemma SelectorsRebuildList<T>(xs: seq<T>)
    requires SecondElement(xs).Ok?
    ensures FirstElement(xs).Ok?
    ensures xs == [FirstElement(xs).value, SecondElement(xs).value] + xs[2..]
  {
    assert xs == xs[..2] + xs[2..];
  }
}
