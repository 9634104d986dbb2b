/**
 * String trimming, shared by the browser code (`String.prototype.trim`) and
 * the server code (`java.lang.String.trim`). The two languages disagree on
 * which characters are white space, so the predicate is a parameter.
 */
module Text {

  /** Drops the leading characters that satisfy `space`. */
  function StripStart(s: string, space: char -> bool): (r: string)
    ensures |r| <= |s| && r == s[|s| - |r|..]
    ensures r == [] || !space(r[0])
  {
    if s == [] || !space(s[0]) then s else StripStart(s[1..], space)
  }

  /** Drops the trailing characters that satisfy `space`. */
  function StripEnd(s: string, space: char -> bool): (r: string)
    ensures |r| <= |s| && r == s[..|r|]
    ensures r == [] || !space(r[|r| - 1])
  {
    if s == [] || !space(s[|s| - 1]) then s else StripEnd(s[..|s| - 1], space)
  }

  /** Drops white space at both ends, as both `trim` methods do. */
  function Strip(s: string, space: char -> bool): string
  {
    StripEnd(StripStart(s, space), space)
  }

  /** A string is blank when every character in it is white space. */
  predicate AllSpace(s: string, space: char -> bool)
  {
    forall i :: 0 <= i < |s| ==> space(s[i])
  }

  /** Stripping the start leaves nothing exactly when every character is white space. */
  lemma {:induction false} StripStartKeepsNonSpace(s: string, space: char -> bool)
    ensures AllSpace(s, space) <==> StripStart(s, space) == []
  {
    if s == [] {
    } else if !space(s[0]) {
      assert !AllSpace(s, space);
    } else {
      StripStartKeepsNonSpace(s[1..], space);
      assert StripStart(s, space) == StripStart(s[1..], space);
      if AllSpace(s[1..], space) {
        forall i | 0 <= i < |s| ensures space(s[i]) {
          if i > 0 { assert s[i] == s[1..][i - 1]; }
        }
      } else {
        var j :| 0 <= j < |s[1..]| && !space(s[1..][j]);
        assert s[j + 1] == s[1..][j];
      }
    }
  }

  /** `s.trim()` is empty exactly when `s` holds nothing but white space. */
  lemma StripEmptyIffAllSpace(s: string, space: char -> bool)
    ensures Strip(s, space) == [] <==> AllSpace(s, space)
  {
    StripStartKeepsNonSpace(s, space);
    var t := StripStart(s, space);
    if t != [] {
      assert !space(t[0]);
      assert StripEnd(t, space) != [] by {
        var e := StripEnd(t, space);
        if e == [] {
          StripEndAllSpace(t, space);
          assert false;
        }
      }
    }
  }

  /** If stripping the end leaves nothing, the whole string was white space. */
  lemma {:induction false} StripEndAllSpace(s: string, space: char -> bool)
    requires StripEnd(s, space) == []
    ensures AllSpace(s, space)
  {
    if s != [] {
      StripEndAllSpace(s[..|s| - 1], space);
      forall i | 0 <= i < |s| ensures space(s[i]) {
        if i < |s| - 1 { assert s[i] == s[..|s| - 1][i]; }
      }
    }
  }
}
