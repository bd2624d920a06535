/** String operations the app takes from Swift's standard library and Foundation:
    prefix test, substring search (`String.contains`) and the left-to-right,
    non-overlapping `replacingOccurrences(of:with:)`. Strings are sequences of
    characters; no Unicode canonical equivalence is modelled. */
module Text {

  /** `p` is a prefix of `s`. */
  predicate StartsWith(s: string, p: string) {
    |p| <= |s| && s[..|p|] == p
  }

  /** `t` occurs in `s` starting at offset `i`. */
  ghost predicate OccursAt(s: string, t: string, i: int) {
    0 <= i && i + |t| <= |s| && s[i..i + |t|] == t
  }

  /** Substring search, trying each offset from the left. */
  predicate Contains(s: string, t: string)
    decreases |s|
  {
    StartsWith(s, t) || (|s| > 0 && Contains(s[1..], t))
  }

  /** The search finds `t` exactly when `t` occurs somewhere in `s`. */
  lemma {:induction false} ContainsIff(s: string, t: string)
    ensures Contains(s, t) <==> exists i :: OccursAt(s, t, i)
    decreases |s|
  {
    if StartsWith(s, t) {
      assert OccursAt(s, t, 0);
    } else if |s| > 0 {
      ContainsIff(s[1..], t);
      if exists i :: OccursAt(s, t, i) {
        var i :| OccursAt(s, t, i);
        assert i != 0;
        assert i - 1 + |t| <= |s[1..]|;
        assert s[1..][i - 1..i - 1 + |t|] == s[i..i + |t|] == t;
        assert OccursAt(s[1..], t, i - 1);
      }
      if exists j :: OccursAt(s[1..], t, j) {
        var j :| OccursAt(s[1..], t, j);
        assert j + 1 + |t| <= |s|;
        assert s[j + 1..j + 1 + |t|] == s[1..][j..j + |t|] == t;
        assert OccursAt(s, t, j + 1);
      }
    }
  }

  /** Foundation's `replacingOccurrences(of: pat, with: rep)`: scan from the
      left; where `pat` starts, emit `rep` and skip past it, otherwise copy one
      character. An empty `pat` leaves the text as it is. */
  function ReplaceAll(s: string, pat: string, rep: string): (r: string)
    ensures pat == [] || !Contains(s, pat) ==> r == s
    decreases |s|
  {
    if pat == [] || s == [] then s
    else if StartsWith(s, pat) then rep + ReplaceAll(s[|pat|..], pat, rep)
    else [s[0]] + ReplaceAll(s[1..], pat, rep)
  }

  /** Any prefix of a replacement's output either is a copy of the input's
      prefix of that length, or already shows the first character of `rep`. */
  lemma {:induction false} ReplaceAllPrefix(t: string, pat: string, rep: string, k: nat)
    requires pat != [] && rep != []
    requires k <= |ReplaceAll(t, pat, rep)|
    ensures || (k <= |t| && ReplaceAll(t, pat, rep)[..k] == t[..k])
            || rep[0] in ReplaceAll(t, pat, rep)[..k]
    decreases |t|
  {
    var r := ReplaceAll(t, pat, rep);
    if k == 0 || t == [] {
      assert r[..k] == t[..k] == [];
    } else if StartsWith(t, pat) {
      assert r[..k][0] == rep[0];
    } else {
      var rest := ReplaceAll(t[1..], pat, rep);
      assert r == [t[0]] + rest;
      ReplaceAllPrefix(t[1..], pat, rep, k - 1);
      assert r[..k] == [t[0]] + rest[..k - 1];
      if k - 1 <= |t[1..]| && rest[..k - 1] == t[1..][..k - 1] {
        assert t[..k] == [t[0]] + t[1..][..k - 1];
      } else {
        assert rep[0] in rest[..k - 1];
      }
    }
  }

  /** A pattern that occurs only once, between a leading text without its
      first character and a tail without one of its characters, gets the
      prefix `pre` put in front of it and nothing else changes. */
  lemma ReplaceAllSingleOccurrence(lead: string, pat: string, tail: string, pre: string, j: nat)
    requires pat != [] && pat[0] !in lead && j < |pat| && pat[j] !in tail
    ensures ReplaceAll(lead + pat + tail, pat, pre + pat) == lead + pre + pat + tail
  {
    ReplaceAllFirstOccurrence(lead, pat, tail, pre + pat);
    AbsentCharacterRulesOut(tail, pat, j);
    assert lead + (pre + pat) + tail == lead + pre + pat + tail;
  }

  /** No occurrence of `pat` can start inside a text none of whose
      characters is `pat`'s first one. */
  lemma {:induction false} NoOccurrenceAfterForeignText(a: string, x: string, pat: string)
    requires pat != []
    requires pat[0] !in a
    requires !Contains(x, pat)
    ensures !Contains(a + x, pat)
    decreases |a|
  {
    if a == [] {
      assert a + x == x;
    } else {
      assert (a + x)[0] == a[0];
      assert !StartsWith(a + x, pat);
      NoOccurrenceAfterForeignText(a[1..], x, pat);
      assert (a + x)[1..] == a[1..] + x;
    }
  }

  /** When the replacement and the pattern cannot overlap at their first
      characters, no occurrence of the pattern survives a replace-all. */
  lemma {:induction false} ReplaceAllLeavesNoOccurrence(s: string, pat: string, rep: string)
    requires pat != [] && rep != []
    requires rep[0] !in pat && pat[0] !in rep
    ensures !Contains(ReplaceAll(s, pat, rep), pat)
    decreases |s|
  {
    if s == [] {
    } else if StartsWith(s, pat) {
      ReplaceAllLeavesNoOccurrence(s[|pat|..], pat, rep);
      NoOccurrenceAfterForeignText(rep, ReplaceAll(s[|pat|..], pat, rep), pat);
    } else {
      var rest := ReplaceAll(s[1..], pat, rep);
      ReplaceAllLeavesNoOccurrence(s[1..], pat, rep);
      assert ReplaceAll(s, pat, rep) == [s[0]] + rest;
      ForeignHeadStaysForeign(s, pat, rep);
      assert ([s[0]] + rest)[1..] == rest;
    }
  }

  /** A text that does not start with `pat` still does not once the rest of
      it has been replaced in. */
  lemma ForeignHeadStaysForeign(s: string, pat: string, rep: string)
    requires pat != [] && rep != [] && rep[0] !in pat
    requires s != [] && !StartsWith(s, pat)
    ensures !StartsWith([s[0]] + ReplaceAll(s[1..], pat, rep), pat)
  {
    var rest := ReplaceAll(s[1..], pat, rep);
    var out := [s[0]] + rest;
    if |pat| <= |out| {
      if |pat| == 1 {
        assert out[..1] == s[..1];
      } else {
        ReplaceAllPrefix(s[1..], pat, rep, |pat| - 1);
        assert out[..|pat|] == [s[0]] + rest[..|pat| - 1];
        if |pat| - 1 <= |s[1..]| && rest[..|pat| - 1] == s[1..][..|pat| - 1] {
          assert s[..|pat|] == [s[0]] + s[1..][..|pat| - 1];
          assert out[..|pat|] == s[..|pat|];
        } else {
          assert rep[0] in out[..|pat|];
        }
      }
    }
  }

  /** No character of `s` is one of `cs`. */
  ghost predicate Avoids(s: string, cs: set<char>) {
    forall i :: 0 <= i < |s| ==> s[i] !in cs
  }

  lemma AvoidsConcat(a: string, b: string, cs: set<char>)
    requires Avoids(a, cs) && Avoids(b, cs)
    ensures Avoids(a + b, cs)
  {
    forall i | 0 <= i < |a + b|
      ensures (a + b)[i] !in cs
    {
      if i >= |a| {
        assert (a + b)[i] == b[i - |a|];
      }
    }
  }

  lemma AvoidsSubset(s: string, cs: set<char>, ds: set<char>)
    requires Avoids(s, cs) && ds <= cs
    ensures Avoids(s, ds)
  {
  }

  lemma AvoidsCharacter(s: string, cs: set<char>, c: char)
    requires Avoids(s, cs) && c in cs
    ensures c !in s
  {
  }

  /** A pattern with a character the text lacks does not occur in it. */
  lemma AbsentCharacterRulesOut(s: string, pat: string, j: nat)
    requires j < |pat| && pat[j] !in s
    ensures !Contains(s, pat)
  {
    ContainsIff(s, pat);
    forall i | 0 <= i && i + |pat| <= |s|
      ensures !OccursAt(s, pat, i)
    {
      assert s[i..i + |pat|][j] == s[i + j];
    }
  }

  /** A leading text without the pattern's first character is copied as it is. */
  lemma {:induction false} ReplaceAllSkipsForeignText(a: string, b: string, pat: string, rep: string)
    requires pat != [] && pat[0] !in a
    ensures ReplaceAll(a + b, pat, rep) == a + ReplaceAll(b, pat, rep)
    decreases |a|
  {
    if a == [] {
      assert a + b == b;
    } else {
      assert (a + b)[0] == a[0];
      assert (a + b)[1..] == a[1..] + b;
      ReplaceAllSkipsForeignText(a[1..], b, pat, rep);
    }
  }

  /** An occurrence behind a leading text without the pattern's first
      character is the first one replaced. */
  lemma ReplaceAllFirstOccurrence(lead: string, pat: string, tail: string, rep: string)
    requires pat != [] && pat[0] !in lead
    ensures ReplaceAll(lead + pat + tail, pat, rep) == lead + rep + ReplaceAll(tail, pat, rep)
  {
    assert lead + pat + tail == lead + (pat + tail);
    ReplaceAllSkipsForeignText(lead, pat + tail, pat, rep);
    assert StartsWith(pat + tail, pat);
    assert (pat + tail)[|pat|..] == tail;
  }
}
