/**
Finding and replacing substrings as the Go library does: `Replace1` is strings.Replace with a limit of one,
`ReplaceAll` replaces non-overlapping occurrences from left to right.
*/
module Text {
  import opened Options

  predicate IsAt(s: string, i: nat, sub: string) {
    i + |sub| <= |s| && s[i..i + |sub|] == sub
  }

  // Some(i) for the first occurrence of `sub` at or after `from`.
  function IndexFrom(s: string, sub: string, from: nat): Option<nat>
    requires from <= |s|
    decreases |s| - from
  {
    if IsAt(s, from, sub) then Some(from)
    else if from == |s| then None
    else IndexFrom(s, sub, from + 1)
  }

  function Index(s: string, sub: string): Option<nat> {
    IndexFrom(s, sub, 0)
  }

  ghost predicate FirstAt(s: string, sub: string, i: nat) {
    IsAt(s, i, sub) && forall j :: 0 <= j < i ==> !IsAt(s, j, sub)
  }

  lemma {:induction false} IndexFromIsFirst(s: string, sub: string, from: nat)
    requires from <= |s|
    ensures match IndexFrom(s, sub, from)
      case Some(i) => from <= i && IsAt(s, i, sub) && forall j :: from <= j < i ==> !IsAt(s, j, sub)
      case None => forall j :: from <= j <= |s| ==> !IsAt(s, j, sub)
    decreases |s| - from
  {
    if !IsAt(s, from, sub) && from < |s| {
      IndexFromIsFirst(s, sub, from + 1);
    }
  }

  lemma IndexIsFirst(s: string, sub: string, i: nat)
    ensures Index(s, sub) == Some(i) <==> FirstAt(s, sub, i)
  {
    IndexFromIsFirst(s, sub, 0);
  }

  function Replace1(s: string, pat: string, text: string): string {
    match Index(s, pat)
    case Some(i) => if i + |pat| <= |s| then s[..i] + text + s[i + |pat|..] else s
    case None => s
  }

  lemma Replace1At(s: string, pat: string, text: string, i: nat)
    requires FirstAt(s, pat, i)
    ensures Replace1(s, pat, text) == s[..i] + text + s[i + |pat|..]
  {
    IndexIsFirst(s, pat, i);
  }

  function ReplaceAll(s: string, pat: string, text: string): string
    requires pat != ""
  {
    if s == "" then ""
    else if IsAt(s, 0, pat) then text + ReplaceAll(s[|pat|..], pat, text)
    else [s[0]] + ReplaceAll(s[1..], pat, text)
  }

  // A stretch in which no occurrence starts is copied.
  lemma {:induction false} CopiedThrough(a: string, b: string, pat: string, text: string)
    requires pat != ""
    requires forall i :: 0 <= i < |a| ==> !IsAt(a + b, i, pat)
    ensures ReplaceAll(a + b, pat, text) == a + ReplaceAll(b, pat, text)
  {
    if a == "" {
      assert a + b == b;
    } else {
      var rest := a[1..];
      assert (a + b)[1..] == rest + b;
      forall i | 0 <= i < |rest| ensures !IsAt(rest + b, i, pat) {
        ShiftIsAt(a + b, 1, i, pat);
      }
      CopiedThrough(rest, b, pat, text);
      assert !IsAt(a + b, 0, pat);
      assert a == [a[0]] + rest;
    }
  }

  lemma ShiftIsAt(s: string, n: nat, i: nat, sub: string)
    requires n <= |s|
    ensures IsAt(s[n..], i, sub) <==> IsAt(s, n + i, sub)
  {
    if n + i + |sub| <= |s| {
      assert s[n..][i..i + |sub|] == s[n + i..n + i + |sub|];
    }
  }

  lemma ReplacedAtFront(b: string, pat: string, text: string)
    requires pat != ""
    ensures ReplaceAll(pat + b, pat, text) == text + ReplaceAll(b, pat, text)
  {
    assert (pat + b)[|pat|..] == b;
  }

  // Positions agree character by character.
  lemma IsAtChars(s: string, i: nat, sub: string)
    ensures IsAt(s, i, sub) <==> i + |sub| <= |s| && forall k :: 0 <= k < |sub| ==> s[i + k] == sub[k]
  {
    if i + |sub| <= |s| {
      var cut := s[i..i + |sub|];
      assert forall k :: 0 <= k < |sub| ==> cut[k] == s[i + k];
      if forall k :: 0 <= k < |sub| ==> s[i + k] == sub[k] {
        assert cut == sub;
      }
    }
  }

  // ---------------------------------------------------------------- when replacing changes nothing

  lemma {:induction false} LengthMoves(s: string, pat: string, text: string)
    requires pat != ""
    ensures |text| >= |pat| ==> |ReplaceAll(s, pat, text)| >= |s|
    ensures |text| <= |pat| ==> |ReplaceAll(s, pat, text)| <= |s|
  {
    if s == "" {
    } else {
      if IsAt(s, 0, pat) {
        LengthMoves(s[|pat|..], pat, text);
      } else {
        LengthMoves(s[1..], pat, text);
      }
    }
  }

  // If the text contains `pat`, replacing it changes the text unless it is replaced by itself.
  lemma {:induction false} UnchangedOnlyByItself(s: string, pat: string, text: string, i: nat)
    requires pat != "" && IsAt(s, i, pat) && ReplaceAll(s, pat, text) == s
    ensures text == pat
    decreases |s|
  {
    if IsAt(s, 0, pat) {
      var rest := s[|pat|..];
      LengthMoves(rest, pat, text);
      assert s == pat + rest;
      assert |text| == |pat|;
      assert text == ReplaceAll(s, pat, text)[..|pat|];
      assert pat == s[..|pat|];
    } else {
      ShiftIsAt(s, 1, i - 1, pat);
      assert ReplaceAll(s[1..], pat, text) == ReplaceAll(s, pat, text)[1..];
      UnchangedOnlyByItself(s[1..], pat, text, i - 1);
    }
  }

  lemma {:induction false} ReplacedByItself(s: string, pat: string)
    requires pat != ""
    ensures ReplaceAll(s, pat, pat) == s
  {
    if s == "" {
    } else {
      if IsAt(s, 0, pat) {
        ReplacedByItself(s[|pat|..], pat);
        assert s == pat + s[|pat|..];
      } else {
        ReplacedByItself(s[1..], pat);
      }
    }
  }
}
