/**
Run-command templates. A command's `{{temp_file_dir}}` is expanded everywhere first, then its `{{temp_file_name}}`;
this equals expanding both at once, for every template, exactly when no occurrence of the second placeholder can
overlap an inserted directory.
*/
module Templates {
  import opened Text

  const DIR := "{{temp_file_dir}}"
  const NAME := "{{temp_file_name}}"

  // The run command as the worker assembles it.
  function Expand(template: string, dir: string, name: string): string {
    ReplaceAll(ReplaceAll(template, DIR, dir), NAME, name)
  }

  // Both placeholders in one pass; inserted text is never looked at again.
  function ExpandAtOnce(template: string, dir: string, name: string): string {
    if template == "" then ""
    else if IsAt(template, 0, DIR) then dir + ExpandAtOnce(template[|DIR|..], dir, name)
    else if IsAt(template, 0, NAME) then name + ExpandAtOnce(template[|NAME|..], dir, name)
    else [template[0]] + ExpandAtOnce(template[1..], dir, name)
  }

  // NAME, shifted to start at `p` relative to dir, agrees with dir wherever they overlap.
  predicate Agrees(dir: string, p: int) {
    forall k :: 0 <= k < |NAME| && 0 <= p + k < |dir| ==> dir[p + k] == NAME[k]
  }

  // Some occurrence of NAME could touch an inserted dir.
  predicate Clashes(dir: string) {
    exists p :: -|NAME| < p < |dir| && Agrees(dir, p)
  }

  lemma Braces()
    ensures |DIR| == 17 && |NAME| == 18
    ensures forall i :: 0 <= i < |DIR| ==> (DIR[i] == '{' <==> i < 2)
    ensures forall i :: 0 <= i < |NAME| ==> (NAME[i] == '{' <==> i < 2)
    ensures DIR[12] == 'd' && NAME[12] == 'n'
    ensures '/' !in NAME
  {
  }

  // ---------------------------------------------------------------- what a template stands for

  // A template as its author means it.
  datatype Piece = Literal(text: string) | FileDir | FileName

  function Source(pieces: seq<Piece>): string {
    if pieces == [] then ""
    else (match pieces[0]
          case Literal(text) => text
          case FileDir => "{{temp_file_dir}}"
          case FileName => "{{temp_file_name}}") + Source(pieces[1..])
  }

  function Meaning(pieces: seq<Piece>, dir: string, name: string): string {
    if pieces == [] then ""
    else (match pieces[0]
          case Literal(text) => text
          case FileDir => dir
          case FileName => name) + Meaning(pieces[1..], dir, name)
  }

  // No placeholder starts inside a literal piece.
  ghost predicate Unambiguous(pieces: seq<Piece>)
    decreases |pieces|
  {
    pieces == []
    || (Unambiguous(pieces[1..])
        && (pieces[0].Literal? ==>
          forall i :: 0 <= i < |pieces[0].text| ==> !IsAt(Source(pieces), i, DIR) && !IsAt(Source(pieces), i, NAME)))
  }

  // Each placeholder is replaced by what it names, and everything else is kept.
  lemma {:induction false} ExpandsToMeaning(pieces: seq<Piece>, dir: string, name: string)
    requires Unambiguous(pieces)
    ensures ExpandAtOnce(Source(pieces), dir, name) == Meaning(pieces, dir, name)
    decreases |pieces|
  {
    if pieces == [] {
    } else {
      var rest := Source(pieces[1..]);
      ExpandsToMeaning(pieces[1..], dir, name);
      match pieces[0]
      case Literal(text) =>
        assert Source(pieces) == text + rest;
        CopiedAtOnce(text, rest, dir, name);
      case FileDir =>
        assert (DIR + rest)[|DIR|..] == rest;
        assert IsAt(DIR + rest, 0, DIR);
      case FileName =>
        DirNotInName(rest);
        assert (NAME + rest)[|NAME|..] == rest;
    }
  }

  // ---------------------------------------------------------------- without a clash

  lemma DirNotInName(rest: string)
    ensures forall i :: 0 <= i < |NAME| ==> !IsAt(NAME + rest, i, DIR)
    ensures IsAt(NAME + rest, 0, NAME)
  {
    Braces();
    var t := NAME + rest;
    forall i | 0 <= i < |NAME| ensures !IsAt(t, i, DIR) {
      IsAtChars(t, i, DIR);
      if i == 0 {
        assert t[i + 12] != DIR[12];
      } else if i == 1 {
        assert t[i + 1] != DIR[1];
      } else {
        assert t[i + 0] != DIR[0];
      }
    }
  }

  // An inserted directory that agrees with what follows the start of a NAME clashes.
  lemma InsertedDirClashes(dir: string, rest: string, k: int)
    requires 1 <= k < |NAME| && IsAt(dir + rest, 0, NAME[k..])
    ensures Clashes(dir)
  {
    var w := dir + rest;
    IsAtChars(w, 0, NAME[k..]);
    forall j | 0 <= j < |NAME| && 0 <= -k + j < |dir| ensures dir[-k + j] == NAME[j] {
      assert w[0 + (j - k)] == dir[j - k] && NAME[k..][j - k] == NAME[j];
    }
    assert Agrees(dir, -k);
  }

  // The first character is its own.
  lemma NameTail(u: string, w: string, k: int)
    requires 1 <= k < |NAME| && u != ""
    ensures IsAt([u[0]] + w, 0, NAME[k..]) ==> u[0] == NAME[k] && IsAt(w, 0, NAME[k + 1..])
    ensures u[0] == NAME[k] && IsAt(u[1..], 0, NAME[k + 1..]) ==> IsAt(u, 0, NAME[k..])
  {
    var v := [u[0]] + w;
    assert NAME[k..] == [NAME[k]] + NAME[k + 1..];
    IsAtChars(v, 0, NAME[k..]);
    assert v[1..] == w;
    if IsAt(v, 0, NAME[k..]) {
      assert v[0..|NAME[k..]|] == NAME[k..];
      assert v[0..|NAME[k..]|][1..] == NAME[k + 1..];
      assert v[0..|NAME[k..]|][1..] == w[0..|NAME[k + 1..]|];
    }
    if u[0] == NAME[k] && IsAt(u[1..], 0, NAME[k + 1..]) {
      assert u[0..|NAME[k..]|] == [u[0]] + u[1..][0..|NAME[k + 1..]|];
    }
  }

  // What follows the start of a NAME in the expanded text was there before the directory was inserted,
  // or the directory clashes.
  lemma {:induction false} NoNewSuffix(u: string, dir: string, k: int)
    requires 1 <= k <= |NAME|
    requires IsAt(ReplaceAll(u, DIR, dir), 0, NAME[k..])
    ensures IsAt(u, 0, NAME[k..]) || Clashes(dir)
    decreases |u|
  {
    if k < |NAME| && u != "" {
      if IsAt(u, 0, DIR) {
        InsertedDirClashes(dir, ReplaceAll(u[|DIR|..], DIR, dir), k);
      } else {
        NameTail(u, ReplaceAll(u[1..], DIR, dir), k);
        NoNewSuffix(u[1..], dir, k + 1);
      }
    }
  }

  lemma DirCopied(dir: string, w: string)
    requires !Clashes(dir)
    ensures forall i :: 0 <= i < |dir| ==> !IsAt(dir + w, i, NAME)
  {
    forall i | 0 <= i < |dir| ensures !IsAt(dir + w, i, NAME) {
      if IsAt(dir + w, i, NAME) {
        IsAtChars(dir + w, i, NAME);
        assert Agrees(dir, i);
      }
    }
  }

  lemma {:induction false} TwoPassesAreOne(t: string, dir: string, name: string)
    requires !Clashes(dir)
    ensures Expand(t, dir, name) == ExpandAtOnce(t, dir, name)
  {
    if t == "" {
    } else if IsAt(t, 0, DIR) {
      var rest := t[|DIR|..];
      TwoPassesAreOne(rest, dir, name);
      DirCopied(dir, ReplaceAll(rest, DIR, dir));
      CopiedThrough(dir, ReplaceAll(rest, DIR, dir), NAME, name);
    } else if IsAt(t, 0, NAME) {
      var rest := t[|NAME|..];
      assert t == NAME + rest;
      DirNotInName(rest);
      CopiedThrough(NAME, rest, DIR, dir);
      ReplacedAtFront(ReplaceAll(rest, DIR, dir), NAME, name);
      TwoPassesAreOne(rest, dir, name);
    } else {
      var rest := t[1..];
      var w := ReplaceAll(rest, DIR, dir);
      TwoPassesAreOne(rest, dir, name);
      if IsAt([t[0]] + w, 0, NAME) {
        assert NAME == [NAME[0]] + NAME[1..];
        assert w == ([t[0]] + w)[1..];
        ShiftIsAt([t[0]] + w, 1, 0, NAME[1..]);
        IsAtChars([t[0]] + w, 0, NAME);
        IsAtChars(w, 0, NAME[1..]);
        assert t == [t[0]] + rest;
        NoNewSuffix(rest, dir, 1);
      }
      assert ([t[0]] + w)[1..] == w;
    }
  }

  // The second pass is idle when the name is the placeholder itself.
  lemma {:induction false} NameItself(t: string, dir: string)
    ensures ReplaceAll(t, DIR, dir) == ExpandAtOnce(t, dir, NAME)
  {
    if t == "" {
    } else if IsAt(t, 0, DIR) {
      NameItself(t[|DIR|..], dir);
    } else if IsAt(t, 0, NAME) {
      var rest := t[|NAME|..];
      assert t == NAME + rest;
      DirNotInName(rest);
      CopiedThrough(NAME, rest, DIR, dir);
      NameItself(rest, dir);
    } else {
      NameItself(t[1..], dir);
    }
  }

  // ---------------------------------------------------------------- with a clash

  // A template in which the inserted directory completes a NAME: what NAME still needs before and after it.
  function Before(p: int): string
    requires -|NAME| < p
  {
    if p < 0 then NAME[..-p] else ""
  }

  function After(dir: string, p: int): string
    requires -|NAME| < p < |dir|
  {
    if p + |NAME| > |dir| then NAME[|dir| - p..] else ""
  }

  lemma {:induction false} NothingToExpand(s: string, dir: string, name: string)
    requires forall i :: 0 <= i < |s| ==> !IsAt(s, i, DIR) && !IsAt(s, i, NAME)
    ensures ReplaceAll(s, DIR, dir) == s && ExpandAtOnce(s, dir, name) == s
  {
    if s == "" {
    } else {
      forall i | 0 <= i < |s[1..]| ensures !IsAt(s[1..], i, DIR) && !IsAt(s[1..], i, NAME) {
        ShiftIsAt(s, 1, i, DIR);
        ShiftIsAt(s, 1, i, NAME);
      }
      NothingToExpand(s[1..], dir, name);
      assert s == [s[0]] + s[1..];
    }
  }

  lemma {:induction false} CopiedAtOnce(a: string, b: string, dir: string, name: string)
    requires forall i :: 0 <= i < |a| ==> !IsAt(a + b, i, DIR) && !IsAt(a + b, i, NAME)
    ensures ExpandAtOnce(a + b, dir, name) == a + ExpandAtOnce(b, dir, name)
  {
    if a == "" {
      assert a + b == b;
    } else {
      var rest := a[1..];
      assert (a + b)[1..] == rest + b;
      forall i | 0 <= i < |rest| ensures !IsAt(rest + b, i, DIR) && !IsAt(rest + b, i, NAME) {
        ShiftIsAt(a + b, 1, i, DIR);
        ShiftIsAt(a + b, 1, i, NAME);
      }
      CopiedAtOnce(rest, b, dir, name);
      assert !IsAt(a + b, 0, DIR) && !IsAt(a + b, 0, NAME);
      assert a == [a[0]] + rest;
    }
  }

  // No placeholder starts in a proper prefix of NAME followed by DIR.
  lemma NoDirInPrefix(m: nat, rest: string, i: nat)
    requires i < m < |NAME|
    ensures !IsAt(NAME[..m] + (DIR + rest), i, DIR)
  {
    Braces();
    var t := NAME[..m] + (DIR + rest);
    IsAtChars(t, i, DIR);
    assert t[m + 0] == '{' && t[m + 1] == '{' && t[m + 2] != '{';
    if i >= 2 {
      assert t[i + 0] != DIR[0];
    } else if i == 1 {
      assert t[i + 1] != DIR[1] || t[i + 2] != DIR[2];
    } else if m > 12 {
      assert t[i + 12] != DIR[12];
    } else {
      assert t[i + m] == '{';
      assert t[i + 2] != DIR[2] || DIR[m] != '{';
    }
  }

  lemma NoNameInPrefix(m: nat, rest: string, i: nat)
    requires i < m < |NAME|
    ensures !IsAt(NAME[..m] + (DIR + rest), i, NAME)
  {
    Braces();
    var t := NAME[..m] + (DIR + rest);
    IsAtChars(t, i, NAME);
    assert t[m + 0] == '{' && t[m + 1] == '{' && t[m + 2] != '{';
    if i >= 2 {
      assert t[i + 0] != NAME[0];
    } else if i == 1 {
      assert t[i + 1] != NAME[1] || t[i + 2] != NAME[2];
    } else {
      assert t[i + m] == '{';
      assert t[i + 2] != NAME[2] || NAME[m] != '{';
    }
  }

  // Nor anywhere in a proper suffix of NAME.
  lemma SuffixHasNone(j: nat)
    requires 1 <= j <= |NAME|
    ensures forall i :: 0 <= i < |NAME[j..]| ==> !IsAt(NAME[j..], i, DIR) && !IsAt(NAME[j..], i, NAME)
  {
    Braces();
    forall i | 0 <= i < |NAME[j..]| ensures !IsAt(NAME[j..], i, DIR) && !IsAt(NAME[j..], i, NAME) {
      IsAtChars(NAME[j..], i, DIR);
      IsAtChars(NAME[j..], i, NAME);
    }
  }

  lemma WitnessExpands(dir: string, name: string, p: int)
    requires -|NAME| < p < |dir|
    ensures
      var t, w := Before(p) + (DIR + After(dir, p)), Before(p) + (dir + After(dir, p));
      ReplaceAll(t, DIR, dir) == w && ExpandAtOnce(t, dir, name) == w
  {
    var pre, post := Before(p), After(dir, p);
    if p < 0 {
      forall i | 0 <= i < |pre| ensures !IsAt(pre + (DIR + post), i, DIR) && !IsAt(pre + (DIR + post), i, NAME) {
        NoDirInPrefix(-p, post, i);
        NoNameInPrefix(-p, post, i);
      }
    }
    if post != "" {
      SuffixHasNone(|dir| - p);
    }
    NothingToExpand(post, dir, name);
    CopiedThrough(pre, DIR + post, DIR, dir);
    CopiedAtOnce(pre, DIR + post, dir, name);
    ReplacedAtFront(post, DIR, dir);
    assert (DIR + post)[|DIR|..] == post;
  }

  lemma WitnessContainsName(dir: string, p: int)
    requires -|NAME| < p < |dir| && Agrees(dir, p)
    ensures IsAt(Before(p) + (dir + After(dir, p)), if p < 0 then 0 else p, NAME)
  {
    var pre, post := Before(p), After(dir, p);
    var w := pre + (dir + post);
    var at := if p < 0 then 0 else p;
    IsAtChars(w, at, NAME);
    forall k | 0 <= k < |NAME| ensures at + k < |w| && w[at + k] == NAME[k] {
      if 0 <= p + k < |dir| {
        assert w[at + k] == dir[p + k];
      }
    }
  }

  // The two passes agree with the single pass on every template exactly when the directory cannot clash
  // (or the name is the placeholder itself, and there is nothing to tell apart).
  lemma TwoPassesAreOneIff(dir: string, name: string)
    ensures (forall t :: Expand(t, dir, name) == ExpandAtOnce(t, dir, name)) <==> name == NAME || !Clashes(dir)
  {
    if name == NAME {
      forall t ensures Expand(t, dir, name) == ExpandAtOnce(t, dir, name) {
        ReplacedByItself(ReplaceAll(t, DIR, dir), NAME);
        NameItself(t, dir);
      }
    } else if p :| -|NAME| < p < |dir| && Agrees(dir, p) {
      var t := Before(p) + (DIR + After(dir, p));
      WitnessExpands(dir, name, p);
      WitnessContainsName(dir, p);
      var w := Before(p) + (dir + After(dir, p));
      if Expand(t, dir, name) == w {
        UnchangedOnlyByItself(w, NAME, name, if p < 0 then 0 else p);
      }
      assert Expand(t, dir, name) != ExpandAtOnce(t, dir, name);
    } else {
      forall t ensures Expand(t, dir, name) == ExpandAtOnce(t, dir, name) {
        TwoPassesAreOne(t, dir, name);
      }
    }
  }

  // An absolute directory without braces never clashes.
  lemma AbsoluteDirsAreSafe(t: string, dir: string, name: string)
    requires dir != "" && dir[0] == '/' && '{' !in dir
    ensures !Clashes(dir)
    ensures Expand(t, dir, name) == ExpandAtOnce(t, dir, name)
  {
    Braces();
    forall p | -|NAME| < p < |dir| ensures !Agrees(dir, p) {
      if p < 0 {
        assert dir[p + -p] != NAME[-p];
      } else {
        assert dir[p + 0] != NAME[0];
      }
    }
    TwoPassesAreOne(t, dir, name);
  }
}
