/**
Assembling a submission: the user's code replaces the first code marker of the driver, and for languages with a
package analyzer the generated imports then replace the first import marker of the result. Sanitizing and analysing
are given by their outcomes.
*/
module CodeBuilding {
  import opened Options
  import opened Text

  const GO_CODE := "// USER_CODE_HERE"
  const GO_IMPORTS := "// IMPORTS_HERE"
  const PYTHON_CODE := "# USER_CODE_HERE"
  const JS_CODE := "// USER_CODE_HERE"

  datatype Markers = Markers(code: string, imports: string)

  // Unknown languages have empty markers.
  function MarkersOf(lang: string): Markers {
    if lang == "Golang" then Markers(GO_CODE, GO_IMPORTS)
    else if lang == "Python" then Markers(PYTHON_CODE, "")
    else if lang == "Javascript" then Markers(JS_CODE, "")
    else Markers("", "")
  }

  // The import block an analyzer generates for a program, or None if the program does not parse.
  type Analyzer = string -> Option<string>

  datatype BuildResult = Built(code: string) | NotSanitary | WrongSyntax

  function Build(lang: string, driver: string, user: string, sanitary: bool, analyzers: map<string, Analyzer>)
    : BuildResult
  {
    if !sanitary then NotSanitary
    else
      var markers := MarkersOf(lang);
      var withCode := Replace1(driver, markers.code, user);
      if lang in analyzers then
        match analyzers[lang](withCode)
        case None => WrongSyntax
        case Some(imports) => Built(Replace1(withCode, markers.imports, imports))
      else Built(withCode)
  }

  // ---------------------------------------------------------------- where the two texts belong

  // The driver with its first markers replaced where they stand.
  function Placed(driver: string, i: nat, c: nat, user: string, imports: string): string
    requires i + |GO_IMPORTS| <= |driver| && c + |GO_CODE| <= |driver|
    requires i + |GO_IMPORTS| <= c || c + |GO_CODE| <= i
  {
    if i < c then driver[..i] + imports + driver[i + |GO_IMPORTS|..c] + user + driver[c + |GO_CODE|..]
    else driver[..c] + user + driver[c + |GO_CODE|..i] + imports + driver[i + |GO_IMPORTS|..]
  }

  lemma MarkerLetters()
    ensures |GO_CODE| == 17 && |GO_IMPORTS| == 15
    ensures forall k :: 0 <= k < |GO_CODE| ==> (GO_CODE[k] == '/' <==> k < 2)
    ensures forall k :: 0 <= k < |GO_IMPORTS| ==> (GO_IMPORTS[k] == '/' <==> k < 2)
  {
  }

  ghost predicate StartsWithSlashesOnly(a: string) {
    |a| > 2 && forall k :: 0 <= k < |a| ==> (a[k] == '/' <==> k < 2)
  }

  lemma SlashesApart(s: string, i: nat, a: string, j: nat, b: string)
    requires StartsWithSlashesOnly(a) && StartsWithSlashesOnly(b)
    requires IsAt(s, i, a) && IsAt(s, j, b) && i < j
    ensures i + |a| <= j
  {
    IsAtChars(s, i, a);
    IsAtChars(s, j, b);
    assert s[j + 0] == '/' && s[j + 1] == '/';
    forall m | i <= m < i + |a| ensures s[m] == a[m - i] {
      assert s[i + (m - i)] == a[m - i];
    }
  }

  // The two markers never overlap.
  lemma MarkersApart(driver: string, i: nat, c: nat)
    requires IsAt(driver, i, GO_IMPORTS) && IsAt(driver, c, GO_CODE)
    ensures i + |GO_IMPORTS| <= c || c + |GO_CODE| <= i
  {
    MarkerLetters();
    IsAtChars(driver, i, GO_IMPORTS);
    IsAtChars(driver, c, GO_CODE);
    assert driver[i + 3] == 'I' && driver[c + 3] == 'U';
    if i < c {
      SlashesApart(driver, i, GO_IMPORTS, c, GO_CODE);
    } else if c < i {
      SlashesApart(driver, c, GO_CODE, i, GO_IMPORTS);
    }
  }

  function Inserted(driver: string, user: string, imports: string): string {
    Replace1(Replace1(driver, GO_CODE, user), GO_IMPORTS, imports)
  }

  // Text that begins like the driver, up to the end of its first import marker, has its first import marker there.
  lemma FirstKept(driver: string, i: nat, c: nat, tail: string)
    requires FirstAt(driver, GO_IMPORTS, i) && i + |GO_IMPORTS| <= c <= |driver|
    ensures FirstAt(driver[..c] + tail, GO_IMPORTS, i)
  {
    var code := driver[..c] + tail;
    forall j | 0 <= j <= i ensures IsAt(code, j, GO_IMPORTS) <==> IsAt(driver, j, GO_IMPORTS) {
      assert code[j..j + |GO_IMPORTS|] == driver[j..j + |GO_IMPORTS|];
    }
  }

  // With the import marker first, the imports go there whatever the user's code contains.
  lemma ImportsFirst(driver: string, i: nat, c: nat, user: string, imports: string)
    requires FirstAt(driver, GO_IMPORTS, i) && FirstAt(driver, GO_CODE, c) && i + |GO_IMPORTS| <= c
    ensures Inserted(driver, user, imports) == Placed(driver, i, c, user, imports)
  {
    Replace1At(driver, GO_CODE, user, c);
    var rest := driver[c + |GO_CODE|..];
    var tail := user + rest;
    var code := driver[..c] + tail;
    assert driver[..c] + user + rest == code;
    FirstKept(driver, i, c, tail);
    Replace1At(code, GO_IMPORTS, imports, i);
    assert code[..i] == driver[..i];
    var middle := driver[i + |GO_IMPORTS|..c];
    assert code[i + |GO_IMPORTS|..] == middle + tail;
    var head := driver[..i] + imports;
    assert head + (middle + tail) == head + middle + user + rest;
  }

  // With the code marker first, a user's own import marker is taken instead.
  lemma UserMarkerTaken(driver: string, i: nat, c: nat)
    requires FirstAt(driver, GO_IMPORTS, i) && FirstAt(driver, GO_CODE, c) && c + |GO_CODE| <= i
    ensures Inserted(driver, GO_IMPORTS, "x") != Placed(driver, i, c, GO_IMPORTS, "x")
  {
    MarkerLetters();
    Replace1At(driver, GO_CODE, GO_IMPORTS, c);
    var code := driver[..c] + GO_IMPORTS + driver[c + |GO_CODE|..];
    assert code[c..c + |GO_IMPORTS|] == GO_IMPORTS;
    forall j | 0 <= j < c ensures !IsAt(code, j, GO_IMPORTS) {
      if j + |GO_IMPORTS| <= c {
        assert code[j..j + |GO_IMPORTS|] == driver[j..j + |GO_IMPORTS|];
        assert !IsAt(driver, j, GO_IMPORTS);
      } else {
        IsAtChars(code, j, GO_IMPORTS);
        assert code[c] == GO_IMPORTS[0] && code[c + 1] == GO_IMPORTS[1];
        assert code[j + (c - j)] == '/' && code[j + (c - j) + 1] == '/';
        assert c - j >= 2 ==> GO_IMPORTS[c - j] != '/';
        assert c - j == 1 ==> GO_IMPORTS[c - j + 1] != '/';
      }
    }
    Replace1At(code, GO_IMPORTS, "x", c);
    assert Inserted(driver, GO_IMPORTS, "x")[c] == 'x';
    assert Placed(driver, i, c, GO_IMPORTS, "x")[c] == GO_IMPORTS[0];
  }

  // The driver alone decides where the imports go exactly when its import marker comes first.
  lemma PlacementIndependentIff(driver: string, i: nat, c: nat)
    requires FirstAt(driver, GO_IMPORTS, i) && FirstAt(driver, GO_CODE, c)
    ensures i + |GO_IMPORTS| <= c || c + |GO_CODE| <= i
    ensures (forall user, imports :: Inserted(driver, user, imports) == Placed(driver, i, c, user, imports)) <==> i < c
  {
    MarkersApart(driver, i, c);
    if i < c {
      forall user, imports ensures Inserted(driver, user, imports) == Placed(driver, i, c, user, imports) {
        ImportsFirst(driver, i, c, user, imports);
      }
    } else {
      UserMarkerTaken(driver, i, c);
    }
  }

  // So a Go build that passes sanitizing and parses puts the analyzer's imports and the user's code at the
  // driver's own markers, for every user code.
  lemma GoBuildPlaces(driver: string, user: string, analyzers: map<string, Analyzer>, i: nat, c: nat)
    requires FirstAt(driver, GO_IMPORTS, i) && FirstAt(driver, GO_CODE, c) && i < c
    requires "Golang" in analyzers && analyzers["Golang"](Replace1(driver, GO_CODE, user)).Some?
    ensures i + |GO_IMPORTS| <= c
    ensures Build("Golang", driver, user, true, analyzers)
      == Built(driver[..i] + analyzers["Golang"](Replace1(driver, GO_CODE, user)).value
               + driver[i + |GO_IMPORTS|..c] + user + driver[c + |GO_CODE|..])
  {
    MarkersApart(driver, i, c);
    ImportsFirst(driver, i, c, user, analyzers["Golang"](Replace1(driver, GO_CODE, user)).value);
  }

  // Without an analyzer the code goes to the first code marker and nothing else changes; a driver without one
  // loses the user's code silently.
  lemma PlainBuild(lang: string, driver: string, user: string, analyzers: map<string, Analyzer>, c: nat)
    requires lang !in analyzers
    ensures FirstAt(driver, MarkersOf(lang).code, c) ==>
      Build(lang, driver, user, true, analyzers) == Built(driver[..c] + user + driver[c + |MarkersOf(lang).code|..])
    ensures (forall j :: 0 <= j <= |driver| ==> !IsAt(driver, j, MarkersOf(lang).code)) ==>
      Build(lang, driver, user, true, analyzers) == Built(driver)
  {
    var code := MarkersOf(lang).code;
    if FirstAt(driver, code, c) {
      Replace1At(driver, code, user, c);
    }
    IndexFromIsFirst(driver, code, 0);
  }

  // The three languages' markers, and the outcomes that give no code.
  lemma MarkerTexts(lang: string)
    ensures MarkersOf(lang).code ==
      (if lang == "Python" then "# USER_CODE_HERE"
       else if lang == "Golang" || lang == "Javascript" then "// USER_CODE_HERE" else "")
    ensures MarkersOf(lang).imports == if lang == "Golang" then "// IMPORTS_HERE" else ""
  {
  }

  // A build is refused exactly when the user's code is not sanitary, or when the language has an analyzer and it
  // cannot parse the driver with the user's code in place.
  lemma BuildRefusedIff(lang: string, driver: string, user: string, sanitary: bool, analyzers: map<string, Analyzer>,
                        c: nat)
    requires FirstAt(driver, MarkersOf(lang).code, c)
    ensures Build(lang, driver, user, sanitary, analyzers) == NotSanitary <==> !sanitary
    ensures Build(lang, driver, user, sanitary, analyzers) == WrongSyntax <==>
      && sanitary && lang in analyzers
      && analyzers[lang](driver[..c] + user + driver[c + |MarkersOf(lang).code|..]) == None
  {
    Replace1At(driver, MarkersOf(lang).code, user, c);
  }

  // An analyzer for a language without an import marker puts its imports in front of everything.
  lemma MarkerlessImports(lang: string, driver: string, user: string, analyzers: map<string, Analyzer>, c: nat)
    requires FirstAt(driver, MarkersOf(lang).code, c) && lang != "Golang" && lang in analyzers
    ensures
      var code := driver[..c] + user + driver[c + |MarkersOf(lang).code|..];
      analyzers[lang](code).Some? ==>
        Build(lang, driver, user, true, analyzers) == Built(analyzers[lang](code).value + code)
  {
    var code := driver[..c] + user + driver[c + |MarkersOf(lang).code|..];
    Replace1At(driver, MarkersOf(lang).code, user, c);
    if analyzers[lang](code).Some? {
      var imports := analyzers[lang](code).value;
      Replace1At(code, "", imports, 0);
      assert code[..0] + imports + code[0..] == imports + code;
    }
  }
}
